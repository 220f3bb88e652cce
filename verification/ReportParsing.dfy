/** Validation of report_task_state arguments (src/adapters/task-state-report.ts):
    exactly the encodings of valid reports are accepted, and read back unchanged. */
module ReportParsing {
  import opened Reading
  import opened TaskStateReport

  const TASK_STATE_REPORT_LIST_MAX_ITEMS: nat := 8
  const TASK_STATE_REPORT_ITEM_MAX_CHARS: nat := 400
  const TASK_STATE_REPORT_SOURCE_MAX_ITEMS: nat := 2
  const TASK_STATE_REPORT_SOURCE_QUOTE_MAX_CHARS: nat := 500

  /** A decoded JSON value. */
  datatype Json = Null | Str(text: string) | Arr(items: seq<Json>) | Obj(fields: map<string, Json>) | Other

  datatype Result<T> = Ok(value: T) | Err(reason: InputFailure)

  const SPACES: set<char> := {'\t', '\n', '\U{b}', '\U{c}', '\r', ' ', '\U{a0}', '\U{1680}', '\U{2000}', '\U{2001}', '\U{2002}',
                              '\U{2003}', '\U{2004}', '\U{2005}', '\U{2006}', '\U{2007}', '\U{2008}', '\U{2009}', '\U{200a}',
                              '\U{2028}', '\U{2029}', '\U{202f}', '\U{205f}', '\U{3000}', '\U{feff}'}

  /** Nothing is left after trimming. */
  predicate Blank(s: string) { forall c | c in s :: c in SPACES }

  /** Length in UTF-16 code units. */
  function Length(s: string): nat {
    if s == "" then 0 else Length(s[1..]) + (if s[0] < '\U{10000}' then 1 else 2)
  }

  lemma {:induction false} LengthIs(s: string)
    ensures Length(s) == |Utf16(s)|
    decreases |s|
  {
    if s != "" {
      LengthIs(s[1..]);
    }
  }

  function TrimStart(s: string): string {
    if s != "" && s[0] in SPACES then TrimStart(s[1..]) else s
  }

  lemma {:induction false} BlankIs(s: string)
    ensures Blank(s) <==> TrimStart(s) == ""
    decreases |s|
  {
    if s != "" {
      assert s == [s[0]] + s[1..];
      assert s[0] in s && forall c | c in s :: c == s[0] || c in s[1..];
      BlankIs(s[1..]);
    }
  }

  /** Twenty-six characters of Crockford's alphabet, the first at most 7. */
  predicate IsRequestId(s: string) {
    |s| == 26 && '0' <= s[0] <= '7' && forall c | c in s :: IsIdCharacter(c)
  }

  predicate IsIdCharacter(c: char) {
    '0' <= c <= '9' || ('A' <= c <= 'Z' && c != 'I' && c != 'L' && c != 'O' && c != 'U')
  }

  /** The value of a character in Crockford's base 32. */
  function DigitOf(c: char): Option<nat> {
    if '0' <= c <= '9' then Some(c as nat - '0' as nat)
    else if 'A' <= c <= 'H' then Some(c as nat - 'A' as nat + 10)
    else if 'J' <= c <= 'K' then Some(c as nat - 'J' as nat + 18)
    else if 'M' <= c <= 'N' then Some(c as nat - 'M' as nat + 20)
    else if 'P' <= c <= 'T' then Some(c as nat - 'P' as nat + 22)
    else if 'V' <= c <= 'Z' then Some(c as nat - 'V' as nat + 27)
    else None
  }

  lemma DigitIs(c: char)
    ensures DigitOf(c).Some? <==> IsIdCharacter(c)
    ensures DigitOf(c).Some? ==> DigitOf(c).value < 32 && (DigitOf(c).value < 8 <==> '0' <= c <= '7')
  {
  }

  /** The number a string of such digits names, the first the most significant. */
  function Number(s: string): Option<nat> {
    if s == "" then Some(0)
    else
      var init, last := Number(s[..|s| - 1]), DigitOf(s[|s| - 1]);
      if init.None? || last.None? then None else Some(32 * init.value + last.value)
  }

  function Power32(n: nat): nat { if n == 0 then 1 else 32 * Power32(n - 1) }

  lemma {:induction false} NumberIs(s: string)
    ensures Number(s).Some? <==> forall c | c in s :: IsIdCharacter(c)
    decreases |s|
  {
    hide DigitOf;
    hide IsIdCharacter;
    if s != "" {
      var n := |s| - 1;
      assert s == s[..n] + [s[n]] && s[n] in s && forall c | c in s :: c == s[n] || c in s[..n];
      assert forall c | c in s[..n] :: c in s;
      NumberIs(s[..n]);
      DigitIs(s[n]);
    }
  }

  lemma {:induction false} NumberBounds(s: string)
    requires s != "" && Number(s).Some?
    ensures DigitOf(s[0]).Some?
    ensures DigitOf(s[0]).value * Power32(|s| - 1) <= Number(s).value < (DigitOf(s[0]).value + 1) * Power32(|s| - 1)
    decreases |s|
  {
    hide DigitOf;
    var n := |s| - 1;
    DigitIs(s[n]);
    if n == 0 {
      assert s[..0] == "";
    } else {
      var init := s[..n];
      NumberBounds(init);
      OneMoreDigit(DigitOf(s[0]).value, Power32(n - 1), Number(init).value, DigitOf(s[n]).value);
    }
  }

  lemma OneMoreDigit(d: nat, p: nat, m: nat, digit: nat)
    requires d * p <= m < (d + 1) * p && digit < 32
    ensures d * (32 * p) <= 32 * m + digit < (d + 1) * (32 * p)
  {
    assert d * (32 * p) == 32 * (d * p);
    assert (d + 1) * (32 * p) == 32 * ((d + 1) * p);
    assert m + 1 <= (d + 1) * p;
  }

  /** A request id is the text of a number of 128 bits, in exactly twenty-six digits. */
  lemma RequestIdIs(s: string)
    ensures IsRequestId(s) <==> |s| == 26 && Number(s).Some? && Number(s).value < 0x1_0000_0000_0000_0000_0000_0000_0000_0000
  {
    hide DigitOf;
    hide IsIdCharacter;
    NumberIs(s);
    if |s| == 26 && Number(s).Some? {
      NumberBounds(s);
      DigitIs(s[0]);
      assert Power32(5) == 0x200_0000;
      assert Power32(10) == 0x4_0000_0000_0000;
      assert Power32(15) == 0x800_0000_0000_0000_0000;
      assert Power32(20) == 0x10_0000_0000_0000_0000_0000_0000;
      assert Power32(25) == 0x2000_0000_0000_0000_0000_0000_0000_0000;
    }
  }

  // ------------------------------------------------------------------------ parsing

  function BoundedText(value: Json, maxChars: nat): Result<string> {
    if !value.Str? || Blank(value.text) then Err(MalformedInput)
    else if Length(value.text) > maxChars then Err(OversizedInput)
    else Ok(value.text)
  }

  function Field(value: Json, key: string): Json
    requires value.Obj?
  {
    if key in value.fields then value.fields[key] else Other
  }

  predicate ExactKeys(value: Json, keys: set<string>, required: nat)
    requires value.Obj?
  {
    |value.fields| == required && value.fields.Keys <= keys
  }

  function ParseSource(value: Json): Result<Source> {
    if !value.Obj? || !ExactKeys(value, {"role", "quote"}, 2) || Field(value, "role") !in {Str("user"), Str("assistant")}
    then Err(MalformedInput)
    else
      var quote := BoundedText(Field(value, "quote"), TASK_STATE_REPORT_SOURCE_QUOTE_MAX_CHARS);
      if quote.Err? then Err(quote.reason) else Ok(Source(Field(value, "role") == Str("user"), quote.value))
  }

  function ParseSources(values: seq<Json>): Result<seq<Source>> {
    if values == [] then Ok([])
    else
      var first := ParseSource(values[0]);
      if first.Err? then Err(first.reason)
      else
        var rest := ParseSources(values[1..]);
        if rest.Err? then rest else Ok([first.value] + rest.value)
  }

  function ParseItem(value: Json, mode: Mode): Result<Item> {
    if !value.Obj? || !ExactKeys(value, {"text", "sources"}, if mode == PrecompactManifest then 2 else 1) then Err(MalformedInput)
    else
      var text := BoundedText(Field(value, "text"), TASK_STATE_REPORT_ITEM_MAX_CHARS);
      if text.Err? then Err(text.reason)
      else if mode == PostcompactRetained then Ok(Item(text.value, None))
      else
        var list := Field(value, "sources");
        if !list.Arr? || list.items == [] then Err(MalformedInput)
        else if |list.items| > TASK_STATE_REPORT_SOURCE_MAX_ITEMS then Err(OversizedInput)
        else
          var sources := ParseSources(list.items);
          if sources.Err? then Err(sources.reason) else Ok(Item(text.value, Some(sources.value)))
  }

  function ParseItems(values: seq<Json>, mode: Mode): Result<seq<Item>> {
    if values == [] then Ok([])
    else
      var first := ParseItem(values[0], mode);
      if first.Err? then Err(first.reason)
      else
        var rest := ParseItems(values[1..], mode);
        if rest.Err? then rest else Ok([first.value] + rest.value)
  }

  function ParseList(value: Json, mode: Mode): Result<seq<Item>> {
    if !value.Arr? then Err(MalformedInput)
    else if |value.items| > TASK_STATE_REPORT_LIST_MAX_ITEMS then Err(OversizedInput)
    else ParseItems(value.items, mode)
  }

  function ParseMode(value: Json): Option<Mode> {
    if value == Str("precompact_manifest") then Some(PrecompactManifest)
    else if value == Str("postcompact_retained") then Some(PostcompactRetained)
    else None
  }

  function ParseObjective(value: Json, mode: Mode): Result<Option<Item>> {
    if value.Null? then Ok(None)
    else
      var item := ParseItem(value, mode);
      if item.Err? then Err(item.reason) else Ok(Some(item.value))
  }

  const REPORT_KEYS: set<string> := {"mode", "request_id", "objective", "decisions", "constraints", "pending_items"}

  /** `parseTaskStateReportInput` on a decoded value; `size` is the length of its JSON
      text. */
  function ParseReport(value: Json, size: ReportInput -> nat): Parsed {
    if !value.Obj? || !ExactKeys(value, REPORT_KEYS, 6) || ParseMode(Field(value, "mode")).None? then Incomplete(MalformedInput)
    else if !Field(value, "request_id").Str? || !IsRequestId(Field(value, "request_id").text) then Incomplete(MalformedInput)
    else
      var mode := ParseMode(Field(value, "mode")).value;
      var objective := ParseObjective(Field(value, "objective"), mode);
      if objective.Err? then Incomplete(objective.reason)
      else
        var decisions := ParseList(Field(value, "decisions"), mode);
        if decisions.Err? then Incomplete(decisions.reason)
        else
          var constraints := ParseList(Field(value, "constraints"), mode);
          if constraints.Err? then Incomplete(constraints.reason)
          else
            var pending := ParseList(Field(value, "pending_items"), mode);
            if pending.Err? then Incomplete(pending.reason)
            else if objective.value.None? && (decisions.value != [] || constraints.value != [] || pending.value != [])
            then Incomplete(MalformedInput)
            else
              var input := ReportInput(mode, Field(value, "request_id").text, objective.value, decisions.value, constraints.value,
                                       pending.value);
              if size(input) > TASK_STATE_REPORT_INPUT_MAX_BYTES then Incomplete(OversizedInput) else Complete(input)
  }

  /** Recorded arguments: JSON text, decoded or not decodable, or a value. */
  datatype Raw = JsonText(bytes: nat, decoded: Option<Json>) | Value(value: Json)

  function ParseInput(raw: Raw, size: ReportInput -> nat): Parsed {
    match raw
    case Value(value) => ParseReport(value, size)
    case JsonText(bytes, decoded) =>
      if bytes > TASK_STATE_REPORT_INPUT_MAX_BYTES then Incomplete(OversizedInput)
      else if decoded.None? then Incomplete(MalformedInput)
      else ParseReport(decoded.value, size)
  }

  // ------------------------------------------------------------------- valid reports

  predicate ValidText(s: string, maxChars: nat) { !Blank(s) && Length(s) <= maxChars }

  predicate ValidItem(item: Item, mode: Mode) {
    && ValidText(item.text, TASK_STATE_REPORT_ITEM_MAX_CHARS)
    && (if mode == PostcompactRetained then item.sources.None?
        else && item.sources.Some? && 0 < |item.sources.value| <= TASK_STATE_REPORT_SOURCE_MAX_ITEMS
             && forall source | source in item.sources.value :: ValidText(source.quote, TASK_STATE_REPORT_SOURCE_QUOTE_MAX_CHARS))
  }

  predicate ValidItems(items: seq<Item>, mode: Mode) {
    |items| <= TASK_STATE_REPORT_LIST_MAX_ITEMS && forall item | item in items :: ValidItem(item, mode)
  }

  predicate ValidReport(input: ReportInput, size: ReportInput -> nat) {
    && IsRequestId(input.requestId)
    && (input.objective.Some? ==> ValidItem(input.objective.value, input.mode))
    && ValidItems(input.decisions, input.mode) && ValidItems(input.constraints, input.mode)
    && ValidItems(input.pendingItems, input.mode)
    && (input.objective.None? ==> input.decisions == [] && input.constraints == [] && input.pendingItems == [])
    && size(input) <= TASK_STATE_REPORT_INPUT_MAX_BYTES
  }

  function EncodeSource(source: Source): Json {
    Obj(map["role" := Str(if source.fromUser then "user" else "assistant"), "quote" := Str(source.quote)])
  }

  function EncodeItem(item: Item): Json {
    if item.sources.None? then Obj(map["text" := Str(item.text)])
    else Obj(map["text" := Str(item.text),
                 "sources" := Arr(seq(|item.sources.value|, i requires 0 <= i < |item.sources.value| =>
                                   EncodeSource(item.sources.value[i])))])
  }

  function EncodeItems(items: seq<Item>): Json {
    Arr(seq(|items|, i requires 0 <= i < |items| => EncodeItem(items[i])))
  }

  function EncodeMode(mode: Mode): Json {
    Str(if mode == PrecompactManifest then "precompact_manifest" else "postcompact_retained")
  }

  function Encode(input: ReportInput): Json {
    Obj(map["mode" := EncodeMode(input.mode), "request_id" := Str(input.requestId),
            "objective" := if input.objective.None? then Null else EncodeItem(input.objective.value),
            "decisions" := EncodeItems(input.decisions), "constraints" := EncodeItems(input.constraints),
            "pending_items" := EncodeItems(input.pendingItems)])
  }

  /** A text passes exactly when it is valid, unchanged. */
  lemma TextExact(value: Json, maxChars: nat, text: string)
    ensures BoundedText(value, maxChars) == Ok(text) <==> value == Str(text) && ValidText(text, maxChars)
  {
  }

  lemma FullKeys(fields: map<string, Json>, keys: set<string>)
    requires |fields| == |keys| && fields.Keys <= keys
    ensures fields.Keys == keys
  {
    SameSize(fields.Keys, keys);
  }

  lemma {:induction false} SameSize(a: set<string>, b: set<string>)
    requires a <= b && |a| == |b|
    ensures a == b
  {
    assert b == a + (b - a) && |b| == |a| + |b - a|;
  }

  lemma SourceExact(value: Json, source: Source)
    ensures ParseSource(value) == Ok(source) <==>
              value == EncodeSource(source) && ValidText(source.quote, TASK_STATE_REPORT_SOURCE_QUOTE_MAX_CHARS)
  {
    hide BoundedText;
    hide ValidText;
    if value.Obj? {
      TextExact(Field(value, "quote"), TASK_STATE_REPORT_SOURCE_QUOTE_MAX_CHARS, source.quote);
      if ParseSource(value) == Ok(source) {
        FullKeys(value.fields, {"role", "quote"});
        assert value.fields == EncodeSource(source).fields;
      }
      if value == EncodeSource(source) {
        assert value.fields.Keys == {"role", "quote"};
      }
    }
  }

  lemma {:induction false} SourcesExact(values: seq<Json>, sources: seq<Source>)
    ensures ParseSources(values) == Ok(sources) <==>
              && |values| == |sources|
              && forall k | 0 <= k < |values| ::
                   values[k] == EncodeSource(sources[k]) && ValidText(sources[k].quote, TASK_STATE_REPORT_SOURCE_QUOTE_MAX_CHARS)
    decreases |values|
  {
    hide ParseSource;
    hide EncodeSource;
    hide ValidText;
    if values != [] && sources != [] {
      SourceExact(values[0], sources[0]);
      SourcesExact(values[1..], sources[1..]);
      assert sources == [sources[0]] + sources[1..];
      if |values| == |sources| {
        forall k | 0 <= k < |values| - 1 ensures values[1..][k] == values[k + 1] && sources[1..][k] == sources[k + 1] {
        }
      }
    }
  }

  lemma OnlyKey(fields: map<string, Json>, key: string)
    requires |fields| == 1 && key in fields
    ensures fields.Keys == {key}
  {
    SameSize({key}, fields.Keys);
  }

  /** What an item's encoding holds. */
  lemma EncodedItem(item: Item)
    ensures var value := EncodeItem(item);
            && value.Obj? && "text" in value.fields && value.fields["text"] == Str(item.text)
            && value.fields.Keys == (if item.sources.None? then {"text"} else {"text", "sources"})
            && |value.fields| == (if item.sources.None? then 1 else 2)
            && (item.sources.Some? ==>
                  && value.fields["sources"].Arr? && |value.fields["sources"].items| == |item.sources.value|
                  && forall k | 0 <= k < |item.sources.value| :: value.fields["sources"].items[k] == EncodeSource(item.sources.value[k]))
  {
    hide EncodeSource;
    var value := EncodeItem(item);
    assert value.fields.Keys == if item.sources.None? then {"text"} else {"text", "sources"};
    assert |value.fields| == |value.fields.Keys|;
  }

  lemma ItemAccepted(item: Item, mode: Mode)
    requires ValidItem(item, mode)
    ensures ParseItem(EncodeItem(item), mode) == Ok(item)
  {
    hide EncodeItem;
    hide BoundedText;
    hide ParseSources;
    hide ValidText;
    var value := EncodeItem(item);
    EncodedItem(item);
    TextExact(Field(value, "text"), TASK_STATE_REPORT_ITEM_MAX_CHARS, item.text);
    if item.sources.Some? {
      SourcesExact(value.fields["sources"].items, item.sources.value);
    }
  }

  lemma ItemRead(value: Json, mode: Mode, item: Item)
    requires ParseItem(value, mode) == Ok(item)
    ensures value == EncodeItem(item) && ValidItem(item, mode)
  {
    hide BoundedText;
    hide ParseSources;
    hide ValidText;
    hide EncodeSource;
    TextExact(Field(value, "text"), TASK_STATE_REPORT_ITEM_MAX_CHARS, item.text);
    EncodedItem(item);
    if mode == PostcompactRetained {
      OnlyKey(value.fields, "text");
    } else {
      FullKeys(value.fields, {"text", "sources"});
      var values := value.fields["sources"].items;
      SourcesExact(values, item.sources.value);
      assert values == EncodeItem(item).fields["sources"].items;
      forall source | source in item.sources.value ensures ValidText(source.quote, TASK_STATE_REPORT_SOURCE_QUOTE_MAX_CHARS) {
        var k :| 0 <= k < |item.sources.value| && item.sources.value[k] == source;
        assert values[k] == EncodeSource(item.sources.value[k]);
      }
    }
    assert value.fields == EncodeItem(item).fields;
  }

  lemma ItemExact(value: Json, mode: Mode, item: Item)
    ensures ParseItem(value, mode) == Ok(item) <==> value == EncodeItem(item) && ValidItem(item, mode)
  {
    hide ParseItem;
    hide EncodeItem;
    hide ValidItem;
    if ParseItem(value, mode) == Ok(item) {
      ItemRead(value, mode, item);
    }
    if value == EncodeItem(item) && ValidItem(item, mode) {
      ItemAccepted(item, mode);
    }
  }

  lemma {:induction false} ItemsExact(values: seq<Json>, mode: Mode, items: seq<Item>)
    ensures ParseItems(values, mode) == Ok(items) <==>
              && |values| == |items| && forall k | 0 <= k < |values| :: values[k] == EncodeItem(items[k]) && ValidItem(items[k], mode)
    decreases |values|
  {
    hide ParseItem;
    hide EncodeItem;
    hide ValidItem;
    if values != [] && items != [] {
      ItemExact(values[0], mode, items[0]);
      ItemsExact(values[1..], mode, items[1..]);
      assert items == [items[0]] + items[1..];
      if |values| == |items| {
        forall k | 0 <= k < |values| - 1 ensures values[1..][k] == values[k + 1] && items[1..][k] == items[k + 1] {
        }
      }
    }
  }

  lemma ListExact(value: Json, mode: Mode, items: seq<Item>)
    ensures ParseList(value, mode) == Ok(items) <==> value == EncodeItems(items) && ValidItems(items, mode)
  {
    hide ParseItems;
    hide EncodeItem;
    hide ValidItem;
    if value.Arr? {
      ItemsExact(value.items, mode, items);
      if ParseList(value, mode) == Ok(items) {
        assert value.items == EncodeItems(items).items;
      }
    }
  }

  lemma ObjectiveExact(value: Json, mode: Mode, objective: Option<Item>)
    ensures ParseObjective(value, mode) == Ok(objective) <==>
              && value == (if objective.None? then Null else EncodeItem(objective.value))
              && (objective.Some? ==> ValidItem(objective.value, mode))
  {
    hide ParseItem;
    hide ValidItem;
    if objective.Some? {
      ItemExact(value, mode, objective.value);
    }
  }

  lemma EncodedReport(input: ReportInput)
    ensures var value := Encode(input);
            && value.Obj? && value.fields.Keys == REPORT_KEYS && |value.fields| == 6
            && value.fields["mode"] == EncodeMode(input.mode) && value.fields["request_id"] == Str(input.requestId)
            && value.fields["objective"] == (if input.objective.None? then Null else EncodeItem(input.objective.value))
            && value.fields["decisions"] == EncodeItems(input.decisions)
            && value.fields["constraints"] == EncodeItems(input.constraints)
            && value.fields["pending_items"] == EncodeItems(input.pendingItems)
  {
    hide EncodeItem;
    hide EncodeItems;
    var value := Encode(input);
    assert value.fields.Keys == REPORT_KEYS;
    assert |REPORT_KEYS| == 6;
    assert |value.fields| == |value.fields.Keys|;
  }

  lemma ModeExact(value: Json, mode: Mode)
    ensures ParseMode(value) == Some(mode) <==> value == EncodeMode(mode)
  {
  }

  lemma FieldsExact(value: Json, input: ReportInput)
    requires value.Obj?
    ensures ParseObjective(Field(value, "objective"), input.mode) == Ok(input.objective) <==>
              && Field(value, "objective") == (if input.objective.None? then Null else EncodeItem(input.objective.value))
              && (input.objective.Some? ==> ValidItem(input.objective.value, input.mode))
    ensures ParseList(Field(value, "decisions"), input.mode) == Ok(input.decisions) <==>
              Field(value, "decisions") == EncodeItems(input.decisions) && ValidItems(input.decisions, input.mode)
    ensures ParseList(Field(value, "constraints"), input.mode) == Ok(input.constraints) <==>
              Field(value, "constraints") == EncodeItems(input.constraints) && ValidItems(input.constraints, input.mode)
    ensures ParseList(Field(value, "pending_items"), input.mode) == Ok(input.pendingItems) <==>
              Field(value, "pending_items") == EncodeItems(input.pendingItems) && ValidItems(input.pendingItems, input.mode)
  {
    ObjectiveExact(Field(value, "objective"), input.mode, input.objective);
    ListExact(Field(value, "decisions"), input.mode, input.decisions);
    ListExact(Field(value, "constraints"), input.mode, input.constraints);
    ListExact(Field(value, "pending_items"), input.mode, input.pendingItems);
  }

  lemma ReportRead(value: Json, size: ReportInput -> nat, input: ReportInput)
    requires ParseReport(value, size) == Complete(input)
    ensures value == Encode(input) && ValidReport(input, size)
  {
    hide ParseObjective;
    hide ParseList;
    hide EncodeItem;
    hide EncodeItems;
    hide ValidItem;
    hide ValidItems;
    hide IsRequestId;
    FieldsExact(value, input);
    ModeExact(Field(value, "mode"), input.mode);
    assert |REPORT_KEYS| == 6;
    FullKeys(value.fields, REPORT_KEYS);
    EncodedReport(input);
    assert value.fields == Encode(input).fields;
  }

  lemma ReportAccepted(size: ReportInput -> nat, input: ReportInput)
    requires ValidReport(input, size)
    ensures ParseReport(Encode(input), size) == Complete(input)
  {
    hide ParseObjective;
    hide ParseList;
    hide EncodeItem;
    hide EncodeItems;
    hide ValidItem;
    hide ValidItems;
    hide IsRequestId;
    hide Encode;
    var value := Encode(input);
    EncodedReport(input);
    FieldsExact(value, input);
    ModeExact(Field(value, "mode"), input.mode);
  }

  /** Validation is exact: a value is accepted as a report if and only if it is that
      report's encoding, key for key, and the report is valid. So every valid report
      reads back unchanged, and no two accepted values give the same report. */
  lemma ReportExact(value: Json, size: ReportInput -> nat, input: ReportInput)
    ensures ParseReport(value, size) == Complete(input) <==> value == Encode(input) && ValidReport(input, size)
  {
    hide ParseReport;
    hide Encode;
    hide ValidReport;
    if ParseReport(value, size) == Complete(input) {
      ReportRead(value, size, input);
    }
    if value == Encode(input) && ValidReport(input, size) {
      ReportAccepted(size, input);
    }
  }

  /** Arguments recorded as JSON text are held to the byte bound first. */
  lemma InputExact(raw: Raw, size: ReportInput -> nat, input: ReportInput)
    ensures ParseInput(raw, size) == Complete(input) <==>
              && ValidReport(input, size)
              && (match raw
                  case Value(value) => value == Encode(input)
                  case JsonText(bytes, decoded) => bytes <= TASK_STATE_REPORT_INPUT_MAX_BYTES && decoded == Some(Encode(input)))
    ensures raw.JsonText? && raw.bytes > TASK_STATE_REPORT_INPUT_MAX_BYTES ==> ParseInput(raw, size) == Incomplete(OversizedInput)
    ensures raw.JsonText? && raw.bytes <= TASK_STATE_REPORT_INPUT_MAX_BYTES && raw.decoded.None? ==>
              ParseInput(raw, size) == Incomplete(MalformedInput)
  {
    hide ParseReport;
    hide Encode;
    hide ValidReport;
    match raw
    case Value(value) => ReportExact(value, size, input);
    case JsonText(_, decoded) =>
      if decoded.Some? {
        ReportExact(decoded.value, size, input);
      }
  }

  // ------------------------------------------------------------- why a value is refused

  predicate ShapedItem(item: Item, mode: Mode) {
    && !Blank(item.text)
    && (if mode == PostcompactRetained then item.sources.None?
        else item.sources.Some? && item.sources.value != [] && forall source | source in item.sources.value :: !Blank(source.quote))
  }

  predicate ShapedItems(items: seq<Item>, mode: Mode) {
    forall item | item in items :: ShapedItem(item, mode)
  }

  /** A report that may be too long, but is one. */
  predicate ShapedReport(input: ReportInput) {
    && IsRequestId(input.requestId) && (input.objective.Some? ==> ShapedItem(input.objective.value, input.mode))
    && ShapedItems(input.decisions, input.mode) && ShapedItems(input.constraints, input.mode)
    && ShapedItems(input.pendingItems, input.mode)
    && (input.objective.None? ==> input.decisions == [] && input.constraints == [] && input.pendingItems == [])
  }

  lemma {:induction false} SourcesShaped(values: seq<Json>, sources: seq<Source>)
    requires |values| == |sources| && forall k | 0 <= k < |values| :: values[k] == EncodeSource(sources[k]) && !Blank(sources[k].quote)
    ensures ParseSources(values) != Err(MalformedInput)
    decreases |values|
  {
    hide Blank;
    if values != [] {
      SourceShaped(sources[0]);
      SourcesShaped(values[1..], sources[1..]);
    }
  }

  lemma SourceShaped(source: Source)
    requires !Blank(source.quote)
    ensures ParseSource(EncodeSource(source)) != Err(MalformedInput)
  {
    hide Blank;
    var fields := EncodeSource(source).fields;
    assert fields.Keys == {"role", "quote"} && |fields| == |fields.Keys|;
  }

  lemma ItemShaped(item: Item, mode: Mode)
    requires ShapedItem(item, mode)
    ensures ParseItem(EncodeItem(item), mode) != Err(MalformedInput)
  {
    hide EncodeItem;
    hide EncodeSource;
    hide ParseSources;
    hide Blank;
    hide Length;
    EncodedItem(item);
    if item.sources.Some? {
      SourcesShaped(EncodeItem(item).fields["sources"].items, item.sources.value);
    }
  }

  lemma {:induction false} ItemsShaped(values: seq<Json>, mode: Mode, items: seq<Item>)
    requires |values| == |items| && forall k | 0 <= k < |values| :: values[k] == EncodeItem(items[k]) && ShapedItem(items[k], mode)
    ensures ParseItems(values, mode) != Err(MalformedInput)
    decreases |values|
  {
    hide EncodeItem;
    hide ParseItem;
    hide ShapedItem;
    if values != [] {
      ItemShaped(items[0], mode);
      ItemsShaped(values[1..], mode, items[1..]);
    }
  }

  lemma ListShaped(mode: Mode, items: seq<Item>)
    requires ShapedItems(items, mode)
    ensures ParseList(EncodeItems(items), mode) != Err(MalformedInput)
    ensures items == [] ==> ParseList(EncodeItems(items), mode) == Ok([])
  {
    hide ParseItem;
    hide EncodeItem;
    hide ShapedItem;
    ItemsShaped(EncodeItems(items).items, mode, items);
  }

  /** A report of any length is accepted or refused as too long, never as malformed. */
  lemma ShapedIsMeasured(input: ReportInput, size: ReportInput -> nat)
    requires ShapedReport(input)
    ensures ParseReport(Encode(input), size) == if ValidReport(input, size) then Complete(input) else Incomplete(OversizedInput)
  {
    var mode, value := input.mode, Encode(input);
    assert ParseReport(value, size) != Incomplete(MalformedInput) by {
      hide Encode;
      hide EncodeItems;
      hide EncodeItem;
      hide ParseList;
      hide ParseItem;
      hide ShapedItem;
      hide IsRequestId;
      hide ValidReport;
      EncodedReport(input);
      ModeExact(value.fields["mode"], mode);
      ListShaped(mode, input.decisions);
      ListShaped(mode, input.constraints);
      ListShaped(mode, input.pendingItems);
      if input.objective.Some? {
        ItemShaped(input.objective.value, mode);
        ItemIsObject(input.objective.value);
      }
    }
    hide ParseReport;
    hide ValidReport;
    hide Encode;
    ReportExact(value, size, input);
    if ParseReport(value, size).Complete? {
      ReportExact(value, size, ParseReport(value, size).input);
      EncodingsDiffer(input, ParseReport(value, size).input);
    } else {
      OneReason(ParseReport(value, size).reason);
    }
  }

  lemma OneReason(reason: InputFailure)
    ensures reason == MalformedInput || reason == OversizedInput
  {
  }

  lemma ItemIsObject(item: Item)
    ensures EncodeItem(item).Obj?
  {
  }

  lemma SameItemText(a: Item, b: Item)
    requires EncodeItem(a) == EncodeItem(b)
    ensures a == b
  {
    hide EncodeItem;
    hide EncodeSource;
    EncodedItem(a);
    EncodedItem(b);
    if a.sources.Some? {
      assert b.sources.Some? by { assert "sources" in EncodeItem(b).fields.Keys; }
      var these, those := a.sources.value, b.sources.value;
      forall k | 0 <= k < |these| ensures these[k] == those[k] {
        assert EncodeSource(these[k]) == EncodeSource(those[k]);
        SameSourceText(these[k], those[k]);
      }
      assert these == those;
    } else {
      assert "sources" !in EncodeItem(b).fields.Keys;
    }
  }

  lemma SameSourceText(a: Source, b: Source)
    requires EncodeSource(a) == EncodeSource(b)
    ensures a == b
  {
    assert EncodeSource(a).fields["role"] == EncodeSource(b).fields["role"];
    assert EncodeSource(a).fields["quote"] == EncodeSource(b).fields["quote"];
    assert "user" != "assistant" by { assert |"user"| != |"assistant"|; }
  }

  lemma SameItemsText(a: seq<Item>, b: seq<Item>)
    requires EncodeItems(a) == EncodeItems(b)
    ensures a == b
  {
    hide EncodeItem;
    assert |EncodeItems(a).items| == |a| && |EncodeItems(b).items| == |b|;
    forall k | 0 <= k < |a| ensures a[k] == b[k] {
      assert EncodeItems(a).items[k] == EncodeItems(b).items[k];
      SameItemText(a[k], b[k]);
    }
  }

  /** No two reports have the same encoding. */
  lemma EncodingsDiffer(a: ReportInput, b: ReportInput)
    requires Encode(a) == Encode(b)
    ensures a == b
  {
    hide Encode;
    hide EncodeItem;
    hide EncodeItems;
    EncodedReport(a);
    EncodedReport(b);
    ModeExact(EncodeMode(a.mode), b.mode);
    ModeExact(EncodeMode(a.mode), a.mode);
    SameItemsText(a.decisions, b.decisions);
    SameItemsText(a.constraints, b.constraints);
    SameItemsText(a.pendingItems, b.pendingItems);
    if a.objective.Some? {
      ItemIsObject(a.objective.value);
    }
    if b.objective.Some? {
      ItemIsObject(b.objective.value);
    }
    if a.objective.Some? && b.objective.Some? {
      SameItemText(a.objective.value, b.objective.value);
    }
  }

  predicate WithinText(value: Json, maxChars: nat) { value.Str? ==> Length(value.text) <= maxChars }

  predicate WithinSource(value: Json) {
    value.Obj? ==> WithinText(Field(value, "quote"), TASK_STATE_REPORT_SOURCE_QUOTE_MAX_CHARS)
  }

  predicate WithinItem(value: Json) {
    value.Obj? ==>
      && WithinText(Field(value, "text"), TASK_STATE_REPORT_ITEM_MAX_CHARS)
      && (Field(value, "sources").Arr? ==>
            && |Field(value, "sources").items| <= TASK_STATE_REPORT_SOURCE_MAX_ITEMS
            && forall source | source in Field(value, "sources").items :: WithinSource(source))
  }

  predicate WithinList(value: Json) {
    value.Arr? ==> |value.items| <= TASK_STATE_REPORT_LIST_MAX_ITEMS && forall item | item in value.items :: WithinItem(item)
  }

  /** No text and no list is longer than its bound. */
  predicate WithinReport(value: Json) {
    value.Obj? ==>
      && WithinItem(Field(value, "objective")) && WithinList(Field(value, "decisions"))
      && WithinList(Field(value, "constraints")) && WithinList(Field(value, "pending_items"))
  }

  lemma {:induction false} SourcesWithin(values: seq<Json>)
    requires forall value | value in values :: WithinSource(value)
    ensures ParseSources(values) != Err(OversizedInput)
    decreases |values|
  {
    hide Length;
    hide Blank;
    if values != [] {
      assert values[0] in values;
      SourcesWithin(values[1..]);
    }
  }

  lemma ItemWithin(value: Json, mode: Mode)
    requires WithinItem(value)
    ensures ParseItem(value, mode) != Err(OversizedInput)
  {
    hide Length;
    hide Blank;
    hide WithinSource;
    hide ParseSources;
    if value.Obj? && Field(value, "sources").Arr? {
      SourcesWithin(Field(value, "sources").items);
    }
  }

  lemma {:induction false} ItemsWithin(values: seq<Json>, mode: Mode)
    requires forall value | value in values :: WithinItem(value)
    ensures ParseItems(values, mode) != Err(OversizedInput)
    decreases |values|
  {
    hide WithinItem;
    hide ParseItem;
    if values != [] {
      assert values[0] in values;
      ItemWithin(values[0], mode);
      ItemsWithin(values[1..], mode);
    }
  }

  lemma ListWithin(value: Json, mode: Mode)
    requires WithinList(value)
    ensures ParseList(value, mode) != Err(OversizedInput)
  {
    hide WithinItem;
    hide ParseItems;
    if value.Arr? {
      ItemsWithin(value.items, mode);
    }
  }

  /** A value is refused as too long only when a text or list of it is, or when it
      would have been accepted without the bound on the whole. */
  lemma OversizedIsTooLong(value: Json, size: ReportInput -> nat)
    requires ParseReport(value, size) == Incomplete(OversizedInput) && WithinReport(value)
    ensures ParseReport(value, (input: ReportInput) => 0).Complete?
    ensures size(ParseReport(value, (input: ReportInput) => 0).input) > TASK_STATE_REPORT_INPUT_MAX_BYTES
  {
    hide ParseItem;
    hide ParseList;
    hide WithinItem;
    hide WithinList;
    hide IsRequestId;
    if ParseMode(Field(value, "mode")).Some? {
      var mode := ParseMode(Field(value, "mode")).value;
      ItemWithin(Field(value, "objective"), mode);
      ListWithin(Field(value, "decisions"), mode);
      ListWithin(Field(value, "constraints"), mode);
      ListWithin(Field(value, "pending_items"), mode);
    }
  }
}

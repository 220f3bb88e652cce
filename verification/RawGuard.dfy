/** The raw guard on report input (src/adapters/task-state-report.ts): a search for
    the sentinel in every string and key reachable from the recorded arguments,
    before anything else may reject them. */
module RawGuard {
  import opened Reading
  import opened TaskStateReport
  import opened Correlation

  type Text = seq<CodeUnit>

  /** The opening of the sentinel, "[[elepha:". */
  const OPEN: Text := [0x5b, 0x5b, 0x65, 0x6c, 0x65, 0x70, 0x68, 0x61, 0x3a]

  const BACKSLASH: CodeUnit := 0x5c
  const LETTER_U: CodeUnit := 0x75

  function HexDigit(u: CodeUnit): (digit: Option<nat>)
    ensures digit.Some? ==> digit.value < 16
  {
    if 0x30 <= u <= 0x39 then Some(u - 0x30)
    else if 0x61 <= u <= 0x66 then Some(u - 0x61 + 10)
    else if 0x41 <= u <= 0x46 then Some(u - 0x41 + 10)
    else None
  }

  /** The code unit a \uXXXX escape at the start of `s` names, if there is one. */
  function Escape(s: Text): Option<CodeUnit> {
    if |s| < 6 || s[0] != BACKSLASH || s[1] != LETTER_U then None
    else
      var a, b, c, d := HexDigit(s[2]), HexDigit(s[3]), HexDigit(s[4]), HexDigit(s[5]);
      if a.None? || b.None? || c.None? || d.None? then None
      else Some(4096 * a.value + 256 * b.value + 16 * c.value + d.value)
  }

  /** The opening is the sentinel's, letter by letter. */
  lemma OpeningIs()
    ensures |OPEN| == |"[[elepha:"| && forall k | 0 <= k < |OPEN| :: OPEN[k] == "[[elepha:"[k] as int
  {
  }

  /** A hexadecimal digit as text. */
  function DigitText(digit: nat, upper: bool): CodeUnit
    requires digit < 16
  {
    if digit < 10 then 0x30 + digit else (if upper then 0x41 else 0x61) + digit - 10
  }

  function EscapeText(u: CodeUnit, upper: seq<bool>): Text
    requires |upper| == 4
  {
    [BACKSLASH, LETTER_U, DigitText(u / 0x1000, upper[0]), DigitText(u / 0x100 % 0x10, upper[1]),
     DigitText(u / 0x10 % 0x10, upper[2]), DigitText(u % 0x10, upper[3])]
  }

  /** Exactly the sixteen digits are read, in either case ... */
  lemma DigitsRead(u: CodeUnit, digit: nat)
    requires digit < 16
    ensures HexDigit(u) == Some(digit) <==> u == DigitText(digit, true) || u == DigitText(digit, false)
  {
  }

  /** ... and an escape names the unit it was written for. */
  lemma EscapesAreRead(u: CodeUnit, upper: seq<bool>, rest: Text)
    requires |upper| == 4
    ensures Escape(EscapeText(u, upper) + rest) == Some(u)
  {
    hide HexDigit;
    hide DigitText;
    var s := EscapeText(u, upper) + rest;
    assert s[..6] == EscapeText(u, upper);
    DigitsRead(s[2], u / 0x1000);
    DigitsRead(s[3], u / 0x100 % 0x10);
    DigitsRead(s[4], u / 0x10 % 0x10);
    DigitsRead(s[5], u % 0x10);
    UnitDigits(u);
  }

  lemma UnitDigits(u: CodeUnit)
    ensures u == 4096 * (u / 0x1000) + 256 * (u / 0x100 % 0x10) + 16 * (u / 0x10 % 0x10) + u % 0x10
  {
    assert u / 0x100 == 16 * (u / 0x1000) + u / 0x100 % 0x10;
    assert u / 0x10 == 16 * (u / 0x100) + u / 0x10 % 0x10;
  }

  /** The text with every \uXXXX escape replaced by the unit it names. */
  function Decoded(s: Text): Text {
    if s == [] then []
    else if Escape(s).Some? then [Escape(s).value] + Decoded(s[6..])
    else [s[0]] + Decoded(s[1..])
  }

  ghost predicate Occurs(pattern: Text, text: Text) {
    exists i: nat :: OccursAt(pattern, text, i)
  }

  predicate OccursAt(pattern: Text, text: Text, i: nat) {
    i + |pattern| <= |text| && text[i..i + |pattern|] == pattern
  }

  ghost predicate HoldsSentinel(s: Text) { Occurs(OPEN, Decoded(s)) }

  function Tail(s: Text, n: nat): Text {
    if |s| <= n then s else s[|s| - n..]
  }

  lemma TailMore(s: Text, u: CodeUnit, n: nat)
    requires n > 0
    ensures Tail(Tail(s, n) + [u], n) == Tail(s + [u], n)
  {
  }

  /** One more unit: the pattern occurs when it did before or now ends the text. */
  lemma OccursMore(pattern: Text, text: Text, u: CodeUnit)
    requires pattern != []
    ensures Occurs(pattern, text + [u]) <==> Occurs(pattern, text) || Tail(text + [u], |pattern|) == pattern
  {
    var more := text + [u];
    if Occurs(pattern, text) {
      var i: nat :| OccursAt(pattern, text, i);
      assert more[i..i + |pattern|] == text[i..i + |pattern|];
      assert OccursAt(pattern, more, i);
    }
    if Tail(more, |pattern|) == pattern {
      assert OccursAt(pattern, more, |more| - |pattern|);
    }
    if Occurs(pattern, more) {
      var i: nat :| OccursAt(pattern, more, i);
      if i + |pattern| <= |text| {
        assert text[i..i + |pattern|] == more[i..i + |pattern|];
        assert OccursAt(pattern, text, i);
      }
    }
  }

  lemma OccursLater(pattern: Text, text: Text, more: Text)
    requires Occurs(pattern, text)
    ensures Occurs(pattern, text + more)
  {
    var i: nat :| OccursAt(pattern, text, i);
    assert (text + more)[i..i + |pattern|] == text[i..i + |pattern|];
    assert OccursAt(pattern, text + more, i);
  }

  /** `stringContainsReportSentinel`: the rolling window decides exactly whether the
      decoded text holds the sentinel. */
  method StringContainsReportSentinel(value: Text) returns (found: bool)
    ensures found <==> HoldsSentinel(value)
  {
    hide Occurs;
    hide Tail;
    hide Escape;
    var window: Text, index := [], 0;
    ghost var done: Text := [];
    assert !Occurs(OPEN, []) by { NeverInNothing(); }
    assert Tail([], |OPEN|) == [] by { TailOfNothing(); }
    while index < |value|
      invariant index <= |value| && Decoded(value) == done + Decoded(value[index..])
      invariant window == Tail(done, |OPEN|) && !Occurs(OPEN, done)
    {
      var escape := Escape(value[index..]);
      var character := if escape.Some? then escape.value else value[index];
      EscapeIsLong(value[index..]);
      var step := if escape.Some? then 6 else 1;
      assert value[index..][step..] == value[index + step..];
      assert done + ([character] + Decoded(value[index + step..])) == done + [character] + Decoded(value[index + step..]);
      TailMore(done, character, |OPEN|);
      OccursMore(OPEN, done, character);
      index := index + step;
      done := done + [character];
      window := Tail(window + [character], |OPEN|);
      if window == OPEN {
        OccursLater(OPEN, done, Decoded(value[index..]));
        return true;
      }
    }
    assert done + [] == done;
    found := false;
  }

  lemma EscapeIsLong(s: Text)
    ensures Escape(s).Some? ==> |s| >= 6
  {
  }

  lemma NeverInNothing()
    ensures !Occurs(OPEN, [])
  {
  }

  lemma TailOfNothing()
    ensures Tail([], |OPEN|) == []
  {
  }

  lemma {:induction false} DecodedPlain(plain: Text, rest: Text)
    requires BACKSLASH !in plain
    ensures Decoded(plain + rest) == plain + Decoded(rest)
    decreases |plain|
  {
    if plain == [] {
      assert plain + rest == rest;
    } else {
      assert (plain + rest)[1..] == plain[1..] + rest;
      DecodedPlain(plain[1..], rest);
    }
  }

  lemma OccursBehind(pattern: Text, first: CodeUnit, text: Text)
    requires Occurs(pattern, text)
    ensures Occurs(pattern, [first] + text)
  {
    var i: nat :| OccursAt(pattern, text, i);
    assert ([first] + text)[i + 1..i + 1 + |pattern|] == text[i..i + |pattern|];
    assert OccursAt(pattern, [first] + text, i + 1);
  }

  /** No escape reaches into the sentinel's opening, so one written plainly is found
      too, whatever escapes stand around it. */
  lemma {:induction false} PlainSentinelIsFound(s: Text, i: nat)
    requires OccursAt(OPEN, s, i)
    ensures HoldsSentinel(s)
    decreases |s|
  {
    if i == 0 {
      assert s == OPEN + s[|OPEN|..];
      DecodedPlain(OPEN, s[|OPEN|..]);
      assert OccursAt(OPEN, Decoded(s), 0);
    } else {
      assert s[i] == OPEN[0] by { assert s[i..i + |OPEN|][0] == OPEN[0]; }
      EscapeIsLong(s);
      var step := if Escape(s).Some? then 6 else 1;
      assert step <= i;
      assert s[step..][i - step..i - step + |OPEN|] == s[i..i + |OPEN|];
      PlainSentinelIsFound(s[step..], i - step);
      OccursBehind(OPEN, Decoded(s)[0], Decoded(s[step..]));
    }
  }

  // ------------------------------------------------------ arguments recorded as JSON

  const QUOTE: CodeUnit := 0x22

  /** What the two-character escapes of a JSON string name. */
  function ShortEscape(u: CodeUnit): Option<CodeUnit> {
    if u == QUOTE || u == BACKSLASH || u == 0x2f then Some(u)
    else if u == 0x62 then Some(0x08)
    else if u == 0x66 then Some(0x0c)
    else if u == 0x6e then Some(0x0a)
    else if u == 0x72 then Some(0x0d)
    else if u == 0x74 then Some(0x09)
    else None
  }

  /** The string a JSON literal stands for, by what is between its quotes. */
  function Unescaped(raw: Text): Option<Text> {
    if raw == [] then Some([])
    else if raw[0] == BACKSLASH then
      if Escape(raw).Some? then Behind(Escape(raw).value, Unescaped(raw[6..]))
      else if |raw| > 1 && ShortEscape(raw[1]).Some? then Behind(ShortEscape(raw[1]).value, Unescaped(raw[2..]))
      else None
    else if raw[0] == QUOTE || raw[0] < 0x20 then None
    else Behind(raw[0], Unescaped(raw[1..]))
  }

  function Behind(u: CodeUnit, rest: Option<Text>): Option<Text> {
    if rest.None? then None else Some([u] + rest.value)
  }

  /** How many units of a literal its first character takes. */
  function FirstStep(raw: Text): nat
    requires raw != [] && Unescaped(raw).Some?
  {
    if raw[0] != BACKSLASH then 1 else if Escape(raw).Some? then 6 else 2
  }

  /** No escape runs over into what begins with none of the units it is made of. */
  lemma {:induction false} DecodedJoin(a: Text, b: Text)
    requires b != [] && b[0] != LETTER_U && HexDigit(b[0]).None?
    ensures Decoded(a + b) == Decoded(a) + Decoded(b)
    decreases |a|
  {
    if a == [] {
      assert a + b == b;
    } else {
      EscapeWithin(a, b);
      EscapeIsLong(a);
      var step := if Escape(a).Some? then 6 else 1;
      assert (a + b)[step..] == a[step..] + b;
      DecodedJoin(a[step..], b);
    }
  }

  lemma EscapeWithin(a: Text, b: Text)
    requires a != [] && b != [] && b[0] != LETTER_U && HexDigit(b[0]).None?
    ensures Escape(a + b) == Escape(a)
  {
    assert |a| < |a + b| ==> (a + b)[|a|] == b[0];
  }

  lemma EscapePrefix(a: Text, b: Text)
    requires Escape(a).Some?
    ensures Escape(a + b) == Escape(a)
  {
  }

  /** A literal whose string begins with the opening from its `k`-th unit on decodes to
      the same, whatever comes behind it. */
  lemma {:induction false} OpeningDecodes(raw: Text, rest: Text, k: nat)
    requires k <= |OPEN| && Unescaped(raw).Some? && OPEN[k..] <= Unescaped(raw).value
    ensures OPEN[k..] <= Decoded(raw + rest)
    decreases |OPEN| - k
  {
    hide Escape;
    if k < |OPEN| {
      var value := Unescaped(raw).value;
      assert value[0] == OPEN[k..][0] == OPEN[k];
      assert raw != [];
      EscapeIsLong(raw);
      var step := FirstStep(raw);
      assert step != 2 by { OpeningIsNotShort(k); }
      assert value[1..] == Unescaped(raw[step..]).value;
      assert OPEN[k..][1..] == OPEN[k + 1..];
      OpeningDecodes(raw[step..], rest, k + 1);
      assert (raw + rest)[step..] == raw[step..] + rest;
      if step == 6 {
        EscapePrefix(raw, rest);
      } else {
        NoEscapeHere(raw + rest);
      }
    }
  }

  lemma NoEscapeHere(s: Text)
    requires s != [] && s[0] != BACKSLASH
    ensures Escape(s).None?
  {
  }

  lemma OpeningIsNotShort(k: nat)
    requires k < |OPEN|
    ensures forall u :: ShortEscape(u) != Some(OPEN[k])
  {
  }

  /** Where in a literal the `i`-th unit of its string begins. */
  lemma {:induction false} UnitBegins(raw: Text, i: nat) returns (p: nat)
    requires Unescaped(raw).Some? && i <= |Unescaped(raw).value|
    ensures p <= |raw| && Unescaped(raw[p..]) == Some(Unescaped(raw).value[i..])
    decreases |raw|
  {
    hide Escape;
    if i == 0 {
      p := 0;
      assert raw[0..] == raw;
    } else {
      EscapeIsLong(raw);
      var step := FirstStep(raw);
      var later := Unescaped(raw[step..]).value;
      assert Unescaped(raw).value[1..] == later;
      assert Unescaped(raw).value[i..] == later[i - 1..];
      var q := UnitBegins(raw[step..], i - 1);
      p := step + q;
      assert raw[step..][q..] == raw[p..];
    }
  }

  lemma FirstUnit(raw: Text)
    requires Unescaped(raw).Some? && OPEN <= Unescaped(raw).value
    ensures raw != [] && (raw[0] == OPEN[0] || raw[0] == BACKSLASH)
  {
  }

  /** Arguments recorded as JSON text are scanned as text, undecoded. That is enough: a
      string or key in it that holds the sentinel, however it is escaped there, is found. */
  lemma SentinelInJsonIsFound(before: Text, raw: Text, after: Text)
    requires Unescaped(raw).Some? && Occurs(OPEN, Unescaped(raw).value)
    ensures HoldsSentinel(before + [QUOTE] + raw + [QUOTE] + after)
  {
    hide Unescaped;
    hide Decoded;
    var value := Unescaped(raw).value;
    var i: nat :| OccursAt(OPEN, value, i);
    var p := UnitBegins(raw, i);
    assert OPEN <= value[i..] by { assert value[i..][..|OPEN|] == value[i..i + |OPEN|]; }
    FirstUnit(raw[p..]);
    OpeningDecodes(raw[p..], [QUOTE] + after, 0);
    assert OPEN[0..] == OPEN;
    var head, tail := before + [QUOTE] + raw[..p], raw[p..] + ([QUOTE] + after);
    DecodedJoin(head, tail);
    assert before + [QUOTE] + raw + [QUOTE] + after == head + tail by { assert raw == raw[..p] + raw[p..]; }
    assert (Decoded(head) + Decoded(tail))[|Decoded(head)|..|Decoded(head)| + |OPEN|] == OPEN;
    assert OccursAt(OPEN, Decoded(head + tail), |Decoded(head)|);
  }

  /** Bytes of the text in UTF-8: a surrogate pair takes four, a lone one three. */
  function ByteLength(s: Text): nat {
    if s == [] then 0
    else if s[0] < 0x80 then 1 + ByteLength(s[1..])
    else if s[0] < 0x800 then 2 + ByteLength(s[1..])
    else if |s| > 1 && 0xd800 <= s[0] < 0xdc00 && 0xdc00 <= s[1] < 0xe000 then 4 + ByteLength(s[2..])
    else 3 + ByteLength(s[1..])
  }

  /** For any string these are its bytes in UTF-8. */
  lemma {:induction false} BytesOfString(s: string)
    ensures ByteLength(Utf16(s)) == Utf8Length(s)
    decreases |s|
  {
    if s != "" {
      assert s == [s[0]] + s[1..];
      Utf8Append([s[0]], s[1..]);
      assert [s[0]][..0] == "";
      BytesOfString(s[1..]);
      var c, rest := s[0] as nat, Utf16(s[1..]);
      if c < 0x1_0000 {
        assert ([c] + rest)[1..] == rest;
        NoSurrogate(s[0]);
      } else {
        var pair: Text := [0xd800 + (c - 0x1_0000) / 0x400, 0xdc00 + (c - 0x1_0000) % 0x400];
        assert (pair + rest)[2..] == rest;
      }
    }
  }

  lemma NoSurrogate(c: char)
    ensures !(0xd800 <= c as nat < 0xe000)
  {
  }

  // --------------------------------------------------------------------- the graph

  /** A recorded value: a string, an object or array, or anything else. Objects may
      share parts and may be cyclic. */
  datatype Value = Str(text: Text) | Ref(node: nat) | Scalar

  datatype Node = Node(isArray: bool, entries: seq<(Text, Value)>)

  type Heap = nat -> Node

  /** The value a path of entry positions leads to. */
  function At(heap: Heap, root: Value, path: seq<nat>): Option<Value> {
    if path == [] then Some(root)
    else
      var parent := At(heap, root, path[..|path| - 1]);
      if parent.None? || !parent.value.Ref? || path[|path| - 1] >= |heap(parent.value.node).entries| then None
      else Some(heap(parent.value.node).entries[path[|path| - 1]].1)
  }

  ghost predicate Reachable(heap: Heap, root: Value, value: Value) {
    exists path :: At(heap, root, path) == Some(value)
  }

  /** A string or key of a value reached holds the sentinel. */
  ghost predicate Marked(heap: Heap, value: Value) {
    match value
    case Str(text) => HoldsSentinel(text)
    case Ref(node) => exists k :: 0 <= k < |heap(node).entries| && HoldsSentinel(heap(node).entries[k].0)
    case Scalar => false
  }

  ghost predicate SentinelReachable(heap: Heap, root: Value) {
    exists value :: Reachable(heap, root, value) && Marked(heap, value)
  }

  /** A value the walk is done with, or has still to take. */
  ghost predicate Covered(heap: Heap, value: Value, pending: seq<Value>, seen: set<nat>) {
    value in pending || (if value.Ref? then value.node in seen else !Marked(heap, value))
  }

  /** Every entry of a node, up to the `k`-th, is covered and its key clean. */
  ghost predicate EntriesCovered(heap: Heap, node: nat, k: nat, pending: seq<Value>, seen: set<nat>) {
    forall j | 0 <= j < k && j < |heap(node).entries| ::
      Covered(heap, heap(node).entries[j].1, pending, seen) && !HoldsSentinel(heap(node).entries[j].0)
  }

  lemma EntryReachable(heap: Heap, root: Value, node: nat, k: nat)
    requires Reachable(heap, root, Ref(node)) && k < |heap(node).entries|
    ensures Reachable(heap, root, heap(node).entries[k].1)
  {
    var path :| At(heap, root, path) == Some(Ref(node));
    var longer := path + [k];
    assert longer[..|longer| - 1] == path;
    assert At(heap, root, longer) == Some(heap(node).entries[k].1);
  }

  /** With nothing pending, what is covered is closed under reaching. */
  lemma {:induction false} ReachedIsCovered(heap: Heap, root: Value, seen: set<nat>, path: seq<nat>)
    requires Covered(heap, root, [], seen)
    requires forall node | node in seen :: EntriesCovered(heap, node, |heap(node).entries|, [], seen)
    ensures At(heap, root, path).Some? ==> Covered(heap, At(heap, root, path).value, [], seen)
    decreases |path|
  {
    if path != [] {
      ReachedIsCovered(heap, root, seen, path[..|path| - 1]);
    }
  }

  lemma NothingMarked(heap: Heap, root: Value, seen: set<nat>)
    requires Covered(heap, root, [], seen)
    requires forall node | node in seen :: EntriesCovered(heap, node, |heap(node).entries|, [], seen)
    ensures !SentinelReachable(heap, root)
  {
    forall value | Reachable(heap, root, value) ensures !Marked(heap, value) {
      var path :| At(heap, root, path) == Some(value);
      ReachedIsCovered(heap, root, seen, path);
    }
  }

  /** What the walk holds between two values. */
  ghost predicate Walking(heap: Heap, root: Value, pending: seq<Value>, seen: set<nat>) {
    && Covered(heap, root, pending, seen)
    && (forall node | node in seen :: EntriesCovered(heap, node, |heap(node).entries|, pending, seen))
    && (forall value | value in pending :: Reachable(heap, root, value))
  }

  /** The same while the entries of `node`, seen last, are taken one by one. */
  ghost predicate Opening(heap: Heap, root: Value, pending: seq<Value>, seen: set<nat>, node: nat, k: nat) {
    && node in seen && Reachable(heap, root, Ref(node)) && Covered(heap, root, pending, seen)
    && (forall other | other in seen && other != node :: EntriesCovered(heap, other, |heap(other).entries|, pending, seen))
    && EntriesCovered(heap, node, k, pending, seen)
    && (forall value | value in pending :: Reachable(heap, root, value))
  }

  /** Taking the last pending value, and seeing it when it is an object, uncovers
      nothing. */
  lemma Popped(heap: Heap, value: Value, pending: seq<Value>, seen: set<nat>)
    requires pending != [] && Covered(heap, value, pending, seen)
    requires var current := pending[|pending| - 1]; !current.Ref? ==> !Marked(heap, current)
    ensures var current := pending[|pending| - 1];
            Covered(heap, value, pending[..|pending| - 1], if current.Ref? then seen + {current.node} else seen)
  {
    hide Marked;
    assert pending == pending[..|pending| - 1] + [pending[|pending| - 1]];
  }

  lemma PopKeeps(heap: Heap, root: Value, pending: seq<Value>, seen: set<nat>)
    requires pending != [] && Walking(heap, root, pending, seen)
    requires var current := pending[|pending| - 1]; if current.Ref? then current.node in seen else !Marked(heap, current)
    ensures Walking(heap, root, pending[..|pending| - 1], seen)
  {
    hide Marked;
    hide Covered;
    hide HoldsSentinel;
    hide Reachable;
    var current, less := pending[|pending| - 1], pending[..|pending| - 1];
    assert current.Ref? ==> seen + {current.node} == seen;
    forall value | Covered(heap, value, pending, seen) ensures Covered(heap, value, less, seen) {
      Popped(heap, value, pending, seen);
    }
  }

  lemma PopOpens(heap: Heap, root: Value, pending: seq<Value>, seen: set<nat>)
    requires pending != [] && Walking(heap, root, pending, seen) && pending[|pending| - 1].Ref?
    ensures var node := pending[|pending| - 1].node;
            node !in seen ==> Opening(heap, root, pending[..|pending| - 1], seen + {node}, node, 0)
  {
    hide Marked;
    hide Covered;
    hide HoldsSentinel;
    hide Reachable;
    var current, less := pending[|pending| - 1], pending[..|pending| - 1];
    forall value | Covered(heap, value, pending, seen) ensures Covered(heap, value, less, seen + {current.node}) {
      Popped(heap, value, pending, seen);
    }
  }

  lemma PushKeeps(heap: Heap, root: Value, pending: seq<Value>, seen: set<nat>, node: nat, k: nat)
    requires Opening(heap, root, pending, seen, node, k) && k < |heap(node).entries| && !HoldsSentinel(heap(node).entries[k].0)
    ensures Opening(heap, root, pending + [heap(node).entries[k].1], seen, node, k + 1)
  {
    hide HoldsSentinel;
    hide Marked;
    hide Reachable;
    EntryReachable(heap, root, node, k);
    var more := pending + [heap(node).entries[k].1];
    forall value | Covered(heap, value, pending, seen) ensures Covered(heap, value, more, seen) {
    }
    assert Covered(heap, heap(node).entries[k].1, more, seen);
  }

  // ------------------------------------------------------------- room for a decision

  function ValueCost(value: Value): nat {
    1 + if value.Str? then ByteLength(value.text) else 0
  }

  function PendingCost(pending: seq<Value>): nat {
    if pending == [] then 0 else PendingCost(pending[..|pending| - 1]) + ValueCost(pending[|pending| - 1])
  }

  /** The entries of a node from the `k`-th on: their keys' bytes and their values. */
  function EntriesCost(entries: seq<(Text, Value)>, k: nat): nat
    decreases |entries| - k
  {
    if k >= |entries| then 0 else ByteLength(entries[k].0) + ValueCost(entries[k].1) + EntriesCost(entries, k + 1)
  }

  /** The entries of those nodes that are not seen yet. */
  function UnseenCost(heap: Heap, nodes: seq<nat>, seen: set<nat>): nat {
    if nodes == [] then 0
    else (if nodes[0] in seen then 0 else EntriesCost(heap(nodes[0]).entries, 0)) + UnseenCost(heap, nodes[1..], seen)
  }

  ghost predicate Distinct(nodes: seq<nat>) {
    forall i, j | 0 <= i < j < |nodes| :: nodes[i] != nodes[j]
  }

  /** `nodes` are all there are to reach from the value, each once. */
  ghost predicate Closed(heap: Heap, value: Value, nodes: seq<nat>) {
    && Distinct(nodes) && (value.Ref? ==> value.node in nodes)
    && forall node, k | node in nodes && 0 <= k < |heap(node).entries| && heap(node).entries[k].1.Ref? ::
         heap(node).entries[k].1.node in nodes
  }

  /** Everything reachable, a byte a value and every key and string in full, is within
      the bound. */
  ghost predicate Roomy(heap: Heap, value: Value, nodes: seq<nat>) {
    Closed(heap, value, nodes) && ValueCost(value) + UnseenCost(heap, nodes, {}) <= TASK_STATE_REPORT_INPUT_MAX_BYTES
  }

  lemma {:induction false} BytesAtLeastUnits(s: Text)
    ensures |s| <= ByteLength(s)
    decreases |s|
  {
    if s != [] {
      BytesAtLeastUnits(s[1..]);
      if |s| > 1 { BytesAtLeastUnits(s[2..]); }
    }
  }

  lemma {:induction false} SeenCostsNothing(heap: Heap, nodes: seq<nat>, seen: set<nat>, node: nat)
    requires node !in nodes
    ensures UnseenCost(heap, nodes, seen + {node}) == UnseenCost(heap, nodes, seen)
  {
    if nodes != [] {
      SeenCostsNothing(heap, nodes[1..], seen, node);
    }
  }

  lemma {:induction false} SeeingMoves(heap: Heap, nodes: seq<nat>, seen: set<nat>, node: nat)
    requires Distinct(nodes) && node in nodes && node !in seen
    ensures UnseenCost(heap, nodes, seen) == EntriesCost(heap(node).entries, 0) + UnseenCost(heap, nodes, seen + {node})
  {
    if nodes[0] == node {
      SeenCostsNothing(heap, nodes[1..], seen, node);
    } else {
      SeeingMoves(heap, nodes[1..], seen, node);
    }
  }

  lemma PendingSnoc(pending: seq<Value>, value: Value)
    ensures PendingCost(pending + [value]) == PendingCost(pending) + ValueCost(value)
  {
    assert (pending + [value])[..|pending|] == pending;
  }

  lemma {:induction false} PendingAtLeast(pending: seq<Value>)
    ensures |pending| <= PendingCost(pending)
    decreases |pending|
  {
    if pending != [] {
      PendingAtLeast(pending[..|pending| - 1]);
    }
  }

  /** What the walk has spent and has still to spend, when there is room. */
  ghost predicate Spending(heap: Heap, root: Value, nodes: seq<nat>, pending: seq<Value>, seen: set<nat>, bytes: nat) {
    Roomy(heap, root, nodes) ==>
      && bytes + PendingCost(pending) + UnseenCost(heap, nodes, seen) <= TASK_STATE_REPORT_INPUT_MAX_BYTES
      && forall value | value in pending :: value.Ref? ==> value.node in nodes
  }

  /** The same with the entries of a node from the `k`-th on still to take. */
  ghost predicate SpendingAt(heap: Heap, root: Value, nodes: seq<nat>, pending: seq<Value>, seen: set<nat>, bytes: nat, node: nat, k: nat) {
    Roomy(heap, root, nodes) ==>
      && node in nodes
      && bytes + PendingCost(pending) + EntriesCost(heap(node).entries, k)
           + UnseenCost(heap, nodes, seen) <= TASK_STATE_REPORT_INPUT_MAX_BYTES
      && forall value | value in pending :: value.Ref? ==> value.node in nodes
  }

  lemma SpendKey(heap: Heap, root: Value, nodes: seq<nat>, pending: seq<Value>, seen: set<nat>, bytes: nat, node: nat, k: nat, paid: nat)
    requires SpendingAt(heap, root, nodes, pending, seen, bytes, node, k) && k < |heap(node).entries|
    requires paid <= ByteLength(heap(node).entries[k].0)
    ensures Roomy(heap, root, nodes) ==> |heap(node).entries[k].0| + bytes <= TASK_STATE_REPORT_INPUT_MAX_BYTES
    ensures Roomy(heap, root, nodes) ==> bytes + paid + |pending| + 1 <= TASK_STATE_REPORT_INPUT_MAX_BYTES
    ensures SpendingAt(heap, root, nodes, pending + [heap(node).entries[k].1], seen, bytes + paid, node, k + 1)
  {
    hide ByteLength;
    BytesAtLeastUnits(heap(node).entries[k].0);
    PendingSnoc(pending, heap(node).entries[k].1);
    PendingAtLeast(pending);
  }

  lemma SpendNode(heap: Heap, root: Value, nodes: seq<nat>, pending: seq<Value>, seen: set<nat>, bytes: nat)
    requires Spending(heap, root, nodes, pending, seen, bytes) && pending != []
    ensures var current, less := pending[|pending| - 1], pending[..|pending| - 1];
            && (Roomy(heap, root, nodes) ==> bytes + ValueCost(current) <= TASK_STATE_REPORT_INPUT_MAX_BYTES)
            && Spending(heap, root, nodes, less, seen, bytes + ValueCost(current))
            && (current.Ref? && current.node !in seen ==>
                  SpendingAt(heap, root, nodes, less, seen + {current.node}, bytes + 1, current.node, 0))
  {
    hide ByteLength;
    hide EntriesCost;
    hide UnseenCost;
    hide Distinct;
    var current := pending[|pending| - 1];
    if Roomy(heap, root, nodes) && current.Ref? && current.node !in seen {
      assert current in pending;
      SeeingMoves(heap, nodes, seen, current.node);
    }
  }

  lemma SpendingBegins(heap: Heap, root: Value, nodes: seq<nat>)
    ensures Spending(heap, root, nodes, [root], {}, 0)
  {
    PendingSnoc([], root);
    assert [] + [root] == [root];
  }

  /** The entries of one object: keys scanned, values put off. */
  method TakeEntries(heap: Heap, ghost root: Value, ghost nodes: seq<nat>, node: nat, pending0: seq<Value>, ghost seen: set<nat>,
                     visited: nat, bytes0: nat)
    returns (stop: Option<Guard>, pending: seq<Value>, bytes: nat)
    requires Opening(heap, root, pending0, seen, node, 0) && visited <= bytes0 <= TASK_STATE_REPORT_INPUT_MAX_BYTES
    requires SpendingAt(heap, root, nodes, pending0, seen, bytes0, node, 0)
    ensures stop == Some(ScanIncomplete) ==> !Roomy(heap, root, nodes)
    ensures stop.None? ==> Spending(heap, root, nodes, pending, seen, bytes)
    ensures stop.None? ==> Walking(heap, root, pending, seen) && visited <= bytes <= TASK_STATE_REPORT_INPUT_MAX_BYTES
    ensures stop == Some(Sentinel) ==> SentinelReachable(heap, root)
  {
    hide Opening;
    hide HoldsSentinel;
    hide SpendingAt;
    hide Roomy;
    hide ByteLength;
    pending, bytes := pending0, bytes0;
    var entries, k := heap(node).entries, 0;
    while k < |entries|
      invariant k <= |entries| && SpendingAt(heap, root, nodes, pending, seen, bytes, node, k)
      invariant visited <= bytes <= TASK_STATE_REPORT_INPUT_MAX_BYTES && Opening(heap, root, pending, seen, node, k)
    {
      var key := entries[k].0;
      SpendKey(heap, root, nodes, pending, seen, bytes, node, k, if heap(node).isArray then 0 else ByteLength(key));
      if |key| > TASK_STATE_REPORT_INPUT_MAX_BYTES - bytes {
        return Some(ScanIncomplete), pending, bytes;
      }
      if !heap(node).isArray {
        var longer := bytes + ByteLength(key);
        if longer > TASK_STATE_REPORT_INPUT_MAX_BYTES {
          return Some(ScanIncomplete), pending, bytes;
        }
        bytes := longer;
      }
      var found := StringContainsReportSentinel(key);
      if found {
        KeyMarks(heap, root, pending, seen, node, k);
        return Some(Sentinel), pending, bytes;
      }
      PushKeeps(heap, root, pending, seen, node, k);
      pending := pending + [entries[k].1];
      k := k + 1;
      if visited + |pending| > TASK_STATE_REPORT_INPUT_MAX_BYTES {
        return Some(ScanIncomplete), pending, bytes;
      }
    }
    Spent(heap, root, nodes, pending, seen, bytes, node);
    Opened(heap, root, pending, seen, node);
    stop := None;
  }

  lemma Spent(heap: Heap, root: Value, nodes: seq<nat>, pending: seq<Value>, seen: set<nat>, bytes: nat, node: nat)
    requires SpendingAt(heap, root, nodes, pending, seen, bytes, node, |heap(node).entries|)
    ensures Spending(heap, root, nodes, pending, seen, bytes)
  {
    hide Roomy;
  }

  lemma KeyMarks(heap: Heap, root: Value, pending: seq<Value>, seen: set<nat>, node: nat, k: nat)
    requires Opening(heap, root, pending, seen, node, k) && k < |heap(node).entries| && HoldsSentinel(heap(node).entries[k].0)
    ensures SentinelReachable(heap, root)
  {
    hide HoldsSentinel;
    hide Reachable;
    assert Marked(heap, Ref(node));
  }

  lemma Opened(heap: Heap, root: Value, pending: seq<Value>, seen: set<nat>, node: nat)
    requires Opening(heap, root, pending, seen, node, |heap(node).entries|)
    ensures Walking(heap, root, pending, seen)
  {
    hide Covered;
    hide Reachable;
  }

  lemma WalkBegins(heap: Heap, root: Value)
    ensures Walking(heap, root, [root], {})
  {
    assert At(heap, root, []) == Some(root);
  }

  /** `taskStateReportRawGuard`. No guard means the sentinel is in no string and no key
      reachable from the value, plain or escaped, shared or cyclic as it may be; the
      sentinel guard means it is in one. A plain string goes unscanned exactly when it
      is too long; nothing does when all there is to reach, a byte a value and every key
      and string in full, is within the bound. */
  method TaskStateReportRawGuard(heap: Heap, value: Value, ghost nodes: seq<nat>) returns (guard: Option<Guard>)
    ensures guard == Some(ScanIncomplete) ==> !Roomy(heap, value, nodes)
    ensures guard.None? ==> !SentinelReachable(heap, value)
    ensures guard == Some(Sentinel) ==> SentinelReachable(heap, value)
    ensures value.Str? ==>
              (guard == Some(ScanIncomplete) <==> |value.text| > TASK_STATE_REPORT_INPUT_MAX_BYTES
                                                  || ByteLength(value.text) > TASK_STATE_REPORT_INPUT_MAX_BYTES)
  {
    hide HoldsSentinel;
    hide Walking;
    hide Spending;
    hide SpendingAt;
    hide Roomy;
    hide ByteLength;
    SpendingBegins(heap, value, nodes);
    SpendNode(heap, value, nodes, [value], {}, 0);
    if value.Str? {
      BytesAtLeastUnits(value.text);
      if |value.text| > TASK_STATE_REPORT_INPUT_MAX_BYTES || ByteLength(value.text) > TASK_STATE_REPORT_INPUT_MAX_BYTES {
        return Some(ScanIncomplete);
      }
      var found := StringContainsReportSentinel(value.text);
      StringAlone(heap, value);
      return if found then Some(Sentinel) else None;
    }
    var pending: seq<Value>, seen: set<nat>, visited: nat, bytes: nat := [value], {}, 0, 0;
    WalkBegins(heap, value);
    while |pending| > 0
      invariant Walking(heap, value, pending, seen) && Spending(heap, value, nodes, pending, seen, bytes)
      invariant visited <= bytes <= TASK_STATE_REPORT_INPUT_MAX_BYTES
      decreases TASK_STATE_REPORT_INPUT_MAX_BYTES - visited
    {
      SpendNode(heap, value, nodes, pending, seen, bytes);
      if visited + 1 > TASK_STATE_REPORT_INPUT_MAX_BYTES || bytes + 1 > TASK_STATE_REPORT_INPUT_MAX_BYTES {
        return Some(ScanIncomplete);
      }
      visited, bytes := visited + 1, bytes + 1;
      var current := pending[|pending| - 1];
      match current {
        case Str(text) =>
          BytesAtLeastUnits(text);
          if |text| > TASK_STATE_REPORT_INPUT_MAX_BYTES - bytes {
            return Some(ScanIncomplete);
          }
          var longer := bytes + ByteLength(text);
          if longer > TASK_STATE_REPORT_INPUT_MAX_BYTES {
            return Some(ScanIncomplete);
          }
          bytes := longer;
          var found := StringContainsReportSentinel(text);
          if found {
            TextMarks(heap, value, pending, seen);
            return Some(Sentinel);
          }
          PopKeeps(heap, value, pending, seen);
          pending := pending[..|pending| - 1];
        case Ref(node) =>
          if node in seen {
            PopKeeps(heap, value, pending, seen);
            pending := pending[..|pending| - 1];
          } else {
            PopOpens(heap, value, pending, seen);
            seen := seen + {node};
            var stop;
            stop, pending, bytes := TakeEntries(heap, value, nodes, node, pending[..|pending| - 1], seen, visited, bytes);
            if stop.Some? {
              return stop;
            }
          }
        case Scalar =>
          PopKeeps(heap, value, pending, seen);
          pending := pending[..|pending| - 1];
      }
    }
    WalkEnds(heap, value, pending, seen);
    guard := None;
  }

  lemma TextMarks(heap: Heap, root: Value, pending: seq<Value>, seen: set<nat>)
    requires pending != [] && Walking(heap, root, pending, seen) && Marked(heap, pending[|pending| - 1])
    ensures SentinelReachable(heap, root)
  {
    hide Marked;
    hide Reachable;
    assert pending[|pending| - 1] in pending;
  }

  lemma WalkEnds(heap: Heap, root: Value, pending: seq<Value>, seen: set<nat>)
    requires Walking(heap, root, pending, seen) && pending == []
    ensures !SentinelReachable(heap, root)
  {
    hide Marked;
    hide Covered;
    NothingMarked(heap, root, seen);
  }

  lemma StringAlone(heap: Heap, value: Value)
    requires value.Str?
    ensures SentinelReachable(heap, value) <==> HoldsSentinel(value.text)
  {
    hide HoldsSentinel;
    assert At(heap, value, []) == Some(value);
    forall path: seq<nat> | path != [] ensures At(heap, value, path).None? {
      StringHasNoEntries(heap, value, path);
    }
    assert Reachable(heap, value, value) && (Marked(heap, value) <==> HoldsSentinel(value.text));
  }

  lemma {:induction false} StringHasNoEntries(heap: Heap, value: Value, path: seq<nat>)
    requires value.Str? && path != []
    ensures At(heap, value, path).None?
    decreases |path|
  {
    if |path| > 1 {
      StringHasNoEntries(heap, value, path[..|path| - 1]);
    }
  }
}

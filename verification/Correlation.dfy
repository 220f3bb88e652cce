/** Matching of calls with results inside one turn (src/adapters/base.ts,
    src/adapters/codex.ts, src/adapters/claude-code.ts): the task-state report
    protocol and the correlation of other Elepha MCP calls. */
module Correlation {
  import opened Reading
  import opened TaskStateReport

  const ELEPHA_MCP_CALL_ID_MAX_BYTES: nat := 1024
  const ELEPHA_MCP_UNMATCHED_RESULT_IDS_MAX: nat := 64
  const ELEPHA_MCP_UNMATCHED_RESULT_ID_BYTES_MAX: nat := ELEPHA_MCP_UNMATCHED_RESULT_IDS_MAX * ELEPHA_MCP_CALL_ID_MAX_BYTES
  const SESSION_CHAR_BUDGET: nat := 20_000 * 4
  const ELEPHA_MCP_RESULT_MAX_BYTES: nat := SESSION_CHAR_BUDGET * 4
  const ELEPHA_MCP_RESULTS_PER_TURN_MAX: nat := 64
  const ELEPHA_MCP_RESULTS_PER_TURN_MAX_BYTES: nat := 4 * 1024 * 1024
  const TASK_STATE_REPORT_ACK: string := "elepha received the task-state report."

  /** Bytes of a string in UTF-8. */
  function Utf8Length(s: string): nat {
    if s == "" then 0
    else
      var c := s[|s| - 1];
      Utf8Length(s[..|s| - 1]) + (if c < '\U{80}' then 1 else if c < '\U{800}' then 2 else if c < '\U{10000}' then 3 else 4)
  }

  /** The bytes themselves, by RFC 3629. */
  function Utf8(s: string): seq<nat> {
    if s == "" then []
    else
      var c := s[|s| - 1] as nat;
      Utf8(s[..|s| - 1])
      + if c < 0x80 then [c]
        else if c < 0x800 then [0xC0 + c / 0x40, 0x80 + c % 0x40]
        else if c < 0x1_0000 then [0xE0 + c / 0x1000, 0x80 + c / 0x40 % 0x40, 0x80 + c % 0x40]
        else [0xF0 + c / 0x4_0000, 0x80 + c / 0x1000 % 0x40, 0x80 + c / 0x40 % 0x40, 0x80 + c % 0x40]
  }

  lemma {:induction false} Utf8LengthIs(s: string)
    ensures Utf8Length(s) == |Utf8(s)|
    decreases |s|
  {
    if s != "" {
      Utf8LengthIs(s[..|s| - 1]);
    }
  }

  // -------------------------------------------------------------- MCP results

  /** A recorded result as the MCP reader sees it: plain text, text holding an
      encoded envelope, a list of blocks (none when one is not text), or neither. */
  datatype McpValue =
    | Plain(text: string)
    | Encoded(text: string, parts: Option<seq<string>>)
    | Blocks(parts: Option<seq<string>>)
    | Unreadable

  datatype CoverageFailure =
    | MissingCallId
    | OversizedCallId
    | DuplicateCallId
    | IncompleteCorrelation
    | OutOfOrderResult
    | OversizedCallSet
    | UnsupportedResult
    | OversizedResult

  datatype BoundedResult = Body(body: string, bytes: nat) | Unbounded(reason: CoverageFailure)

  function TextParts(value: McpValue): Option<seq<string>> {
    match value
    case Plain(text) => Some([text])
    case Encoded(_, parts) => parts
    case Blocks(parts) => parts
    case Unreadable => None
  }

  predicate IsText(value: McpValue) { value.Plain? || value.Encoded? }

  function Join(parts: seq<string>): string {
    if parts == [] then ""
    else if |parts| == 1 then parts[0]
    else Join(parts[..|parts| - 1]) + "\n" + parts[|parts| - 1]
  }

  lemma {:induction false} Utf8Append(a: string, b: string)
    ensures Utf8Length(a + b) == Utf8Length(a) + Utf8Length(b)
    decreases |b|
  {
    if b == "" {
      assert a + b == a;
    } else {
      assert (a + b)[..|a + b| - 1] == a + b[..|b| - 1];
      Utf8Append(a, b[..|b| - 1]);
    }
  }

  lemma JoinOneMore(parts: seq<string>, k: nat)
    requires k < |parts|
    ensures Utf8Length(Join(parts[..k + 1])) == Utf8Length(Join(parts[..k])) + Utf8Length(parts[k]) + (if k == 0 then 0 else 1)
  {
    assert parts[..k + 1][..k] == parts[..k];
    if k == 0 {
      assert parts[..1] == [parts[0]];
    } else {
      var head := Join(parts[..k]);
      Utf8Append(head + "\n", parts[k]);
      Utf8Append(head, "\n");
      assert Utf8Length("\n") == 1 by { assert "\n"[..0] == ""; }
    }
  }

  lemma {:induction false} JoinGrows(parts: seq<string>, k: nat)
    requires k <= |parts|
    ensures Utf8Length(Join(parts[..k])) <= Utf8Length(Join(parts))
    decreases |parts| - k
  {
    if k == |parts| {
      assert parts[..k] == parts;
    } else {
      JoinOneMore(parts, k);
      JoinGrows(parts, k + 1);
    }
  }

  /** What a result counts for: its joined text when every bound holds. */
  function Bounded(value: McpValue): BoundedResult {
    if IsText(value) && Utf8Length(value.text) > ELEPHA_MCP_RESULT_MAX_BYTES then Unbounded(OversizedResult)
    else
      var parts := TextParts(value);
      if parts.None? || parts.value == [] then Unbounded(UnsupportedResult)
      else if Utf8Length(Join(parts.value)) > ELEPHA_MCP_RESULT_MAX_BYTES then Unbounded(OversizedResult)
      else Body(Join(parts.value), Utf8Length(Join(parts.value)))
  }

  /** `boundedMcpResult`: adds the parts up one by one and stops at the bound. */
  method BoundedMcpResult(value: McpValue) returns (result: BoundedResult)
    ensures result == Bounded(value)
  {
    if IsText(value) && Utf8Length(value.text) > ELEPHA_MCP_RESULT_MAX_BYTES {
      return Unbounded(OversizedResult);
    }
    var found := TextParts(value);
    if found.None? || found.value == [] {
      return Unbounded(UnsupportedResult);
    }
    var parts, bytes, index := found.value, 0, 0;
    while index < |parts|
      invariant index <= |parts| && bytes == Utf8Length(Join(parts[..index])) <= ELEPHA_MCP_RESULT_MAX_BYTES
    {
      JoinOneMore(parts, index);
      bytes := bytes + Utf8Length(parts[index]) + (if index == 0 then 0 else 1);
      if bytes > ELEPHA_MCP_RESULT_MAX_BYTES {
        JoinGrows(parts, index + 1);
        return Unbounded(OversizedResult);
      }
      index := index + 1;
    }
    assert parts[..index] == parts;
    result := Body(Join(parts), bytes);
  }

  // ------------------------------------------------------------- report results

  /** A list of exactly one text block with no other field, or any other list. */
  datatype Content = OneText(text: string) | OtherContent

  /** A recorded value as the report reader sees it: text over the bound, text
      that is no JSON, an object with so many keys, or a bare list. */
  datatype ReportValue =
    | TooLongText
    | NotJson(text: string)
    | Object(keys: nat, hasContent: bool, isError: Option<bool>, content: Content)
    | Bare(content: Content)

  function ResultText(value: ReportValue, expectedError: bool, transportError: bool): Option<string> {
    match value
    case TooLongText => None
    case NotJson(text) => if expectedError == transportError then Some(text) else None
    case Bare(content) => if content.OneText? && expectedError == transportError then Some(content.text) else None
    case Object(keys, hasContent, isError, content) =>
      if || keys != (if expectedError && isError.Some? then 2 else 1)
         || !hasContent
         || (if expectedError then (if isError.Some? then !isError.value else !transportError) else transportError)
      then None
      else
        var resultError := if isError.Some? then isError.value else transportError;
        if content.OneText? && expectedError == resultError then Some(content.text) else None
  }

  // ------------------------------------------------------------------ the state

  datatype Envelope = ClaudeCode | CodexCli | CodexDesktop | OpenCodeV2

  datatype Guard = Sentinel | ScanIncomplete

  datatype ReportFailure =
    | BadInput(reason: InputFailure)
    | NoCallId
    | CallIdTooLong
    | RepeatedCallId
    | ConflictingDuplicate
    | MultipleReports
    | UnexpectedResult
    | MissingResult

  /** Raw arguments of a report call, by what is read from them: the guard, the
      validated input, the digest kept of invalid input and its diagnostic. */
  datatype Arguments = Arguments(guard: Option<Guard>, parsed: Parsed, digest: Option<string>, diagnostic: string)

  datatype Observation = Observation(callId: string, input: Option<ReportInput>, inputFailure: Option<InputFailure>,
                                     diagnostic: string, digest: Option<string>,
                                     calls: set<Envelope>, results: set<Envelope>, rejected: set<Envelope>)

  datatype Receipt = Receipt(callId: string, body: string)

  /** The report protocol's part of a turn: the call in force, the first failure,
      whether a retry is still allowed, the calls it corrected and the guard. */
  datatype Reports = Reports(current: Option<Observation>, failure: Option<ReportFailure>, retryBlocked: bool,
                             rejected: map<string, Observation>, guard: Option<Guard>)

  /** Ids of results no registered call claimed, up to a bound. */
  datatype Unmatched = Unmatched(ids: set<string>, bytes: nat, incomplete: bool)

  /** The Elepha MCP part: calls waiting, calls settled, and what went wrong. */
  datatype Mcp = Mcp(pending: set<string>, receipts: seq<Receipt>, receiptBytes: nat, unmatched: Unmatched,
                     coverage: Option<CoverageFailure>, desktop: set<string>)

  datatype Calls = Calls(reports: Reports, mcp: Mcp)

  function NoCalls(): Calls {
    Calls(Reports(None, None, false, map[], None), Mcp({}, [], 0, Unmatched({}, 0, false), None, {}))
  }

  function ReceiptIds(receipts: seq<Receipt>): set<string> {
    set k | 0 <= k < |receipts| :: receipts[k].callId
  }

  /** Ids of registered Elepha MCP calls. */
  function McpIds(m: Mcp): set<string> {
    m.pending + ReceiptIds(m.receipts)
  }

  /** Ids of report calls. */
  function ReportIds(r: Reports): set<string> {
    r.rejected.Keys + (if r.current.Some? then {r.current.value.callId} else {})
  }

  // ------------------------------------------------------------------- reports

  function Fail(r: Reports, reason: ReportFailure): Reports {
    r.(failure := if r.failure.None? then Some(reason) else r.failure, retryBlocked := r.retryBlocked || !reason.BadInput?)
  }

  function NoteGuard(r: Reports, guard: Option<Guard>): Reports {
    if guard == Some(Sentinel) || (guard == Some(ScanIncomplete) && r.guard.None?) then r.(guard := guard) else r
  }

  function FirstCall(envelope: Envelope, callId: string, arguments: Arguments): Observation {
    match arguments.parsed
    case Complete(input) => Observation(callId, Some(input), None, "", None, {envelope}, {}, {})
    case Incomplete(reason) =>
      Observation(callId, None, Some(reason), arguments.diagnostic,
                  if arguments.guard.None? then arguments.digest else None, {envelope}, {}, {})
  }

  /** Does invalid input repeat what `o` recorded? */
  predicate RepeatsInvalid(o: Observation, arguments: Arguments) {
    arguments.parsed.Incomplete? && o.inputFailure == Some(arguments.parsed.reason) && o.digest.Some? && o.digest == arguments.digest
  }

  /** Has every envelope that recorded the call recorded its rejection? */
  predicate Rejected(o: Observation) {
    o.inputFailure.Some? && |o.results| == |o.calls| && o.calls <= o.rejected
  }

  /** A call of an id already rejected. */
  function CallPrior(r: Reports, envelope: Envelope, callId: string, arguments: Arguments): Reports
    requires callId in r.rejected
  {
    var prior := r.rejected[callId];
    if envelope in prior.calls then Fail(r, RepeatedCallId)
    else if envelope in prior.results || !RepeatsInvalid(prior, arguments) then Fail(r, ConflictingDuplicate)
    else r.(rejected := r.rejected[callId := prior.(calls := prior.calls + {envelope})])
  }

  /** The turn's first report call, or one that corrects a rejected call. */
  function CallFirst(r: Reports, envelope: Envelope, callId: string, arguments: Arguments): Reports {
    var current := Some(FirstCall(envelope, callId, arguments));
    var begun :=
      if r.current.None? then r.(current := current)
      else r.(rejected := r.rejected[r.current.value.callId := r.current.value], failure := None, current := current);
    if arguments.parsed.Incomplete? then Fail(begun, BadInput(arguments.parsed.reason)) else begun
  }

  /** A further envelope of the call in force. */
  function CallAgain(r: Reports, envelope: Envelope, arguments: Arguments): Reports
    requires r.current.Some?
  {
    var o := r.current.value;
    if envelope in o.calls then Fail(r, RepeatedCallId)
    else if envelope in o.results then Fail(r, UnexpectedResult)
    else
      var joined := r.(current := Some(o.(calls := o.calls + {envelope})));
      match arguments.parsed
      case Incomplete(reason) =>
        var failed := Fail(joined, BadInput(reason));
        if RepeatsInvalid(o, arguments) then failed else Fail(failed, ConflictingDuplicate)
      case Complete(input) =>
        if o.input.None? || !SameInput(o.input.value, input) then Fail(joined, ConflictingDuplicate) else joined
  }

  /** A report call under a usable id no other Elepha call has. */
  function CallUnder(r: Reports, envelope: Envelope, callId: string, arguments: Arguments): Reports {
    if callId in r.rejected then CallPrior(r, envelope, callId, arguments)
    else if r.current.None? then CallFirst(r, envelope, callId, arguments)
    else if r.current.value.callId == callId then CallAgain(r, envelope, arguments)
    else if !(Rejected(r.current.value) && !r.retryBlocked && r.guard.None?) then Fail(r, MultipleReports)
    else if |r.rejected| + 1 >= ELEPHA_MCP_RESULTS_PER_TURN_MAX then Fail(r, MultipleReports)
    else CallFirst(r, envelope, callId, arguments)
  }

  /** `observeTaskStateReportCall`. */
  function ObserveCall(s: Calls, envelope: Envelope, id: Option<string>, arguments: Arguments): Calls {
    var r := NoteGuard(s.reports, arguments.guard);
    if id.None? || id.value == "" then Calls(Fail(r, NoCallId), s.mcp)
    else if Utf8Length(id.value) > ELEPHA_MCP_CALL_ID_MAX_BYTES then Calls(Fail(r, CallIdTooLong), s.mcp)
    else if id.value in McpIds(s.mcp) then Calls(r, s.mcp.(coverage := Some(DuplicateCallId)))
    else Calls(CallUnder(r, envelope, id.value, arguments), s.mcp)
  }

  /** The report call an id belongs to. */
  function ObservationOf(r: Reports, id: string): Option<Observation> {
    if id in r.rejected then Some(r.rejected[id])
    else if r.current.Some? && r.current.value.callId == id then r.current
    else None
  }

  function Replace(r: Reports, id: string, o: Observation): Reports {
    if id in r.rejected then r.(rejected := r.rejected[id := o]) else r.(current := Some(o))
  }

  predicate Acknowledges(value: ReportValue, isError: bool) {
    !isError && ResultText(value, false, isError) == Some(TASK_STATE_REPORT_ACK)
  }

  predicate Rejects(value: ReportValue, isError: bool, reason: InputFailure, diagnostic: string) {
    IsRejection(ResultText(value, true, isError), reason, diagnostic)
  }

  /** `consumeTaskStateReportResult` for a result whose id is a report's. */
  function Consume(r: Reports, envelope: Envelope, id: string, value: ReportValue, isError: bool): Reports
    requires ObservationOf(r, id).Some?
  {
    var o := ObservationOf(r, id).value;
    if envelope !in o.calls then Fail(r, UnexpectedResult)
    else if envelope in o.results then Fail(r, RepeatedCallId)
    else
      var answered := o.(results := o.results + {envelope});
      if o.inputFailure.Some? && Rejects(value, isError, o.inputFailure.value, o.diagnostic)
      then Replace(r, id, answered.(rejected := o.rejected + {envelope}))
      else if id in r.rejected || !Acknowledges(value, isError) then Fail(Replace(r, id, answered), UnexpectedResult)
      else Replace(r, id, answered)
  }

  predicate IsReportId(r: Reports, id: Option<string>) { id.Some? && ObservationOf(r, id.value).Some? }

  datatype Outcome = NoReport | Failure(reason: ReportFailure) | Reported(callId: string, input: ReportInput, retried: bool)

  /** `taskStateReportOutcome`. */
  function ReportOutcome(r: Reports): Outcome {
    if r.failure.Some? then Failure(r.failure.value)
    else if exists id | id in r.rejected :: !(r.rejected[id].calls <= r.rejected[id].rejected) then Failure(MissingResult)
    else if r.current.None? then NoReport
    else if r.current.value.input.None? then Failure(BadInput(MalformedInput))
    else if !(r.current.value.calls <= r.current.value.results) then Failure(MissingResult)
    else Reported(r.current.value.callId, r.current.value.input.value, r.rejected != map[])
  }

  // ---------------------------------------------------------- other Elepha MCP calls

  /** `rememberUnmatchedElephaMcpResult`. */
  function Remember(u: Unmatched, id: string): Unmatched {
    if id in u.ids then u
    else if || |u.ids| >= ELEPHA_MCP_UNMATCHED_RESULT_IDS_MAX
            || u.bytes + Utf8Length(id) > ELEPHA_MCP_UNMATCHED_RESULT_ID_BYTES_MAX
    then u.(incomplete := true)
    else Unmatched(u.ids + {id}, u.bytes + Utf8Length(id), u.incomplete)
  }

  function Uncover(m: Mcp, reason: CoverageFailure): Mcp {
    m.(coverage := Some(reason))
  }

  /** What registering an id whose result was, or may have been, seen already notes. */
  function NoteOrder(m: Mcp, id: string): Mcp {
    if id in m.unmatched.ids then Uncover(m, OutOfOrderResult)
    else if m.unmatched.incomplete then Uncover(m, IncompleteCorrelation)
    else m
  }

  /** `registerElephaMcpCall`: whether the call was registered. */
  function Register(m: Mcp, reportIds: set<string>, id: Option<string>): (Mcp, bool) {
    if id.None? || id.value == "" then (Uncover(m, MissingCallId), false)
    else if Utf8Length(id.value) > ELEPHA_MCP_CALL_ID_MAX_BYTES then (Uncover(m, OversizedCallId), false)
    else if id.value in McpIds(m) || id.value in reportIds then (Uncover(m, DuplicateCallId), false)
    else if |m.pending| + |m.receipts| >= ELEPHA_MCP_RESULTS_PER_TURN_MAX then (Uncover(m, OversizedCallSet), false)
    else (NoteOrder(m, id.value).(pending := m.pending + {id.value}), true)
  }

  /** The result of a call that waits for it. */
  function Settle(m: Mcp, id: string, value: McpValue): Mcp {
    match Bounded(value)
    case Unbounded(reason) => Uncover(m, reason)
    case Body(body, bytes) =>
      var taken := m.(pending := m.pending - {id});
      if |m.receipts| >= ELEPHA_MCP_RESULTS_PER_TURN_MAX || m.receiptBytes + bytes > ELEPHA_MCP_RESULTS_PER_TURN_MAX_BYTES
      then Uncover(taken, OversizedResult)
      else taken.(receipts := m.receipts + [Receipt(id, body)], receiptBytes := m.receiptBytes + bytes)
  }

  /** `recordElephaMcpResult`. */
  function Record(m: Mcp, id: Option<string>, value: McpValue): Mcp {
    if id.None? then m
    else if Utf8Length(id.value) > ELEPHA_MCP_CALL_ID_MAX_BYTES
    then if id.value in m.pending then Uncover(m, OversizedCallId) else m
    else if id.value in ReceiptIds(m.receipts) then Uncover(m, DuplicateCallId)
    else if id.value !in m.pending then m.(unmatched := Remember(m.unmatched, id.value))
    else Settle(m, id.value, value)
  }

  function ReceiptBody(receipts: seq<Receipt>, id: string): Option<string> {
    if receipts == [] then None
    else if receipts[0].callId == id then Some(receipts[0].body)
    else ReceiptBody(receipts[1..], id)
  }

  predicate RepeatsReceipt(m: Mcp, id: string, value: McpValue) {
    Bounded(value).Body? && ReceiptBody(m.receipts, id) == Some(Bounded(value).body)
  }

  /** A result of an id already settled must repeat its receipt. */
  function Compare(m: Mcp, id: string, value: McpValue): Mcp {
    if RepeatsReceipt(m, id, value) then m
    else Uncover(m, if Bounded(value).Unbounded? then Bounded(value).reason else DuplicateCallId)
  }

  function Claim(m: Mcp, id: string): Mcp {
    m.(desktop := m.desktop + {id})
  }

  /** A Codex Desktop item carries a call and its result at once. */
  function ObserveItem(m: Mcp, reportIds: set<string>, id: Option<string>, value: McpValue): Mcp {
    if id.Some? && id.value in m.desktop then Uncover(m, DuplicateCallId)
    else if id.Some? && id.value in ReceiptIds(m.receipts) then
      if RepeatsReceipt(m, id.value, value) then Claim(m, id.value) else Compare(m, id.value, value)
    else if id.Some? && id.value in m.pending then Record(Claim(m, id.value), id, value)
    else
      var (registered, ok) := Register(m, reportIds, id);
      if ok then Record(Claim(registered, id.value), id, value) else registered
  }

  // --------------------------------------------------------------------- events

  /** What a record of the turn shows: a report call, a result that can only be a
      report's, any result, an Elepha MCP call, or a Desktop item. A Desktop or
      OpenCode report item shows a call and then its result. */
  datatype Event =
    | ReportCall(envelope: Envelope, id: Option<string>, arguments: Arguments)
    | ReportResult(envelope: Envelope, id: Option<string>, value: ReportValue, isError: bool)
    | AnyResult(envelope: Envelope, id: Option<string>, value: ReportValue, isError: bool, mcp: McpValue)
    | McpCall(id: Option<string>)
    | DesktopItem(id: Option<string>, mcp: McpValue)

  function McpResult(m: Mcp, id: Option<string>, value: McpValue): Mcp {
    if id.Some? && id.value in m.desktop then Compare(m, id.value, value) else Record(m, id, value)
  }

  function Step(s: Calls, e: Event): Calls {
    match e
    case ReportCall(envelope, id, arguments) => ObserveCall(s, envelope, id, arguments)
    case ReportResult(envelope, id, value, isError) =>
      if IsReportId(s.reports, id) then s.(reports := Consume(s.reports, envelope, id.value, value, isError)) else s
    case AnyResult(envelope, id, value, isError, mcp) =>
      if IsReportId(s.reports, id) then s.(reports := Consume(s.reports, envelope, id.value, value, isError))
      else s.(mcp := McpResult(s.mcp, id, mcp))
    case McpCall(id) =>
      if id.Some? && id.value in s.mcp.desktop then s else s.(mcp := Register(s.mcp, ReportIds(s.reports), id).0)
    case DesktopItem(id, mcp) => s.(mcp := ObserveItem(s.mcp, ReportIds(s.reports), id, mcp))
  }

  function Run(es: seq<Event>): Calls {
    if es == [] then NoCalls() else Step(Run(es[..|es| - 1]), es[|es| - 1])
  }
}

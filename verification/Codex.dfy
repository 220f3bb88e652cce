/** The Codex adapter's reading of a record (src/adapters/codex.ts), and what it
    lets every Codex transcript rely on. */
module Codex {
  import opened Framing
  import opened Reading
  import opened Turns
  import opened TurnContext
  import opened TurnRuns
  import opened TurnResume
  import opened TurnAssembly
  import opened Derivation

  /** The payload of an event_msg record, as far as the adapter looks. */
  datatype EventPayload =
    | UserMessage
    | TaskStarted(turnId: Option<string>)
    | TaskComplete(turnId: Option<string>, error: bool)
    | TurnAborted(turnId: Option<string>)
    | ContextCompacted
    | UnreadEvent

  /** The payload of a response_item record; a user message may be the synthetic
      environment marker. */
  datatype ItemPayload =
    | AssistantMessage
    | UserMessageItem(environment: bool)
    | FunctionCall
    | CustomToolCall
    | WebSearchCall
    | UnreadItem

  datatype CodexLine =
    | SessionMeta(cwd: Option<string>, originator: Option<string>, branch: Option<string>)
    | TurnContextLine(cwd: Option<string>)
    | EventRecord(event: EventPayload)
    | ResponseRecord(item: ItemPayload)
    | UnreadLine

  datatype CodexRecord = CodexRecord(timestamp: Option<string>, line: CodexLine)

  /** An empty string sets nothing. */
  function Setting(field: Field, value: Option<string>): map<Field, string> {
    if value.None? || value.value == "" then map[] else map[field := value.value]
  }

  function ContextOf(line: CodexLine): map<Field, string> {
    match line
    case SessionMeta(cwd, originator, branch) => Setting(Cwd, cwd) + Setting(Surface, originator) + Setting(Branch, branch)
    case TurnContextLine(cwd) => Setting(Cwd, cwd)
    case _ => map[]
  }

  function SignalOf(line: CodexLine): Option<Signal> {
    match line
    case EventRecord(TaskStarted(id)) => Some(Signal(Started, id))
    case EventRecord(TaskComplete(id, error)) => Some(Signal(if error then Failed else Completed, id))
    case EventRecord(TurnAborted(id)) => Some(Signal(Aborted, id))
    case _ => None
  }

  function RoleOf(line: CodexLine): Role {
    match line
    case EventRecord(UserMessage) => EventPrompt
    case ResponseRecord(UserMessageItem(environment)) => if environment then Other else ResponsePrompt
    case ResponseRecord(AssistantMessage) => Assistant
    case ResponseRecord(FunctionCall) => ToolUse
    case ResponseRecord(CustomToolCall) => ToolUse
    case _ => Other
  }

  function EntryOf(record: CodexRecord, text: Bytes): Entry {
    Entry(ContextOf(record.line), record.line == ResponseRecord(UserMessageItem(true)), record.line == ResponseRecord(WebSearchCall),
          None, record.timestamp, SignalOf(record.line), RoleOf(record.line), text)
  }

  /** The adapter, for any JSON reader, any reading of folded content and any digest. */
  function AdapterFor(parse: Bytes -> Option<CodexRecord>, judge: seq<Event> -> Verdict, hash: Hash): Format {
    Format((text: Bytes) => var record := parse(text); if record.None? then None else Some(EntryOf(record.value, text)),
           judge, hash, true)
  }

  ghost predicate IsCodex(format: Format) {
    exists parse: Bytes -> Option<CodexRecord> :: format == AdapterFor(parse, format.judge, format.hash)
  }

  /** No Codex record both sets context and starts, ends or opens a turn. */
  lemma CodexHarmless(env: Env, lines: seq<Line>)
    requires IsCodex(env.format)
    ensures AllHarmless(env, lines)
  {
    var parse: Bytes -> Option<CodexRecord> :| env.format == AdapterFor(parse, env.format.judge, env.format.hash);
    forall line | line in lines ensures HarmlessLine(env, line) {
      var record := parse(line.text);
      if record.Some? {
        assert env.format.decode(line.text) == Some(EntryOf(record.value, line.text));
      }
    }
  }

  /** Of the two envelopes one prompt may be written in, exactly one opens a turn,
      whatever has been decided; the marker never does. */
  lemma OneEnvelopeOpens(decided: Option<UserBoundary>)
    ensures Classify(decided, RoleOf(EventRecord(UserMessage))) == Boundary <==>
            Classify(decided, RoleOf(ResponseRecord(UserMessageItem(false)))) != Boundary
    ensures forall line :: Classify(decided, RoleOf(line)) == Boundary ==>
              line == EventRecord(UserMessage) || line == ResponseRecord(UserMessageItem(false))
  {
  }

  /** Every cursor of every Codex transcript carries, per field, the last context
      record ending at or before it. */
  lemma CodexPruningLosesNothing(env: Env, end: nat)
    requires IsCodex(env.format) && end <= |env.file|
    ensures var turns := Run(env, Begin(0, map[], map[]), Frame(env.file, 0, end).lines).turns;
            forall i | 0 <= i < |turns| ::
              turns[i].context.records == Derived(env, map[], 0, turns[i].cursor.byteOffset)
  {
    CodexHarmless(env, Frame(env.file, 0, end).lines);
    PruningLosesNothing(env, end);
  }

  // ------------------------------------------------------------ what a turn issues

  /** A turn's cursor fingerprints the file before it, and its context records the
      decision in force. */
  ghost predicate Sealed(env: Env, p: ParsedTurn) {
    p.cursor.fingerprint == Fingerprint(env.format.hash, env.file, p.cursor.byteOffset) && p.context.decided == env.decided
  }

  lemma EmitSeals(env: Env, s: State, turn: Turn, offset: nat, dropped: Option<Drop>, provisional: bool)
    requires forall p | p in s.turns :: Sealed(env, p)
    ensures forall p | p in Emit(env, s, turn, offset, dropped, provisional).turns :: Sealed(env, p)
  {
    hide Commit;
    hide EndingAfter;
    hide Fingerprint;
  }

  lemma OpenNextSeals(env: Env, s: State, line: Line)
    requires forall p | p in s.turns :: Sealed(env, p)
    ensures forall p | p in OpenNext(env, s, line).turns :: Sealed(env, p)
  {
    hide Emit;
    hide Sealed;
    if Emits(env, s.turn) {
      EmitSeals(env, s, s.turn.value, CloseOffset(s.start, line), CloseDrop(env, s.turn.value), false);
    }
  }

  lemma AcceptSeals(env: Env, s: State, line: Line)
    requires forall p | p in s.turns :: Sealed(env, p)
    ensures forall p | p in Accept(env, s, line).turns :: Sealed(env, p)
  {
    hide Prepare;
    hide OpenNext;
    hide Sealed;
    hide Fold;
    var decoded := env.format.decode(line.text);
    if !s.failed && decoded.Some? {
      var at := s.(lastEnd := Some(line.byteEnd));
      PrepareContext(env, at, line, decoded.value);
      NoteContextKeeps(env, at, line, decoded.value);
      assert Prepare(env, at, line, decoded.value).turns == s.turns;
      OpenNextSeals(env, Prepare(env, at, line, decoded.value), line);
      FoldTurns(OpenNext(env, Prepare(env, at, line, decoded.value), line), decoded.value);
      FoldTurns(Prepare(env, at, line, decoded.value), decoded.value);
    }
  }

  lemma FoldTurns(s: State, entry: Entry)
    ensures Fold(s, entry).turns == s.turns
  {
  }

  lemma {:induction false} RunSeals(env: Env, s0: State, lines: seq<Line>)
    requires s0.turns == []
    ensures forall p | p in Run(env, s0, lines).turns :: Sealed(env, p)
    decreases |lines|
  {
    hide Accept;
    hide Sealed;
    if lines != [] {
      RunSeals(env, s0, lines[..|lines| - 1]);
      AcceptSeals(env, Run(env, s0, lines[..|lines| - 1]), lines[|lines| - 1]);
    }
  }

  /** A parse handed a closed turn's own cursor and context trusts them, decides as
      the full parse did and begins where `ResumingEqualsNotStopping` begins. */
  lemma IssuedCursorIsTrusted(env: Env, since: Cursor, context: Option<ResumeContext>, s0: State, from: nat, end: nat, i: nat)
    requires IsCodex(env.format) && Proper(env, s0, from) && from <= end <= |env.file|
    requires since.byteOffset == from && env.decided == DecisionFor(env.format, env.file, since, context)
    requires i < |Run(env, s0, Frame(env.file, from, end).lines).turns|
    ensures var p := Run(env, s0, Frame(env.file, from, end).lines).turns[i];
            var records := RecordsFor(p.cursor, Some(p.context));
            && Trusted(env, p.cursor, Some(p.context))
            && DecisionFor(env.format, env.file, p.cursor, Some(p.context)) == env.decided
            && Begin(p.cursor.nextTurnIndex, records, ValuesOf(env, records)) == ResumeAt(env, p)
  {
    hide Run;
    hide Frame;
    hide Decision;
    hide Fingerprint;
    hide ValuesOf;
    hide TurnResume.Continues;
    var lines := Frame(env.file, from, end).lines;
    var p := Run(env, s0, lines).turns[i];
    CodexHarmless(env, lines);
    ResumingEqualsNotStopping(env, s0, from, end, i, false);
    RunSeals(env, s0, lines);
    assert Sealed(env, p);
    if p.cursor.byteOffset == 0 {
      NoRecordsAtZero(env, p.context.records);
    }
  }

  lemma NoRecordsAtZero(env: Env, records: Context)
    requires AllStand(env, records, 0)
    ensures records == map[]
  {
    forall r: ContextRecord ensures !Stands(env, r, 0) {
    }
    assert records.Keys == {};
  }

  /** Codex needs no condition on its records: any turn a boundary closed resumes. */
  lemma CodexResumes(env: Env, s0: State, from: nat, end: nat, i: nat, closeTrailingOnIdle: bool)
    requires IsCodex(env.format) && Proper(env, s0, from) && from <= end <= |env.file|
    requires i < |Run(env, s0, Frame(env.file, from, end).lines).turns|
    ensures var full := Run(env, s0, Frame(env.file, from, end).lines);
            var p := full.turns[i];
            && from <= p.cursor.byteOffset <= end
            && TurnResume.Continues(env, full, Run(env, ResumeAt(env, p), Frame(env.file, p.cursor.byteOffset, end).lines),
                                    i + 1, closeTrailingOnIdle)
  {
    CodexHarmless(env, Frame(env.file, from, end).lines);
    ResumingEqualsNotStopping(env, s0, from, end, i, closeTrailingOnIdle);
  }
}

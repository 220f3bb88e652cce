/** Turn assembly: the record-by-record state of `parseTurns`
    (src/adapters/base.ts) and the functions that move it. */
module Turns {
  import opened Framing
  import opened Reading

  // ------------------------------------------------------------------ records

  datatype Field = Cwd | Surface | Branch

  datatype Phase = Started | Completed | Failed | Aborted

  datatype Signal = Signal(phase: Phase, id: Option<string>)

  datatype LineClass = Boundary | Content | Skip

  /** Which record opens a user turn; decided once per transcript. */
  datatype UserBoundary = EventMsg | ResponseItem

  /** The part of a record's shape that classification reads. */
  datatype Role = EventPrompt | ResponsePrompt | Prompt | Assistant | ToolUse | Other

  /** One parsed record: the values its hooks return, and `payload` for whatever
      else folding reads. `context` holds only non-empty values. */
  datatype Entry = Entry(context: map<Field, string>, marker: bool, external: bool, title: Option<string>,
                         timestamp: Option<string>, signal: Option<Signal>, role: Role, payload: Bytes)

  /** Undecided keeps the response envelope. */
  function Classify(decided: Option<UserBoundary>, role: Role): LineClass {
    match role
    case EventPrompt => if decided == Some(EventMsg) then Boundary else Skip
    case ResponsePrompt => if decided == Some(EventMsg) then Skip else Boundary
    case Prompt => Boundary
    case Assistant => Content
    case ToolUse => Content
    case Other => Skip
  }

  // -------------------------------------------------------------------- turns

  /** What has been folded into a turn, in order. Every content field of the
      turn is a function of this sequence. */
  datatype Event = Observed(entry: Entry) | Folded(entry: Entry, context: map<Field, string>)

  datatype FailedAt = FailedAt(recordTime: Option<string>, turnEnd: Option<string>)

  datatype Life = Life(started: bool, id: Option<string>, finished: bool, aborted: bool, failedAt: Option<FailedAt>)

  datatype Turn = Turn(body: seq<Event>, context: map<Field, string>, startedAt: Option<string>, endedAt: Option<string>,
                       title: Option<string>, external: bool, markerBefore: bool, life: Life)

  datatype Drop = Sentinel | Unscanned | ElephaMcp | Empty

  /** The verdicts of the folded content: nothing worth a turn, raw report input
      guarded, index kept when empty, Elepha MCP coverage refused, the drop it
      calls for, and whether quiet time may close it. */
  datatype Verdict = Verdict(empty: bool, guarded: bool, keepsIndex: bool, uncovered: bool, drop: Option<Drop>,
                             ready: bool, bare: bool)

  /** An adapter: how record text decodes, how content is judged, the digest in
      use, and whether it decides its user boundary from the records. Nothing is
      assumed about any of them. */
  datatype Format = Format(decode: Bytes -> Option<Entry>, judge: seq<Event> -> Verdict, hash: Hash, decides: bool)

  datatype ContextRecord = ContextRecord(field: Field, offset: nat, length: nat, digest: string) {
    function End(): nat { offset + length }
  }

  type Context = map<Field, ContextRecord>

  datatype ResumeContext = ResumeContext(records: Context, decided: Option<UserBoundary>)

  datatype Cursor = Cursor(byteOffset: nat, nextTurnIndex: nat, fingerprint: string)

  datatype ParsedTurn = ParsedTurn(index: nat, turn: Turn, cursor: Cursor, context: ResumeContext,
                                   dropped: Option<Drop>, provisional: bool)

  // ----------------------------------------------------------- pending context

  /** The last record of `field` in `records` that ends at or before `cutoff`. */
  function LastOf(records: seq<ContextRecord>, field: Field, cutoff: nat): (r: Option<ContextRecord>)
    ensures r.Some? ==> r.value in records && r.value.field == field && r.value.End() <= cutoff
  {
    if records == [] then None
    else
      var last := records[|records| - 1];
      if last.field == field && last.End() <= cutoff then Some(last)
      else LastOf(records[..|records| - 1], field, cutoff)
  }

  function Without(records: seq<ContextRecord>, field: Field): seq<ContextRecord> {
    if records == [] then []
    else
      var init, last := Without(records[..|records| - 1], field), records[|records| - 1];
      if last.field == field then init else init + [last]
  }

  function EndingAfter(records: seq<ContextRecord>, offset: nat): seq<ContextRecord> {
    if records == [] then []
    else
      var init, last := EndingAfter(records[..|records| - 1], offset), records[|records| - 1];
      if last.End() > offset then init + [last] else init
  }

  /** A delayed lifecycle boundary needs the latest context on either side, never
      every repeated header: keep the last record ending at or before `cutoff`
      and the new one. */
  function Retain(pending: seq<ContextRecord>, cutoff: nat, record: ContextRecord): seq<ContextRecord> {
    var before := LastOf(pending, record.field, cutoff);
    Without(pending, record.field) + (if before.Some? then [before.value] else []) + [record]
  }

  /** Commits every pending record ending at or before `offset`, in order. */
  function Commit(committed: Context, pending: seq<ContextRecord>, offset: nat): Context {
    if pending == [] then committed
    else
      var init, last := Commit(committed, pending[..|pending| - 1], offset), pending[|pending| - 1];
      if last.End() <= offset then init[last.field := last] else init
  }

  // ----------------------------------------------------------------- the state

  datatype Start = Start(id: Option<string>, byteStart: nat)

  /** The locals of a parse between two records. `base` and `seen` are history:
      the context the parse began with and every context record since. */
  datatype State = State(base: Context, seen: seq<ContextRecord>, committed: Context, pending: seq<ContextRecord>,
                         values: map<Field, string>, marker: bool, turn: Option<Turn>, start: Option<Start>,
                         next: nat, lastEnd: Option<nat>, turns: seq<ParsedTurn>, failed: bool)

  /** What stays fixed over a parse. */
  datatype Env = Env(format: Format, file: Bytes, decided: Option<UserBoundary>, sessionTitle: Option<string>)

  function Begin(next: nat, records: Context, values: map<Field, string>): State {
    State(records, [], records, [], values, false, None, None, next, None, [], false)
  }

  function RecordOf(env: Env, line: Line, field: Field): ContextRecord {
    ContextRecord(field, line.byteStart, if line.byteEnd <= line.byteStart then 0 else line.byteEnd - line.byteStart,
                  env.format.hash(line.text))
  }

  function NoteField(env: Env, s: State, line: Line, entry: Entry, field: Field): State {
    if field !in entry.context then s
    else
      var record := RecordOf(env, line, field);
      var cutoff := if s.start.Some? then s.start.value.byteStart else line.byteStart;
      s.(pending := Retain(s.pending, cutoff, record), seen := s.seen + [record])
  }

  function NoteContext(env: Env, s: State, line: Line, entry: Entry): State {
    var noted := NoteField(env, NoteField(env, NoteField(env, s, line, entry, Cwd), line, entry, Surface), line, entry, Branch);
    noted.(values := s.values + entry.context)
  }

  /** External fetches and titles belong to the turn already open. */
  function NoteTurn(turn: Option<Turn>, entry: Entry): Option<Turn> {
    if turn.None? then None
    else Some(turn.value.(external := turn.value.external || entry.external,
                          title := if entry.title.Some? then entry.title else turn.value.title))
  }

  /** A lifecycle signal: a start is latched for the turn the next boundary
      opens; an end applies to the open turn when it matches. */
  function ApplySignal(turn: Option<Turn>, start: Option<Start>, line: Line, entry: Entry): (Option<Turn>, Option<Start>) {
    if entry.signal.None? then (turn, start)
    else
      var signal := entry.signal.value;
      if signal.phase == Started then (turn, Some(Start(signal.id, line.byteStart)))
      else if turn.None? then (turn, start)
      else
        var t, matches := turn.value, start.Some? && start.value.id == signal.id;
        if signal.phase == Failed then
          if matches || !t.life.started || t.life.id == signal.id
          then (Some(t.(life := Life(true, signal.id, false, false, Some(FailedAt(entry.timestamp, t.endedAt))))),
                if matches then None else start)
          else (turn, start)
        else if matches then (Some(t.(life := Life(true, signal.id, true, signal.phase == Aborted, None))), None)
        else if t.life.started && t.life.id.Some? && signal.id == t.life.id
        then (Some(t.(life := t.life.(finished := true, aborted := signal.phase == Aborted, failedAt := None))), start)
        else (turn, start)
  }

  /** The first content after a pending start proves a retry of the open turn. */
  function LatchRetry(turn: Option<Turn>, start: Option<Start>, class_: LineClass): (Option<Turn>, Option<Start>) {
    if start.Some? && turn.Some? && class_ == Content
    then (Some(turn.value.(life := Life(true, start.value.id, false, false, None))), None)
    else (turn, start)
  }

  function Observe(turn: Option<Turn>, entry: Entry): Option<Turn> {
    if turn.None? then None else Some(turn.value.(body := turn.value.body + [Observed(entry)]))
  }

  /** How a record moves the open turn and the pending start. */
  function Flow(env: Env, turn: Option<Turn>, start: Option<Start>, line: Line, entry: Entry): (Option<Turn>, Option<Start>) {
    var (turn', start') := ApplySignal(NoteTurn(turn, entry), start, line, entry);
    var (turn'', start'') := LatchRetry(turn', start', Classify(env.decided, entry.role));
    (Observe(turn'', entry), start'')
  }

  /** Everything a record does before its class is acted on. */
  function Prepare(env: Env, s: State, line: Line, entry: Entry): State {
    var noted := NoteContext(env, s, line, entry);
    var (turn, start) := Flow(env, s.turn, s.start, line, entry);
    noted.(turn := turn, start := start, marker := s.marker || entry.marker)
  }

  /** `parsedTurn`: numbers the turn, fixes its cursor and commits its context.
      A turn whose Elepha MCP coverage is refused ends the parse instead. */
  function Emit(env: Env, s: State, turn: Turn, offset: nat, dropped: Option<Drop>, provisional: bool): State {
    var verdict := env.format.judge(turn.body);
    var records := Commit(s.committed, s.pending, offset);
    var cursor := Cursor(offset, s.next + 1, Fingerprint(env.format.hash, env.file, offset));
    var parsed := ParsedTurn(s.next, turn, cursor, ResumeContext(records, env.decided), dropped, provisional);
    var refused := verdict.uncovered && !verdict.guarded;
    s.(next := s.next + 1, committed := records, pending := EndingAfter(s.pending, offset),
       turns := if refused then s.turns else s.turns + [parsed], failed := refused)
  }

  /** Where a turn closed by the boundary `line` ends: before a pending start. */
  function CloseOffset(start: Option<Start>, line: Line): nat {
    if start.Some? then start.value.byteStart else line.byteStart
  }

  /** Does closing `turn` emit it? */
  predicate Emits(env: Env, turn: Option<Turn>) {
    turn.Some? && var v := env.format.judge(turn.value.body); !v.empty || v.guarded || v.keepsIndex
  }

  function CloseDrop(env: Env, turn: Turn): Option<Drop> {
    var v := env.format.judge(turn.body);
    if (!v.empty || v.guarded) || v.drop.Some? then v.drop else Some(Empty)
  }

  function Opened(env: Env, s: State): Turn {
    Turn([], map[], None, None, env.sessionTitle, false, s.marker,
         if s.start.Some? then Life(true, s.start.value.id, false, false, None) else Life(false, None, false, false, None))
  }

  /** A boundary closes the open turn and opens the next one. */
  function OpenNext(env: Env, s: State, line: Line): State {
    var closed := if Emits(env, s.turn)
                  then Emit(env, s, s.turn.value, CloseOffset(s.start, line), CloseDrop(env, s.turn.value), false)
                  else s;
    closed.(turn := Some(Opened(env, s)), start := None, marker := false)
  }

  function Fold(s: State, entry: Entry): State {
    if s.turn.None? then s
    else
      var t := s.turn.value;
      var time := entry.timestamp;
      s.(turn := Some(t.(context := s.values,
                         startedAt := if t.startedAt.None? then time else t.startedAt,
                         endedAt := if time.Some? then time else t.endedAt,
                         body := t.body + [Folded(entry, s.values)])))
  }

  /** What a prepared record does by its class. */
  function Act(env: Env, s: State, line: Line, entry: Entry): State {
    match Classify(env.decided, entry.role)
    case Skip => s
    case Content => Fold(s, entry)
    case Boundary =>
      var following := OpenNext(env, s, line);
      if following.failed then following else Fold(following, entry)
  }

  /** One complete record. */
  function Accept(env: Env, s: State, line: Line): State {
    if s.failed then s
    else
      var entry := env.format.decode(line.text);
      var at := s.(lastEnd := Some(line.byteEnd));
      if entry.None? then at else Act(env, Prepare(env, at, line, entry.value), line, entry.value)
  }

  /** Quiet time closes the open turn once its lifecycle, if any, has ended. */
  predicate ClosesIdle(env: Env, s: State) {
    && !s.failed && s.turn.Some? && s.lastEnd.Some?
    && (!s.turn.value.life.started || s.turn.value.life.finished)
    && (s.turn.value.life.aborted || env.format.judge(s.turn.value.body).ready)
  }

  function IdleDrop(env: Env, turn: Turn): Option<Drop> {
    var v := env.format.judge(turn.body);
    if v.drop.None? && turn.life.aborted && v.bare then Some(Empty) else v.drop
  }

  function Finish(env: Env, s: State, closeTrailingOnIdle: bool): State {
    if closeTrailingOnIdle && ClosesIdle(env, s)
    then Emit(env, s, s.turn.value, s.lastEnd.value, IdleDrop(env, s.turn.value), !s.turn.value.life.started)
    else s
  }

  // -------------------------------------------------------------- a whole parse

  /** The state after the records `lines`. */
  function Run(env: Env, s: State, lines: seq<Line>): State {
    if lines == [] then s else Accept(env, Run(env, s, lines[..|lines| - 1]), lines[|lines| - 1])
  }
}

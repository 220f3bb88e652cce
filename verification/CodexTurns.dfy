/** What Codex's own records make of a turn (src/adapters/codex.ts): which of them
    open one, belong to it, start and end its attempts, and set its context. */
module CodexTurns {
  import opened Framing
  import opened Reading
  import opened Turns
  import opened TurnRuns
  import opened TurnContents
  import opened TurnLives
  import opened Codex

  type Parser = Bytes -> Option<CodexRecord>

  ghost predicate Reads(env: Env, parse: Parser) {
    env.format == AdapterFor(parse, env.format.judge, env.format.hash)
  }

  predicate Shows(parse: Parser, line: Line, shown: CodexLine) {
    parse(line.text).Some? && parse(line.text).value.line == shown
  }

  /** A prompt opens a turn in the one envelope the transcript was decided for; what the
      assistant says or calls belongs to it, the environment message marks it. */
  lemma CodexTurnRecords(env: Env, parse: Parser, line: Line)
    requires Reads(env, parse)
    ensures Opens(env, line) <==>
              if env.decided == Some(EventMsg) then Shows(parse, line, EventRecord(UserMessage))
              else Shows(parse, line, ResponseRecord(UserMessageItem(false)))
    ensures Contributes(env, line) <==>
              || Shows(parse, line, ResponseRecord(AssistantMessage)) || Shows(parse, line, ResponseRecord(FunctionCall))
              || Shows(parse, line, ResponseRecord(CustomToolCall))
    ensures Marks(env, line) <==> Shows(parse, line, ResponseRecord(UserMessageItem(true)))
    ensures env.format.decode(line.text).Some? ==>
              && (env.format.decode(line.text).value.external <==> Shows(parse, line, ResponseRecord(WebSearchCall)))
              && env.format.decode(line.text).value.timestamp == parse(line.text).value.timestamp
  {
  }

  /** What the tracker of user boundaries goes by. */
  lemma CodexEnvelopes(env: Env, parse: Parser, line: Line)
    requires Reads(env, parse) && env.format.decode(line.text).Some?
    ensures var role := env.format.decode(line.text).value.role;
            && (role == EventPrompt <==> Shows(parse, line, EventRecord(UserMessage)))
            && (role == ResponsePrompt <==> Shows(parse, line, ResponseRecord(UserMessageItem(false))))
            && (role == Assistant <==> Shows(parse, line, ResponseRecord(AssistantMessage)))
  {
  }

  /** Which records start, end, fail and abort an attempt, and by which id. */
  lemma CodexSignals(env: Env, parse: Parser, line: Line, id: Option<string>)
    requires Reads(env, parse)
    ensures SignalAt(env, line) == Some(Signal(Started, id)) <==> Shows(parse, line, EventRecord(TaskStarted(id)))
    ensures SignalAt(env, line) == Some(Signal(Completed, id)) <==> Shows(parse, line, EventRecord(TaskComplete(id, false)))
    ensures SignalAt(env, line) == Some(Signal(Failed, id)) <==> Shows(parse, line, EventRecord(TaskComplete(id, true)))
    ensures SignalAt(env, line) == Some(Signal(Aborted, id)) <==> Shows(parse, line, EventRecord(TurnAborted(id)))
  {
  }

  /** A record that ends an attempt without failing it. */
  predicate EndsTask(parse: Parser, line: Line) {
    var record := parse(line.text);
    && record.Some? && record.value.line.EventRecord?
    && match record.value.line.event
       case TaskComplete(_, error) => !error
       case TurnAborted(_) => true
       case _ => false
  }

  /** A Codex turn whose prompt stands behind its task_started stays open, however long
      it is quiet, until a task_complete without error or a turn_aborted is recorded. */
  lemma CodexTurnStaysOpen(env: Env, parse: Parser, s0: State, lines: seq<Line>, b: nat, k: nat)
    requires Reads(env, parse) && s0 == Begin(s0.next, s0.base, s0.values) && !Run(env, s0, lines).failed
    requires LastOpening(env, lines, b) && StartFor(env, lines, b, k)
    requires forall m | b < m < |lines| :: !EndsTask(parse, lines[m])
    ensures !ClosesIdle(env, Run(env, s0, lines))
  {
    hide Run;
    hide ClosesIdle;
    hide StartFor;
    forall m | b < m < |lines| ensures !EndsOneSince(env, lines, k, m) {
      NoTaskEnd(env, parse, lines[m]);
    }
    StartedAttemptBarsQuietTime(env, s0, lines, b, k);
  }

  lemma NoTaskEnd(env: Env, parse: Parser, line: Line)
    requires Reads(env, parse) && !EndsTask(parse, line)
    ensures !EndsAttempt(SignalAt(env, line))
  {
    var record := parse(line.text);
    if record.Some? {
      assert env.format.decode(line.text) == Some(EntryOf(record.value, line.text));
    }
  }

  // --------------------------------------------------------------------- its context

  /** The value a record gives a field: never an empty one. */
  function Given(parse: Parser, line: Line, field: Field): Option<string> {
    var record := parse(line.text);
    if record.None? then None
    else
      var value :=
        match record.value.line
        case SessionMeta(cwd, originator, branch) => (match field case Cwd => cwd case Surface => originator case Branch => branch)
        case TurnContextLine(cwd) => if field == Cwd then cwd else None
        case _ => None;
      if value == Some("") then None else value
  }

  /** The last value given. */
  function LastGiven(parse: Parser, lines: seq<Line>, field: Field): Option<string> {
    if lines == [] then None
    else
      var given := Given(parse, lines[|lines| - 1], field);
      if given.Some? then given else LastGiven(parse, lines[..|lines| - 1], field)
  }

  lemma GivenIs(env: Env, parse: Parser, line: Line, field: Field)
    requires Reads(env, parse)
    ensures var entry := env.format.decode(line.text);
            Given(parse, line, field)
            == if entry.Some? && field in entry.value.context then Some(entry.value.context[field]) else None
  {
    var record := parse(line.text);
    if record.Some? {
      assert env.format.decode(line.text) == Some(EntryOf(record.value, line.text));
      match field {
        case Cwd =>
        case Surface =>
        case Branch =>
      }
    }
  }

  /** The directory, surface and branch in force are the last ones given. */
  lemma {:induction false} CodexContext(env: Env, parse: Parser, lines: seq<Line>, field: Field)
    requires Reads(env, parse)
    ensures var values := ValuesAfter(env, map[], lines);
            LastGiven(parse, lines, field) == if field in values then Some(values[field]) else None
    decreases |lines|
  {
    hide Given;
    hide Reads;
    if lines != [] {
      CodexContext(env, parse, lines[..|lines| - 1], field);
      GivenIs(env, parse, lines[|lines| - 1], field);
    }
  }
}

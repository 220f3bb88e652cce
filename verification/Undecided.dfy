/** Turns closed before a Codex transcript has shown which envelope its prompts are
    written in (src/adapters/codex.ts), and what is left of them once it has. */
module Undecided {
  import opened Framing
  import opened Reading
  import opened Turns
  import opened TurnContext
  import opened TurnRuns
  import opened TurnGrowth
  import opened Derivation
  import opened Codex

  /** The same turns, issued under another decision. */
  function Redecided(turns: seq<ParsedTurn>, decided: Option<UserBoundary>): seq<ParsedTurn> {
    seq(|turns|, i requires 0 <= i < |turns| => turns[i].(context := turns[i].context.(decided := decided)))
  }

  function AsDecided(s: State, decided: Option<UserBoundary>): State {
    s.(turns := Redecided(s.turns, decided))
  }

  ghost predicate SameClasses(a: Option<UserBoundary>, b: Option<UserBoundary>) {
    forall role :: Classify(a, role) == Classify(b, role)
  }

  lemma EmitRedecided(env: Env, decided: Option<UserBoundary>, s: State, turn: Turn, offset: nat, dropped: Option<Drop>)
    ensures Emit(env.(decided := decided), AsDecided(s, decided), turn, offset, dropped, false)
         == AsDecided(Emit(env, s, turn, offset, dropped, false), decided)
  {
    hide Commit;
    hide EndingAfter;
    hide Fingerprint;
    var t := Emit(env, s, turn, offset, dropped, false);
    assert |t.turns| > |s.turns| ==>
        Redecided(t.turns, decided) == Redecided(s.turns, decided) + Redecided([t.turns[|s.turns|]], decided);
  }

  lemma NoteRedecided(env: Env, decided: Option<UserBoundary>, s: State, line: Line, entry: Entry)
    ensures NoteContext(env.(decided := decided), AsDecided(s, decided), line, entry)
         == AsDecided(NoteContext(env, s, line, entry), decided)
  {
    hide Retain;
    forall t: State, field: Field
      ensures NoteField(env.(decided := decided), AsDecided(t, decided), line, entry, field)
           == AsDecided(NoteField(env, t, line, entry, field), decided)
    {
    }
  }

  lemma PrepareRedecided(env: Env, decided: Option<UserBoundary>, s: State, line: Line, entry: Entry)
    requires SameClasses(env.decided, decided)
    ensures Prepare(env.(decided := decided), AsDecided(s, decided), line, entry)
         == AsDecided(Prepare(env, s, line, entry), decided)
  {
    hide NoteContext;
    hide ApplySignal;
    hide LatchRetry;
    hide NoteTurn;
    hide Redecided;
    NoteRedecided(env, decided, s, line, entry);
  }

  lemma OpenNextRedecided(env: Env, decided: Option<UserBoundary>, s: State, line: Line)
    ensures OpenNext(env.(decided := decided), AsDecided(s, decided), line) == AsDecided(OpenNext(env, s, line), decided)
  {
    hide Emit;
    hide Redecided;
    if Emits(env, s.turn) {
      EmitRedecided(env, decided, s, s.turn.value, CloseOffset(s.start, line), CloseDrop(env, s.turn.value));
    }
  }

  lemma AcceptRedecided(env: Env, decided: Option<UserBoundary>, s: State, line: Line)
    requires SameClasses(env.decided, decided)
    ensures Accept(env.(decided := decided), AsDecided(s, decided), line) == AsDecided(Accept(env, s, line), decided)
  {
    hide Prepare;
    hide OpenNext;
    hide Redecided;
    var decoded := env.format.decode(line.text);
    if !s.failed && decoded.Some? {
      var at := s.(lastEnd := Some(line.byteEnd));
      PrepareRedecided(env, decided, at, line, decoded.value);
      OpenNextRedecided(env, decided, Prepare(env, at, line, decoded.value), line);
    }
  }

  /** Decisions that classify alike give the same turns, up to the decision noted. */
  lemma {:induction false} RunRedecided(env: Env, decided: Option<UserBoundary>, s: State, lines: seq<Line>)
    requires SameClasses(env.decided, decided)
    ensures Run(env.(decided := decided), AsDecided(s, decided), lines) == AsDecided(Run(env, s, lines), decided)
    decreases |lines|
  {
    hide Accept;
    hide SameClasses;
    if lines != [] {
      RunRedecided(env, decided, s, lines[..|lines| - 1]);
      AcceptRedecided(env, decided, Run(env, s, lines[..|lines| - 1]), lines[|lines| - 1]);
    }
  }

  // ------------------------------------------------------------------ nothing opens

  ghost predicate OpensNone(env: Env, lines: seq<Line>) {
    forall line | line in lines :: env.format.decode(line.text).Some? ==>
      Classify(env.decided, env.format.decode(line.text).value.role) != Boundary
  }

  lemma AcceptOpensNone(env: Env, s: State, line: Line)
    requires s.turn.None? && OpensNone(env, [line])
    ensures Accept(env, s, line).turn.None? && Accept(env, s, line).turns == s.turns
  {
    hide NoteContext;
    var decoded := env.format.decode(line.text);
    assert line in [line];
    if !s.failed && decoded.Some? {
      NoteContextKeeps(env, s.(lastEnd := Some(line.byteEnd)), line, decoded.value);
    }
  }

  lemma {:induction false} RunOpensNone(env: Env, s: State, lines: seq<Line>)
    requires s.turn.None? && OpensNone(env, lines)
    ensures Run(env, s, lines).turn.None? && Run(env, s, lines).turns == s.turns
    decreases |lines|
  {
    hide Accept;
    if lines != [] {
      RunOpensNone(env, s, lines[..|lines| - 1]);
      AcceptOpensNone(env, Run(env, s, lines[..|lines| - 1]), lines[|lines| - 1]);
    }
  }

  /** A turn that has still to open closes behind `at`. */
  ghost predicate Later(s: State, at: nat) {
    && (forall p | p in s.turns :: p.cursor.byteOffset >= at)
    && (s.turn.Some? && s.start.Some? ==> s.start.value.byteStart >= at)
  }

  lemma OpenNextLater(env: Env, s: State, line: Line, at: nat)
    requires Later(s, at) && at <= line.byteStart
    ensures Later(OpenNext(env, s, line), at)
  {
    hide Commit;
    hide EndingAfter;
    hide Fingerprint;
  }

  lemma FoldLater(s: State, entry: Entry, at: nat)
    requires Later(s, at)
    ensures Later(Fold(s, entry), at)
  {
  }

  lemma AcceptLater(env: Env, s: State, line: Line, at: nat)
    requires Later(s, at) && at <= line.byteStart
    ensures Later(Accept(env, s, line), at)
  {
    hide Prepare;
    hide OpenNext;
    hide Fold;
    var decoded := env.format.decode(line.text);
    if !s.failed && decoded.Some? {
      var at' := s.(lastEnd := Some(line.byteEnd));
      var ready := Prepare(env, at', line, decoded.value);
      NoteContextKeeps(env, at', line, decoded.value);
      PrepareContext(env, at', line, decoded.value);
      PrepareFlow(env, at', line, decoded.value);
      assert Later(ready, at);
      FoldLater(ready, decoded.value, at);
      OpenNextLater(env, ready, line, at);
      FoldLater(OpenNext(env, ready, line), decoded.value, at);
    }
  }

  lemma {:induction false} RunLater(env: Env, s: State, lines: seq<Line>, at: nat)
    requires Later(s, at) && forall line | line in lines :: at <= line.byteStart
    ensures Later(Run(env, s, lines), at)
    decreases |lines|
  {
    hide Accept;
    hide Later;
    if lines != [] {
      RunLater(env, s, lines[..|lines| - 1], at);
      AcceptLater(env, Run(env, s, lines[..|lines| - 1]), lines[|lines| - 1], at);
    }
  }

  // ---------------------------------------------------------- when a decision arrives

  lemma {:induction false} NoEventYet(format: Format, lines: seq<Line>, line: Line)
    requires TrackAll(format, lines).boundary.None? && line in lines
    ensures format.decode(line.text).Some? ==> format.decode(line.text).value.role != EventPrompt
    decreases |lines|
  {
    var init, last := lines[..|lines| - 1], lines[|lines| - 1];
    assert TrackAll(format, init).boundary.None?;
    if line != last {
      assert line in init;
      NoEventYet(format, init, line);
    }
  }

  /** No Codex record is a prompt outside the two envelopes. */
  lemma TwoEnvelopes(format: Format, text: Bytes)
    requires IsCodex(format)
    ensures format.decode(text).Some? ==> format.decode(text).value.role != Prompt
  {
    var parse: Bytes -> Option<CodexRecord> :| format == AdapterFor(parse, format.judge, format.hash);
    var record := parse(text);
    assert format.decode(text) == if record.None? then None else Some(EntryOf(record.value, text));
  }

  function TurnsOf(env: Env): seq<ParsedTurn> {
    Run(env, Begin(0, map[], map[]), Frame(env.file, 0, |env.file|).lines).turns
  }

  /** The parse's decision from the whole file, as it was and as it has grown. */
  ghost predicate Decided(env: Env) {
    env.decided == Decision(env.format, Frame(env.file, 0, |env.file|).lines)
  }

  lemma {:induction false} RunAppend(env: Env, s: State, lines: seq<Line>, more: seq<Line>)
    ensures Run(env, s, lines + more) == Run(env, Run(env, s, lines), more)
    decreases |more|
  {
    hide Accept;
    if more == [] {
      assert lines + more == lines;
    } else {
      var init, last := more[..|more| - 1], more[|more| - 1];
      RunAppend(env, s, lines, init);
      assert lines + more == (lines + init) + [last];
      assert (lines + more)[..|lines + more| - 1] == lines + init;
    }
  }

  lemma ChainLater(file: Bytes, lines: seq<Line>, at: nat, grown: Bytes, more: seq<Line>, to: nat)
    requires Chain(file, 0, lines, at) && Chain(grown, 0, more, to) && lines <= more
    ensures forall line | line in more[|lines|..] :: at <= line.byteStart
  {
    forall line | line in more[|lines|..] ensures at <= line.byteStart {
      var k :| |lines| <= k < |more| && more[k] == line;
      if lines != [] {
        ChainStarts(grown, 0, more, to, |lines| - 1, k);
        assert more[|lines| - 1] == lines[|lines| - 1];
      }
    }
  }

  /** Turns that a transcript still undecided has closed are gone once it decides for the
      event envelope: the first turn then begins behind all it held. */
  lemma EventDecisionStartsOver(env: Env, grown: Env, more: Bytes)
    requires IsCodex(env.format) && Decided(env) && env.decided.None? && env.format.decides
    requires grown == env.(file := env.file + more, decided := Some(EventMsg))
    requires TurnsOf(env) != []
    ensures !(Redecided(TurnsOf(env), Some(EventMsg)) <= TurnsOf(grown))
  {
    hide Run;
    hide Frame;
    hide IsCodex;
    hide Later;
    hide Chain;
    hide Redecided;
    var f, g := Frame(env.file, 0, |env.file|), Frame(grown.file, 0, |grown.file|);
    var s0, at := Begin(0, map[], map[]), f.end.from;
    FrameGrows(env.file, more, 0, |env.file|, |grown.file|);
    FramePartitions(env.file, 0, |env.file|);
    FramePartitions(grown.file, 0, |grown.file|);
    RunNumbered(env, s0, 0, f.lines, at);
    EventOpensNone(env, grown, f.lines);
    RunOpensNone(grown, s0, f.lines);
    var s := Run(grown, s0, f.lines);
    assert Later(s, at) by { NothingIsLater(s, at); }
    ChainLater(env.file, f.lines, at, grown.file, g.lines, g.end.from);
    RunLater(grown, s, g.lines[|f.lines|..], at);
    RunAppend(grown, s0, f.lines, g.lines[|f.lines|..]);
    assert g.lines == f.lines + g.lines[|f.lines|..];
    NotAPrefix(TurnsOf(env), TurnsOf(grown), Run(grown, s0, g.lines), at);
  }

  lemma NothingIsLater(s: State, at: nat)
    requires s.turns == [] && s.turn.None?
    ensures Later(s, at)
  {
  }

  lemma EventOpensNone(env: Env, grown: Env, lines: seq<Line>)
    requires IsCodex(env.format) && grown.format == env.format && grown.decided == Some(EventMsg)
    requires TrackAll(env.format, lines).boundary.None?
    ensures OpensNone(grown, lines)
  {
    forall line | line in lines
      ensures grown.format.decode(line.text).Some? ==>
                Classify(grown.decided, grown.format.decode(line.text).value.role) != Boundary
    {
      NoEventYet(env.format, lines, line);
      TwoEnvelopes(env.format, line.text);
    }
  }

  lemma NotAPrefix(short: seq<ParsedTurn>, long: seq<ParsedTurn>, s: State, at: nat)
    requires short != [] && short[0].cursor.byteOffset < at && s.turns == long && Later(s, at)
    ensures !(Redecided(short, Some(EventMsg)) <= long)
  {
    if long != [] {
      assert long[0] in s.turns;
    }
  }

  /** Growth with the decision read anew each time, as a parse from the start does. The
      turns a file has closed stay, up to the decision they note, if and only if none had
      been closed or the file does not turn from undecided to the event envelope. */
  lemma DecidingKeepsTurns(env: Env, grown: Env, more: Bytes)
    requires IsCodex(env.format) && env.format.decides && Decided(env) && Decided(grown)
    requires grown == env.(file := env.file + more, decided := grown.decided)
    ensures env.decided.Some? ==> grown.decided == env.decided
    ensures Redecided(TurnsOf(env), grown.decided) <= TurnsOf(grown)
            <==> TurnsOf(env) == [] || env.decided.Some? || grown.decided != Some(EventMsg)
  {
    hide Run;
    hide Frame;
    hide IsCodex;
    var f, g := Frame(env.file, 0, |env.file|), Frame(grown.file, 0, |grown.file|);
    FrameGrows(env.file, more, 0, |env.file|, |grown.file|);
    if env.decided.Some? {
      DecisionStays(env.format, f.lines, g.lines[|f.lines|..]);
      assert g.lines == f.lines + g.lines[|f.lines|..];
    }
    if TurnsOf(env) == [] {
    } else if env.decided.None? && grown.decided == Some(EventMsg) {
      EventDecisionStartsOver(env, grown, more);
    } else {
      SameTurns(env, grown, more);
    }
  }

  lemma SameTurns(env: Env, grown: Env, more: Bytes)
    requires grown == env.(file := env.file + more, decided := grown.decided)
    requires SameClasses(env.decided, grown.decided)
    ensures Redecided(TurnsOf(env), grown.decided) <= TurnsOf(grown)
  {
    hide Run;
    hide Frame;
    var s0, again := Begin(0, map[], map[]), env.(decided := grown.decided);
    assert AsDecided(s0, grown.decided) == s0;
    RunRedecided(env, grown.decided, s0, Frame(env.file, 0, |env.file|).lines);
    ClosedTurnsStayClosed(again, more, s0, 0, |env.file|, |grown.file|);
  }

  // ------------------------------------------------------------ a transcript that does

  function TwoPrompts(text: Bytes): Option<CodexRecord> {
    if text == [1] then Some(CodexRecord(None, ResponseRecord(UserMessageItem(false))))
    else if text == [2] then Some(CodexRecord(None, EventRecord(UserMessage)))
    else None
  }

  /** Two prompts in the response envelope, and then one in the event envelope. */
  const PROMPTS: Bytes := [1, 10, 1, 10]
  const EVENT: Bytes := [2, 10]
  const PROMPT_LINES: seq<Line> := [Line([1], 0, 2), Line([1], 2, 4)]
  const ALL_LINES: seq<Line> := [Line([1], 0, 2), Line([1], 2, 4), Line([2], 4, 6)]

  function PromptEnv(): Env { Env(AdapterFor(TwoPrompts, _ => QUIET, _ => ""), PROMPTS, None, None) }

  lemma PromptRecord(k: nat)
    requires k < 3
    ensures k < 2 ==> RecordAt(PROMPTS, PROMPT_LINES[k]) && PROMPT_LINES[k].byteStart == 2 * k && PROMPT_LINES[k].byteEnd == 2 * k + 2
    ensures RecordAt(PROMPTS + EVENT, ALL_LINES[k]) && ALL_LINES[k].byteStart == 2 * k && ALL_LINES[k].byteEnd == 2 * k + 2
  {
    var all := PROMPTS + EVENT;
    assert all[2 * k] == ALL_LINES[k].text[0] && all[2 * k + 1] == 10;
    assert all[2 * k..2 * k + 1] == [all[2 * k]];
    assert k < 2 ==> PROMPTS[2 * k..2 * k + 1] == [PROMPTS[2 * k]];
  }

  lemma PromptsFrame()
    ensures Frame(PROMPTS, 0, 4).lines == PROMPT_LINES
  {
    hide RecordAt;
    hide Clear;
    PromptRecord(0);
    PromptRecord(1);
    ChainFrame(PROMPTS, 0, PROMPT_LINES, 4, 4);
    EndsThere(PROMPTS);
    assert PROMPT_LINES + [] == PROMPT_LINES;
  }

  lemma AllFrame()
    ensures Frame(PROMPTS + EVENT, 0, 6).lines == ALL_LINES
  {
    hide RecordAt;
    hide Clear;
    PromptRecord(0);
    PromptRecord(1);
    PromptRecord(2);
    ChainFrame(PROMPTS + EVENT, 0, ALL_LINES, 6, 6);
    EndsThere(PROMPTS + EVENT);
    assert ALL_LINES + [] == ALL_LINES;
  }

  lemma EndsThere(file: Bytes)
    ensures Frame(file, |file|, |file|) == Framed([], Rest(|file|))
  {
    FrameEnd(file, Rest(|file|), |file|);
  }

  lemma PromptsDecode()
    ensures var decode := PromptEnv().format.decode;
            && decode([1]) == Some(EntryOf(CodexRecord(None, ResponseRecord(UserMessageItem(false))), [1]))
            && decode([2]) == Some(EntryOf(CodexRecord(None, EventRecord(UserMessage)), [2]))
  {
    assert TwoPrompts([1]).Some? && TwoPrompts([2]).Some?;
  }

  lemma PromptsDecide()
    ensures Decision(PromptEnv().format, PROMPT_LINES).None? && Decision(PromptEnv().format, ALL_LINES) == Some(EventMsg)
  {
    var format := PromptEnv().format;
    PromptsDecode();
    TrackSnoc(format, [], PROMPT_LINES[0]);
    assert [] + [PROMPT_LINES[0]] == [PROMPT_LINES[0]];
    TrackSnoc(format, [PROMPT_LINES[0]], PROMPT_LINES[1]);
    assert [PROMPT_LINES[0]] + [PROMPT_LINES[1]] == PROMPT_LINES;
    TrackSnoc(format, PROMPT_LINES, ALL_LINES[2]);
    assert PROMPT_LINES + [ALL_LINES[2]] == ALL_LINES;
  }

  lemma OneTurnClosed(env: Env)
    requires env == PromptEnv()
    ensures Run(env, Begin(0, map[], map[]), PROMPT_LINES).turns != []
  {
    var s0 := Begin(0, map[], map[]);
    RunSnoc(env, s0, [], PROMPT_LINES[0]);
    assert [] + [PROMPT_LINES[0]] == [PROMPT_LINES[0]];
    RunSnoc(env, s0, [PROMPT_LINES[0]], PROMPT_LINES[1]);
    assert [PROMPT_LINES[0]] + [PROMPT_LINES[1]] == PROMPT_LINES;
    FirstOpens(env);
    SecondCloses(env, Run(env, s0, [PROMPT_LINES[0]]));
  }

  lemma FirstOpens(env: Env)
    requires env == PromptEnv()
    ensures var s := Accept(env, Begin(0, map[], map[]), PROMPT_LINES[0]); s.turn.Some? && !s.failed
  {
    hide NoteContext;
    PromptsDecode();
    var entry := env.format.decode([1]).value;
    NoteContextKeeps(env, Begin(0, map[], map[]).(lastEnd := Some(2)), PROMPT_LINES[0], entry);
  }

  lemma SecondCloses(env: Env, s: State)
    requires env == PromptEnv() && s.turn.Some? && !s.failed
    ensures Accept(env, s, PROMPT_LINES[1]).turns != []
  {
    hide NoteContext;
    hide Commit;
    hide EndingAfter;
    hide Fingerprint;
    PromptsDecode();
    var entry := env.format.decode([1]).value;
    NoteContextKeeps(env, s.(lastEnd := Some(4)), PROMPT_LINES[1], entry);
  }

  /** The failing input: the turn closed between two prompts of the response envelope is
      gone from the parse once an event prompt follows. */
  lemma UndecidedTurnIsLost()
    ensures var env := PromptEnv();
            var grown := env.(file := PROMPTS + EVENT, decided := Some(EventMsg));
            && IsCodex(env.format) && Decided(env) && Decided(grown) && TurnsOf(env) != []
            && !(Redecided(TurnsOf(env), Some(EventMsg)) <= TurnsOf(grown))
  {
    hide Frame;
    hide Run;
    var env := PromptEnv();
    assert env.format == AdapterFor(TwoPrompts, env.format.judge, env.format.hash);
    PromptsFrame();
    AllFrame();
    PromptsDecide();
    OneTurnClosed(env);
    EventDecisionStartsOver(env, env.(file := PROMPTS + EVENT, decided := Some(EventMsg)), EVENT);
  }
}

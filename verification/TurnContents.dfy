/** What a turn holds: exactly the records from the boundary that opened it to the
    one that closed it, each once and in order, and nothing its records do not say. */
module TurnContents {
  import opened Framing
  import opened Reading
  import opened Turns
  import opened TurnContext
  import opened TurnRuns
  import opened TurnResume

  // ----------------------------------------------------------- what records say

  /** A prompt opens a turn: of two envelopes of one prompt, the one decided for. */
  predicate Opens(env: Env, line: Line) {
    var entry := env.format.decode(line.text);
    && entry.Some?
    && match entry.value.role
       case Prompt => true
       case EventPrompt => env.decided == Some(EventMsg)
       case ResponsePrompt => env.decided != Some(EventMsg)
       case _ => false
  }

  /** What the assistant says or calls belongs to the open turn. */
  predicate Contributes(env: Env, line: Line) {
    var entry := env.format.decode(line.text);
    entry.Some? && (entry.value.role == Assistant || entry.value.role == ToolUse)
  }

  lemma ClassOf(env: Env, line: Line)
    ensures var entry := env.format.decode(line.text);
            && (Opens(env, line) <==> entry.Some? && Classify(env.decided, entry.value.role) == Boundary)
            && (Contributes(env, line) <==> entry.Some? && Classify(env.decided, entry.value.role) == Content)
  {
  }

  function SignalAt(env: Env, line: Line): Option<Signal> {
    var entry := env.format.decode(line.text);
    if entry.None? then None else entry.value.signal
  }

  /** The context values in force after `lines`. */
  function ValuesAfter(env: Env, values: map<Field, string>, lines: seq<Line>): map<Field, string> {
    if lines == [] then values
    else
      var entry := env.format.decode(lines[|lines| - 1].text);
      ValuesAfter(env, values, lines[..|lines| - 1]) + (if entry.None? then map[] else entry.value.context)
  }

  /** What a record that opens no turn adds to the open one. */
  function Share(env: Env, values: map<Field, string>, line: Line): seq<Event> {
    var entry := env.format.decode(line.text);
    if entry.None? then []
    else [Observed(entry.value)] + (if Contributes(env, line) then [Folded(entry.value, values)] else [])
  }

  /** The body of the turn that lines[b] opened, after the rest of `lines`. */
  function BodyOf(env: Env, values: map<Field, string>, lines: seq<Line>, b: nat): seq<Event>
    requires b < |lines| && Opens(env, lines[b])
  {
    var last := lines[|lines| - 1];
    if |lines| == b + 1 then [Folded(env.format.decode(last.text).value, ValuesAfter(env, values, lines))]
    else BodyOf(env, values, lines[..|lines| - 1], b) + Share(env, ValuesAfter(env, values, lines), last)
  }

  /** lines[b] is the last record that opens a turn. */
  ghost predicate LastOpening(env: Env, lines: seq<Line>, b: nat) {
    b < |lines| && Opens(env, lines[b]) && forall j | b < j < |lines| :: !Opens(env, lines[j])
  }

  // ------------------------------------------------------- what a body comes down to

  function FirstTime(body: seq<Event>): Option<string> {
    if body == [] then None
    else
      var first := FirstTime(body[..|body| - 1]);
      if first.Some? || body[|body| - 1].Observed? then first else body[|body| - 1].entry.timestamp
  }

  function LastTime(body: seq<Event>): Option<string> {
    if body == [] then None
    else
      var last := body[|body| - 1];
      if last.Folded? && last.entry.timestamp.Some? then last.entry.timestamp else LastTime(body[..|body| - 1])
  }

  function LastValues(body: seq<Event>): map<Field, string> {
    if body == [] then map[]
    else
      var last := body[|body| - 1];
      if last.Folded? then last.context else LastValues(body[..|body| - 1])
  }

  function LastTitle(body: seq<Event>, title: Option<string>): Option<string> {
    if body == [] then title
    else
      var last := body[|body| - 1];
      if last.Observed? && last.entry.title.Some? then last.entry.title else LastTitle(body[..|body| - 1], title)
  }

  predicate AnyExternal(body: seq<Event>) {
    exists e | e in body :: e.Observed? && e.entry.external
  }

  /** A turn's times, context, title and external mark are those of its body: the
      first and last time folded, the context of the last record folded, the last
      title seen, and whether any record was an external fetch. */
  ghost predicate Told(env: Env, t: Turn) {
    && t.startedAt == FirstTime(t.body) && t.endedAt == LastTime(t.body) && t.context == LastValues(t.body)
    && t.title == LastTitle(t.body, env.sessionTitle) && (t.external <==> AnyExternal(t.body))
  }

  lemma BodySnoc(body: seq<Event>, e: Event, title: Option<string>)
    ensures var more := body + [e];
            && FirstTime(more) == (if FirstTime(body).Some? || e.Observed? then FirstTime(body) else e.entry.timestamp)
            && LastTime(more) == (if e.Folded? && e.entry.timestamp.Some? then e.entry.timestamp else LastTime(body))
            && LastValues(more) == (if e.Folded? then e.context else LastValues(body))
            && LastTitle(more, title) == (if e.Observed? && e.entry.title.Some? then e.entry.title else LastTitle(body, title))
            && (AnyExternal(more) <==> AnyExternal(body) || (e.Observed? && e.entry.external))
  {
    var more := body + [e];
    assert more[..|more| - 1] == body && more[|more| - 1] == e;
    assert e in more && forall x | x in body :: x in more;
  }

  // ------------------------------------------------------------------- one record

  /** Lifecycle changes nothing but the lifecycle. */
  lemma LifeOnly(turn: Option<Turn>, start: Option<Start>, line: Line, entry: Entry, class_: LineClass)
    ensures var t := ApplySignal(turn, start, line, entry).0;
            (t.Some? <==> turn.Some?) && (t.Some? ==> t.value == turn.value.(life := t.value.life))
    ensures var t := LatchRetry(turn, start, class_).0;
            (t.Some? <==> turn.Some?) && (t.Some? ==> t.value == turn.value.(life := t.value.life))
  {
  }

  /** A record seen by the open turn: its body grows by it, the rest follows. */
  lemma FlowTells(env: Env, turn: Option<Turn>, start: Option<Start>, line: Line, entry: Entry)
    ensures var (t, _) := Flow(env, turn, start, line, entry);
            && (t.Some? <==> turn.Some?)
            && (turn.Some? ==> t.value.body == turn.value.body + [Observed(entry)])
            && (turn.Some? && Told(env, turn.value) ==> Told(env, t.value))
  {
    hide ApplySignal;
    hide LatchRetry;
    hide FirstTime;
    hide LastTime;
    hide LastValues;
    hide LastTitle;
    hide AnyExternal;
    var class_ := Classify(env.decided, entry.role);
    LifeOnly(NoteTurn(turn, entry), start, line, entry, class_);
    var signalled := ApplySignal(NoteTurn(turn, entry), start, line, entry);
    LifeOnly(signalled.0, signalled.1, line, entry, class_);
    if turn.Some? {
      BodySnoc(turn.value.body, Observed(entry), env.sessionTitle);
    }
  }

  lemma FoldTells(env: Env, s: State, entry: Entry)
    requires s.turn.Some? && Told(env, s.turn.value)
    ensures var t := Fold(s, entry);
            t.turn.Some? && Told(env, t.turn.value) && t.turn.value.body == s.turn.value.body + [Folded(entry, s.values)]
  {
    BodySnoc(s.turn.value.body, Folded(entry, s.values), env.sessionTitle);
  }

  lemma OpenedTells(env: Env, s: State)
    ensures Told(env, Opened(env, s)) && Opened(env, s).body == []
  {
  }

  lemma OpenNextOpens(env: Env, s: State, line: Line)
    ensures OpenNext(env, s, line).turn == Some(Opened(env, s)) && OpenNext(env, s, line).values == s.values
  {
    hide Emit;
    OpenNextFlow(env, s, line);
  }

  /** What one record makes of the open turn. */
  lemma AcceptTells(env: Env, s: State, line: Line)
    requires !s.failed && !Accept(env, s, line).failed && (s.turn.Some? ==> Told(env, s.turn.value))
    ensures var t, entry := Accept(env, s, line), env.format.decode(line.text);
            && (t.turn.Some? ==> Told(env, t.turn.value))
            && (Opens(env, line) ==> t.turn.Some? && t.turn.value.body == [Folded(entry.value, t.values)])
            && (!Opens(env, line) ==>
                  && (t.turn.Some? <==> s.turn.Some?)
                  && (s.turn.Some? ==> t.turn.value.body == s.turn.value.body + Share(env, t.values, line)))
  {
    hide Flow;
    hide Fold;
    hide Told;
    hide OpenNext;
    hide NoteContext;
    var decoded := env.format.decode(line.text);
    if decoded.Some? {
      var entry, at := decoded.value, s.(lastEnd := Some(line.byteEnd));
      var ready := Prepare(env, at, line, entry);
      FlowTells(env, s.turn, s.start, line, entry);
      AcceptValues(env, s, line);
      if Opens(env, line) {
        OpenNextOpens(env, ready, line);
        OpenedTells(env, ready);
        FoldTells(env, OpenNext(env, ready, line), entry);
      } else if Contributes(env, line) && ready.turn.Some? {
        FoldTells(env, ready, entry);
      }
      FoldValues(OpenNext(env, ready, line), entry);
      FoldValues(ready, entry);
    } else if s.turn.Some? {
      assert s.turn.value.body + [] == s.turn.value.body;
    }
  }

  lemma FoldValues(s: State, entry: Entry)
    ensures Fold(s, entry).values == s.values && (s.turn.None? ==> Fold(s, entry) == s)
  {
  }

  lemma {:induction false} RunValues(env: Env, s0: State, lines: seq<Line>)
    requires !Run(env, s0, lines).failed
    ensures Run(env, s0, lines).values == ValuesAfter(env, s0.values, lines)
    decreases |lines|
  {
    hide Accept;
    if lines != [] {
      var init, line := lines[..|lines| - 1], lines[|lines| - 1];
      AcceptFailed(env, Run(env, s0, init), line);
      RunValues(env, s0, init);
      AcceptValues(env, Run(env, s0, init), line);
    }
  }

  /** The open turn after `lines`: none before the first boundary, else the one the
      last boundary opened, holding that record and every one since. */
  ghost predicate Holds(env: Env, values: map<Field, string>, lines: seq<Line>, turn: Option<Turn>, b: nat) {
    if turn.None? then forall j | 0 <= j < |lines| :: !Opens(env, lines[j])
    else LastOpening(env, lines, b) && turn.value.body == BodyOf(env, values, lines, b) && Told(env, turn.value)
  }

  lemma {:induction false} OpenTurnHolds(env: Env, s0: State, lines: seq<Line>) returns (b: nat)
    requires s0 == Begin(s0.next, s0.base, s0.values) && !Run(env, s0, lines).failed
    ensures Holds(env, s0.values, lines, Run(env, s0, lines).turn, b)
    decreases |lines|
  {
    hide Accept;
    hide Told;
    hide Opens;
    hide Share;
    b := 0;
    if lines != [] {
      var init, line := lines[..|lines| - 1], lines[|lines| - 1];
      var s := Run(env, s0, init);
      AcceptFailed(env, s, line);
      b := OpenTurnHolds(env, s0, init);
      AcceptTells(env, s, line);
      RunValues(env, s0, lines);
      forall j | 0 <= j < |init| ensures init[j] == lines[j] {
      }
      if Opens(env, line) {
        b := |init|;
      }
    }
  }

  /** Every turn emitted holds exactly its own records: the boundary that opened it,
      each record up to the one that closed it, which it only observes, in order and
      once each; and its times, context, title and external mark are theirs. */
  lemma EmittedTurnHolds(env: Env, s0: State, lines: seq<Line>, i: nat) returns (b: nat, k: nat)
    requires s0 == Begin(s0.next, s0.base, s0.values) && i < |Run(env, s0, lines).turns|
    ensures b < k < |lines| && LastOpening(env, lines[..k], b) && Opens(env, lines[k])
    ensures var turn := Run(env, s0, lines).turns[i].turn;
            && turn.body == BodyOf(env, s0.values, lines[..k], b) + [Observed(env.format.decode(lines[k].text).value)]
            && Told(env, turn)
  {
    hide Accept;
    hide Told;
    hide BodyOf;
    k := EmittedWhere(env, s0, lines, i);
    var s := Run(env, s0, lines[..k]);
    AcceptFailed(env, s, lines[k]);
    b := OpenTurnHolds(env, s0, lines[..k]);
    EmittedIs(env, s, lines[k]);
    assert Run(env, s0, lines).turns[i] == Accept(env, s, lines[k]).turns[i];
  }

  /** The turn a record emits is the open one, which has observed that record. */
  lemma EmittedIs(env: Env, s: State, line: Line)
    requires |Accept(env, s, line).turns| > |s.turns| && (s.turn.Some? ==> Told(env, s.turn.value))
    ensures !s.failed && s.turn.Some? && Opens(env, line)
    ensures var p := Accept(env, s, line).turns[|s.turns|];
            p.turn.body == s.turn.value.body + [Observed(env.format.decode(line.text).value)] && Told(env, p.turn)
  {
    hide Flow;
    hide Told;
    hide NoteContext;
    hide Commit;
    hide EndingAfter;
    hide Fingerprint;
    var entry := env.format.decode(line.text).value;
    var at := s.(lastEnd := Some(line.byteEnd));
    PrepareContext(env, at, line, entry);
    NoteContextKeeps(env, at, line, entry);
    FlowTells(env, s.turn, s.start, line, entry);
  }

  // -------------------------------------------------------------------- quiet time

  predicate EndsAttempt(signal: Option<Signal>) {
    signal.Some? && (signal.value.phase == Completed || signal.value.phase == Aborted)
  }

  predicate StartsAttempt(signal: Option<Signal>) {
    signal.Some? && signal.value.phase == Started
  }

  /** lines[k] ended the attempt `id`, and nothing since has opened a turn,
      failed that attempt, or contributed after starting another. */
  ghost predicate EndedAt(env: Env, lines: seq<Line>, id: Option<string>, aborted: bool, k: nat) {
    && k < |lines| && EndsAttempt(SignalAt(env, lines[k]))
    && SignalAt(env, lines[k]).value.id == id && (aborted <==> SignalAt(env, lines[k]).value.phase == Aborted)
    && (forall j | k <= j < |lines| :: !Opens(env, lines[j]))
    && (forall j | k < j < |lines| :: SignalAt(env, lines[j]) != Some(Signal(Failed, id)))
    && (forall i, j | k < i <= j < |lines| :: StartsAttempt(SignalAt(env, lines[i])) ==> !Contributes(env, lines[j]))
  }

  /** A finished turn saw its end, and any later start is still pending. */
  ghost predicate SawEnd(env: Env, lines: seq<Line>, turn: Option<Turn>, start: Option<Start>) {
    turn.Some? && turn.value.life.finished ==>
      exists k: nat ::
        && EndedAt(env, lines, turn.value.life.id, turn.value.life.aborted, k)
        && (start.None? ==> forall i | k < i < |lines| :: !StartsAttempt(SignalAt(env, lines[i])))
  }

  /** The attempt a finished turn's lifecycle goes on naming. */
  lemma StillEnded(env: Env, lines: seq<Line>, line: Line, id: Option<string>, aborted: bool, k: nat)
    requires EndedAt(env, lines, id, aborted, k) && !Opens(env, line) && SignalAt(env, line) != Some(Signal(Failed, id))
    requires Contributes(env, line) ==>
               && (forall i | k < i < |lines| :: !StartsAttempt(SignalAt(env, lines[i]))) && !StartsAttempt(SignalAt(env, line))
    ensures EndedAt(env, lines + [line], id, aborted, k)
  {
    hide Opens;
    hide SignalAt;
    hide Contributes;
    var all := lines + [line];
    assert all[|lines|] == line;
    forall j | 0 <= j < |lines| ensures all[j] == lines[j] {
    }
  }

  /** One record that opens no turn keeps an end seen, or shows a new one. */
  lemma LifeStep(env: Env, lines: seq<Line>, line: Line, turn: Option<Turn>, start: Option<Start>)
    requires SawEnd(env, lines, turn, start) && !Opens(env, line) && env.format.decode(line.text).Some?
    ensures var (t, started) := Flow(env, turn, start, line, env.format.decode(line.text).value);
            SawEnd(env, lines + [line], t, started)
  {
    hide EndedAt;
    var entry := env.format.decode(line.text).value;
    var (t, started) := Flow(env, turn, start, line, entry);
    var all := lines + [line];
    assert all[|lines|] == line;
    if t.Some? && t.value.life.finished {
      if turn.value.life.finished && t.value.life == turn.value.life && !EndsAttempt(entry.signal) {
        var k: nat :| EndedAt(env, lines, turn.value.life.id, turn.value.life.aborted, k)
                      && (start.None? ==> forall i | k < i < |lines| :: !StartsAttempt(SignalAt(env, lines[i])));
        StillEnded(env, lines, line, turn.value.life.id, turn.value.life.aborted, k);
      } else if EndsAttempt(entry.signal) {
        EndStep(env, lines, line, turn, start);
      }
    }
  }

  lemma EndStep(env: Env, lines: seq<Line>, line: Line, turn: Option<Turn>, start: Option<Start>)
    requires SawEnd(env, lines, turn, start) && !Opens(env, line) && env.format.decode(line.text).Some?
    requires EndsAttempt(SignalAt(env, line))
    ensures var (t, started) := Flow(env, turn, start, line, env.format.decode(line.text).value);
            SawEnd(env, lines + [line], t, started)
  {
    var entry := env.format.decode(line.text).value;
    var (t, started) := Flow(env, turn, start, line, entry);
    var all, n, id := lines + [line], |lines|, entry.signal.value.id;
    assert all[n] == line;
    if t.Some? && t.value.life.finished {
      if (start.Some? && start.value.id == id) || (turn.value.life.started && turn.value.life.id.Some? && turn.value.life.id == id) {
        assert EndedAt(env, all, t.value.life.id, t.value.life.aborted, n);
      } else {
        var k: nat :| EndedAt(env, lines, turn.value.life.id, turn.value.life.aborted, k)
                      && (start.None? ==> forall i | k < i < |lines| :: !StartsAttempt(SignalAt(env, lines[i])));
        StillEnded(env, lines, line, turn.value.life.id, turn.value.life.aborted, k);
      }
    }
  }

  lemma NotDecoded(env: Env, lines: seq<Line>, line: Line, turn: Option<Turn>, start: Option<Start>)
    requires SawEnd(env, lines, turn, start) && env.format.decode(line.text).None?
    ensures SawEnd(env, lines + [line], turn, start)
  {
    hide EndedAt;
    if turn.Some? && turn.value.life.finished {
      var k: nat :| EndedAt(env, lines, turn.value.life.id, turn.value.life.aborted, k)
                    && (start.None? ==> forall i | k < i < |lines| :: !StartsAttempt(SignalAt(env, lines[i])));
      StillEnded(env, lines, line, turn.value.life.id, turn.value.life.aborted, k);
      assert (lines + [line])[|lines|] == line;
    }
  }

  lemma AcceptSawEnd(env: Env, s: State, lines: seq<Line>, line: Line)
    requires !s.failed && !Accept(env, s, line).failed && SawEnd(env, lines, s.turn, s.start)
    ensures var t := Accept(env, s, line); SawEnd(env, lines + [line], t.turn, t.start)
  {
    hide Flow;
    hide SawEnd;
    hide OpenNext;
    hide NoteContext;
    var decoded := env.format.decode(line.text);
    if decoded.None? {
      NotDecoded(env, lines, line, s.turn, s.start);
    } else {
      var ready := Prepare(env, s.(lastEnd := Some(line.byteEnd)), line, decoded.value);
      if Opens(env, line) {
        OpenNextOpens(env, ready, line);
        FoldLife(OpenNext(env, ready, line), decoded.value);
        var t := Accept(env, s, line);
        assert SawEnd(env, lines + [line], t.turn, t.start) by { Unfinished(env, lines + [line], t.turn, t.start); }
      } else {
        LifeStep(env, lines, line, s.turn, s.start);
        FoldLife(ready, decoded.value);
        SameLife(env, lines + [line], ready.turn, Fold(ready, decoded.value).turn, ready.start);
      }
    }
  }

  lemma Unfinished(env: Env, lines: seq<Line>, turn: Option<Turn>, start: Option<Start>)
    requires turn.Some? ==> !turn.value.life.finished
    ensures SawEnd(env, lines, turn, start)
  {
  }

  lemma SameLife(env: Env, lines: seq<Line>, a: Option<Turn>, b: Option<Turn>, start: Option<Start>)
    requires (a.Some? <==> b.Some?) && (a.Some? ==> a.value.life == b.value.life)
    ensures SawEnd(env, lines, a, start) <==> SawEnd(env, lines, b, start)
  {
  }

  lemma FoldLife(s: State, entry: Entry)
    ensures var t := Fold(s, entry);
            (t.turn.Some? <==> s.turn.Some?) && (s.turn.Some? ==> t.turn.value.life == s.turn.value.life) && t.start == s.start
  {
  }

  lemma {:induction false} RunSawEnd(env: Env, s0: State, lines: seq<Line>)
    requires s0 == Begin(s0.next, s0.base, s0.values) && !Run(env, s0, lines).failed
    ensures var s := Run(env, s0, lines); SawEnd(env, lines, s.turn, s.start)
    decreases |lines|
  {
    hide Accept;
    hide SawEnd;
    if lines == [] {
      Unfinished(env, lines, s0.turn, s0.start);
    } else {
      var init, line := lines[..|lines| - 1], lines[|lines| - 1];
      assert lines == init + [line];
      AcceptFailed(env, Run(env, s0, init), line);
      RunSawEnd(env, s0, init);
      AcceptSawEnd(env, Run(env, s0, init), init, line);
    }
  }
}

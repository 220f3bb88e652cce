/** When turns close, read off the records alone: where a boundary closes one, which
    attempt a turn is in, and when quiet time closes it (src/adapters/base.ts). */
module TurnLives {
  import opened Framing
  import opened Reading
  import opened Turns
  import opened TurnContext
  import opened TurnRuns
  import opened TurnResume
  import opened TurnContents

  // ----------------------------------------------------------- what the records say

  predicate AnyOpens(env: Env, lines: seq<Line>) {
    exists j | 0 <= j < |lines| :: Opens(env, lines[j])
  }

  /** A record that ends an attempt, or fails it, by its id. */
  predicate Concludes(signal: Option<Signal>, id: Option<string>) {
    signal.Some? && signal.value.phase != Started && signal.value.id == id
  }

  function IdAt(env: Env, line: Line): Option<string> {
    if SignalAt(env, line).Some? then SignalAt(env, line).value.id else None
  }

  /** The start, at `k`, that no turn has taken up yet: the last of its kind, with no
      boundary since; and inside a turn, with nothing that concludes it and no
      contribution, which would make it a retry of that turn. */
  ghost predicate Pending(env: Env, lines: seq<Line>, k: nat) {
    && k < |lines| && StartsAttempt(SignalAt(env, lines[k]))
    && (forall j | k < j < |lines| :: !StartsAttempt(SignalAt(env, lines[j])))
    && (forall j | k <= j < |lines| :: !Opens(env, lines[j]))
    && (AnyOpens(env, lines[..k]) ==>
          && (forall j | k <= j < |lines| :: !Contributes(env, lines[j]))
          && (forall j | k < j < |lines| :: !Concludes(SignalAt(env, lines[j]), IdAt(env, lines[k]))))
  }

  /** The pending start, if there is one. */
  ghost function PendingStart(env: Env, lines: seq<Line>): Option<Start> {
    if exists k: nat :: Pending(env, lines, k)
    then
      var k: nat :| Pending(env, lines, k);
      Some(Start(IdAt(env, lines[k]), lines[k].byteStart))
    else None
  }

  /** The start to be taken up once `line` has had its own say. */
  ghost function Due(env: Env, before: seq<Line>, line: Line): Option<Start> {
    var signal, pending := SignalAt(env, line), PendingStart(env, before);
    if StartsAttempt(signal) then Some(Start(IdAt(env, line), line.byteStart))
    else if pending.Some? && AnyOpens(env, before) && Concludes(signal, pending.value.id) then None
    else pending
  }

  predicate Marks(env: Env, line: Line) {
    var entry := env.format.decode(line.text);
    entry.Some? && entry.value.marker
  }

  /** A marker with no boundary since. */
  ghost predicate Marked(env: Env, lines: seq<Line>) {
    exists j | 0 <= j < |lines| :: Marks(env, lines[j]) && forall i | j <= i < |lines| :: !Opens(env, lines[i])
  }

  /** A marker stood at or before the boundary of the open turn, behind the one before. */
  ghost predicate FollowsMarker(env: Env, lines: seq<Line>) {
    exists b: nat :: MarkedOpening(env, lines, b)
  }

  ghost predicate MarkedOpening(env: Env, lines: seq<Line>, b: nat) {
    LastOpening(env, lines, b) && (Marked(env, lines[..b]) || Marks(env, lines[b]))
  }

  /** The last time given by a record of the open turn that counts. */
  function EndedAtTime(env: Env, lines: seq<Line>): Option<string> {
    if lines == [] then None
    else
      var before, line := lines[..|lines| - 1], lines[|lines| - 1];
      var entry := env.format.decode(line.text);
      var counts := Opens(env, line) || (Contributes(env, line) && AnyOpens(env, before));
      if counts && entry.value.timestamp.Some? then entry.value.timestamp
      else if Opens(env, line) then None else EndedAtTime(env, before)
  }

  /** The attempt the open turn is in: none, one under way that may have failed
      and be waiting for its retry, or one that ended. */
  datatype Attempt = NoAttempt | UnderWay(id: Option<string>, failed: Option<FailedAt>) | Ended(id: Option<string>, aborted: bool)

  /** The attempt `prior` once `line` has ended it, failed it, or said nothing of it. */
  ghost function Signalled(env: Env, before: seq<Line>, line: Line, prior: Attempt): Attempt {
    var signal, pending := SignalAt(env, line), PendingStart(env, before);
    if signal.None? || StartsAttempt(signal) then prior
    else
      var retried := pending.Some? && pending.value.id == signal.value.id;
      if signal.value.phase == Failed then
        if retried || prior.NoAttempt? || prior.id == signal.value.id
        then UnderWay(signal.value.id, Some(FailedAt(env.format.decode(line.text).value.timestamp, EndedAtTime(env, before))))
        else prior
      else if retried || (!prior.NoAttempt? && prior.id.Some? && prior.id == signal.value.id)
      then Ended(signal.value.id, signal.value.phase == Aborted)
      else prior
  }

  ghost function AttemptOf(env: Env, lines: seq<Line>): Attempt {
    if lines == [] then NoAttempt
    else
      var before, line := lines[..|lines| - 1], lines[|lines| - 1];
      var due := Due(env, before, line);
      var taken := if due.Some? then UnderWay(due.value.id, None) else NoAttempt;
      if Opens(env, line) then taken
      else if !AnyOpens(env, before) then NoAttempt
      else if Contributes(env, line) && due.Some? then taken
      else Signalled(env, before, line, AttemptOf(env, before))
  }

  lemma OpensBefore(env: Env, lines: seq<Line>, line: Line, k: nat)
    requires k <= |lines|
    ensures AnyOpens(env, (lines + [line])[..k]) == AnyOpens(env, lines[..k])
  {
    assert (lines + [line])[..k] == lines[..k];
  }

  /** Whether a start stays pending over one more record. */
  lemma PendingSnoc(env: Env, lines: seq<Line>, line: Line, k: nat)
    requires k < |lines|
    ensures Pending(env, lines + [line], k) <==>
              && Pending(env, lines, k) && !StartsAttempt(SignalAt(env, line)) && !Opens(env, line)
              && (AnyOpens(env, lines[..k]) ==> !Contributes(env, line) && !Concludes(SignalAt(env, line), IdAt(env, lines[k])))
  {
    hide Opens;
    hide Contributes;
    hide SignalAt;
    hide AnyOpens;
    var all := lines + [line];
    assert all[|lines|] == line;
    OpensBefore(env, lines, line, k);
    forall j | 0 <= j < |lines| ensures all[j] == lines[j] {
    }
  }

  lemma PendingLast(env: Env, lines: seq<Line>, line: Line)
    ensures Pending(env, lines + [line], |lines|) <==>
              StartsAttempt(SignalAt(env, line)) && !Opens(env, line) && (AnyOpens(env, lines) ==> !Contributes(env, line))
  {
    hide Opens;
    hide Contributes;
    hide SignalAt;
    hide AnyOpens;
    assert (lines + [line])[|lines|] == line && (lines + [line])[..|lines|] == lines;
  }

  lemma PendingOne(env: Env, lines: seq<Line>, j: nat, k: nat)
    requires Pending(env, lines, j) && Pending(env, lines, k)
    ensures j == k
  {
  }

  /** A pending start has seen every boundary there is. */
  lemma PendingOpens(env: Env, lines: seq<Line>, k: nat)
    requires Pending(env, lines, k)
    ensures AnyOpens(env, lines) == AnyOpens(env, lines[..k])
  {
    if j :| 0 <= j < |lines| && Opens(env, lines[j]) {
      assert j < k && lines[..k][j] == lines[j];
    }
    if j :| 0 <= j < k && Opens(env, lines[..k][j]) {
      assert Opens(env, lines[j]);
    }
  }

  lemma PendingIs(env: Env, lines: seq<Line>, k: nat)
    requires Pending(env, lines, k)
    ensures k < |lines| && StartsAttempt(SignalAt(env, lines[k]))
    ensures PendingStart(env, lines) == Some(Start(IdAt(env, lines[k]), lines[k].byteStart))
  {
    var j: nat :| Pending(env, lines, j) && PendingStart(env, lines) == Some(Start(IdAt(env, lines[j]), lines[j].byteStart));
    PendingOne(env, lines, j, k);
  }

  /** One more record: what is pending then is what was due, unless a boundary or a
      retry took it up. */
  lemma PendingNext(env: Env, lines: seq<Line>, line: Line)
    ensures PendingStart(env, lines + [line])
         == if Opens(env, line) || (AnyOpens(env, lines) && Contributes(env, line)) then None else Due(env, lines, line)
  {
    hide Opens;
    hide AnyOpens;
    hide Contributes;
    hide SignalAt;
    hide Pending;
    hide IdAt;
    var all, n := lines + [line], |lines|;
    assert all[n] == line;
    PendingLast(env, lines, line);
    if k: nat :| Pending(env, all, k) {
      PendingIs(env, all, k);
      if k < n {
        PendingSnoc(env, lines, line, k);
        PendingIs(env, lines, k);
        PendingOpens(env, lines, k);
        assert all[k] == lines[k];
      }
    } else if k: nat :| Pending(env, lines, k) {
      PendingIs(env, lines, k);
      PendingOpens(env, lines, k);
      PendingSnoc(env, lines, line, k);
    }
  }

  // ------------------------------------------------------------- the state tells it

  predicate Lives(life: Life, attempt: Attempt) {
    match attempt
    case NoAttempt => life == Life(false, None, false, false, None)
    case UnderWay(id, failed) => life == Life(true, id, false, false, failed)
    case Ended(id, aborted) => life == Life(true, id, true, aborted, None)
  }

  /** The open turn is in the attempt the records say, and ends when they say. */
  ghost predicate TurnTold(env: Env, lines: seq<Line>, turn: Option<Turn>) {
    && (turn.Some? <==> AnyOpens(env, lines))
    && (turn.Some? ==>
          && Lives(turn.value.life, AttemptOf(env, lines)) && turn.value.endedAt == EndedAtTime(env, lines)
          && (turn.value.markerBefore <==> FollowsMarker(env, lines)))
  }

  lemma FollowsSnoc(env: Env, lines: seq<Line>, line: Line)
    ensures FollowsMarker(env, lines + [line]) <==>
              if Opens(env, line) then Marked(env, lines) || Marks(env, line) else FollowsMarker(env, lines)
  {
    hide Opens;
    hide Marks;
    hide Marked;
    hide MarkedOpening;
    var all, n := lines + [line], |lines|;
    forall b: nat
      ensures MarkedOpening(env, all, b) <==>
                if b == n then Opens(env, line) && (Marked(env, lines) || Marks(env, line))
                else !Opens(env, line) && MarkedOpening(env, lines, b)
    {
      MarkedOpeningSnoc(env, lines, line, b);
    }
    if Opens(env, line) {
      assert MarkedOpening(env, all, n) <==> Marked(env, lines) || Marks(env, line);
    } else if b: nat :| MarkedOpening(env, lines, b) {
      MarkedOpeningIn(env, lines, b);
      assert MarkedOpening(env, all, b);
    }
  }

  lemma MarkedOpeningIn(env: Env, lines: seq<Line>, b: nat)
    requires MarkedOpening(env, lines, b)
    ensures b < |lines|
  {
  }

  lemma MarkedOpeningSnoc(env: Env, lines: seq<Line>, line: Line, b: nat)
    ensures MarkedOpening(env, lines + [line], b) <==>
              if b == |lines| then Opens(env, line) && (Marked(env, lines) || Marks(env, line))
              else !Opens(env, line) && MarkedOpening(env, lines, b)
  {
    hide Opens;
    hide Marks;
    hide Marked;
    var all, n := lines + [line], |lines|;
    assert all[n] == line && all[..n] == lines;
    if b < n {
      assert all[..b] == lines[..b];
      forall j | 0 <= j < n ensures all[j] == lines[j] {
      }
    }
  }

  lemma AnySnoc(env: Env, lines: seq<Line>, line: Line)
    ensures (lines + [line])[..|lines|] == lines && (lines + [line])[|lines|] == line
    ensures AnyOpens(env, lines + [line]) <==> AnyOpens(env, lines) || Opens(env, line)
  {
    hide Opens;
    var all := lines + [line];
    assert all[|lines|] == line;
    if j :| 0 <= j < |lines| && Opens(env, lines[j]) {
      assert Opens(env, all[j]);
    }
  }

  lemma MarkedSnoc(env: Env, lines: seq<Line>, line: Line)
    ensures Marked(env, lines + [line]) <==> !Opens(env, line) && (Marked(env, lines) || Marks(env, line))
  {
    hide Opens;
    hide Marks;
    var all, n := lines + [line], |lines|;
    assert all[n] == line;
    forall j | 0 <= j < n ensures all[j] == lines[j] {
    }
    if Marked(env, all) {
      var j :| 0 <= j < |all| && Marks(env, all[j]) && forall i | j <= i < |all| :: !Opens(env, all[i]);
      assert j < n ==> Marked(env, lines);
    }
    if !Opens(env, line) && Marked(env, lines) {
      var j :| 0 <= j < n && Marks(env, lines[j]) && forall i | j <= i < n :: !Opens(env, lines[i]);
      assert Marks(env, all[j]);
    }
    if !Opens(env, line) && Marks(env, line) {
      assert Marks(env, all[n]);
    }
  }

  /** The signal of a record, then its contribution, moves the start as `Due` says. */
  lemma FlowStart(env: Env, lines: seq<Line>, line: Line, turn: Option<Turn>, start: Option<Start>)
    requires env.format.decode(line.text).Some?
    requires start == PendingStart(env, lines) && (turn.Some? <==> AnyOpens(env, lines))
    ensures Flow(env, turn, start, line, env.format.decode(line.text).value).1
         == if AnyOpens(env, lines) && Contributes(env, line) then None else Due(env, lines, line)
  {
    hide PendingStart;
    hide AnyOpens;
  }

  lemma NoTurnYet(env: Env, start: Option<Start>, line: Line, entry: Entry)
    ensures Flow(env, None, start, line, entry).0.None?
  {
  }

  lemma SignalLife(env: Env, lines: seq<Line>, line: Line, turn: Turn, start: Option<Start>, prior: Attempt)
    requires env.format.decode(line.text).Some? && AnyOpens(env, lines)
    requires start == PendingStart(env, lines) && Lives(turn.life, prior) && turn.endedAt == EndedAtTime(env, lines)
    ensures var (t, due) := ApplySignal(Some(turn), start, line, env.format.decode(line.text).value);
            && due == Due(env, lines, line) && t.Some? && Lives(t.value.life, Signalled(env, lines, line, prior))
            && t.value == turn.(life := t.value.life)
  {
    hide PendingStart;
    hide AnyOpens;
    hide EndedAtTime;
  }

  /** ... and moves the attempt as `AttemptOf` says, when it opens no turn. */
  lemma FlowLife(env: Env, lines: seq<Line>, line: Line, turn: Option<Turn>, start: Option<Start>)
    requires env.format.decode(line.text).Some? && !Opens(env, line)
    requires start == PendingStart(env, lines) && TurnTold(env, lines, turn)
    ensures var t := Flow(env, turn, start, line, env.format.decode(line.text).value).0;
            && (t.Some? <==> turn.Some?)
            && (t.Some? ==>
                  && Lives(t.value.life, AttemptOf(env, lines + [line])) && t.value.endedAt == turn.value.endedAt
                  && t.value.markerBefore == turn.value.markerBefore)
  {
    hide PendingStart;
    hide AnyOpens;
    hide EndedAtTime;
    hide FollowsMarker;
    hide Due;
    hide Signalled;
    hide ApplySignal;
    AnySnoc(env, lines, line);
    var entry := env.format.decode(line.text).value;
    if turn.Some? {
      SignalLife(env, lines, line, NoteTurn(turn, entry).value, start, AttemptOf(env, lines));
    } else {
      NoTurnYet(env, start, line, entry);
    }
  }

  /** Reading everything so far, the state knows what the records say. */
  ghost predicate Known(env: Env, lines: seq<Line>, s: State) {
    TurnTold(env, lines, s.turn) && s.start == PendingStart(env, lines) && (s.marker <==> Marked(env, lines))
  }

  lemma FoldTimes(s: State, entry: Entry)
    ensures var t := Fold(s, entry);
            && t.start == s.start && t.marker == s.marker && t.failed == s.failed && t.turns == s.turns && (t.turn.Some? <==> s.turn.Some?)
            && (s.turn.Some? ==>
                  && t.turn.value.life == s.turn.value.life
                  && t.turn.value.markerBefore == s.turn.value.markerBefore
                  && t.turn.value.endedAt == if entry.timestamp.Some? then entry.timestamp else s.turn.value.endedAt)
  {
  }

  /** What a record has prepared before its class is acted on. */
  lemma PreparedIs(env: Env, s: State, line: Line, lines: seq<Line>)
    requires Known(env, lines, s) && env.format.decode(line.text).Some?
    ensures var ready := Prepare(env, s.(lastEnd := Some(line.byteEnd)), line, env.format.decode(line.text).value);
            && ready.start == (if AnyOpens(env, lines) && Contributes(env, line) then None else Due(env, lines, line))
            && (ready.turn.Some? <==> AnyOpens(env, lines)) && (ready.marker <==> Marked(env, lines) || Marks(env, line))
            && ready.failed == s.failed && ready.turns == s.turns
            && (!Opens(env, line) && ready.turn.Some? ==>
                  && Lives(ready.turn.value.life, AttemptOf(env, lines + [line]))
                  && ready.turn.value.endedAt == s.turn.value.endedAt
                  && ready.turn.value.markerBefore == s.turn.value.markerBefore)
  {
    hide Flow;
    hide NoteContext;
    hide Due;
    hide AnyOpens;
    hide Marked;
    hide AttemptOf;
    hide EndedAtTime;
    hide PendingStart;
    var entry, at := env.format.decode(line.text).value, s.(lastEnd := Some(line.byteEnd));
    PrepareContext(env, at, line, entry);
    NoteContextKeeps(env, at, line, entry);
    FlowStart(env, lines, line, s.turn, s.start);
    FlowTells(env, s.turn, s.start, line, entry);
    if !Opens(env, line) {
      FlowLife(env, lines, line, s.turn, s.start);
    }
  }

  lemma KnownStep(env: Env, lines: seq<Line>, line: Line, s: State)
    requires Known(env, lines, s) && !s.failed && !Accept(env, s, line).failed
    ensures Known(env, lines + [line], Accept(env, s, line))
  {
    hide Prepare;
    hide OpenNext;
    hide Fold;
    hide Lives;
    hide Due;
    hide AnyOpens;
    hide Marked;
    hide FollowsMarker;
    hide PendingStart;
    var all, decoded := lines + [line], env.format.decode(line.text);
    AnySnoc(env, lines, line);
    MarkedSnoc(env, lines, line);
    FollowsSnoc(env, lines, line);
    PendingNext(env, lines, line);
    if decoded.Some? {
      var ready := Prepare(env, s.(lastEnd := Some(line.byteEnd)), line, decoded.value);
      PreparedIs(env, s, line, lines);
      FoldTimes(ready, decoded.value);
      if Opens(env, line) {
        OpenNextOpens(env, ready, line);
        OpenNextFlow(env, ready, line);
        FoldTimes(OpenNext(env, ready, line), decoded.value);
        OpenedLives(env, ready, lines, line);
      }
    } else {
      QuietRecord(env, lines, line);
    }
  }

  lemma OpenedLives(env: Env, ready: State, lines: seq<Line>, line: Line)
    requires Opens(env, line) && ready.start == Due(env, lines, line)
    ensures Lives(Opened(env, ready).life, AttemptOf(env, lines + [line])) && Opened(env, ready).markerBefore == ready.marker
    ensures Opened(env, ready).endedAt.None?
  {
    hide Due;
    AnySnoc(env, lines, line);
  }

  lemma QuietRecord(env: Env, lines: seq<Line>, line: Line)
    requires env.format.decode(line.text).None?
    ensures Due(env, lines, line) == PendingStart(env, lines)
    ensures AnyOpens(env, lines) ==> AttemptOf(env, lines + [line]) == AttemptOf(env, lines)
    ensures EndedAtTime(env, lines + [line]) == EndedAtTime(env, lines)
  {
    hide PendingStart;
    hide AnyOpens;
    AnySnoc(env, lines, line);
  }

  lemma {:induction false} RunKnown(env: Env, s0: State, lines: seq<Line>)
    requires s0 == Begin(s0.next, s0.base, s0.values) && !Run(env, s0, lines).failed
    ensures Known(env, lines, Run(env, s0, lines))
    decreases |lines|
  {
    hide Accept;
    hide Known;
    if lines == [] {
      BeginKnown(env, s0);
    } else {
      var init, line := lines[..|lines| - 1], lines[|lines| - 1];
      assert lines == init + [line];
      AcceptFailed(env, Run(env, s0, init), line);
      RunKnown(env, s0, init);
      KnownStep(env, init, line, Run(env, s0, init));
    }
  }

  lemma BeginKnown(env: Env, s0: State)
    requires s0 == Begin(s0.next, s0.base, s0.values)
    ensures Known(env, [], s0)
  {
  }

  // ------------------------------------------------------------------ where turns end

  /** What a turn with body `body` comes to when it ends at `offset`: nothing, and the
      end of the parse, when its coverage is refused; else one more turn. */
  ghost predicate OneMore(env: Env, s: State, t: State, body: seq<Event>, offset: nat, dropped: Option<Drop>,
                          attempt: Attempt, marked: bool, provisional: bool) {
    var verdict := env.format.judge(body);
    if verdict.uncovered && !verdict.guarded then t.failed && t.turns == s.turns
    else
      && !t.failed && |t.turns| == |s.turns| + 1 && t.turns[..|s.turns|] == s.turns
      && var p := t.turns[|s.turns|];
      && p.turn.body == body && Lives(p.turn.life, attempt) && (p.turn.markerBefore <==> marked)
      && p.cursor.byteOffset == offset && p.dropped == dropped && p.provisional == provisional
  }

  lemma EmitIs(env: Env, s: State, turn: Turn, offset: nat, dropped: Option<Drop>, attempt: Attempt, provisional: bool)
    requires !s.failed && Lives(turn.life, attempt)
    ensures var t := Emit(env, s, turn, offset, dropped, provisional);
            OneMore(env, s, t, turn.body, offset, dropped, attempt, turn.markerBefore, provisional)
  {
    hide Commit;
    hide EndingAfter;
    hide Fingerprint;
    hide Lives;
  }

  lemma OpeningOf(env: Env, s0: State, lines: seq<Line>, b: nat)
    requires s0 == Begin(s0.next, s0.base, s0.values) && !Run(env, s0, lines).failed && LastOpening(env, lines, b)
    ensures var turn := Run(env, s0, lines).turn;
            turn.Some? && turn.value.body == BodyOf(env, s0.values, lines, b) && AnyOpens(env, lines)
  {
    hide Run;
    hide Told;
    hide BodyOf;
    hide Opens;
    var c := OpenTurnHolds(env, s0, lines);
  }

  /** A record that is no boundary ends no turn; nor does the first boundary. */
  lemma OthersEndNothing(env: Env, s0: State, lines: seq<Line>, line: Line)
    requires s0 == Begin(s0.next, s0.base, s0.values) && !Run(env, s0, lines).failed
    requires !Opens(env, line) || !AnyOpens(env, lines)
    ensures var t := Run(env, s0, lines + [line]); t.turns == Run(env, s0, lines).turns && !t.failed
  {
    hide Run;
    hide Prepare;
    hide Fold;
    hide Opens;
    hide Contributes;
    hide Classify;
    hide Marks;
    hide Marked;
    hide PendingStart;
    hide AttemptOf;
    hide EndedAtTime;
    hide FollowsMarker;
    hide Due;
    hide Lives;
    hide AnyOpens;
    var s, decoded := Run(env, s0, lines), env.format.decode(line.text);
    RunSnoc(env, s0, lines, line);
    RunKnown(env, s0, lines);
    if decoded.Some? {
      var ready := Prepare(env, s.(lastEnd := Some(line.byteEnd)), line, decoded.value);
      ClassOf(env, line);
      PreparedIs(env, s, line, lines);
      FoldTimes(ready, decoded.value);
      FoldTimes(OpenNext(env, ready, line), decoded.value);
    }
  }

  /** A later boundary ends the open turn: it is delivered exactly when it is worth a
      turn or must keep its index; it ends before the start due to the next turn, or
      else before the boundary; and it is in the attempt its records say. */
  lemma BoundaryEndsTheTurn(env: Env, s0: State, lines: seq<Line>, b: nat, line: Line)
    requires s0 == Begin(s0.next, s0.base, s0.values) && !Run(env, s0, lines).failed
    requires LastOpening(env, lines, b) && Opens(env, line)
    ensures var s, t := Run(env, s0, lines), Run(env, s0, lines + [line]);
            var body := BodyOf(env, s0.values, lines, b) + [Observed(env.format.decode(line.text).value)];
            var verdict, due := env.format.judge(body), Due(env, lines, line);
            var worthless := verdict.empty && !verdict.guarded;
            if worthless && !verdict.keepsIndex then t.turns == s.turns && !t.failed
            else OneMore(env, s, t, body, if due.Some? then due.value.byteStart else line.byteStart,
                         if worthless && verdict.drop.None? then Some(Empty) else verdict.drop,
                         Signalled(env, lines, line, AttemptOf(env, lines)), FollowsMarker(env, lines), false)
  {
    hide Run;
    hide Opens;
    hide Contributes;
    hide Classify;
    hide Marks;
    hide Told;
    hide Prepare;
    hide Fold;
    hide Emit;
    hide AnyOpens;
    hide BodyOf;
    hide Due;
    hide Signalled;
    hide FollowsMarker;
    hide AttemptOf;
    hide Lives;
    hide Marked;
    hide PendingStart;
    ClassOf(env, line);
    var s, entry := Run(env, s0, lines), env.format.decode(line.text).value;
    RunSnoc(env, s0, lines, line);
    RunKnown(env, s0, lines);
    OpeningOf(env, s0, lines, b);
    var ready := Prepare(env, s.(lastEnd := Some(line.byteEnd)), line, entry);
    PreparedIs(env, s, line, lines);
    EndingTurn(env, s, line, lines);
    FoldTimes(OpenNext(env, ready, line), entry);
    var turn, offset := ready.turn.value, CloseOffset(ready.start, line);
    EmitIs(env, ready, turn, offset, CloseDrop(env, turn), Signalled(env, lines, line, AttemptOf(env, lines)), false);
  }

  /** The open turn as the boundary that ends it finds it. */
  lemma EndingTurn(env: Env, s: State, line: Line, lines: seq<Line>)
    requires Known(env, lines, s) && s.turn.Some? && Opens(env, line)
    ensures var entry := env.format.decode(line.text).value;
            var turn := Prepare(env, s.(lastEnd := Some(line.byteEnd)), line, entry).turn;
            && turn.Some? && turn.value.body == s.turn.value.body + [Observed(entry)]
            && Lives(turn.value.life, Signalled(env, lines, line, AttemptOf(env, lines)))
            && turn.value.markerBefore == s.turn.value.markerBefore
  {
    hide ApplySignal;
    hide Lives;
    hide Signalled;
    hide AttemptOf;
    hide NoteContext;
    hide AnyOpens;
    hide EndedAtTime;
    hide FollowsMarker;
    hide PendingStart;
    hide Marked;
    var entry := env.format.decode(line.text).value;
    SignalLife(env, lines, line, NoteTurn(s.turn, entry).value, s.start, AttemptOf(env, lines));
    PrepareContext(env, s.(lastEnd := Some(line.byteEnd)), line, entry);
    NoteContextKeeps(env, s.(lastEnd := Some(line.byteEnd)), line, entry);
  }

  // ----------------------------------------------------------------------- quiet time

  /** Quiet time over records: the open turn is in no attempt that goes on, and was
      aborted or is ready. */
  ghost predicate QuietEnds(env: Env, values: map<Field, string>, lines: seq<Line>, b: nat)
    requires LastOpening(env, lines, b)
  {
    var attempt := AttemptOf(env, lines);
    !attempt.UnderWay? && ((attempt.Ended? && attempt.aborted) || env.format.judge(BodyOf(env, values, lines, b)).ready)
  }

  /** The open turn is closed by quiet time exactly when the records say so, and
      comes to exactly one turn, ending with the last record, provisional when no
      attempt was ever recorded. */
  lemma QuietTimeEndsTheTurn(env: Env, s0: State, lines: seq<Line>, b: nat, closeTrailingOnIdle: bool)
    requires s0 == Begin(s0.next, s0.base, s0.values) && !Run(env, s0, lines).failed && LastOpening(env, lines, b)
    ensures ClosesIdle(env, Run(env, s0, lines)) <==> QuietEnds(env, s0.values, lines, b)
    ensures var s := Run(env, s0, lines);
            var t, attempt, body := Finish(env, s, closeTrailingOnIdle), AttemptOf(env, lines), BodyOf(env, s0.values, lines, b);
            var verdict := env.format.judge(body);
            if !closeTrailingOnIdle || !QuietEnds(env, s0.values, lines, b) then t.turns == s.turns && !t.failed
            else OneMore(env, s, t, body, lines[|lines| - 1].byteEnd,
                         if attempt.Ended? && attempt.aborted && verdict.bare && verdict.drop.None? then Some(Empty) else verdict.drop,
                         attempt, FollowsMarker(env, lines), attempt.NoAttempt?)
  {
    hide Run;
    hide Emit;
    hide AnyOpens;
    hide BodyOf;
    hide FollowsMarker;
    hide AttemptOf;
    hide Marked;
    hide PendingStart;
    var s := Run(env, s0, lines);
    RunKnown(env, s0, lines);
    OpeningOf(env, s0, lines, b);
    RunLastEnd(env, s0, lines);
    var turn, attempt := s.turn.value, AttemptOf(env, lines);
    EmitIs(env, s, turn, lines[|lines| - 1].byteEnd, IdleDrop(env, turn), attempt, attempt.NoAttempt?);
  }

  /** Before any boundary quiet time closes nothing. */
  lemma NothingToClose(env: Env, s0: State, lines: seq<Line>, closeTrailingOnIdle: bool)
    requires s0 == Begin(s0.next, s0.base, s0.values) && !Run(env, s0, lines).failed && !AnyOpens(env, lines)
    ensures Finish(env, Run(env, s0, lines), closeTrailingOnIdle) == Run(env, s0, lines)
  {
    hide Run;
    hide AnyOpens;
    RunKnown(env, s0, lines);
  }

  // ------------------------------------------------------------- attempts, by records

  /** The start at `k` is taken up by the boundary at `b`: it was recorded before it,
      or by it, with no boundary, contribution or end of its own since. */
  ghost predicate StartFor(env: Env, lines: seq<Line>, b: nat, k: nat) {
    && k <= b < |lines| && Opens(env, lines[b]) && StartsAttempt(SignalAt(env, lines[k]))
    && (k < b ==>
          && Pending(env, lines[..b], k) && !StartsAttempt(SignalAt(env, lines[b]))
          && (AnyOpens(env, lines[..b]) ==> !Concludes(SignalAt(env, lines[b]), IdAt(env, lines[k]))))
  }

  /** lines[m] put the turn opened at `b` in an attempt: its boundary took up a start,
      or it contributed, ended or failed an attempt after. */
  ghost predicate BegunAt(env: Env, lines: seq<Line>, b: nat, m: nat) {
    && b <= m < |lines|
    && var signal, pending := SignalAt(env, lines[m]), PendingStart(env, lines[..m]);
    if m == b then exists k: nat :: StartFor(env, lines, b, k)
    else
      || (signal.Some? && signal.value.phase == Failed)
      || (Contributes(env, lines[m]) && Due(env, lines[..m], lines[m]).Some?)
      || (EndsAttempt(signal) && pending.Some? && pending.value.id == signal.value.id)
  }

  lemma StartIsDue(env: Env, lines: seq<Line>, b: nat, k: nat)
    requires StartFor(env, lines, b, k)
    ensures Due(env, lines[..b], lines[b]) == Some(Start(IdAt(env, lines[k]), lines[k].byteStart))
  {
    hide Pending;
    hide PendingStart;
    hide AnyOpens;
    if k < b {
      PendingIs(env, lines[..b], k);
      assert lines[..b][k] == lines[k];
    }
  }

  lemma DueHasStart(env: Env, lines: seq<Line>, b: nat)
    requires b < |lines| && Opens(env, lines[b]) && Due(env, lines[..b], lines[b]).Some?
    ensures exists k: nat :: StartFor(env, lines, b, k)
  {
    hide Pending;
    hide AnyOpens;
    if StartsAttempt(SignalAt(env, lines[b])) {
      assert StartFor(env, lines, b, b);
    } else {
      var k: nat :| Pending(env, lines[..b], k);
      PendingIs(env, lines[..b], k);
      assert lines[..b][k] == lines[k];
      assert StartFor(env, lines, b, k);
    }
  }

  /** The turn at `b` is in no attempt exactly when no record put it in one. */
  lemma {:induction false} NoAttemptBegun(env: Env, lines: seq<Line>, b: nat)
    requires LastOpening(env, lines, b)
    ensures AttemptOf(env, lines).NoAttempt? <==> forall m: nat :: !BegunAt(env, lines, b, m)
    decreases |lines|
  {
    hide Pending;
    hide PendingStart;
    hide Opens;
    hide Contributes;
    hide SignalAt;
    hide StartFor;
    hide Due;
    var n := |lines| - 1;
    var before := lines[..n];
    if b == n {
      if Due(env, before, lines[b]).Some? {
        DueHasStart(env, lines, b);
        assert BegunAt(env, lines, b, b);
      } else if k: nat :| StartFor(env, lines, b, k) {
        StartIsDue(env, lines, b, k);
      }
    } else {
      assert before[b] == lines[b];
      NoAttemptBegun(env, before, b);
      forall m: nat | m < n ensures BegunAt(env, lines, b, m) <==> BegunAt(env, before, b, m) {
        BegunBefore(env, lines, b, m);
      }
      assert BegunAt(env, lines, b, n) ==> !AttemptOf(env, lines).NoAttempt?;
    }
  }

  lemma BegunBefore(env: Env, lines: seq<Line>, b: nat, m: nat)
    requires m < |lines| - 1
    ensures BegunAt(env, lines, b, m) <==> BegunAt(env, lines[..|lines| - 1], b, m)
  {
    hide Pending;
    hide PendingStart;
    hide Due;
    hide AnyOpens;
    var before := lines[..|lines| - 1];
    assert before[m] == lines[m] && before[..m] == lines[..m];
    if b == m {
      forall k: nat ensures StartFor(env, lines, b, k) <==> StartFor(env, before, b, k) {
        if k < m { assert before[k] == lines[k]; }
      }
    }
  }

  /** Quiet time never closes a turn in the middle of an attempt: once the transcript
      put the open turn in one, quiet time closes it only when an end was recorded,
      after its boundary, of an attempt that was neither failed since nor followed by
      a contribution after the start of another. */
  lemma IdleClosesFinishedAttempts(env: Env, s0: State, lines: seq<Line>, b: nat, m: nat)
    requires s0 == Begin(s0.next, s0.base, s0.values)
    requires LastOpening(env, lines, b) && BegunAt(env, lines, b, m) && ClosesIdle(env, Run(env, s0, lines))
    ensures exists k: nat, id, aborted :: b < k && EndedAt(env, lines, id, aborted, k)
  {
    hide Run;
    hide AttemptOf;
    hide EndedAt;
    hide BegunAt;
    hide Told;
    RunKnown(env, s0, lines);
    RunSawEnd(env, s0, lines);
    NoAttemptBegun(env, lines, b);
    OpeningOf(env, s0, lines, b);
    var life := Run(env, s0, lines).turn.value.life;
    var k: nat :| EndedAt(env, lines, life.id, life.aborted, k);
    assert b < k by { EndsAfter(env, lines, b, life.id, life.aborted, k); }
  }

  lemma EndsAfter(env: Env, lines: seq<Line>, b: nat, id: Option<string>, aborted: bool, k: nat)
    requires LastOpening(env, lines, b) && EndedAt(env, lines, id, aborted, k)
    ensures b < k
  {
  }

  /** lines[m] ends an attempt started at `k` or later. */
  predicate EndsOneSince(env: Env, lines: seq<Line>, k: nat, m: nat) {
    && k < m < |lines| && EndsAttempt(SignalAt(env, lines[m]))
    && exists i | k <= i < m :: StartsAttempt(SignalAt(env, lines[i])) && IdAt(env, lines[i]) == SignalAt(env, lines[m]).value.id
  }

  /** The id of a start at `k` or later. */
  predicate StartedSince(env: Env, lines: seq<Line>, k: nat, id: Option<string>) {
    exists i | k <= i < |lines| :: StartsAttempt(SignalAt(env, lines[i])) && IdAt(env, lines[i]) == id
  }

  lemma StartedSnoc(env: Env, lines: seq<Line>, line: Line, k: nat, id: Option<string>)
    requires StartedSince(env, lines, k, id) || (k <= |lines| && StartsAttempt(SignalAt(env, line)) && IdAt(env, line) == id)
    ensures StartedSince(env, lines + [line], k, id)
  {
    hide SignalAt;
    var all := lines + [line];
    assert all[|lines|] == line;
    if StartedSince(env, lines, k, id) {
      var i :| k <= i < |lines| && StartsAttempt(SignalAt(env, lines[i])) && IdAt(env, lines[i]) == id;
      assert all[i] == lines[i];
    }
  }

  /** A start pending behind the boundary at `b` was recorded after it. */
  lemma PendingAfter(env: Env, lines: seq<Line>, b: nat)
    requires LastOpening(env, lines, b) && PendingStart(env, lines).Some?
    ensures StartedSince(env, lines, b, PendingStart(env, lines).value.id)
  {
    hide Opens;
    hide SignalAt;
    var k: nat :| Pending(env, lines, k);
    PendingIs(env, lines, k);
    assert b < k;
  }

  lemma {:induction false} AttemptGoesOn(env: Env, lines: seq<Line>, b: nat, k: nat)
    requires LastOpening(env, lines, b) && StartFor(env, lines, b, k)
    requires forall m | b < m < |lines| :: !EndsOneSince(env, lines, k, m)
    ensures AttemptOf(env, lines).UnderWay? && StartedSince(env, lines, k, AttemptOf(env, lines).id)
    decreases |lines|
  {
    hide Pending;
    hide PendingStart;
    hide Opens;
    hide Contributes;
    hide SignalAt;
    hide IdAt;
    hide StartedSince;
    var n := |lines| - 1;
    var before, line := lines[..n], lines[n];
    assert lines == before + [line];
    if b == n {
      StartIsDue(env, lines, b, k);
      FirstStarted(env, lines, k);
    } else {
      assert before[b] == line || before[b] == lines[b];
      forall m | b < m < n ensures !EndsOneSince(env, before, k, m) {
        EndsBefore(env, lines, k, m);
      }
      StartForBefore(env, lines, b, k);
      AttemptGoesOn(env, before, b, k);
      if PendingStart(env, before).Some? {
        PendingAfter(env, before, b);
        SinceEarlier(env, before, k, b, PendingStart(env, before).value.id);
        StartedSnoc(env, before, line, k, PendingStart(env, before).value.id);
        NoEndSince(env, lines, k, PendingStart(env, before).value.id);
      }
      StartedSnoc(env, before, line, k, AttemptOf(env, before).id);
      NoEndSince(env, lines, k, AttemptOf(env, before).id);
      if StartsAttempt(SignalAt(env, line)) {
        StartedSnoc(env, before, line, k, IdAt(env, line));
      }
    }
  }

  lemma FirstStarted(env: Env, lines: seq<Line>, k: nat)
    requires k < |lines| && StartsAttempt(SignalAt(env, lines[k]))
    ensures StartedSince(env, lines, k, IdAt(env, lines[k]))
  {
  }

  lemma SinceEarlier(env: Env, lines: seq<Line>, k: nat, b: nat, id: Option<string>)
    requires k <= b && StartedSince(env, lines, b, id)
    ensures StartedSince(env, lines, k, id)
  {
  }

  /** The last record of `lines` ends nothing started since `k`. */
  lemma NoEndSince(env: Env, lines: seq<Line>, k: nat, id: Option<string>)
    requires 0 < |lines| && k < |lines| - 1 && !EndsOneSince(env, lines, k, |lines| - 1)
    requires StartedSince(env, lines[..|lines| - 1], k, id)
    ensures EndsAttempt(SignalAt(env, lines[|lines| - 1])) ==> SignalAt(env, lines[|lines| - 1]).value.id != id
  {
    hide SignalAt;
    var before := lines[..|lines| - 1];
    var i :| k <= i < |before| && StartsAttempt(SignalAt(env, before[i])) && IdAt(env, before[i]) == id;
    assert before[i] == lines[i];
  }

  lemma EndsBefore(env: Env, lines: seq<Line>, k: nat, m: nat)
    requires m < |lines| - 1
    ensures EndsOneSince(env, lines, k, m) <==> EndsOneSince(env, lines[..|lines| - 1], k, m)
  {
    hide SignalAt;
    var before := lines[..|lines| - 1];
    forall i | 0 <= i < |before| ensures before[i] == lines[i] {
    }
  }

  lemma StartForBefore(env: Env, lines: seq<Line>, b: nat, k: nat)
    requires b < |lines| - 1
    ensures StartFor(env, lines, b, k) <==> StartFor(env, lines[..|lines| - 1], b, k)
  {
    hide Pending;
    hide AnyOpens;
    var before := lines[..|lines| - 1];
    assert before[b] == lines[b] && before[..b] == lines[..b];
    if k < b { assert before[k] == lines[k]; }
  }

  /** A turn whose boundary takes up a recorded start is in that attempt from its
      first record on, and until the transcript records the end of it, or of one
      started since, quiet time does not close it, whatever its content. */
  lemma StartedAttemptBarsQuietTime(env: Env, s0: State, lines: seq<Line>, b: nat, k: nat)
    requires s0 == Begin(s0.next, s0.base, s0.values) && !Run(env, s0, lines).failed
    requires LastOpening(env, lines, b) && StartFor(env, lines, b, k)
    ensures AttemptOf(env, lines[..b + 1]) == UnderWay(IdAt(env, lines[k]), None)
    ensures (forall m | b < m < |lines| :: !EndsOneSince(env, lines, k, m)) ==> !ClosesIdle(env, Run(env, s0, lines))
  {
    hide Run;
    hide BodyOf;
    hide ClosesIdle;
    hide StartFor;
    hide EndsOneSince;
    assert lines[..b + 1] == lines[..b] + [lines[b]];
    StartIsDue(env, lines, b, k);
    if forall m | b < m < |lines| :: !EndsOneSince(env, lines, k, m) {
      AttemptGoesOn(env, lines, b, k);
      QuietTimeEndsTheTurn(env, s0, lines, b, true);
    }
  }

  // ------------------------------------------------------------------ the converse

  /** lines[m] is the last record after `b` to end or fail the attempt `id`. */
  ghost predicate LastWord(env: Env, lines: seq<Line>, b: nat, id: Option<string>, m: nat) {
    && b < m < |lines| && Concludes(SignalAt(env, lines[m]), id)
    && forall j | m < j < |lines| :: !Concludes(SignalAt(env, lines[j]), id)
  }

  ghost predicate NoStartAfter(env: Env, lines: seq<Line>, b: nat) {
    forall j | b < j < |lines| :: !StartsAttempt(SignalAt(env, lines[j]))
  }

  /** The one attempt `id` of a turn, by its last word. */
  ghost predicate ByLastWord(env: Env, lines: seq<Line>, b: nat, id: Option<string>) {
    match AttemptOf(env, lines)
    case NoAttempt => false
    case UnderWay(named, failed) =>
      && named == id
      && forall m: nat :: LastWord(env, lines, b, id, m) ==> SignalAt(env, lines[m]).value.phase == Failed
    case Ended(named, aborted) =>
      && named == id
      && exists m: nat ::
           && LastWord(env, lines, b, id, m) && EndsAttempt(SignalAt(env, lines[m]))
           && (aborted <==> SignalAt(env, lines[m]).value.phase == Aborted)
  }

  lemma LastWordSnoc(env: Env, lines: seq<Line>, line: Line, b: nat, id: Option<string>, m: nat)
    requires b < |lines|
    ensures LastWord(env, lines + [line], b, id, m) <==>
              if m == |lines| then Concludes(SignalAt(env, line), id)
              else LastWord(env, lines, b, id, m) && !Concludes(SignalAt(env, line), id)
  {
    hide SignalAt;
    var all := lines + [line];
    assert all[|lines|] == line;
    forall j | 0 <= j < |lines| ensures all[j] == lines[j] {
    }
  }

  lemma {:induction false} OneAttempt(env: Env, lines: seq<Line>, b: nat, k: nat)
    requires LastOpening(env, lines, b) && StartFor(env, lines, b, k) && IdAt(env, lines[k]).Some? && NoStartAfter(env, lines, b)
    ensures ByLastWord(env, lines, b, IdAt(env, lines[k])) && PendingStart(env, lines).None?
    decreases |lines|
  {
    hide Pending;
    hide PendingStart;
    hide Opens;
    hide Contributes;
    hide SignalAt;
    hide IdAt;
    hide LastWord;
    var n, id := |lines| - 1, IdAt(env, lines[k]);
    var before, line := lines[..n], lines[n];
    assert lines == before + [line];
    PendingNext(env, before, line);
    if b == n {
      StartIsDue(env, lines, b, k);
      forall m: nat ensures !LastWord(env, lines, b, id, m) {
        NoWordYet(env, lines, b, id, m);
      }
    } else {
      assert before[b] == lines[b] && before[k] == lines[k];
      forall j | b < j < n ensures !StartsAttempt(SignalAt(env, before[j])) {
        assert before[j] == lines[j];
      }
      StartForBefore(env, lines, b, k);
      OneAttempt(env, before, b, k);
      OneMoreWord(env, before, line, b, id);
    }
  }

  lemma NoWordYet(env: Env, lines: seq<Line>, b: nat, id: Option<string>, m: nat)
    requires b == |lines| - 1
    ensures !LastWord(env, lines, b, id, m)
  {
  }

  lemma OneMoreWord(env: Env, lines: seq<Line>, line: Line, b: nat, id: Option<string>)
    requires LastOpening(env, lines, b) && !Opens(env, line) && !StartsAttempt(SignalAt(env, line)) && id.Some?
    requires ByLastWord(env, lines, b, id) && PendingStart(env, lines).None?
    ensures ByLastWord(env, lines + [line], b, id)
  {
    hide Pending;
    hide PendingStart;
    hide Opens;
    hide Contributes;
    hide SignalAt;
    hide LastWord;
    var all, n := lines + [line], |lines|;
    assert all[..n] == lines && all[n] == line;
    LastWordSnoc(env, lines, line, b, id, n);
    forall m: nat
      ensures LastWord(env, all, b, id, m) <==>
                if m == n then Concludes(SignalAt(env, line), id)
                else LastWord(env, lines, b, id, m) && !Concludes(SignalAt(env, line), id)
      ensures LastWord(env, lines, b, id, m) ==> m < n && all[m] == lines[m]
    {
      LastWordSnoc(env, lines, line, b, id, m);
      WordIn(env, lines, b, id, m);
    }
  }

  lemma WordIn(env: Env, lines: seq<Line>, b: nat, id: Option<string>, m: nat)
    ensures LastWord(env, lines, b, id, m) ==> m < |lines|
  {
  }

  /** A turn of one named attempt is closed by quiet time exactly when the last word
      on that attempt is its end, and it was aborted or the turn is ready. */
  lemma EndedAttemptCloses(env: Env, s0: State, lines: seq<Line>, b: nat, k: nat)
    requires s0 == Begin(s0.next, s0.base, s0.values) && !Run(env, s0, lines).failed
    requires LastOpening(env, lines, b) && StartFor(env, lines, b, k) && IdAt(env, lines[k]).Some? && NoStartAfter(env, lines, b)
    ensures ClosesIdle(env, Run(env, s0, lines)) <==>
              exists m: nat ::
                && LastWord(env, lines, b, IdAt(env, lines[k]), m) && EndsAttempt(SignalAt(env, lines[m]))
                && (SignalAt(env, lines[m]).value.phase == Aborted || env.format.judge(BodyOf(env, s0.values, lines, b)).ready)
  {
    hide Run;
    hide BodyOf;
    hide ClosesIdle;
    hide StartFor;
    hide AttemptOf;
    hide Opens;
    hide SignalAt;
    OneAttempt(env, lines, b, k);
    QuietTimeEndsTheTurn(env, s0, lines, b, true);
    StartWithin(env, lines, b, k);
  }

  lemma StartWithin(env: Env, lines: seq<Line>, b: nat, k: nat)
    requires StartFor(env, lines, b, k)
    ensures k < |lines|
  {
  }

  /** A turn nothing ever put in an attempt is closed exactly when it is ready. */
  lemma NeverStartedCloses(env: Env, s0: State, lines: seq<Line>, b: nat)
    requires s0 == Begin(s0.next, s0.base, s0.values) && !Run(env, s0, lines).failed
    requires LastOpening(env, lines, b) && forall m: nat :: !BegunAt(env, lines, b, m)
    ensures ClosesIdle(env, Run(env, s0, lines)) <==> env.format.judge(BodyOf(env, s0.values, lines, b)).ready
  {
    hide Run;
    hide BodyOf;
    hide ClosesIdle;
    hide BegunAt;
    hide AttemptOf;
    hide Opens;
    NoAttemptBegun(env, lines, b);
    QuietTimeEndsTheTurn(env, s0, lines, b, true);
  }
}

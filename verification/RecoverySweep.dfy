/** The budgeted recovery sweep (src/daemon/task-state-manifests.ts): passes over
    the pending requests, each resuming an unfinished read where it stopped. */
module RecoverySweep {
  import opened Reading
  import opened RecoveryReads

  /** Whether time has run out, before a request is begun and behind each of its turns. */
  datatype Clock = Clock(before: nat -> bool, behind: nat -> (nat -> bool))

  /** How a pass ended: another one queued, nothing left, or rejected, queueing none. */
  datatype Outcome = Again | Finished | Stuck

  /** Passes one request can keep: a restart, a pause behind each turn, and one more. */
  function Work(request: Request): nat { |request.source.turns| + 2 }

  function TotalWork(requests: seq<Request>): nat {
    if requests == [] then 0 else Work(requests[0]) + TotalWork(requests[1..])
  }

  lemma {:induction false} LaterIsLess(requests: seq<Request>, from: nat, upto: nat)
    requires from <= upto <= |requests|
    ensures TotalWork(requests[upto..]) <= TotalWork(requests[from..])
    decreases |requests| - from
  {
    if from < upto {
      assert requests[from..][1..] == requests[from + 1..];
      LaterIsLess(requests, from + 1, upto);
    }
  }

  class RecoveryPass {
    var remaining: nat
    var untouched: bool

    constructor (bytes: nat)
      ensures remaining == bytes && untouched
    {
      remaining, untouched := bytes, true;
    }
  }

  /** A parse of the request's source from `start`, charged to the pass. Reading in
      chunks, it may be charged for more than it had to see. */
  method ParseTurns(request: Request, start: ReadStart, pass: RecoveryPass, late: nat -> bool)
    returns (end: ParseEnd, resumeAt: Option<ReadStart>)
    requires WellFormed(request) && StartsIn(request, start)
    modifies pass`remaining
    ensures pass.remaining <= old(pass.remaining)
    ensures end == Parse(request, start, old(pass.remaining), late)
    ensures end.OutOfBytes? || end.OutOfTime? ==> resumeAt == if end.at > TurnOf(start) then Some(Issued(end.at)) else None
    ensures end.OutOfTime? ==> end.at > TurnOf(start)
    ensures resumeAt.Some? ==> resumeAt.value.Issued? && StartsIn(request, resumeAt.value)
  {
    var allowance, outset := pass.remaining, OutsetOf(request, start);
    resumeAt := None;
    if outset.cost > allowance {
      return OutOfBytes(TurnOf(start)), resumeAt;
    }
    var left :| 0 <= left <= allowance - outset.cost;
    pass.remaining := left;
    if outset.meets.Refuses? {
      return Desynced, resumeAt;
    } else if outset.meets.Throws? {
      return Threw, resumeAt;
    }
    var at, need := TurnOf(start), outset.cost;
    while at < |request.source.turns|
      invariant TurnOf(start) <= at <= |request.source.turns| && need == Need(request, start, at)
      invariant resumeAt == if at > TurnOf(start) then Some(Issued(at)) else None
      invariant ReadOn(request, start, allowance, late, TurnOf(start)) == ReadOn(request, start, allowance, late, at)
    {
      need := need + request.source.turns[at].cost;
      if need > allowance {
        return OutOfBytes(at), resumeAt;
      }
      if request.source.turns[at].reports {
        return Read(true), resumeAt;
      }
      at, resumeAt := at + 1, Some(Issued(at + 1));
      if late(at) {
        return OutOfTime(at), resumeAt;
      }
    }
    need := need + request.source.ending;
    end := if need > allowance then OutOfBytes(at) else if request.source.throws then Threw else Read(false);
  }

  class TaskStateManifestPublisher {
    const requests: seq<Request>
    const batch: nat
    const bytes: nat

    var continuations: map<nat, ReadStart>
    var sweepAfter: Option<nat>
    ghost var settled: seq<Settlement>

    constructor (requests: seq<Request>, batch: nat, bytes: nat)
      requires batch > 0 && forall k | 0 <= k < |requests| :: WellFormed(requests[k])
      ensures Valid() && this.requests == requests && this.batch == batch && this.bytes == bytes
      ensures continuations == map[] && sweepAfter.None? && settled == []
    {
      this.requests, this.batch, this.bytes := requests, batch, bytes;
      continuations, sweepAfter, settled := map[], None, [];
    }

    /** `readStart`: the request's continuation, else its retained cursor. */
    function StartOf(k: nat): ReadStart
      requires k < |requests|
      reads this
    {
      if k in continuations then continuations[k] else FirstStart(requests[k])
    }

    /** The request the next pass takes first. */
    function Position(): nat
      reads this
    {
      if sweepAfter.None? then 0 else sweepAfter.value + 1
    }

    ghost predicate Valid()
      reads this
    {
      && batch > 0 && Position() <= |requests|
      && (forall k | 0 <= k < |requests| :: WellFormed(requests[k]))
      && forall k | k in continuations ::
           && k == Position() < |requests| && StartsIn(requests[k], continuations[k])
           && (continuations[k].Retained? ==> requests[k].retained == Some(continuations[k]))
    }

    lemma StartsThere(k: nat)
      requires Valid() && k < |requests|
      ensures WellFormed(requests[k]) && StartsIn(requests[k], StartOf(k))
      ensures StartOf(k).Retained? ==> requests[k].retained == Some(StartOf(k))
    {
    }

    /** Passes the rest of the sweep can take. */
    ghost function PassesLeft(): nat
      requires Valid()
      reads this
    {
      if Position() == |requests| then 0
      else TotalWork(requests[Position() + 1..]) + 1 + Rank(requests[Position()], StartOf(Position()))
    }

    /** `recoverRequest`: one attempt from where the request stands; an exhausted one is
        left at its next start, a rejected one where it stood. */
    method RecoverRequest(k: nat, pass: RecoveryPass, late: nat -> bool) returns (answer: Answer)
      requires Valid() && k == Position() < |requests|
      modifies this`continuations, pass
      ensures answer == Attempt(requests[k], old(StartOf(k)), old(pass.remaining), old(pass.untouched), late)
      ensures Valid() && pass.remaining <= old(pass.remaining)
      ensures if requests[k].opens then !pass.untouched else pass.untouched == old(pass.untouched) && pass.remaining == old(pass.remaining)
      ensures answer.Done? ==> k !in continuations
      ensures answer.Exhausted? ==> StartOf(k) == answer.next
      ensures answer.Rejected? ==> continuations == old(continuations)
    {
      hide Parse;
      hide WellFormed;
      if !requests[k].opens {
        continuations := continuations - {k};
        return Done(Unopenable);
      }
      var untouched := pass.untouched;
      pass.untouched := false;
      var start := StartOf(k);
      StartsThere(k);
      var end, resumeAt := ParseTurns(requests[k], start, pass, late);
      match end {
        case Desynced =>
          continuations := continuations[k := SourceStart];
          answer := Exhausted(SourceStart);
        case OutOfBytes(_) =>
          pass.remaining := 0;
          if resumeAt.None? && untouched {
            continuations := continuations - {k};
            return Done(TurnTooLarge);
          }
          answer := Continue(k, start, resumeAt);
        case OutOfTime(_) =>
          answer := Continue(k, start, resumeAt);
        case Threw =>
          answer := Rejected;
        case Read(found) =>
          continuations := continuations - {k};
          answer := Done(if found then ReportFound else ReportAbsent);
      }
    }

    /** Remembers where an unfinished read resumes, unless that is byte zero. */
    method Continue(k: nat, start: ReadStart, resumeAt: Option<ReadStart>) returns (answer: Answer)
      requires Valid() && k == Position() < |requests| && start == StartOf(k)
      requires resumeAt.Some? ==> resumeAt.value.Issued? && StartsIn(requests[k], resumeAt.value)
      modifies this`continuations
      ensures Valid() && StartOf(k) == if resumeAt.Some? then resumeAt.value else start
      ensures answer == Exhausted(StartOf(k))
    {
      if resumeAt.Some? {
        continuations := continuations[k := resumeAt.value];
      } else if !start.SourceStart? {
        continuations := continuations[k := start];
      }
      answer := Exhausted(if resumeAt.Some? then resumeAt.value else start);
    }

    // ------------------------------------------------------------------- the sweep

    ghost predicate MayReject(k: nat)
      requires k < |requests| && WellFormed(requests[k])
    {
      requests[k].opens && MayFail(requests[k], FirstStart(requests[k]), bytes)
    }

    ghost predicate MustReject(k: nat)
      requires k < |requests| && WellFormed(requests[k])
    {
      requests[k].opens && MustFail(requests[k], FirstStart(requests[k]), bytes)
    }

    ghost predicate Settles(k: nat, how: Settlement)
      requires k < |requests| && WellFormed(requests[k])
    {
      if requests[k].opens then MaySettle(requests[k], FirstStart(requests[k]), bytes, how) else how.Unopenable?
    }

    ghost predicate AllSettle()
      reads this
      requires Valid()
    {
      forall k | 0 <= k < |settled| && k < |requests| :: Settles(k, settled[k])
    }

    /** The closed condition on a request: what its source throws at stands, on the way
        from where its read first begins, before the report. */
    ghost predicate IsBlocked(k: nat)
      requires k < |requests| && WellFormed(requests[k])
    {
      requests[k].opens && Blocked(requests[k], FirstStart(requests[k]))
    }

    ghost predicate AllRoomy()
      requires forall k | 0 <= k < |requests| :: WellFormed(requests[k])
    {
      forall k | 0 <= k < |requests| :: Roomy(requests[k], bytes)
    }

    /** What must be rejected may be, what may be is blocked, and with room for each turn
        the three are the same. */
    lemma BlockedDecides(k: nat)
      requires k < |requests| && WellFormed(requests[k])
      ensures MustReject(k) ==> MayReject(k)
      ensures MayReject(k) ==> IsBlocked(k)
      ensures Roomy(requests[k], bytes) && IsBlocked(k) ==> MustReject(k)
    {
      hide MayFail;
      hide MaySettle;
      hide Blocked;
      hide Roomy;
      var r := requests[k];
      if MustReject(k) {
        MustFailMayFail(r, FirstStart(r), bytes);
      }
      if MayReject(k) {
        OnlyBlockedFail(r, FirstStart(r), bytes);
      }
      if Roomy(r, bytes) && IsBlocked(k) {
        forall how ensures !MaySettle(r, FirstStart(r), bytes, how) {
          BlockedMustFail(r, FirstStart(r), bytes, how);
        }
      }
    }

    /** Every request before the position is settled as it may be, each once, and no
        other; of the one at the position nothing more may come than at first. */
    ghost predicate Sweeping()
      reads this
    {
      && Valid() && Position() == |settled| && AllSettle()
      && (Position() < |requests| ==> Inherits(requests[Position()], FirstStart(requests[Position()]), StartOf(Position()), bytes))
    }

    /** Time runs out before every request, and behind the turns Hurried names. */
    ghost predicate HurriedClock(clock: Clock)
      requires forall k | 0 <= k < |requests| :: WellFormed(requests[k])
    {
      (forall k :: clock.before(k)) && forall k | 0 <= k < |requests| :: Hurried(requests[k], bytes, clock.behind(k))
    }

    ghost predicate PatientClock(clock: Clock)
      requires forall k | 0 <= k < |requests| :: WellFormed(requests[k])
    {
      (forall k :: clock.before(k)) && forall k | 0 <= k < |requests| :: Patient(requests[k], bytes, clock.behind(k))
    }

    /** On the hurried clock, nothing that may fail has been settled or spared. */
    ghost predicate NoneSpared()
      reads this
      requires Valid()
    {
      && (forall k | 0 <= k < |settled| && k < |requests| :: !MayReject(k))
      && (Position() < |requests| && MayReject(Position()) ==> MayFail(requests[Position()], StartOf(Position()), bytes))
    }

    /** On the patient clock, nothing that may be settled has been doomed. */
    ghost predicate NoneDoomed()
      reads this
      requires Valid()
    {
      Position() < |requests| && requests[Position()].opens && MustFail(requests[Position()], StartOf(Position()), bytes) ==>
        MustReject(Position())
    }

    ghost predicate DoomedHere()
      reads this
      requires Valid()
    {
      Position() < |requests| && requests[Position()].opens && MustFail(requests[Position()], StartOf(Position()), bytes)
    }

    /** One attempt within a pass, what it keeps, and the position moved past a request
        it settles. */
    method Take(k: nat, pass: RecoveryPass, clock: Clock) returns (answer: Answer)
      requires Sweeping() && k == Position() < |requests| && pass.remaining <= bytes && (pass.untouched ==> pass.remaining == bytes)
      modifies this, pass
      ensures Sweeping() && pass.remaining <= bytes && (pass.untouched ==> pass.remaining == bytes)
      ensures settled == if answer.Done? then old(settled) + [answer.how] else old(settled)
      ensures !answer.Done? ==> requests[k].opens
      ensures answer.Done? && requests[k].opens ==> !pass.untouched
      ensures answer.Exhausted? ==> Rank(requests[k], StartOf(k)) <= Rank(requests[k], old(StartOf(k)))
      ensures answer.Exhausted? && old(pass.untouched) ==> Rank(requests[k], StartOf(k)) < Rank(requests[k], old(StartOf(k)))
      ensures answer.Rejected? ==> MayReject(k)
      ensures old(DoomedHere()) ==> !answer.Done? && DoomedHere()
      ensures HurriedClock(clock) && old(pass.untouched) && old(NoneSpared()) ==> NoneSpared()
      ensures PatientClock(clock) && old(pass.untouched) && old(NoneDoomed()) ==> NoneDoomed() && (answer.Rejected? ==> MustReject(k))
    {
      hide MayFail;
      hide MaySettle;
      hide Attempt;
      hide Rank;
      ghost var start, allowance, untouched := StartOf(k), pass.remaining, pass.untouched;
      answer := RecoverRequest(k, pass, clock.behind(k));
      if requests[k].opens {
        AttemptClocked(requests[k], start, bytes, allowance, untouched, clock.behind(k));
      } else {
        UnopenableIsDone(requests[k], start, allowance, untouched, clock.behind(k));
      }
      if answer.Done? {
        sweepAfter, settled := Some(k), settled + [answer.how];
      }
    }

    /** `recover`: one pass of the general sweep. It settles requests in order, or brings
        the first one closer to its end; rejected, it keeps the position and queues
        nothing; finished, it leaves none. */
    method Recover(clock: Clock) returns (outcome: Outcome)
      requires Sweeping()
      modifies this
      ensures Valid() && old(settled) <= settled && AllSettle()
      ensures !outcome.Finished? ==> Sweeping()
      ensures outcome.Finished? ==> sweepAfter.None? && |settled| == |requests|
      ensures outcome.Stuck? ==> Position() < |requests| && MayReject(Position())
      ensures outcome.Again? ==>
                || Position() > old(Position())
                || (Position() == old(Position()) < |requests|
                    && Rank(requests[Position()], StartOf(Position())) < Rank(requests[Position()], old(StartOf(Position()))))
      ensures old(DoomedHere()) ==> !outcome.Finished? && settled == old(settled) && DoomedHere()
      ensures HurriedClock(clock) && old(NoneSpared()) ==> NoneSpared()
      ensures PatientClock(clock) && old(NoneDoomed()) ==> NoneDoomed() && (outcome.Stuck? ==> MustReject(Position()))
    {
      hide MayFail;
      hide MaySettle;
      hide Rank;
      hide Inherits;
      hide Settles;
      var pass := new RecoveryPass(bytes);
      var k := Position();
      var upto := Min(k + batch, |requests|);
      var size := upto - k;
      while k < upto
        invariant old(Position()) <= k == Position() <= upto <= |requests| && Sweeping() && old(settled) <= settled
        invariant pass.remaining <= bytes && (pass.untouched ==> pass.remaining == bytes)
        invariant k == old(Position()) ==> pass.untouched && (k < |requests| ==> StartOf(k) == old(StartOf(Position())))
        invariant old(DoomedHere()) ==> k == old(Position()) && settled == old(settled) && DoomedHere()
        invariant HurriedClock(clock) && old(NoneSpared()) ==> NoneSpared()
        invariant PatientClock(clock) && old(NoneDoomed()) ==> NoneDoomed()
      {
        if !pass.untouched && (pass.remaining == 0 || clock.before(k)) {
          return Again;
        }
        var answer := Take(k, pass, clock);
        match answer {
          case Rejected => return Stuck;
          case Exhausted(_) => return Again;
          case Done(_) => k := k + 1;
        }
      }
      if size < batch {
        sweepAfter := None;
        return Outcome.Finished;
      }
      outcome := Again;
    }

    lemma WithinWork()
      requires Valid()
      ensures PassesLeft() <= TotalWork(requests[Position()..])
    {
      if Position() < |requests| {
        StartsThere(Position());
        assert requests[Position()..][1..] == requests[Position() + 1..];
      }
    }

    /** The passes one after the other, as each queues the next: they end, after no more
        than the turns there are, two for each request and one more, with the requests
        before the one they are stuck at settled, each once, and all of them when they
        are not stuck. With room for each turn, they are stuck at the first blocked
        request and finish if and only if there is none. Without, the clock decides: on
        the hurried one they finish if and only if no request may be rejected, on the
        patient one if and only if none must be. */
    method Sweep(clock: Clock) returns (outcome: Outcome, passes: nat)
      requires Valid() && continuations == map[] && sweepAfter.None? && settled == []
      modifies this
      ensures Valid() && AllSettle() && !outcome.Again? && passes <= TotalWork(requests) + 1
      ensures if outcome.Finished? then |settled| == |requests| else |settled| < |requests| && MayReject(|settled|) && Sweeping()
      ensures HurriedClock(clock) ==> (outcome.Finished? <==> forall k | 0 <= k < |requests| :: !MayReject(k))
      ensures HurriedClock(clock) && outcome.Stuck? ==> forall k | 0 <= k < |settled| :: !MayReject(k)
      ensures PatientClock(clock) ==> (outcome.Finished? <==> forall k | 0 <= k < |requests| :: !MustReject(k))
      ensures outcome.Stuck? ==> IsBlocked(|settled|)
      ensures AllRoomy() ==> (outcome.Finished? <==> forall k | 0 <= k < |requests| :: !IsBlocked(k))
      ensures AllRoomy() ==> forall k | 0 <= k < |settled| :: !IsBlocked(k)
    {
      hide MayFail;
      hide MaySettle;
      hide MustFail;
      hide Inherits;
      hide Settles;
      hide MayReject;
      hide MustReject;
      hide HurriedClock;
      hide PatientClock;
      SpareNothing();
      outcome, passes := Again, 0;
      WithinWork();
      assert requests[0..] == requests;
      while outcome.Again?
        invariant Valid() && AllSettle() && (!outcome.Finished? ==> Sweeping())
        invariant outcome.Finished? ==> |settled| == |requests|
        invariant outcome.Stuck? ==> Position() < |requests| && MayReject(Position())
        invariant HurriedClock(clock) ==> NoneSpared()
        invariant PatientClock(clock) && !outcome.Finished? ==> NoneDoomed() && (outcome.Stuck? ==> MustReject(Position()))
        invariant if outcome.Again? then passes + PassesLeft() <= TotalWork(requests) else passes <= TotalWork(requests) + 1
        decreases outcome.Again?, |requests| - Position(),
                  if Position() < |requests| then Rank(requests[Position()], StartOf(Position())) else 0
      {
        ghost var from := Position();
        outcome := Recover(clock);
        passes := passes + 1;
        if outcome.Again? && Position() > from {
          LaterIsLess(requests, from + 1, Position());
          WithinWork();
        }
      }
      SettledNeedNotFail();
      hide Blocked;
      hide Roomy;
      forall k | 0 <= k < |requests|
        ensures (MayReject(k) ==> IsBlocked(k)) && (Roomy(requests[k], bytes) && IsBlocked(k) ==> MustReject(k))
      {
        BlockedDecides(k);
      }
    }

    lemma SpareNothing()
      requires Valid() && continuations == map[] && sweepAfter.None? && settled == []
      ensures Sweeping() && NoneSpared() && NoneDoomed()
    {
      hide MayFail;
      hide MaySettle;
    }

    lemma SettledNeedNotFail()
      requires Valid() && AllSettle()
      ensures forall k | 0 <= k < |settled| && k < |requests| :: !MustReject(k)
    {
      hide MaySettle;
      forall k | 0 <= k < |settled| && k < |requests| ensures !MustReject(k) {
        assert Settles(k, settled[k]);
      }
    }

    /** However often passes are begun again, by whatever clock, behind a request that
        must be rejected nothing more is settled. */
    method Retry(clocks: seq<Clock>)
      requires Sweeping() && DoomedHere()
      modifies this
      ensures Sweeping() && DoomedHere() && settled == old(settled)
    {
      hide MayFail;
      hide MaySettle;
      for k := 0 to |clocks|
        invariant Sweeping() && DoomedHere() && settled == old(settled)
      {
        var _ := Recover(clocks[k]);
      }
    }

    // ------------------------------------------------------- both clocks can tick

    ghost function Hurrying(): Clock
      requires forall k | 0 <= k < |requests| :: WellFormed(requests[k])
    {
      Clock((k: nat) => true, (k: nat) => (j: nat) =>
              k < |requests| && 0 < j <= |requests[k].source.turns| && MayFail(requests[k], Issued(j), bytes))
    }

    ghost function Waiting(): Clock
      requires forall k | 0 <= k < |requests| :: WellFormed(requests[k])
    {
      Clock((k: nat) => true, (k: nat) => (j: nat) =>
              k < |requests| && 0 < j <= |requests[k].source.turns| && !MustFail(requests[k], Issued(j), bytes))
    }

    lemma BothClocks()
      requires forall k | 0 <= k < |requests| :: WellFormed(requests[k])
      ensures HurriedClock(Hurrying()) && PatientClock(Waiting())
    {
      hide MayFail;
      hide MustFail;
    }
  }

  lemma UnopenableIsDone(r: Request, start: ReadStart, allowance: nat, untouched: bool, late: nat -> bool)
    requires WellFormed(r) && StartsIn(r, start) && !r.opens
    ensures Attempt(r, start, allowance, untouched, late) == Done(Unopenable)
  {
  }

  // -------------------------------------------------------------- a failing request

  /** One turn that reports nothing, then one whose coverage is refused when it closes. */
  function Uncovered(): Request {
    Request(true, Source([Turn(100, false)], [Outset(0, Holds), Outset(64, Holds)], 60000, true), None)
  }

  /** One turn, carrying the report awaited. */
  function Reporting(): Request {
    Request(true, Source([Turn(100, true)], [Outset(0, Holds), Outset(64, Holds)], 1, false), None)
  }

  lemma UncoveredIsBlocked(bytes: nat)
    requires bytes >= 60164
    ensures WellFormed(Uncovered()) && Roomy(Uncovered(), bytes) && Blocked(Uncovered(), SourceStart)
    ensures WellFormed(Reporting()) && Roomy(Reporting(), bytes)
  {
    var r, s := Uncovered(), Reporting();
    assert Need(r, SourceStart, 0) == 0 && Need(r, SourceStart, 1) == 100;
    assert Need(r, Issued(1), 1) == 64 && Need(r, Issued(1), 2) == 60064;
    assert Need(s, SourceStart, 0) == 0 && Need(s, SourceStart, 1) == 100;
    assert Need(s, Issued(1), 1) == 64 && Need(s, Issued(1), 2) == 65;
  }

  /** The sweep never settles the request whose report waits behind that one, neither
      at startup nor in any pass begun later. */
  method UncoveredStopsTheSweep(batch: nat, bytes: nat, clock: Clock, later: seq<Clock>)
    returns (outcome: Outcome, ghost settled: seq<Settlement>)
    requires batch > 0 && bytes >= 60164
    ensures outcome.Stuck? && settled == []
  {
    hide MayFail;
    hide MaySettle;
    hide Blocked;
    hide Roomy;
    hide TotalWork;
    UncoveredIsBlocked(bytes);
    var publisher := new TaskStateManifestPublisher([Uncovered(), Reporting()], batch, bytes);
    var passes: nat;
    outcome, passes := publisher.Sweep(clock);
    assert publisher.IsBlocked(0);
    publisher.BlockedDecides(0);
    publisher.Retry(later);
    settled := publisher.settled;
  }
}

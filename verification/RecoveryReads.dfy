/** One request of the recovery sweep (src/daemon/task-state-manifests.ts): what a pass
    makes of reading its source from where the last one stopped. */
module RecoveryReads {
  import Framing
  import opened Reading

  /** One closed turn: what reading on to it costs, and whether it carries the report
      the request waits for. */
  datatype Turn = Turn(cost: nat, reports: bool)

  /** What beginning a read costs, its cursor and context authenticated and its decisions
      found, and what that comes to. */
  datatype Meets = Holds | Refuses | Throws
  datatype Outset = Outset(cost: nat, meets: Meets)

  /** A transcript as a parse delivers it: its turns, what beginning behind each number of
      them costs, and its end: the file's, or a record or turn the parse throws at. */
  datatype Source = Source(turns: seq<Turn>, outsets: seq<Outset>, ending: nat, throws: bool)

  /** Where a read begins: byte zero, a cursor retained earlier, or one issued behind a
      turn while reading this very source. */
  datatype ReadStart = SourceStart | Retained(turn: nat, outset: Outset) | Issued(turn: nat)

  /** A pending request and its source, unchanged while the sweep runs. */
  datatype Request = Request(opens: bool, source: Source, retained: Option<ReadStart>)

  datatype Settlement = Unopenable | TurnTooLarge | ReportAbsent | ReportFound

  /** How a parse of a source ended, behind how many turns. */
  datatype ParseEnd = Desynced | OutOfBytes(at: nat) | OutOfTime(at: nat) | Threw | Read(found: bool)

  /** What comes of one attempt: settled, to be read on in a later pass, or rejected. */
  datatype Answer = Done(how: Settlement) | Exhausted(next: ReadStart) | Rejected

  predicate WellFormed(r: Request) {
    && |r.source.outsets| == |r.source.turns| + 1
    && !r.source.outsets[0].meets.Refuses?
    && (forall i | 0 < i < |r.source.outsets| :: r.source.outsets[i].meets.Holds?)
    && (r.retained.Some? ==> r.retained.value.Retained? && StartsIn(r, r.retained.value))
  }

  /** A start the source can be read from, or a retained one it answers otherwise. */
  predicate StartsIn(r: Request, start: ReadStart) {
    match start
    case SourceStart => true
    case Retained(turn, outset) => outset.meets.Holds? ==> turn <= |r.source.turns|
    case Issued(turn) => 0 < turn <= |r.source.turns|
  }

  function FirstStart(r: Request): ReadStart {
    if r.retained.Some? then r.retained.value else SourceStart
  }

  function TurnOf(start: ReadStart): nat {
    if start.SourceStart? then 0 else start.turn
  }

  function OutsetOf(r: Request, start: ReadStart): Outset
    requires WellFormed(r) && StartsIn(r, start)
  {
    if start.Retained? then start.outset else r.source.outsets[TurnOf(start)]
  }

  /** The least allowance with which a read from `start` gets behind `to` turns, the
      end of the source counting as one more. */
  function Need(r: Request, start: ReadStart, upto: nat): nat
    requires WellFormed(r) && StartsIn(r, start) && upto <= |r.source.turns| + 1
    decreases upto
  {
    if upto <= TurnOf(start) then OutsetOf(r, start).cost
    else Need(r, start, upto - 1) + if upto <= |r.source.turns| then r.source.turns[upto - 1].cost else r.source.ending
  }

  lemma {:induction false} NeedGrows(r: Request, start: ReadStart, from: nat, upto: nat)
    requires WellFormed(r) && StartsIn(r, start) && from <= upto <= |r.source.turns| + 1
    ensures Need(r, start, from) <= Need(r, start, upto)
    decreases upto
  {
    if from < upto {
      NeedGrows(r, start, from, upto - 1);
    }
  }

  /** No turn from the one on is the one the request waits for. */
  predicate Clean(r: Request, from: nat, upto: nat) {
    forall i | from <= i < upto && i < |r.source.turns| :: !r.source.turns[i].reports
  }

  // ------------------------------------------------------------------- one attempt

  /** Reading on from behind `at` turns, with what the read began with as its allowance;
      time is looked at behind each turn. */
  function ReadOn(r: Request, start: ReadStart, allowance: nat, late: nat -> bool, at: nat): ParseEnd
    requires WellFormed(r) && StartsIn(r, start) && at <= |r.source.turns|
    decreases |r.source.turns| - at
  {
    if Need(r, start, at + 1) > allowance then OutOfBytes(at)
    else if at == |r.source.turns| then if r.source.throws then Threw else Read(false)
    else if r.source.turns[at].reports then Read(true)
    else if late(at + 1) then OutOfTime(at + 1)
    else ReadOn(r, start, allowance, late, at + 1)
  }

  function Parse(r: Request, start: ReadStart, allowance: nat, late: nat -> bool): ParseEnd
    requires WellFormed(r) && StartsIn(r, start)
  {
    var outset := OutsetOf(r, start);
    if outset.cost > allowance then OutOfBytes(TurnOf(start))
    else match outset.meets
      case Refuses => Desynced
      case Throws => Threw
      case Holds => ReadOn(r, start, allowance, late, TurnOf(start))
  }

  /** `recoverRequest`: what its parse comes to. */
  function Attempt(r: Request, start: ReadStart, allowance: nat, untouched: bool, late: nat -> bool): Answer
    requires WellFormed(r) && StartsIn(r, start)
  {
    if !r.opens then Done(Unopenable)
    else match Parse(r, start, allowance, late)
      case Desynced => Exhausted(SourceStart)
      case OutOfBytes(at) =>
        if at > TurnOf(start) then Exhausted(Issued(at)) else if untouched then Done(TurnTooLarge) else Exhausted(start)
      case OutOfTime(at) => Exhausted(Issued(at))
      case Threw => Rejected
      case Read(found) => Done(if found then ReportFound else ReportAbsent)
  }

  // ---------------------------------------------------------- what a request may come to

  /** A pass may leave the read behind turn `j`. */
  predicate Pauses(r: Request, start: ReadStart, bytes: nat, j: nat)
    requires WellFormed(r) && StartsIn(r, start)
  {
    TurnOf(start) < j <= |r.source.turns| && Need(r, start, j) <= bytes && Clean(r, TurnOf(start), j)
  }

  /** Passes of `bytes` each may bring the read to what it throws at. */
  predicate MayFail(r: Request, start: ReadStart, bytes: nat)
    requires WellFormed(r) && StartsIn(r, start)
    decreases start.Retained?, |r.source.turns| - TurnOf(start)
  {
    var n := |r.source.turns|;
    OutsetOf(r, start).cost <= bytes &&
    match OutsetOf(r, start).meets
    case Refuses => MayFail(r, SourceStart, bytes)
    case Throws => true
    case Holds =>
      || (r.source.throws && Clean(r, TurnOf(start), n) && Need(r, start, n + 1) <= bytes)
      || exists j | TurnOf(start) < j <= n :: Pauses(r, start, bytes, j) && MayFail(r, Issued(j), bytes)
  }

  /** Passes of `bytes` each may settle it as `how`. */
  predicate MaySettle(r: Request, start: ReadStart, bytes: nat, how: Settlement)
    requires WellFormed(r) && StartsIn(r, start)
    decreases start.Retained?, |r.source.turns| - TurnOf(start)
  {
    var n := |r.source.turns|;
    if OutsetOf(r, start).cost > bytes then how == TurnTooLarge
    else
      match OutsetOf(r, start).meets
      case Refuses => MaySettle(r, SourceStart, bytes, how)
      case Throws => false
      case Holds =>
        || (how == TurnTooLarge && Need(r, start, TurnOf(start) + 1) > bytes)
        || (how == ReportAbsent && !r.source.throws && Clean(r, TurnOf(start), n) && Need(r, start, n + 1) <= bytes)
        || (how == ReportFound && exists j | TurnOf(start) <= j < n :: Reports(r, start, bytes, j))
        || exists j | TurnOf(start) < j <= n :: Pauses(r, start, bytes, j) && MaySettle(r, Issued(j), bytes, how)
  }

  predicate Reports(r: Request, start: ReadStart, bytes: nat, j: nat)
    requires WellFormed(r) && StartsIn(r, start)
  {
    j < |r.source.turns| && r.source.turns[j].reports && Clean(r, TurnOf(start), j) && Need(r, start, j + 1) <= bytes
  }

  predicate MustFail(r: Request, start: ReadStart, bytes: nat)
    requires WellFormed(r) && StartsIn(r, start)
  {
    forall how :: !MaySettle(r, start, bytes, how)
  }

  // ---------------------------------------------------- what comes is what may come

  ghost predicate MayEnd(r: Request, start: ReadStart, bytes: nat, end: ParseEnd)
    requires WellFormed(r) && StartsIn(r, start)
  {
    var n := |r.source.turns|;
    match end
    case Desynced => false
    case OutOfBytes(at) => TurnOf(start) < at ==> Pauses(r, start, bytes, at)
    case OutOfTime(at) => Pauses(r, start, bytes, at)
    case Threw => r.source.throws && Clean(r, TurnOf(start), n) && Need(r, start, n + 1) <= bytes
    case Read(true) => exists j | TurnOf(start) <= j < n :: Reports(r, start, bytes, j)
    case Read(false) => !r.source.throws && Clean(r, TurnOf(start), n) && Need(r, start, n + 1) <= bytes
  }

  lemma {:induction false} ReadOnMay(r: Request, start: ReadStart, bytes: nat, allowance: nat, late: nat -> bool, at: nat)
    requires WellFormed(r) && StartsIn(r, start) && OutsetOf(r, start).meets.Holds? && allowance <= bytes
    requires TurnOf(start) <= at <= |r.source.turns| && Clean(r, TurnOf(start), at) && Need(r, start, at) <= allowance
    ensures var end := ReadOn(r, start, allowance, late, at);
            && MayEnd(r, start, bytes, end)
            && (end.OutOfBytes? ==> at <= end.at <= |r.source.turns| && Need(r, start, end.at + 1) > allowance)
    decreases |r.source.turns| - at
  {
    hide Need;
    if Need(r, start, at + 1) <= allowance && at < |r.source.turns| {
      if r.source.turns[at].reports {
        assert Reports(r, start, bytes, at);
      } else if !late(at + 1) {
        ReadOnMay(r, start, bytes, allowance, late, at + 1);
      }
    }
  }

  /** How far a start is from settling: a refusal sends it back to byte zero once, every
      other pause is behind a later turn. */
  function Rank(r: Request, start: ReadStart): nat
    requires WellFormed(r) && StartsIn(r, start)
  {
    if start.Retained? then |r.source.turns| + 1 else |r.source.turns| - TurnOf(start)
  }

  /** Whatever may come of a read from `next` may come of one from `start`. */
  ghost predicate Inherits(r: Request, start: ReadStart, next: ReadStart, bytes: nat)
    requires WellFormed(r) && StartsIn(r, start) && StartsIn(r, next)
  {
    && (MayFail(r, next, bytes) ==> MayFail(r, start, bytes))
    && forall how | MaySettle(r, next, bytes, how) :: MaySettle(r, start, bytes, how)
  }

  ghost predicate MayCome(r: Request, start: ReadStart, bytes: nat, untouched: bool, answer: Answer)
    requires WellFormed(r) && StartsIn(r, start)
  {
    match answer
    case Rejected => MayFail(r, start, bytes)
    case Done(how) => MaySettle(r, start, bytes, how)
    case Exhausted(next) =>
      && StartsIn(r, next) && Inherits(r, start, next, bytes)
      && Rank(r, next) <= Rank(r, start) && (untouched ==> Rank(r, next) < Rank(r, start))
  }

  /** An attempt settles a request as unopenable exactly when its source does not open.
      Else it fails or settles it only as it may, and leaves it where nothing
      more may come of it, and closer to the end if it had a whole pass. */
  lemma AttemptMay(r: Request, start: ReadStart, bytes: nat, allowance: nat, untouched: bool, late: nat -> bool)
    requires WellFormed(r) && StartsIn(r, start) && allowance <= bytes && (untouched ==> allowance == bytes)
    ensures r.opens ==> MayCome(r, start, bytes, untouched, Attempt(r, start, allowance, untouched, late))
    ensures Attempt(r, start, allowance, untouched, late) == Done(Unopenable) <==> !r.opens
  {
    hide Need;
    var outset := OutsetOf(r, start);
    assert Need(r, start, 0) == outset.cost by { NeedAtStart(r, start, 0); }
    if outset.cost <= allowance && outset.meets.Holds? {
      NeedAtStart(r, start, TurnOf(start));
      ReadOnMay(r, start, bytes, allowance, late, TurnOf(start));
    }
  }

  lemma NeedAtStart(r: Request, start: ReadStart, at: nat)
    requires WellFormed(r) && StartsIn(r, start) && at <= TurnOf(start) && at <= |r.source.turns|
    ensures Need(r, start, at) == OutsetOf(r, start).cost
  {
  }

  // -------------------------------------------------------------- the clock decides

  /** Time runs out behind every turn from which the read may still fail. */
  ghost predicate Hurried(r: Request, bytes: nat, late: nat -> bool)
    requires WellFormed(r)
  {
    forall j | 0 < j <= |r.source.turns| :: late(j) <==> MayFail(r, Issued(j), bytes)
  }

  /** Time runs out behind every turn from which the request may still be settled. */
  ghost predicate Patient(r: Request, bytes: nat, late: nat -> bool)
    requires WellFormed(r)
  {
    forall j | 0 < j <= |r.source.turns| :: late(j) <==> !MustFail(r, Issued(j), bytes)
  }

  /** A read that may fail has a next stop: behind a turn from which it may, or what it
      throws at. */
  lemma FailsBehind(r: Request, start: ReadStart, bytes: nat) returns (j: nat)
    requires WellFormed(r) && StartsIn(r, start) && OutsetOf(r, start).meets.Holds? && MayFail(r, start, bytes)
    ensures TurnOf(start) < j <= |r.source.turns| + 1 && Need(r, start, j) <= bytes && Clean(r, TurnOf(start), j)
    ensures if j <= |r.source.turns| then MayFail(r, Issued(j), bytes) else r.source.throws
  {
    hide Need;
    var n := |r.source.turns|;
    if k :| TurnOf(start) < k <= n && Pauses(r, start, bytes, k) && MayFail(r, Issued(k), bytes) {
      return k;
    }
    j := n + 1;
  }

  lemma {:induction false} ReadOnHurried(r: Request, start: ReadStart, bytes: nat, late: nat -> bool, at: nat, j: nat)
    requires WellFormed(r) && StartsIn(r, start) && Hurried(r, bytes, late) && TurnOf(start) <= at < j <= |r.source.turns| + 1
    requires Need(r, start, j) <= bytes && Clean(r, TurnOf(start), j)
    requires if j <= |r.source.turns| then MayFail(r, Issued(j), bytes) else r.source.throws
    ensures var end := ReadOn(r, start, bytes, late, at);
            end.Threw? || (end.OutOfTime? && 0 < end.at <= |r.source.turns| && MayFail(r, Issued(end.at), bytes))
    decreases |r.source.turns| - at
  {
    hide Need;
    hide MayFail;
    NeedGrows(r, start, at + 1, j);
    if at < |r.source.turns| && !late(at + 1) {
      ReadOnHurried(r, start, bytes, late, at + 1, j);
    }
  }

  lemma MayFailBegins(r: Request, start: ReadStart, bytes: nat)
    requires WellFormed(r) && StartsIn(r, start) && MayFail(r, start, bytes)
    ensures OutsetOf(r, start).cost <= bytes && (OutsetOf(r, start).meets.Refuses? ==> MayFail(r, SourceStart, bytes))
  {
    hide Need;
  }

  /** On the hurried clock, whole passes never settle what may fail. */
  lemma AttemptHurried(r: Request, start: ReadStart, bytes: nat, late: nat -> bool)
    requires WellFormed(r) && StartsIn(r, start) && r.opens && MayFail(r, start, bytes) && Hurried(r, bytes, late)
    ensures var answer := Attempt(r, start, bytes, true, late);
            answer.Rejected? || (answer.Exhausted? && StartsIn(r, answer.next) && MayFail(r, answer.next, bytes))
  {
    hide ReadOn;
    hide MayFail;
    MayFailBegins(r, start, bytes);
    if OutsetOf(r, start).meets.Holds? {
      var j := FailsBehind(r, start, bytes);
      ReadOnHurried(r, start, bytes, late, TurnOf(start), j);
    }
  }

  /** A read that may settle its request has a next stop: behind a turn that reports or
      from which it may, or the end of the source. */
  lemma SettlesBehind(r: Request, start: ReadStart, bytes: nat, how: Settlement) returns (j: nat)
    requires WellFormed(r) && StartsIn(r, start) && OutsetOf(r, start).meets.Holds? && MaySettle(r, start, bytes, how)
    requires OutsetOf(r, start).cost <= bytes && Need(r, start, TurnOf(start) + 1) <= bytes
    ensures TurnOf(start) < j <= |r.source.turns| + 1 && Need(r, start, j) <= bytes && Clean(r, TurnOf(start), j - 1)
    ensures if j <= |r.source.turns| then r.source.turns[j - 1].reports || !MustFail(r, Issued(j), bytes) else !r.source.throws
  {
    hide Need;
    var n := |r.source.turns|;
    if k :| TurnOf(start) < k <= n && Pauses(r, start, bytes, k) && MaySettle(r, Issued(k), bytes, how) {
      return k;
    }
    if k :| TurnOf(start) <= k < n && Reports(r, start, bytes, k) {
      return k + 1;
    }
    j := n + 1;
  }

  lemma {:induction false} ReadOnPatient(r: Request, start: ReadStart, bytes: nat, late: nat -> bool, at: nat, j: nat)
    requires WellFormed(r) && StartsIn(r, start) && Patient(r, bytes, late) && TurnOf(start) <= at < j <= |r.source.turns| + 1
    requires Need(r, start, j) <= bytes && Clean(r, TurnOf(start), j - 1)
    requires if j <= |r.source.turns| then r.source.turns[j - 1].reports || !MustFail(r, Issued(j), bytes) else !r.source.throws
    ensures var end := ReadOn(r, start, bytes, late, at);
            end.Read? || (end.OutOfTime? && 0 < end.at <= |r.source.turns| && !MustFail(r, Issued(end.at), bytes))
    decreases |r.source.turns| - at
  {
    hide Need;
    hide MustFail;
    NeedGrows(r, start, at + 1, j);
    if at < |r.source.turns| && !r.source.turns[at].reports && !late(at + 1) {
      ReadOnPatient(r, start, bytes, late, at + 1, j);
    }
  }

  lemma MaySettleBegins(r: Request, start: ReadStart, bytes: nat)
    requires WellFormed(r) && StartsIn(r, start) && !MustFail(r, start, bytes) && OutsetOf(r, start).cost <= bytes
    ensures !OutsetOf(r, start).meets.Throws? && (OutsetOf(r, start).meets.Refuses? ==> !MustFail(r, SourceStart, bytes))
  {
    hide Need;
    var how :| MaySettle(r, start, bytes, how);
    assert OutsetOf(r, start).meets.Refuses? ==> MaySettle(r, SourceStart, bytes, how);
  }

  /** On the patient clock, whole passes never reject what may be settled. */
  lemma AttemptPatient(r: Request, start: ReadStart, bytes: nat, late: nat -> bool)
    requires WellFormed(r) && StartsIn(r, start) && r.opens && !MustFail(r, start, bytes) && Patient(r, bytes, late)
    ensures var answer := Attempt(r, start, bytes, true, late);
            answer.Done? || (answer.Exhausted? && StartsIn(r, answer.next) && !MustFail(r, answer.next, bytes))
  {
    hide Need;
    hide MaySettle;
    if OutsetOf(r, start).cost <= bytes {
      MaySettleBegins(r, start, bytes);
      if OutsetOf(r, start).meets.Holds? && Need(r, start, TurnOf(start) + 1) <= bytes {
        var how :| MaySettle(r, start, bytes, how);
        var j := SettlesBehind(r, start, bytes, how);
        ReadOnPatient(r, start, bytes, late, TurnOf(start), j);
      }
    }
  }

  // ------------------------------------------------------------- the closed condition

  /** What the source throws at stands before any report, for a read from `start`. */
  predicate Blocked(r: Request, start: ReadStart)
    requires WellFormed(r) && StartsIn(r, start)
    decreases start.Retained?
  {
    match OutsetOf(r, start).meets
    case Refuses => Blocked(r, SourceStart)
    case Throws => true
    case Holds => r.source.throws && Clean(r, TurnOf(start), |r.source.turns|)
  }

  /** A whole pass authenticates every start and gets from each at least one turn on. */
  predicate Roomy(r: Request, bytes: nat)
    requires WellFormed(r)
  {
    && OutsetOf(r, FirstStart(r)).cost <= bytes && OutsetOf(r, SourceStart).cost <= bytes
    && (FirstStart(r).Retained? && OutsetOf(r, FirstStart(r)).meets.Holds? ==> Need(r, FirstStart(r), TurnOf(FirstStart(r)) + 1) <= bytes)
    && Need(r, SourceStart, 1) <= bytes
    && forall i | 0 < i <= |r.source.turns| :: Need(r, Issued(i), i + 1) <= bytes
  }

  /** Only a blocked request may fail. */
  lemma {:induction false} OnlyBlockedFail(r: Request, start: ReadStart, bytes: nat)
    requires WellFormed(r) && StartsIn(r, start) && MayFail(r, start, bytes)
    ensures Blocked(r, start)
    decreases start.Retained?, |r.source.turns| - TurnOf(start)
  {
    if OutsetOf(r, start).meets.Refuses? {
      OnlyBlockedFail(r, SourceStart, bytes);
    } else if OutsetOf(r, start).meets.Holds? {
      var j := FailsBehind(r, start, bytes);
      if j <= |r.source.turns| {
        OnlyBlockedFail(r, Issued(j), bytes);
      }
    }
  }

  /** A blocked request is settled, if at all, as holding a turn too large for a pass. */
  lemma {:induction false} BlockedIsTooLarge(r: Request, start: ReadStart, bytes: nat, how: Settlement)
    requires WellFormed(r) && StartsIn(r, start) && Blocked(r, start) && MaySettle(r, start, bytes, how)
    ensures how.TurnTooLarge?
    decreases start.Retained?, |r.source.turns| - TurnOf(start)
  {
    hide Need;
    var n := |r.source.turns|;
    if OutsetOf(r, start).cost <= bytes {
      if OutsetOf(r, start).meets.Refuses? {
        BlockedIsTooLarge(r, SourceStart, bytes, how);
      } else if j :| TurnOf(start) < j <= n && Pauses(r, start, bytes, j) && MaySettle(r, Issued(j), bytes, how) {
        BlockedIsTooLarge(r, Issued(j), bytes, how);
      }
    }
  }

  /** All a read from `start` can throw at is a record over the ceiling: it is behind
      more bytes than that. */
  predicate ThrowsAtOverlong(r: Request, start: ReadStart)
    requires WellFormed(r) && StartsIn(r, start)
  {
    && (r.source.throws ==> r.source.ending > Framing.MAX_TRANSCRIPT_RECORD_BYTES)
    && (OutsetOf(r, start).meets.Throws? ==> OutsetOf(r, start).cost > Framing.MAX_TRANSCRIPT_RECORD_BYTES)
    && (OutsetOf(r, SourceStart).meets.Throws? ==> OutsetOf(r, SourceStart).cost > Framing.MAX_TRANSCRIPT_RECORD_BYTES)
  }

  /** No pass within the ceiling of 64 MiB, as one of the 16 MiB configured is, gets to
      the end of an over-long record: its request is not rejected but settled as holding
      a turn too large. */
  lemma {:induction false} OverlongIsTooLarge(r: Request, start: ReadStart, bytes: nat)
    requires WellFormed(r) && StartsIn(r, start) && ThrowsAtOverlong(r, start) && bytes <= Framing.MAX_TRANSCRIPT_RECORD_BYTES
    ensures !MayFail(r, start, bytes)
    ensures Blocked(r, start) ==> MaySettle(r, start, bytes, TurnTooLarge)
    decreases start.Retained?, |r.source.turns| - TurnOf(start)
  {
    var n := |r.source.turns|;
    if OutsetOf(r, start).meets.Refuses? {
      OverlongIsTooLarge(r, SourceStart, bytes);
    } else {
      forall j | TurnOf(start) < j <= n ensures !MayFail(r, Issued(j), bytes) {
        OverlongIsTooLarge(r, Issued(j), bytes);
      }
    }
    SettledOtherwise(r, start, bytes);
  }

  /** What may not fail is settled somehow, and a blocked request only as too large. */
  lemma SettledOtherwise(r: Request, start: ReadStart, bytes: nat)
    requires WellFormed(r) && StartsIn(r, start) && !MayFail(r, start, bytes)
    ensures Blocked(r, start) ==> MaySettle(r, start, bytes, TurnTooLarge)
  {
    hide MayFail;
    hide MaySettle;
    hide Blocked;
    if MustFail(r, start, bytes) {
      MustFailMayFail(r, start, bytes);
    }
    var how :| MaySettle(r, start, bytes, how);
    if Blocked(r, start) {
      BlockedIsTooLarge(r, start, bytes, how);
    }
  }

  /** Where there is room, a blocked request fails whatever the clock. */
  lemma {:induction false} BlockedMustFail(r: Request, start: ReadStart, bytes: nat, how: Settlement)
    requires WellFormed(r) && StartsIn(r, start) && Blocked(r, start) && Roomy(r, bytes)
    requires start.Retained? ==> r.retained == Some(start)
    ensures !MaySettle(r, start, bytes, how)
    decreases start.Retained?, |r.source.turns| - TurnOf(start)
  {
    hide Need;
    if OutsetOf(r, start).meets.Refuses? {
      BlockedMustFail(r, SourceStart, bytes, how);
    } else if OutsetOf(r, start).meets.Holds? {
      RoomBehind(r, start, bytes);
      forall j | TurnOf(start) < j <= |r.source.turns| ensures !MaySettle(r, Issued(j), bytes, how) {
        BlockedMustFail(r, Issued(j), bytes, how);
      }
    }
  }

  lemma RoomBehind(r: Request, start: ReadStart, bytes: nat)
    requires WellFormed(r) && StartsIn(r, start) && Roomy(r, bytes) && OutsetOf(r, start).meets.Holds?
    requires start.Retained? ==> r.retained == Some(start)
    ensures Need(r, start, TurnOf(start) + 1) <= bytes && OutsetOf(r, start).cost <= bytes
  {
    NeedGrows(r, start, TurnOf(start), TurnOf(start) + 1);
    NeedAtStart(r, start, TurnOf(start));
  }

  /** What must fail may fail: some attempt comes to it. */
  lemma {:induction false} MustFailMayFail(r: Request, start: ReadStart, bytes: nat)
    requires WellFormed(r) && StartsIn(r, start) && MustFail(r, start, bytes)
    ensures MayFail(r, start, bytes)
    decreases start.Retained?, |r.source.turns| - TurnOf(start)
  {
    hide Need;
    var n, t := |r.source.turns|, TurnOf(start);
    assert !MaySettle(r, start, bytes, TurnTooLarge);
    if OutsetOf(r, start).meets.Refuses? {
      forall how ensures !MaySettle(r, SourceStart, bytes, how) {
        assert !MaySettle(r, start, bytes, how);
      }
      MustFailMayFail(r, SourceStart, bytes);
    } else if OutsetOf(r, start).meets.Holds? {
      if t == n {
        assert !MaySettle(r, start, bytes, ReportAbsent);
      } else {
        assert !Reports(r, start, bytes, t) by { assert !MaySettle(r, start, bytes, ReportFound); }
        assert Pauses(r, start, bytes, t + 1);
        var next := Issued(t + 1);
        forall how ensures !MaySettle(r, next, bytes, how) {
          assert !MaySettle(r, start, bytes, how);
        }
        MustFailMayFail(r, next, bytes);
      }
    }
  }

  /** What an attempt makes of a request that must fail, and of one that may or may not
      on the two clocks. */
  lemma AttemptClocked(r: Request, start: ReadStart, bytes: nat, allowance: nat, untouched: bool, late: nat -> bool)
    requires WellFormed(r) && StartsIn(r, start) && allowance <= bytes && (untouched ==> allowance == bytes) && r.opens
    ensures var answer := Attempt(r, start, allowance, untouched, late);
            && MayCome(r, start, bytes, untouched, answer)
            && (MustFail(r, start, bytes) ==> !answer.Done? && (answer.Exhausted? ==> MustFail(r, answer.next, bytes)))
            && (untouched && Hurried(r, bytes, late) && MayFail(r, start, bytes) ==>
                  !answer.Done? && (answer.Exhausted? ==> MayFail(r, answer.next, bytes)))
            && (untouched && Patient(r, bytes, late) && !MustFail(r, start, bytes) ==>
                  !answer.Rejected? && (answer.Exhausted? ==> !MustFail(r, answer.next, bytes)))
  {
    hide Attempt;
    hide MayFail;
    hide MaySettle;
    AttemptMay(r, start, bytes, allowance, untouched, late);
    if untouched && Hurried(r, bytes, late) && MayFail(r, start, bytes) {
      AttemptHurried(r, start, bytes, late);
    }
    if untouched && Patient(r, bytes, late) && !MustFail(r, start, bytes) {
      AttemptPatient(r, start, bytes, late);
    }
  }
}

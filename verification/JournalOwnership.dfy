/** Who owns the onboarding journal (src/config/init-apply-journal.ts): any number
    of processes publishing it by hard link, reading it to recover, releasing it
    by identity and dying, in any order. */
module JournalOwnership {
  import opened Reading

  /** A process, unlike its pid, is never reused. A file identity is the device and
      inode of one created file, taken as never reused either. */
  type Process = nat
  type Pid = nat
  type Identity = nat

  /** What a process is doing: nothing, holding a written candidate, applying under
      the journal it published, or recovering the one it read, whose owner its check
      found gone. */
  datatype Stage = Idle | Candidate(file: Identity) | Applying(file: Identity) | Recovering(file: Identity)

  /** `path` is the file the journal path names; `author` who created each file. */
  datatype System = System(path: Option<Identity>, next: Identity, author: map<Identity, Process>, pid: map<Process, Pid>,
                           stage: map<Process, Stage>, alive: set<Process>)

  datatype Event =
    | Begin(process: Process, pid: Pid)
    | Write(process: Process)
    | Link(process: Process)
    | Read(process: Process)
    | Release(process: Process)
    | LeaveBehind(process: Process)
    | Die(process: Process)

  /** `initApplyOwnerIsLive`, asked by `process` of the journal `file` holds: its own
      pid is not another's. */
  predicate OwnerIsLive(s: System, process: Process, file: Identity)
    requires process in s.pid && file in s.author && s.author[file] in s.pid
  {
    var owner := s.pid[s.author[file]];
    owner != s.pid[process] && exists other | other in s.alive && other in s.pid :: s.pid[other] == owner
  }

  predicate Runs(s: System, process: Process) {
    process in s.alive && process in s.pid && process in s.stage
  }

  function At(s: System, process: Process, stage: Stage): System {
    s.(stage := s.stage[process := stage])
  }

  /** One step of one process; a step that is not possible changes nothing. */
  function Step(s: System, e: Event): System {
    match e
    case Begin(process, pid) =>
      if process in s.pid || exists other | other in s.alive && other in s.pid :: s.pid[other] == pid then s
      else s.(pid := s.pid[process := pid], stage := s.stage[process := Idle], alive := s.alive + {process})
    case Write(process) =>
      if !Runs(s, process) || !s.stage[process].Idle? then s
      else At(s.(next := s.next + 1, author := s.author[s.next := process]), process, Candidate(s.next))
    case Link(process) =>
      if !Runs(s, process) || !s.stage[process].Candidate? then s
      else if s.path.Some? then At(s, process, Idle)
      else At(s.(path := Some(s.stage[process].file)), process, Applying(s.stage[process].file))
    case Read(process) =>
      if !Runs(s, process) || !s.stage[process].Idle? || s.path.None? then s
      else if s.path.value !in s.author || s.author[s.path.value] !in s.pid || OwnerIsLive(s, process, s.path.value) then s
      else At(s, process, Recovering(s.path.value))
    case Release(process) =>
      if !Runs(s, process) || !(s.stage[process].Applying? || s.stage[process].Recovering?) then s
      else At(s.(path := if s.path == Some(s.stage[process].file) then None else s.path), process, Idle)
    case LeaveBehind(process) =>
      if !Runs(s, process) || !(s.stage[process].Applying? || s.stage[process].Recovering?) then s else At(s, process, Idle)
    case Die(process) => s.(alive := s.alive - {process})
  }

  function Run(es: seq<Event>): System {
    if es == [] then System(None, 0, map[], map[], map[], {})
    else Step(Run(es[..|es| - 1]), es[|es| - 1])
  }

  predicate IsApplying(s: System, process: Process, file: Identity) {
    Runs(s, process) && s.stage[process] == Applying(file)
  }

  /** A process holds only files that exist, and as candidate or journal only its
      own. */
  ghost predicate Holds(s: System, p: Process) {
    p in s.stage ==>
      && p in s.pid
      && (!s.stage[p].Idle? ==> s.stage[p].file in s.author)
      && (s.stage[p].Candidate? || s.stage[p].Applying? ==> s.author[s.stage[p].file] == p)
  }

  /** A live apply's journal is the one at the path; a candidate is not there yet. */
  ghost predicate Placed(s: System, p: Process) {
    Runs(s, p) ==>
      && (s.stage[p].Applying? ==> s.path == Some(s.stage[p].file))
      && (s.stage[p].Candidate? ==> s.path != Some(s.stage[p].file))
  }

  /** Nobody recovers what a live process wrote and still holds, and live processes
      have pids of their own. */
  ghost predicate Apart(s: System, p: Process, q: Process) {
    && (Runs(s, p) && Runs(s, q) && (s.stage[p].Applying? || s.stage[p].Candidate?) ==> s.stage[q] != Recovering(s.stage[p].file))
    && (p in s.alive && q in s.alive && p in s.pid && q in s.pid && s.pid[p] == s.pid[q] ==> p == q)
  }

  ghost predicate Files(s: System) {
    && (forall file: Identity | file in s.author :: file < s.next && s.author[file] in s.pid)
    && (s.path.Some? ==> s.path.value in s.author)
  }

  ghost predicate Exclusive(s: System) {
    && Files(s)
    && (forall p: Process :: Holds(s, p))
    && (forall p: Process :: Placed(s, p))
    && (forall p: Process, q: Process :: Apart(s, p, q))
  }

  lemma HoldsKept(s: System, e: Event, p: Process)
    requires Files(s) && Holds(s, p)
    ensures Holds(Step(s, e), p)
  {
    hide OwnerIsLive;
  }

  lemma PlacedKept(s: System, e: Event, p: Process)
    requires Files(s) && Holds(s, p) && Placed(s, p) && Holds(s, e.process) && Placed(s, e.process) && Apart(s, p, e.process)
    ensures Placed(Step(s, e), p)
  {
    hide OwnerIsLive;
    if Runs(s, p) && Runs(s, e.process) && p != e.process && !s.stage[p].Idle? && !s.stage[e.process].Idle? {
      assert s.stage[p].file in s.author && s.stage[e.process].file in s.author;
    }
  }

  lemma ApartKept(s: System, e: Event, p: Process, q: Process)
    requires Files(s) && Holds(s, p) && Holds(s, q) && Placed(s, p) && Apart(s, p, q)
    ensures Apart(Step(s, e), p, q)
  {
  }

  lemma FilesKept(s: System, e: Event)
    requires Files(s) && (forall p: Process :: Holds(s, p))
    ensures Files(Step(s, e))
  {
    hide OwnerIsLive;
    assert Holds(s, e.process);
  }

  lemma StepKeeps(s: System, e: Event)
    requires Exclusive(s)
    ensures Exclusive(Step(s, e))
  {
    hide Step;
    hide Files;
    hide Holds;
    hide Placed;
    hide Apart;
    FilesKept(s, e);
    forall p: Process ensures Holds(Step(s, e), p) && Placed(Step(s, e), p) {
      HoldsKept(s, e, p);
      PlacedKept(s, e, p);
    }
    forall p: Process, q: Process ensures Apart(Step(s, e), p, q) {
      ApartKept(s, e, p, q);
    }
  }

  lemma {:induction false} RunExclusive(es: seq<Event>)
    ensures Exclusive(Run(es))
    decreases |es|
  {
    hide Step;
    if es != [] {
      RunExclusive(es[..|es| - 1]);
      StepKeeps(Run(es[..|es| - 1]), es[|es| - 1]);
    }
  }

  /** At most one apply owns the journal, for every interleaving, and while it runs
      the journal is there for every other writer to see. */
  lemma OneOwner(es: seq<Event>, p: Process, q: Process, a: Identity, b: Identity)
    requires IsApplying(Run(es), p, a) && IsApplying(Run(es), q, b)
    ensures p == q && a == b && Run(es).path == Some(a)
  {
    hide Run;
    RunExclusive(es);
    var s := Run(es);
    assert Placed(s, p) && Placed(s, q) && Holds(s, p) && Holds(s, q);
  }

  /** No step of another process removes or replaces the journal of a live apply:
      not a release that compares an identity read before, not a publication. */
  lemma NobodyRemovesAnothers(es: seq<Event>, e: Event, p: Process, file: Identity)
    requires IsApplying(Run(es), p, file) && e.process != p
    ensures IsApplying(Step(Run(es), e), p, file) && Step(Run(es), e).path == Some(file)
  {
    hide Run;
    hide OwnerIsLive;
    RunExclusive(es);
    var s := Run(es);
    PlacedKept(s, e, p);
  }

  /** The step at which a process came by a file: it published its own, or it read
      another's at the path and found its owner gone. */
  ghost predicate CameBy(s: System, e: Event, p: Process, file: Identity) {
    if e == Link(p) then IsCandidate(s, p, file) && s.path.None?
    else e == Read(p) && s.path == Some(file) && p in s.pid && file in s.author && s.author[file] in s.pid && !OwnerIsLive(s, p, file)
  }

  predicate IsCandidate(s: System, p: Process, file: Identity) {
    Runs(s, p) && s.stage[p] == Candidate(file)
  }

  predicate Owns(s: System, p: Process, file: Identity) {
    Runs(s, p) && (s.stage[p] == Applying(file) || s.stage[p] == Recovering(file))
  }

  lemma OwnsBefore(s: System, e: Event, p: Process, file: Identity)
    requires Owns(Step(s, e), p, file)
    ensures Owns(s, p, file) || (CameBy(s, e, p, file) && Step(s, e).path == Some(file))
  {
    hide OwnerIsLive;
  }

  lemma {:induction false} OwnsSince(es: seq<Event>, p: Process, file: Identity) returns (j: nat)
    requires Owns(Run(es), p, file)
    ensures j < |es| && CameBy(Run(es[..j]), es[j], p, file) && Run(es[..j + 1]).path == Some(file)
    decreases |es|
  {
    hide Step;
    hide Owns;
    hide CameBy;
    assert !Owns(System(None, 0, map[], map[], map[], {}), p, file) by { OwnedByNone(p, file); }
    var init := es[..|es| - 1];
    OwnsBefore(Run(init), es[|es| - 1], p, file);
    if Owns(Run(init), p, file) {
      j := OwnsSince(init, p, file);
      assert init[..j] == es[..j] && init[..j + 1] == es[..j + 1];
    } else {
      j := |es| - 1;
      assert es[..j + 1] == es;
    }
  }

  lemma OwnedByNone(p: Process, file: Identity)
    ensures !Owns(System(None, 0, map[], map[], map[], {}), p, file)
  {
  }

  /** A file that is no live process's candidate, nor a name still to be given. */
  ghost predicate Spent(s: System, file: Identity) {
    file < s.next && forall p: Process :: !IsCandidate(s, p, file)
  }

  lemma SpentStays(s: System, e: Event, file: Identity)
    requires Spent(s, file)
    ensures Spent(Step(s, e), file) && (s.path != Some(file) ==> Step(s, e).path != Some(file))
  {
    hide OwnerIsLive;
    assert !IsCandidate(s, e.process, file);
    forall p: Process ensures !IsCandidate(Step(s, e), p, file) {
      assert !IsCandidate(s, p, file);
    }
  }

  /** A file once taken from the path never comes back to it. */
  lemma {:induction false} NeverBack(es: seq<Event>, i: nat)
    requires i <= |es| && Run(es[..i]).path.Some?
    ensures var file := Run(es[..i]).path.value;
            && Spent(Run(es), file)
            && (Run(es).path == Some(file) ==> forall k | i <= k <= |es| :: Run(es[..k]).path == Some(file))
    decreases |es|
  {
    hide Step;
    hide Spent;
    if i == |es| {
      assert es[..i] == es;
      RunExclusive(es);
      PathIsSpent(Run(es));
    } else {
      var init := es[..|es| - 1];
      assert forall k | 0 <= k <= |init| :: init[..k] == es[..k];
      NeverBack(init, i);
      SpentStays(Run(init), es[|es| - 1], Run(es[..i]).path.value);
      assert es[..|es|] == es;
    }
  }

  lemma PathIsSpent(s: System)
    requires Exclusive(s) && s.path.Some?
    ensures Spent(s, s.path.value)
  {
    forall p: Process ensures !IsCandidate(s, p, s.path.value) {
      assert Placed(s, p);
    }
  }

  /** What a release removes, on every run, is a file its process itself published or
      read, finding its owner gone, and that has been at the path ever since. */
  lemma ReleaseRemovesItsOwn(es: seq<Event>, p: Process) returns (j: nat, file: Identity)
    requires Step(Run(es), Release(p)).path != Run(es).path
    ensures Run(es).path == Some(file) && j < |es| && CameBy(Run(es[..j]), es[j], p, file)
    ensures forall k | j < k <= |es| :: Run(es[..k]).path == Some(file)
  {
    hide Run;
    hide CameBy;
    file := Run(es).path.value;
    j := OwnsSince(es, p, file);
    NeverBack(es, j + 1);
  }

  // ------------------------------------------------------------------- nobody is barred

  predicate PidFree(s: System, pid: Pid) {
    forall other | other in s.alive && other in s.pid :: s.pid[other] != pid
  }

  lemma RunSnoc(es: seq<Event>, e: Event)
    ensures Run(es + [e]) == Step(Run(es), e)
  {
    assert (es + [e])[..|es|] == es;
  }

  lemma RunThree(es: seq<Event>, a: Event, b: Event, c: Event)
    ensures Run(es + [a, b, c]) == Step(Step(Step(Run(es), a), b), c)
  {
    hide Step;
    RunSnoc(es, a);
    RunSnoc(es + [a], b);
    RunSnoc(es + [a] + [b], c);
    assert es + [a, b, c] == es + [a] + [b] + [c];
  }

  /** Where no journal stands, a new process comes to own one, under a file of its own,
      and letting go of it leaves none. */
  lemma FreePathIsTaken(es: seq<Event>, p: Process, pid: Pid)
    requires Run(es).path.None? && p !in Run(es).pid && PidFree(Run(es), pid)
    ensures var s := Run(es + [Begin(p, pid), Write(p), Link(p)]);
            && s.path.Some? && IsApplying(s, p, s.path.value) && s.path.value !in Run(es).author
            && Step(s, Release(p)).path.None? && Step(s, LeaveBehind(p)).path == s.path
  {
    RunThree(es, Begin(p, pid), Write(p), Link(p));
    RunExclusive(es);
    var s := Run(es);
    assert Holds(s, p);
    assert s.next !in s.author;
  }

  /** A journal whose owner lives bars every other process: none can publish or read. */
  lemma LiveOwnerBars(es: seq<Event>, owner: Process, file: Identity, p: Process)
    requires IsApplying(Run(es), owner, file) && p != owner
    ensures var s := Run(es);
            && Step(s, Read(p)) == s
            && Step(s, Link(p)).path == s.path && (Runs(s, p) ==> !IsApplying(Step(s, Link(p)), p, file))
  {
    hide Run;
    RunExclusive(es);
    var s := Run(es);
    assert Holds(s, owner) && Placed(s, owner) && Holds(s, p);
    assert Apart(s, owner, p);
    if Runs(s, p) {
      assert s.pid[owner] != s.pid[p];
      assert OwnerIsLive(s, p, file);
    }
  }

  /** A candidate is published where no journal stands, and nowhere else; its process
      goes on without one. */
  lemma LinkDecides(s: System, p: Process, file: Identity)
    requires Runs(s, p) && s.stage[p] == Candidate(file)
    ensures var t := Step(s, Link(p));
            && (IsApplying(t, p, file) <==> s.path.None?) && t.path == (if s.path.None? then Some(file) else s.path)
            && (s.path.Some? ==> Runs(t, p) && t.stage[p] == Idle)
  {
  }

  /** Letting go of a journal ends its holding, removed or left behind. */
  lemma HoldingEnds(s: System, p: Process)
    requires Runs(s, p) && (s.stage[p].Applying? || s.stage[p].Recovering?)
    ensures Runs(Step(s, LeaveBehind(p)), p) && Step(s, LeaveBehind(p)).stage[p] == Idle && Step(s, LeaveBehind(p)).path == s.path
    ensures Runs(Step(s, Release(p)), p) && Step(s, Release(p)).stage[p] == Idle
  {
  }

  /** A journal is not read while its owner's pid is in use by another process, were it
      by one that came after: nothing tells them apart. */
  lemma ReusedPidBars(es: seq<Event>, p: Process, q: Process, file: Identity)
    requires Run(es).path == Some(file) && file in Run(es).author && Run(es).author[file] in Run(es).pid
    requires p in Run(es).pid && q in Run(es).alive && q in Run(es).pid && Run(es).pid[q] == Run(es).pid[Run(es).author[file]]
    requires q != p && p in Run(es).alive
    ensures Step(Run(es), Read(p)) == Run(es)
  {
    hide Run;
    RunExclusive(es);
    assert Apart(Run(es), p, q);
  }

  /** A journal whose owner died is found by any new process, unless the owner's pid is
      in use again, and letting go of it leaves none. */
  lemma DeadOwnersJournalIsRead(es: seq<Event>, p: Process, pid: Pid, file: Identity)
    requires Run(es).path == Some(file) && p !in Run(es).pid && PidFree(Run(es), pid)
    requires file in Run(es).author && Run(es).author[file] in Run(es).pid && PidFree(Run(es), Run(es).pid[Run(es).author[file]])
    ensures Owns(Run(es + [Begin(p, pid), Read(p)]), p, file)
    ensures Run(es + [Begin(p, pid), Read(p), Release(p)]).path.None?
  {
    var s, b := Run(es), Step(Run(es), Begin(p, pid));
    RunThree(es, Begin(p, pid), Read(p), Release(p));
    RunSnoc(es, Begin(p, pid));
    RunSnoc(es + [Begin(p, pid)], Read(p));
    assert es + [Begin(p, pid), Read(p)] == es + [Begin(p, pid)] + [Read(p)];
    RunExclusive(es);
    assert Holds(s, p);
    assert !OwnerIsLive(b, p, file);
  }
}

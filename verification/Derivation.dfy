/** Reading the records before a cursor: the decision which record opens a user
    turn, and the bounded, resumable reconstruction of a cursor's context. */
module Derivation {
  import opened Framing
  import opened Reading
  import opened ChargedReading
  import opened Turns
  import opened TurnRuns

  // ------------------------------------------------------------ the user boundary

  datatype Tracker = Tracker(sawUserResponse: bool, boundary: Option<UserBoundary>)

  const UNDECIDED := Tracker(false, None)

  /** One record seen by the tracker; the first decisive record settles it. */
  function Track(state: Tracker, role: Role): Tracker {
    if state.boundary.Some? then state
    else match role
      case EventPrompt => state.(boundary := Some(EventMsg))
      case ResponsePrompt => state.(sawUserResponse := true)
      case Assistant => if state.sawUserResponse then state.(boundary := Some(ResponseItem)) else state
      case _ => state
  }

  function TrackLine(format: Format, state: Tracker, line: Line): Tracker {
    var entry := format.decode(line.text);
    if entry.None? then state else Track(state, entry.value.role)
  }

  function TrackAll(format: Format, lines: seq<Line>): Tracker {
    if lines == [] then UNDECIDED else TrackLine(format, TrackAll(format, lines[..|lines| - 1]), lines[|lines| - 1])
  }

  /** The decision the records of `lines` give. */
  function Decision(format: Format, lines: seq<Line>): Option<UserBoundary> {
    if format.decides then TrackAll(format, lines).boundary else None
  }

  lemma TrackSnoc(format: Format, lines: seq<Line>, line: Line)
    ensures TrackAll(format, lines + [line]) == TrackLine(format, TrackAll(format, lines), line)
  {
    assert (lines + [line])[..|lines|] == lines;
  }

  /** Once the tracker decides, no later record changes the decision. */
  lemma {:induction false} DecisionStays(format: Format, lines: seq<Line>, more: seq<Line>)
    requires Decision(format, lines).Some?
    ensures Decision(format, lines + more) == Decision(format, lines)
  {
    if more == [] {
      assert lines + more == lines;
    } else {
      var init := more[..|more| - 1];
      DecisionStays(format, lines, init);
      assert lines + more == (lines + init) + [more[|more| - 1]];
      TrackSnoc(format, lines + init, more[|more| - 1]);
    }
  }

  /** What decides: the event envelope exactly when an event prompt comes before
      any assistant message that follows a response prompt, and the response
      envelope exactly when such an assistant message comes first. */
  function Roles(format: Format, lines: seq<Line>): seq<Role> {
    if lines == [] then []
    else
      var init, entry := Roles(format, lines[..|lines| - 1]), format.decode(lines[|lines| - 1].text);
      if entry.None? then init else init + [entry.value.role]
  }

  ghost predicate AnswersPrompt(roles: seq<Role>, k: nat) {
    k < |roles| && roles[k] == Assistant && ResponsePrompt in roles[..k]
  }

  ghost predicate DecidedBy(roles: seq<Role>, boundary: Option<UserBoundary>) {
    match boundary
    case None => EventPrompt !in roles && forall k: nat | k < |roles| :: !AnswersPrompt(roles, k)
    case Some(EventMsg) =>
      exists k: nat :: k < |roles| && roles[k] == EventPrompt && forall i: nat | i < k :: !AnswersPrompt(roles, i)
    case Some(ResponseItem) =>
      exists k: nat :: AnswersPrompt(roles, k) && EventPrompt !in roles[..k]
  }

  lemma {:induction false} TrackerDecides(format: Format, lines: seq<Line>)
    ensures var t, roles := TrackAll(format, lines), Roles(format, lines);
            && DecidedBy(roles, t.boundary)
            && (t.boundary.None? ==> (t.sawUserResponse <==> ResponsePrompt in roles))
  {
    if lines != [] {
      var init := lines[..|lines| - 1];
      TrackerDecides(format, init);
      var entry := format.decode(lines[|lines| - 1].text);
      if entry.Some? {
        TrackDecides(TrackAll(format, init), Roles(format, init), entry.value.role);
      }
    }
  }

  lemma TrackDecides(t: Tracker, roles: seq<Role>, role: Role)
    requires DecidedBy(roles, t.boundary) && (t.boundary.None? ==> (t.sawUserResponse <==> ResponsePrompt in roles))
    ensures DecidedBy(roles + [role], Track(t, role).boundary)
    ensures Track(t, role).boundary.None? ==> (Track(t, role).sawUserResponse <==> ResponsePrompt in roles + [role])
  {
    var all, n := roles + [role], |roles|;
    forall k: nat | k < n ensures AnswersPrompt(all, k) <==> AnswersPrompt(roles, k) {
      assert all[..k] == roles[..k];
    }
    assert all[..n] == roles && all[n] == role;
    match t.boundary
    case Some(EventMsg) =>
      var k: nat :| k < |roles| && roles[k] == EventPrompt && forall i: nat | i < k :: !AnswersPrompt(roles, i);
      assert all[k] == EventPrompt;
    case Some(ResponseItem) =>
      var k: nat :| AnswersPrompt(roles, k) && EventPrompt !in roles[..k];
      assert all[..k] == roles[..k];
      assert AnswersPrompt(all, k);
    case None =>
      if role == Assistant && t.sawUserResponse {
        assert AnswersPrompt(all, n);
      }
  }

  lemma FrameOfChain(file: Bytes, from: nat, lines: seq<Line>, to: nat)
    requires Chain(file, from, lines, to) && to <= |file|
    ensures from <= to && Frame(file, from, to) == Framed(lines, Rest(to))
  {
    ChainFrame(file, from, lines, to, to);
    FrameEnd(file, Rest(to), to);
    assert lines + [] == lines;
  }

  /** `prescanDecisions`: reads records from the start only until they decide. */
  method PrescanDecisions(format: Format, file: Bytes, budget: SourceReadBudget, abortable: bool)
    returns (decided: Option<UserBoundary>, outcome: ReadOutcome)
    requires format.decides
    modifies budget
    ensures outcome == Finished ==> decided == Decision(format, Frame(file, 0, |file|).lines)
    ensures outcome != Finished ==> decided.None?
    ensures outcome == RecordTooLong ==> Frame(file, 0, |file|).end.Oversized?
    ensures outcome == Deadline ==> abortable
    ensures outcome == BudgetReached ==> budget.remaining.Spent()
    ensures old(budget.remaining).Unlimited? ==> budget.remaining.Unlimited?
  {
    var recent := new RecentBytes(RECENT_BYTES_CAPACITY);
    var reader := new ChargedLines(file, 0, |file|, false, RECORD_OVERRUN_READ_BYTES, abortable, budget, recent);
    var state := UNDECIDED;
    ghost var lines: seq<Line> := [];
    while state.boundary.None?
      invariant reader.Valid() && reader.file == file && reader.end == |file| && reader.abortable == abortable
      invariant reader.budget == budget && fresh(reader) && fresh(reader.recent) && reader.granted == old(budget.remaining)
      invariant Chain(file, 0, lines, reader.scan.Position())
      invariant state == TrackAll(format, lines)
      decreases |file| - reader.scan.Position()
    {
      var pull := reader.Next();
      match pull {
        case Record(line) =>
          ChainSnoc(file, 0, lines, line, MAX_TRANSCRIPT_RECORD_BYTES);
          TrackSnoc(format, lines, line);
          lines := lines + [line];
          state := TrackLine(format, state, line);
        case Exhausted =>
          ChainFrame(file, 0, lines, reader.scan.Position(), |file|);
          FrameEnd(file, Rest(reader.scan.Position()), |file|);
          assert lines + [] == lines;
          return None, Finished;
        case Stopped => return None, Deadline;
        case BudgetSpent => return None, BudgetReached;
        case TooLong =>
          ChainFrame(file, 0, lines, reader.scan.Position(), |file|);
          FrameEnd(file, Oversized(reader.scan.Position()), |file|);
          return None, RecordTooLong;
      }
    }
    ChainFrame(file, 0, lines, reader.scan.Position(), |file|);
    DecisionStays(format, lines, Frame(file, reader.scan.Position(), |file|).lines);
    return state.boundary, Finished;
  }

  // --------------------------------------------------- bounded reconstruction

  /** Progress of one reconstruction, as handed back to the caller. */
  datatype Progress = Progress(endOffset: nat, offset: nat, fingerprint: string, records: Context, state: Tracker)

  datatype StepResult =
    | Complete(context: ResumeContext)
    | Partial(progress: Progress)
    | Refused
    | Unreadable

  /** The progress a single pass has made when it reaches `offset`. */
  ghost predicate Honest(env: Env, p: Progress) {
    && p.offset <= p.endOffset <= |env.file|
    && var f := Frame(env.file, 0, p.offset);
    && f.end == Rest(p.offset)
    && p.records == Latest(env, map[], f.lines) && p.state == TrackAll(env.format, f.lines)
    && p.fingerprint == Fingerprint(env.format.hash, env.file, p.offset)
  }

  /** What one pass over file[0..end) derives. */
  ghost function SinglePass(env: Env, end: nat): ResumeContext
    requires end <= |env.file|
  {
    ResumeContext(Latest(env, map[], Frame(env.file, 0, end).lines), Decision(env.format, Frame(env.file, 0, end).lines))
  }

  /** A caller's progress is continued only for the same cursor and while the
      bytes ending at it still match their fingerprint. */
  predicate Continues(env: Env, from: Option<Progress>, endOffset: nat) {
    from.Some? && from.value.endOffset == endOffset && 0 < from.value.offset <= endOffset
  }

  /** Does the window ending at the progress still have its fingerprint? */
  predicate StillMatches(env: Env, p: Progress)
    requires p.offset <= |env.file|
  {
    env.format.hash(env.file[WindowStart(p.offset)..p.offset]) == p.fingerprint
  }

  /** Where a step starts reading: behind its progress while that still matches, and
      otherwise over again. */
  function StartOf(env: Env, from: Option<Progress>, endOffset: nat): nat
    requires endOffset <= |env.file|
  {
    if Continues(env, from, endOffset) && StillMatches(env, from.value) then from.value.offset else 0
  }

  function WindowBytes(offset: nat): nat {
    offset - WindowStart(offset)
  }

  lemma {:induction false} LatestStep(env: Env, lines: seq<Line>, line: Line)
    ensures Latest(env, map[], lines + [line]) == Note(env, Latest(env, map[], lines), line)
  {
    assert (lines + [line])[..|lines|] == lines;
  }

  /** One bounded step of `deriveResumeContext`. From honest progress, or over again
      from none or from any that no longer matches its fingerprint, it completes with
      exactly the single-pass context and decision or hands back honest progress that
      has moved on, unless cancelled, by at least one record, and by all there are unless
      the allowance is spent. It is refused exactly
      when the allowance does not cover re-reading the fingerprint window it continues
      from. */
  method DeriveStep(env: Env, endOffset: nat, from: Option<Progress>, budget: SourceReadBudget, abortable: bool)
    returns (result: StepResult, ghost cancelled: bool, ghost readTo: nat, ghost ranOutAt: Option<nat>)
    requires endOffset <= |env.file|
    requires Continues(env, from, endOffset) && StillMatches(env, from.value) ==> Honest(env, from.value)
    modifies budget
    ensures cancelled ==> abortable
    ensures result.Complete? ==> result.context == SinglePass(env, endOffset)
    ensures result.Partial? ==>
              && Honest(env, result.progress) && result.progress.endOffset == endOffset
              && StartOf(env, from, endOffset) <= result.progress.offset < endOffset
              && (result.progress.offset == StartOf(env, from, endOffset) && !cancelled ==>
                    Frame(env.file, StartOf(env, from, endOffset), endOffset).lines == [])
    ensures result == Refused <==>
              Continues(env, from, endOffset) && !old(budget.remaining).Covers(WindowBytes(from.value.offset))
    ensures result.Partial? && !cancelled ==> budget.remaining.Spent() || Frame(env.file, 0, endOffset).end == Rest(result.progress.offset)
    ensures old(budget.remaining).Unlimited? ==> budget.remaining.Unlimited?
    ensures result == Unreadable ==> Frame(env.file, 0, endOffset).end.Oversized?
    ensures result != Refused ==>
              Overshoot(env.file, StartOf(env, from, endOffset), endOffset, readTo, ranOutAt)
    ensures result != Refused && old(budget.remaining).Limited? ==>
              (if ranOutAt.Some? then ranOutAt.value else readTo) - StartOf(env, from, endOffset) <= old(budget.remaining).left
  {
    cancelled, readTo, ranOutAt := false, 0, None;
    var recent := new RecentBytes(RECENT_BYTES_CAPACITY);
    var start, records, state: Tracker := 0, map[], UNDECIDED;
    if Continues(env, from, endOffset) {
      var windowStart := WindowStart(from.value.offset);
      var window := env.file[windowStart..from.value.offset];
      var ok := budget.ChargeRead(|window|);
      if !ok {
        return Refused, cancelled, readTo, ranOutAt;
      }
      if env.format.hash(window) == from.value.fingerprint {
        start, records, state := from.value.offset, from.value.records, from.value.state;
        AppendOf(recent.Held(), env.file, windowStart, window, RECENT_BYTES_CAPACITY);
        recent.Append(windowStart, window);
      }
    }
    result, cancelled, readTo, ranOutAt := DeriveFrom(env, endOffset, start, records, state, budget, recent, abortable);
  }

  /** Where reading stopped: before the allowance ran out, or past that point only
      to finish the first record, by less than its rest and one small read. */
  ghost predicate Overshoot(file: Bytes, start: nat, end: nat, readTo: nat, ranOutAt: Option<nat>)
  {
    start <= end <= |file| && start <= readTo <= end &&
    (ranOutAt.Some? ==>
       && start <= ranOutAt.value < FirstRecordEnd(file, start, end)
       && readTo < FirstRecordEnd(file, start, end) + RECORD_OVERRUN_READ_BYTES)
  }

  /** The reading part of a step: `records` and `state` are the single pass's at
      `start`. */
  method DeriveFrom(env: Env, endOffset: nat, start: nat, records: Context, state: Tracker,
                    budget: SourceReadBudget, recent: RecentBytes, abortable: bool)
    returns (result: StepResult, ghost cancelled: bool, ghost readTo: nat, ghost ranOutAt: Option<nat>)
    requires start <= endOffset <= |env.file| && Frame(env.file, 0, start).end == Rest(start)
    requires var lines := Frame(env.file, 0, start).lines;
             records == Latest(env, map[], lines) && state == TrackAll(env.format, lines)
    requires recent.Held().Of(env.file) && recent.capacity == RECENT_BYTES_CAPACITY
    modifies budget, recent
    ensures cancelled ==> abortable
    ensures result != Refused
    ensures result.Complete? ==> result.context == SinglePass(env, endOffset)
    ensures result.Partial? ==>
              && Honest(env, result.progress) && result.progress.endOffset == endOffset && start <= result.progress.offset < endOffset
              && (result.progress.offset == start && !cancelled ==> Frame(env.file, start, endOffset).lines == [])
    ensures result.Partial? && !cancelled ==> budget.remaining.Spent() || Frame(env.file, 0, endOffset).end == Rest(result.progress.offset)
    ensures old(budget.remaining).Unlimited? ==> budget.remaining.Unlimited?
    ensures result == Unreadable ==> Frame(env.file, 0, endOffset).end.Oversized?
    ensures Overshoot(env.file, start, endOffset, readTo, ranOutAt)
    ensures old(budget.remaining).Limited? ==>
              (if ranOutAt.Some? then ranOutAt.value else readTo) - start <= old(budget.remaining).left
  {
    hide Latest;
    hide TrackAll;
    hide Frame;
    hide FirstRecordEnd;
    hide Fingerprint;
    hide Pending;
    var reader := new ChargedLines(env.file, start, endOffset, true, TRANSCRIPT_READ_CHUNK_BYTES, abortable, budget, recent);
    FramePartitions(env.file, 0, start);
    ghost var lines;
    var latest, tracker, offset, pull;
    latest, tracker, offset, pull, lines := PullAll(env, reader, Frame(env.file, 0, start).lines, records, state);
    readTo, ranOutAt, cancelled := reader.scan.readOffset, reader.exhaustedAt, pull == Stopped;
    StepEnd(env, lines, offset, pull, start, endOffset);
    if pull == TooLong {
      result := Unreadable;
    } else if offset >= endOffset {
      result := Complete(ResumeContext(latest, if env.format.decides then tracker.boundary else None));
    } else {
      var held := recent.FingerprintAt(env.format.hash, offset, env.file);
      var fingerprint := if held.Some? then held.value else Fingerprint(env.format.hash, env.file, offset);
      result := Partial(Progress(endOffset, offset, fingerprint, latest, tracker));
    }
  }

  ghost predicate PulledAt(file: Bytes, line: Line, offset: nat, position: nat, end: nat) {
    RecordAt(file, line) && line.byteStart == offset && line.byteEnd == position <= end
  }

  /** Why no further record was pulled at `offset`. */
  ghost predicate Stops(file: Bytes, pull: Pull, offset: nat, end: nat) {
    && offset <= end
    && (pull == Exhausted ==> end - offset <= MAX_TRANSCRIPT_RECORD_BYTES && Clear(file, offset, end))
    && (pull == TooLong ==> Outgrown(file, offset, end))
  }

  lemma StepEnd(env: Env, lines: seq<Line>, offset: nat, pull: Pull, start: nat, end: nat)
    requires end <= |env.file| && Chain(env.file, 0, lines, offset) && Stops(env.file, pull, offset, end)
    ensures Frame(env.file, 0, offset) == Framed(lines, Rest(offset))
    ensures pull == TooLong ==> Frame(env.file, 0, end).end.Oversized?
    ensures pull == Exhausted && offset == start ==> Frame(env.file, start, end).lines == []
    ensures pull == Exhausted ==> Frame(env.file, 0, end).end == Rest(offset)
  {
    FrameOfChain(env.file, 0, lines, offset);
    if pull == TooLong {
      ChainFrame(env.file, 0, lines, offset, end);
      FrameEnd(env.file, Oversized(offset), end);
    } else if pull == Exhausted {
      ChainFrame(env.file, 0, lines, offset, end);
      FrameEnd(env.file, Rest(offset), end);
    }
  }

  method PullAll(env: Env, reader: ChargedLines, ghost before: seq<Line>, records: Context, state: Tracker)
    returns (latest: Context, tracker: Tracker, offset: nat, pull: Pull, ghost lines: seq<Line>)
    requires reader.Valid() && reader.file == env.file && !reader.yielded && reader.scan.Position() == reader.start
    requires reader.firstRecordOverrun && Chain(env.file, 0, before, reader.start)
    requires records == Latest(env, map[], before) && state == TrackAll(env.format, before)
    modifies reader, reader.budget, reader.recent
    ensures reader.Valid() && !pull.Record? && reader.start <= offset
    ensures Chain(env.file, 0, lines, offset) && Stops(env.file, pull, offset, reader.end)
    ensures latest == Latest(env, map[], lines) && tracker == TrackAll(env.format, lines)
    ensures pull == Stopped ==> reader.abortable
    ensures pull == BudgetSpent ==> offset > reader.start && reader.budget.remaining.Spent()
  {
    latest, tracker, offset, lines := records, state, reader.start, before;
    pull := reader.Next();
    while pull.Record?
      invariant reader.Valid() && reader.start <= offset
      invariant Chain(env.file, 0, lines, offset)
      invariant latest == Latest(env, map[], lines) && tracker == TrackAll(env.format, lines)
      invariant pull.Record? ==> PulledAt(env.file, pull.line, offset, reader.scan.Position(), reader.end)
      invariant !pull.Record? ==> Stops(env.file, pull, offset, reader.end) && (reader.yielded ==> offset > reader.start)
      invariant pull == Stopped ==> reader.abortable
      invariant pull == BudgetSpent ==> reader.yielded && reader.budget.remaining.Spent()
      decreases reader.end - offset
    {
      var line := pull.line;
      ChainSnoc(env.file, 0, lines, line, MAX_TRANSCRIPT_RECORD_BYTES);
      TrackSnoc(env.format, lines, line);
      LatestStep(env, lines, line);
      lines := lines + [line];
      latest, tracker, offset := Note(env, latest, line), TrackLine(env.format, tracker, line), line.byteEnd;
      pull := reader.Next();
    }
  }

  /** `reconstructResumeContext` (src/daemon/index.ts): the progress kept for one
      cursor between steps. Whatever the allowances and cancellations of the steps
      taken, the progress kept is honest and a context kept is the single pass's. */
  class Reconstruction {
    const env: Env
    const endOffset: nat
    var known: Option<StepResult>

    ghost predicate Valid()
      reads this
    {
      && endOffset <= |env.file|
      && (known.Some? ==>
            && (known.value.Complete? || known.value.Partial?)
            && (known.value.Complete? ==> known.value.context == SinglePass(env, endOffset))
            && (known.value.Partial? ==> Honest(env, known.value.progress) && known.value.progress.endOffset == endOffset))
    }

    /** Records still to read before the context is complete. */
    ghost function Remaining(): nat
      requires Valid()
      reads this
    {
      if known.None? then |Frame(env.file, 0, endOffset).lines|
      else if known.value.Complete? then 0
      else |Frame(env.file, known.value.progress.offset, endOffset).lines|
    }

    constructor (env: Env, endOffset: nat)
      requires endOffset <= |env.file|
      ensures Valid() && this.env == env && this.endOffset == endOffset && known == None
    {
      this.env, this.endOffset, known := env, endOffset, None;
    }

    /** A step either leaves everything as it was, having thrown, or keeps what it
        learnt. Not cancelled, with an allowance that covers one fingerprint
        window, and with whole records left, it gets closer; without a bound it gets
        there. */
    method Step(allowance: Allowance, abortable: bool) returns (context: Option<ResumeContext>)
      requires Valid()
      modifies this
      ensures Valid()
      ensures context.Some? ==> context.value == SinglePass(env, endOffset) && known == Some(Complete(context.value))
      ensures !abortable && allowance.Covers(FINGERPRINT_WINDOW_BYTES) && Frame(env.file, 0, endOffset).end == Rest(endOffset) ==>
                context.Some? || Remaining() < old(Remaining())
      ensures !abortable && allowance.Unlimited? && Frame(env.file, 0, endOffset).end == Rest(endOffset) ==> context.Some?
    {
      if known.Some? && known.value.Complete? {
        return Some(known.value.context);
      }
      var from := if known.Some? then Some(known.value.progress) else None;
      var budget := new SourceReadBudget(allowance);
      var result, cancelled, readTo, ranOutAt := DeriveStep(env, endOffset, from, budget, abortable);
      context := None;
      if result.Partial? && !cancelled && Frame(env.file, 0, endOffset).end == Rest(endOffset) {
        StepAdvances(env, endOffset, from, result.progress);
      }
      if result.Complete? || result.Partial? {
        known := Some(result);
        context := if result.Complete? then Some(result.context) else None;
      }
    }
  }

  lemma HonestSplit(env: Env, offset: nat, end: nat)
    requires offset <= end <= |env.file| && Frame(env.file, 0, offset).end == Rest(offset)
    ensures Frame(env.file, 0, end) == After(Frame(env.file, 0, offset).lines, Frame(env.file, offset, end))
  {
    FramePartitions(env.file, 0, offset);
    ChainFrame(env.file, 0, Frame(env.file, 0, offset).lines, offset, end);
  }

  lemma HonestFrame(env: Env, p: Progress)
    requires Honest(env, p)
    ensures p.offset <= |env.file| && Frame(env.file, 0, p.offset).end == Rest(p.offset)
  {
  }

  /** Honest progress still matches: a step goes on from it. */
  lemma StartsAtHonest(env: Env, end: nat, from: Option<Progress>)
    requires end <= |env.file| && from.Some? && Honest(env, from.value) && from.value.endOffset == end
    ensures StartOf(env, from, end) == from.value.offset
  {
    hide Frame;
    hide Latest;
    hide TrackAll;
  }

  /** Moving on by records leaves fewer of them. */
  lemma StepAdvances(env: Env, end: nat, from: Option<Progress>, p: Progress)
    requires end <= |env.file| && Frame(env.file, 0, end).end == Rest(end)
    requires from.Some? ==> Honest(env, from.value) && from.value.endOffset == end
    requires Honest(env, p) && p.endOffset == end && StartOf(env, from, end) <= p.offset < end
    requires p.offset == StartOf(env, from, end) ==> Frame(env.file, p.offset, end).lines == []
    ensures |Frame(env.file, p.offset, end).lines| < |Frame(env.file, StartOf(env, from, end), end).lines|
    ensures from.Some? ==> |Frame(env.file, StartOf(env, from, end), end).lines| <= |Frame(env.file, from.value.offset, end).lines|
  {
    hide Frame;
    hide Latest;
    hide TrackAll;
    hide Fingerprint;
    hide StillMatches;
    if from.Some? {
      StartsAtHonest(env, end, from);
    }
    HonestFrame(env, p);
    hide Honest;
    var a, b := StartOf(env, from, end), p.offset;
    FrameOfChain(env.file, 0, [], 0);
    HonestSplit(env, a, end);
    FramePartitions(env.file, a, end);
    HonestSplit(env, a, b);
    FramePartitions(env.file, a, b);
    ChainFrame(env.file, a, Frame(env.file, a, b).lines, b, end);
  }
}

/** What the task-state report protocol guarantees over every run of events in a
    turn: a report is handed on only when the transcript itself earned it. */
module ReportRuns {
  import opened Reading
  import opened TaskStateReport
  import opened Correlation
  import opened McpRuns

  // ------------------------------------------------------------------ the history

  predicate IsAnswer(e: Event) { e.ReportResult? || e.AnyResult? }

  predicate IsFor(e: Event, envelope: Envelope, id: string) {
    (e.ReportCall? || IsAnswer(e)) && e.envelope == envelope && e.id == Some(id)
  }

  function Count(events: seq<Event>, envelope: Envelope, id: string): nat {
    if events == [] then 0
    else Count(events[..|events| - 1], envelope, id) + (if IsFor(events[|events| - 1], envelope, id) then 1 else 0)
  }

  /** Every report call of the turn. */
  function ReportCalls(es: seq<Event>): seq<Event> {
    if es == [] then []
    else
      var last := es[|es| - 1];
      ReportCalls(es[..|es| - 1]) + (if last.ReportCall? then [last] else [])
  }

  predicate Named(calls: seq<Event>, id: Option<string>) { exists c | c in calls :: c.id == id }

  /** Every result whose id a report call had already named. */
  function Answers(es: seq<Event>): seq<Event> {
    if es == [] then []
    else
      var init, last := es[..|es| - 1], es[|es| - 1];
      Answers(init) + (if IsAnswer(last) && last.id.Some? && Named(ReportCalls(init), last.id) then [last] else [])
  }

  predicate Acks(a: Event) { IsAnswer(a) && Acknowledges(a.value, a.isError) }

  /** Does `a` reject a call with invalid arguments like `c`'s? */
  predicate Refuses(a: Event, c: Event) {
    && IsAnswer(a) && c.ReportCall? && a.id == c.id && c.arguments.parsed.Incomplete?
    && Rejects(a.value, a.isError, c.arguments.parsed.reason, c.arguments.diagnostic)
  }

  // ---------------------------------------------- what an observation says of them

  predicate Fits(c: Event, o: Observation) {
    c.ReportCall? && (match c.arguments.parsed
                      case Complete(input) => o.input == Some(input)
                      case Incomplete(reason) => o.input.None? && o.inputFailure == Some(reason))
  }

  ghost predicate AnswerFits(calls: seq<Event>, a: Event, o: Observation) {
    && IsAnswer(a) && (o.input.Some? ==> Acks(a))
    && (a.envelope in o.rejected ==> exists c | c in calls :: Refuses(a, c))
  }

  /** The diagnostic is one of the calls' own. */
  ghost predicate Diagnosed(calls: seq<Event>, id: string, o: Observation) {
    o.inputFailure.Some? ==>
      exists c | c in calls :: Fits(c, o) && c.id == Some(id) && c.arguments.diagnostic == o.diagnostic
  }

  /** `o` records exactly the calls and answers under `id`, once an envelope each. */
  ghost predicate TellsOf(calls: seq<Event>, answers: seq<Event>, id: string, o: Observation) {
    && (forall e: Envelope :: Count(calls, e, id) == if e in o.calls then 1 else 0)
    && (forall e: Envelope :: Count(answers, e, id) == if e in o.results then 1 else 0)
    && o.rejected <= o.results <= o.calls && o.calls != {} && (o.input.Some? <==> o.inputFailure.None?)
    && (forall c | c in calls && c.id == Some(id) :: Fits(c, o))
    && (forall a | a in answers && a.id == Some(id) :: AnswerFits(calls, a, o))
    && Diagnosed(calls, id, o)
  }

  ghost predicate Tells(calls: seq<Event>, answers: seq<Event>, r: Reports) {
    && (forall c | c in calls :: c.ReportCall? && IsReportId(r, c.id))
    && (forall a | a in answers :: IsAnswer(a) && IsReportId(r, a.id))
    && (forall id: string | ObservationOf(r, id).Some? :: TellsOf(calls, answers, id, ObservationOf(r, id).value))
    && (forall id | id in r.rejected :: r.rejected[id].inputFailure.Some?)
  }

  lemma CountSnoc(events: seq<Event>, e: Event, envelope: Envelope, id: string)
    ensures Count(events + [e], envelope, id) == Count(events, envelope, id) + if IsFor(e, envelope, id) then 1 else 0
  {
    assert (events + [e])[..|events + [e]| - 1] == events;
  }

  lemma {:induction false} CountNone(events: seq<Event>, envelope: Envelope, id: string)
    requires forall e | e in events :: (e.ReportCall? || IsAnswer(e)) && e.id != Some(id)
    ensures Count(events, envelope, id) == 0
    decreases |events|
  {
    if events != [] {
      CountNone(events[..|events| - 1], envelope, id);
    }
  }

  lemma MoreCalls(calls: seq<Event>, c: Event, answers: seq<Event>, id: string, o: Observation)
    requires c.ReportCall? && c.id != Some(id) && TellsOf(calls, answers, id, o)
    ensures TellsOf(calls + [c], answers, id, o)
  {
    hide Count;
    hide Fits;
    hide Acks;
    hide Refuses;
    forall e: Envelope ensures Count(calls + [c], e, id) == Count(calls, e, id) {
      CountSnoc(calls, c, e, id);
    }
    DiagnosedMore(calls, c, id, o);
    forall a | a in answers && a.id == Some(id) ensures AnswerFits(calls + [c], a, o) {
      AnswerFitsMore(calls, c, a, o);
    }
  }

  lemma DiagnosedMore(calls: seq<Event>, c: Event, id: string, o: Observation)
    requires Diagnosed(calls, id, o)
    ensures Diagnosed(calls + [c], id, o)
  {
    if o.inputFailure.Some? {
      var d :| d in calls && Fits(d, o) && d.id == Some(id) && d.arguments.diagnostic == o.diagnostic;
      assert d in calls + [c];
    }
  }

  lemma AnswerFitsMore(calls: seq<Event>, c: Event, a: Event, o: Observation)
    requires AnswerFits(calls, a, o)
    ensures AnswerFits(calls + [c], a, o)
  {
    hide Refuses;
    if a.envelope in o.rejected {
      var d :| d in calls && Refuses(a, d);
      assert d in calls + [c];
    }
  }

  lemma MoreAnswers(calls: seq<Event>, answers: seq<Event>, a: Event, id: string, o: Observation)
    requires IsAnswer(a) && a.id != Some(id) && TellsOf(calls, answers, id, o)
    ensures TellsOf(calls, answers + [a], id, o)
  {
    hide Count;
    hide Fits;
    hide Diagnosed;
    hide AnswerFits;
    forall e: Envelope ensures Count(answers + [a], e, id) == Count(answers, e, id) {
      CountSnoc(answers, a, e, id);
    }
  }

  lemma FirstTells(calls: seq<Event>, answers: seq<Event>, c: Event, id: string)
    requires c.ReportCall? && c.id == Some(id)
    requires forall e | e in calls + answers :: (e.ReportCall? || IsAnswer(e)) && e.id != Some(id)
    ensures TellsOf(calls + [c], answers, id, FirstCall(c.envelope, id, c.arguments))
  {
    hide Count;
    hide Acks;
    hide Refuses;
    var o := FirstCall(c.envelope, id, c.arguments);
    forall e: Envelope
      ensures Count(calls + [c], e, id) == (if e in o.calls then 1 else 0) && Count(answers, e, id) == 0
    {
      CountNone(calls, e, id);
      CountNone(answers, e, id);
      CountSnoc(calls, c, e, id);
    }
    assert c in calls + [c];
    assert Fits(c, o);
  }

  lemma AgainTells(calls: seq<Event>, answers: seq<Event>, c: Event, id: string, o: Observation)
    requires TellsOf(calls, answers, id, o) && c.ReportCall? && c.id == Some(id) && c.envelope !in o.calls && Fits(c, o)
    ensures TellsOf(calls + [c], answers, id, o.(calls := o.calls + {c.envelope}))
  {
    hide Count;
    hide Fits;
    hide Acks;
    hide Refuses;
    var p := o.(calls := o.calls + {c.envelope});
    forall e: Envelope ensures Count(calls + [c], e, id) == if e in p.calls then 1 else 0 {
      CountSnoc(calls, c, e, id);
    }
    DiagnosedMore(calls, c, id, o);
    forall d | d in calls + [c] && d.id == Some(id) ensures Fits(d, p) {
      FitsWider(d, o, p);
    }
    forall a | a in answers && a.id == Some(id) ensures AnswerFits(calls + [c], a, p) {
      AnswerFitsMore(calls, c, a, o);
    }
    DiagnosedWider(calls + [c], id, o, p);
  }

  lemma FitsWider(c: Event, o: Observation, p: Observation)
    requires o.input == p.input && o.inputFailure == p.inputFailure
    ensures Fits(c, o) == Fits(c, p)
  {
  }

  lemma DiagnosedWider(calls: seq<Event>, id: string, o: Observation, p: Observation)
    requires o.input == p.input && o.inputFailure == p.inputFailure && o.diagnostic == p.diagnostic
    ensures Diagnosed(calls, id, o) ==> Diagnosed(calls, id, p)
  {
    forall c: Event ensures Fits(c, o) == Fits(c, p) {
    }
  }

  /** An answer that keeps a retry possible: a rejection, or an acknowledgement. */
  lemma AnswerTells(calls: seq<Event>, answers: seq<Event>, a: Event, id: string, o: Observation, refused: bool)
    requires TellsOf(calls, answers, id, o) && IsAnswer(a) && a.id == Some(id) && a.envelope in o.calls && a.envelope !in o.results
    requires if refused then o.inputFailure.Some? && Rejects(a.value, a.isError, o.inputFailure.value, o.diagnostic) else Acks(a)
    ensures TellsOf(calls, answers + [a], id,
                    o.(results := o.results + {a.envelope}, rejected := if refused then o.rejected + {a.envelope} else o.rejected))
  {
    hide Count;
    hide Acks;
    hide Rejects;
    var p := o.(results := o.results + {a.envelope}, rejected := if refused then o.rejected + {a.envelope} else o.rejected);
    forall e: Envelope ensures Count(answers + [a], e, id) == if e in p.results then 1 else 0 {
      CountSnoc(answers, a, e, id);
    }
    DiagnosedWider(calls, id, o, p);
    if refused {
      var c :| c in calls && Fits(c, o) && c.id == Some(id) && c.arguments.diagnostic == o.diagnostic;
      assert Refuses(a, c);
    }
    forall b | b in answers && b.id == Some(id) ensures AnswerFits(calls, b, p) {
      assert AnswerFits(calls, b, o);
      if b.envelope == a.envelope {
        Counted(answers, b);
      }
    }
    forall b | b in answers + [a] && b.id == Some(id) ensures AnswerFits(calls, b, p) {
      assert b in answers || b == a;
    }
  }

  lemma {:induction false} Counted(events: seq<Event>, e: Event)
    requires e in events && (e.ReportCall? || IsAnswer(e)) && e.id.Some?
    ensures Count(events, e.envelope, e.id.value) > 0
    decreases |events|
  {
    if events[|events| - 1] != e {
      Counted(events[..|events| - 1], e);
    }
  }

  // ------------------------------------------------------------------ one event

  /** The state after an event differs, as a report goes, only in `id`. */
  lemma TellsAt(calls: seq<Event>, answers: seq<Event>, r: Reports, t: Reports, id: string, more: seq<Event>, heard: seq<Event>)
    requires Tells(calls, answers, r) && Filed(t)
    requires forall other: string | other != id :: ObservationOf(t, other) == ObservationOf(r, other)
    requires ObservationOf(t, id).Some? && TellsOf(calls + more, answers + heard, id, ObservationOf(t, id).value)
    requires forall k | k in t.rejected :: t.rejected[k].inputFailure.Some?
    requires more == [] || (|more| == 1 && more[0].ReportCall? && more[0].id == Some(id))
    requires heard == [] || (|heard| == 1 && IsAnswer(heard[0]) && heard[0].id == Some(id))
    ensures Tells(calls + more, answers + heard, t)
  {
    hide TellsOf;
    hide ObservationOf;
    forall other: string | ObservationOf(t, other).Some?
      ensures TellsOf(calls + more, answers + heard, other, ObservationOf(t, other).value)
    {
      if other != id {
        var o := ObservationOf(r, other).value;
        assert TellsOf(calls, answers, other, o);
        assert calls + [] == calls && answers + [] == answers;
        if more != [] {
          assert more == [more[0]];
          MoreCalls(calls, more[0], answers, other, o);
        }
        if heard != [] {
          assert heard == [heard[0]];
          MoreAnswers(calls + more, answers, heard[0], other, o);
        }
      }
    }
    forall c | c in calls + more ensures c.ReportCall? && IsReportId(t, c.id) {
      assert c in calls || c == more[0];
    }
    forall a | a in answers + heard ensures IsAnswer(a) && IsReportId(t, a.id) {
      assert a in answers || a == heard[0];
    }
  }

  lemma Unnamed(calls: seq<Event>, answers: seq<Event>, r: Reports, id: string)
    requires Tells(calls, answers, r) && ObservationOf(r, id).None?
    ensures forall e | e in calls + answers :: (e.ReportCall? || IsAnswer(e)) && e.id != Some(id)
  {
    hide TellsOf;
    hide ObservationOf;
  }

  lemma PriorTells(calls: seq<Event>, answers: seq<Event>, r: Reports, c: Event, id: string)
    requires Tells(calls, answers, r) && Filed(r) && id in r.rejected && c.ReportCall? && c.id == Some(id)
    requires !CallPrior(r, c.envelope, id, c.arguments).retryBlocked
    ensures Tells(calls + [c], answers, CallPrior(r, c.envelope, id, c.arguments))
  {
    hide TellsOf;
    var t, o := CallPrior(r, c.envelope, id, c.arguments), r.rejected[id];
    assert ObservationOf(r, id).Some? && TellsOf(calls, answers, id, o);
    CallPriorAdds(r, c.envelope, id, c.arguments);
    assert Fits(c, o) by { InputOrFailure(calls, answers, id, o); }
    AgainTells(calls, answers, c, id, o);
    assert answers + [] == answers;
    TellsAt(calls, answers, r, t, id, [c], []);
  }

  lemma InputOrFailure(calls: seq<Event>, answers: seq<Event>, id: string, o: Observation)
    requires TellsOf(calls, answers, id, o)
    ensures o.input.Some? <==> o.inputFailure.None?
    ensures o.calls != {}
  {
  }

  lemma AgainCallTells(calls: seq<Event>, answers: seq<Event>, r: Reports, c: Event, id: string)
    requires Tells(calls, answers, r) && Filed(r) && r.current.Some? && r.current.value.callId == id
    requires c.ReportCall? && c.id == Some(id) && !CallAgain(r, c.envelope, c.arguments).retryBlocked
    ensures Tells(calls + [c], answers, CallAgain(r, c.envelope, c.arguments))
  {
    hide TellsOf;
    hide SameInput;
    var t, o := CallAgain(r, c.envelope, c.arguments), r.current.value;
    assert ObservationOf(r, id).Some? && TellsOf(calls, answers, id, o);
    CallAgainAdds(r, c.envelope, id, c.arguments);
    if c.arguments.parsed.Complete? && o.input.Some? {
      SameInputIsEqual(o.input.value, c.arguments.parsed.input);
    }
    assert Fits(c, o) by { InputOrFailure(calls, answers, id, o); }
    AgainTells(calls, answers, c, id, o);
    assert answers + [] == answers;
    TellsAt(calls, answers, r, t, id, [c], []);
  }

  lemma FirstCallTells(calls: seq<Event>, answers: seq<Event>, r: Reports, c: Event, id: string)
    requires Tells(calls, answers, r) && Filed(r) && id !in ReportIds(r) && ShortId(id) && c.ReportCall? && c.id == Some(id)
    requires r.current.Some? ==> r.current.value.inputFailure.Some?
    ensures Tells(calls + [c], answers, CallFirst(r, c.envelope, id, c.arguments))
  {
    hide TellsOf;
    hide ShortId;
    var t := CallFirst(r, c.envelope, id, c.arguments);
    CallFirstAdds(r, c.envelope, id, c.arguments);
    Unnamed(calls, answers, r, id);
    FirstTells(calls, answers, c, id);
    assert t.current == Some(FirstCall(c.envelope, id, c.arguments)) && id !in t.rejected;
    assert answers + [] == answers;
    TellsAt(calls, answers, r, t, id, [c], []);
  }

  lemma CallUnderTells(calls: seq<Event>, answers: seq<Event>, r: Reports, c: Event, id: string)
    requires Tells(calls, answers, r) && Filed(r) && ShortId(id) && c.ReportCall? && c.id == Some(id)
    requires !CallUnder(r, c.envelope, id, c.arguments).retryBlocked
    ensures Tells(calls + [c], answers, CallUnder(r, c.envelope, id, c.arguments))
  {
    hide Tells;
    hide CallPrior;
    hide CallAgain;
    hide CallFirst;
    hide ShortId;
    if id in r.rejected {
      PriorTells(calls, answers, r, c, id);
    } else if r.current.Some? && r.current.value.callId == id {
      AgainCallTells(calls, answers, r, c, id);
    } else {
      FirstCallTells(calls, answers, r, c, id);
    }
  }

  lemma ConsumeTells(calls: seq<Event>, answers: seq<Event>, r: Reports, a: Event, id: string)
    requires Tells(calls, answers, r) && Filed(r) && ObservationOf(r, id).Some? && IsAnswer(a) && a.id == Some(id)
    requires !Consume(r, a.envelope, id, a.value, a.isError).retryBlocked
    ensures Tells(calls, answers + [a], Consume(r, a.envelope, id, a.value, a.isError))
  {
    hide TellsOf;
    hide Acknowledges;
    hide Rejects;
    var t, o := Consume(r, a.envelope, id, a.value, a.isError), ObservationOf(r, id).value;
    assert TellsOf(calls, answers, id, o);
    ConsumeFiles(r, a.envelope, id, a.value, a.isError);
    var refused := o.inputFailure.Some? && Rejects(a.value, a.isError, o.inputFailure.value, o.diagnostic);
    AnswerTells(calls, answers, a, id, o, refused);
    assert calls + [] == calls;
    ConsumedIs(r, t, id, a, o, refused);
    TellsAt(calls, answers, r, t, id, [], [a]);
  }

  lemma ConsumedIs(r: Reports, t: Reports, id: string, a: Event, o: Observation, refused: bool)
    requires Filed(r) && ObservationOf(r, id) == Some(o) && IsAnswer(a) && !t.retryBlocked
    requires t == Consume(r, a.envelope, id, a.value, a.isError)
    requires refused == (o.inputFailure.Some? && Rejects(a.value, a.isError, o.inputFailure.value, o.diagnostic))
    ensures ObservationOf(t, id) == Some(o.(results := o.results + {a.envelope},
                                            rejected := if refused then o.rejected + {a.envelope} else o.rejected))
    ensures forall other: string | other != id :: ObservationOf(t, other) == ObservationOf(r, other)
    ensures (forall k | k in r.rejected :: r.rejected[k].inputFailure.Some?) ==>
              forall k | k in t.rejected :: t.rejected[k].inputFailure.Some?
  {
    hide Acknowledges;
    hide Rejects;
    hide AllShort;
    var p := o.(results := o.results + {a.envelope}, rejected := if refused then o.rejected + {a.envelope} else o.rejected);
    assert t == Replace(r, id, p);
    assert p.callId == o.callId == id;
  }

  // ---------------------------------------------------------------------- a run

  /** Failures other than invalid input block every retry. */
  ghost predicate Blocking(r: Reports) {
    && (r.retryBlocked ==> r.failure.Some?)
    && (r.failure.Some? && !r.failure.value.BadInput? ==> r.retryBlocked)
  }

  lemma CallBlocks(r: Reports, envelope: Envelope, id: string, arguments: Arguments)
    requires Blocking(r)
    ensures var t := CallUnder(r, envelope, id, arguments);
            Blocking(t) && (r.retryBlocked ==> t.retryBlocked && t.failure == r.failure)
  {
    hide SameInput;
    hide RepeatsInvalid;
    hide FirstCall;
  }

  lemma ConsumeBlocks(r: Reports, envelope: Envelope, id: string, value: ReportValue, isError: bool)
    requires Blocking(r) && ObservationOf(r, id).Some?
    ensures var t := Consume(r, envelope, id, value, isError);
            Blocking(t) && (r.retryBlocked ==> t.retryBlocked && t.failure == r.failure)
  {
    hide Acknowledges;
    hide Rejects;
  }

  /** One event keeps a block in force. */
  lemma StepBlocks(s: Calls, e: Event)
    requires Blocking(s.reports)
    ensures var t := Step(s, e).reports;
            Blocking(t) && (s.reports.retryBlocked ==> t.retryBlocked && t.failure == s.reports.failure)
  {
    hide CallUnder;
    hide Consume;
    hide McpResult;
    hide ObserveItem;
    hide Register;
    hide McpIds;
    match e
    case ReportCall(envelope, id, arguments) =>
      if id.Some? {
        CallBlocks(NoteGuard(s.reports, arguments.guard), envelope, id.value, arguments);
      }
    case ReportResult(envelope, id, value, isError) =>
      if IsReportId(s.reports, id) {
        ConsumeBlocks(s.reports, envelope, id.value, value, isError);
      }
    case AnyResult(envelope, id, value, isError, _) =>
      if IsReportId(s.reports, id) {
        ConsumeBlocks(s.reports, envelope, id.value, value, isError);
      }
    case _ =>
  }

  lemma {:induction false} RunBlocks(es: seq<Event>)
    ensures Blocking(Run(es).reports)
    decreases |es|
  {
    hide Step;
    if es != [] {
      RunBlocks(es[..|es| - 1]);
      StepBlocks(Run(es[..|es| - 1]), es[|es| - 1]);
    }
  }

  /** Failures absorb: after any failure but malformed or oversized input, even one
      that follows such an input failure, no continuation of the turn yields a
      report, and all of them fail for the same reason. */
  lemma {:induction false} FailuresAbsorb(es: seq<Event>, k: nat)
    requires k <= |es|
    requires var r := Run(es[..k]).reports; r.retryBlocked || (r.failure.Some? && !r.failure.value.BadInput?)
    ensures Run(es).reports.retryBlocked && ReportOutcome(Run(es).reports).Failure?
    ensures Run(es).reports.failure == Run(es[..k]).reports.failure
    decreases |es|
  {
    hide Step;
    RunBlocks(es);
    if k == |es| {
      assert es[..k] == es;
    } else {
      var init := es[..|es| - 1];
      assert init[..k] == es[..k];
      FailuresAbsorb(init, k);
      RunBlocks(init);
      StepBlocks(Run(init), es[|es| - 1]);
    }
  }

  /** While a retry is possible, the state records exactly the history. */
  ghost predicate Told(s: Calls, calls: seq<Event>, answers: seq<Event>) {
    s.mcp.coverage.None? && !s.reports.retryBlocked ==> Tells(calls, answers, s.reports)
  }

  lemma ReportIdNamed(calls: seq<Event>, answers: seq<Event>, r: Reports, id: Option<string>)
    requires Tells(calls, answers, r) && id.Some?
    ensures IsReportId(r, id) <==> Named(calls, id)
  {
    hide ObservationOf;
    if IsReportId(r, id) {
      var o := ObservationOf(r, id.value).value;
      assert TellsOf(calls, answers, id.value, o);
      var e :| e in o.calls;
      assert Count(calls, e, id.value) == 1;
      CallCounted(calls, e, id.value);
    }
  }

  lemma {:induction false} CallCounted(calls: seq<Event>, envelope: Envelope, id: string)
    requires Count(calls, envelope, id) > 0
    ensures Named(calls, Some(id))
    decreases |calls|
  {
    var last := calls[|calls| - 1];
    if IsFor(last, envelope, id) {
      assert last in calls;
    } else {
      CallCounted(calls[..|calls| - 1], envelope, id);
      var c :| c in calls[..|calls| - 1] && c.id == Some(id);
      assert c in calls;
    }
  }

  lemma GuardTells(calls: seq<Event>, answers: seq<Event>, r: Reports, guard: Option<Guard>)
    requires Tells(calls, answers, r)
    ensures Tells(calls, answers, NoteGuard(r, guard))
  {
    hide TellsOf;
    var t := NoteGuard(r, guard);
    forall id: string ensures ObservationOf(t, id) == ObservationOf(r, id) {
    }
  }

  lemma CallTold(s: Calls, calls: seq<Event>, answers: seq<Event>, e: Event)
    requires Matched(s) && Blocking(s.reports) && Told(s, calls, answers) && e.ReportCall?
    ensures Told(Step(s, e), calls + [e], answers)
  {
    hide Sound;
    hide Tells;
    hide CallUnder;
    hide McpIds;
    hide ReportIds;
    hide AllShort;
    var t := Step(s, e);
    ObserveCallMatched(s, e.envelope, e.id, e.arguments);
    StepBlocks(s, e);
    if t.mcp.coverage.None? && !t.reports.retryBlocked {
      assert s.mcp.coverage.None?;
      var n := NoteGuard(s.reports, e.arguments.guard);
      GuardTells(calls, answers, s.reports, e.arguments.guard);
      GuardAdds(s.reports, e.arguments.guard);
      assert e.id.Some? && ShortId(e.id.value) && t.reports == CallUnder(n, e.envelope, e.id.value, e.arguments);
      CallUnderTells(calls, answers, n, e, e.id.value);
    }
  }

  /** The answer an event is, if it is one. */
  function AnswerOf(calls: seq<Event>, e: Event): seq<Event> {
    if IsAnswer(e) && e.id.Some? && Named(calls, e.id) then [e] else []
  }

  lemma AnswerTold(s: Calls, calls: seq<Event>, answers: seq<Event>, e: Event)
    requires Matched(s) && Blocking(s.reports) && Told(s, calls, answers) && !e.ReportCall?
    requires Stepped(s, Step(s, e), HeardId(e))
    ensures Told(Step(s, e), calls, answers + AnswerOf(calls, e))
  {
    hide Matched;
    hide Tells;
    hide Consume;
    hide McpResult;
    hide ObserveItem;
    hide Register;
    hide McpIds;
    hide ReportIds;
    hide ObservationOf;
    hide Named;
    var t := Step(s, e);
    StepBlocks(s, e);
    assert answers + [] == answers;
    if t.mcp.coverage.None? && !t.reports.retryBlocked && IsAnswer(e) && e.id.Some? {
      ReportIdNamed(calls, answers, s.reports, e.id);
      if IsReportId(s.reports, e.id) {
        MatchedFiled(s);
        ConsumeTells(calls, answers, s.reports, e, e.id.value);
      }
    }
  }

  lemma MatchedFiled(s: Calls)
    requires Matched(s)
    ensures Filed(s.reports)
  {
  }

  lemma {:induction false} RunTold(es: seq<Event>)
    ensures Told(Run(es), ReportCalls(es), Answers(es))
    decreases |es|
  {
    hide Matched;
    hide Step;
    hide TellsOf;
    hide Named;
    if es != [] {
      var init, e := es[..|es| - 1], es[|es| - 1];
      RunTold(init);
      RunKept(init);
      RunBlocks(init);
      assert Answers(es) == Answers(init) + AnswerOf(ReportCalls(init), e);
      if e.ReportCall? {
        assert Answers(init) + [] == Answers(init);
        CallTold(Run(init), ReportCalls(init), Answers(init), e);
      } else {
        assert ReportCalls(init) + [] == ReportCalls(init);
        StepSteps(Run(init), e);
        AnswerTold(Run(init), ReportCalls(init), Answers(init), e);
      }
    }
  }

  /** A report is earned: every recorded call of the turn is answered once in the
      envelope that recorded it; the calls under the report's own id all carried
      the reported input and were all acknowledged; every other call carried
      invalid input and was explicitly rejected. */
  lemma ReportIsEarned(es: seq<Event>, id: string, input: ReportInput, retried: bool)
    requires Run(es).mcp.coverage.None? && ReportOutcome(Run(es).reports) == Reported(id, input, retried)
    ensures Named(ReportCalls(es), Some(id))
    ensures forall e: Envelope, other: string :: Count(ReportCalls(es), e, other) == Count(Answers(es), e, other) <= 1
    ensures forall c | c in ReportCalls(es) ::
              c.ReportCall? && c.id.Some?
               && if c.id.value == id then c.arguments.parsed == Complete(input) else c.arguments.parsed.Incomplete?
    ensures forall a | a in Answers(es) ::
              if a.id == Some(id) then Acks(a) else exists c | c in ReportCalls(es) :: Refuses(a, c)
    ensures retried <==> exists c | c in ReportCalls(es) :: c.id != Some(id)
  {
    hide Run;
    hide Acks;
    hide Refuses;
    hide Count;
    hide Tells;
    hide Named;
    hide Filed;
    hide ReportOutcome;
    var r, calls, answers := Run(es).reports, ReportCalls(es), Answers(es);
    RunBlocks(es);
    RunTold(es);
    RunKept(es);
    MatchedFiled(Run(es));
    Unblocked(r);
    assert Tells(calls, answers, r);
    forall e: Envelope, other: string ensures Count(calls, e, other) == Count(answers, e, other) <= 1 {
      EachAnswered(calls, answers, r, e, other);
    }
    forall c | c in calls
      ensures c.ReportCall? && c.id.Some?
               && if c.id.value == id then c.arguments.parsed == Complete(input) else c.arguments.parsed.Incomplete?
    {
      CallJudged(calls, answers, r, c);
    }
    forall a | a in answers ensures if a.id == Some(id) then Acks(a) else exists c | c in calls :: Refuses(a, c) {
      AnswerJudged(calls, answers, r, a);
    }
    OthersCalled(calls, answers, r);
  }

  lemma Unblocked(r: Reports)
    requires Blocking(r) && ReportOutcome(r).Reported?
    ensures !r.retryBlocked
  {
  }

  lemma CallJudged(calls: seq<Event>, answers: seq<Event>, r: Reports, c: Event)
    requires Tells(calls, answers, r) && Filed(r) && ReportOutcome(r).Reported? && c in calls
    ensures c.ReportCall? && c.id.Some?
    ensures if c.id.value == ReportOutcome(r).callId then c.arguments.parsed == Complete(ReportOutcome(r).input)
            else c.arguments.parsed.Incomplete?
  {
    hide Count;
    hide AnswerFits;
    var o := ObservationOf(r, c.id.value).value;
    assert TellsOf(calls, answers, c.id.value, o) && Fits(c, o);
  }

  /** The report's id was called, and other ids exactly when a retry is reported. */
  lemma OthersCalled(calls: seq<Event>, answers: seq<Event>, r: Reports)
    requires Tells(calls, answers, r) && Filed(r) && ReportOutcome(r).Reported?
    ensures Named(calls, Some(ReportOutcome(r).callId))
    ensures ReportOutcome(r).retried <==> exists c | c in calls :: c.id != Some(ReportOutcome(r).callId)
  {
    hide TellsOf;
    ReportIdNamed(calls, answers, r, Some(ReportOutcome(r).callId));
    if ReportOutcome(r).retried {
      var other :| other in r.rejected;
      assert ObservationOf(r, other).Some?;
      ReportIdNamed(calls, answers, r, Some(other));
      var c :| c in calls && c.id == Some(other);
    }
  }

  lemma EachAnswered(calls: seq<Event>, answers: seq<Event>, r: Reports, e: Envelope, id: string)
    requires Tells(calls, answers, r) && Filed(r) && ReportOutcome(r).Reported?
    ensures Count(calls, e, id) == Count(answers, e, id) <= 1
  {
    if ObservationOf(r, id).Some? {
      var o := ObservationOf(r, id).value;
      assert TellsOf(calls, answers, id, o);
      assert o.calls <= o.results;
    } else {
      Unnamed(calls, answers, r, id);
      CountNone(calls, e, id);
      CountNone(answers, e, id);
    }
  }

  lemma AnswerJudged(calls: seq<Event>, answers: seq<Event>, r: Reports, a: Event)
    requires Tells(calls, answers, r) && Filed(r) && ReportOutcome(r).Reported? && a in answers
    ensures IsAnswer(a) && if a.id == Some(ReportOutcome(r).callId) then Acks(a) else exists c | c in calls :: Refuses(a, c)
  {
    hide Acks;
    hide Refuses;
    hide Count;
    var o := ObservationOf(r, a.id.value).value;
    assert TellsOf(calls, answers, a.id.value, o) && AnswerFits(calls, a, o);
    if a.id != Some(ReportOutcome(r).callId) {
      Counted(answers, a);
      assert Count(answers, a.envelope, a.id.value) > 0;
      assert a.envelope in o.results && o.calls <= o.rejected;
    }
  }

  // --------------------------------------------------------- corrected reports pass

  /** A call with invalid input and the explicit rejection it got. */
  datatype Attempt = Attempt(id: string, arguments: Arguments, value: ReportValue, isError: bool)

  predicate Refused(a: Attempt) {
    && ShortId(a.id) && a.arguments.guard.None? && a.arguments.parsed.Incomplete?
    && Rejects(a.value, a.isError, a.arguments.parsed.reason, a.arguments.diagnostic)
  }

  predicate Accepted(a: Attempt) {
    ShortId(a.id) && a.arguments.guard.None? && a.arguments.parsed.Complete? && Acknowledges(a.value, a.isError)
  }

  /** A turn that calls and hears back, attempt after attempt, in one envelope. */
  function Exchange(envelope: Envelope, attempts: seq<Attempt>): seq<Event> {
    if attempts == [] then []
    else
      var a := attempts[|attempts| - 1];
      Exchange(envelope, attempts[..|attempts| - 1])
      + [ReportCall(envelope, Some(a.id), a.arguments), ReportResult(envelope, Some(a.id), a.value, a.isError)]
  }

  ghost predicate FreshIds(attempts: seq<Attempt>) {
    forall i, j | 0 <= i < j < |attempts| :: attempts[i].id != attempts[j].id
  }

  function AttemptIds(attempts: seq<Attempt>): set<string> {
    set k | 0 <= k < |attempts| :: attempts[k].id
  }

  predicate Settled(o: Observation, envelope: Envelope) {
    o.inputFailure.Some? && o.calls == o.results == o.rejected == {envelope}
  }

  /** Every attempt so far recorded, rejected and open to one more correction. */
  ghost predicate Correctable(s: Calls, envelope: Envelope, attempts: seq<Attempt>) {
    var r := s.reports;
    && s.mcp == NoCalls().mcp && !r.retryBlocked && r.guard.None? && (r.failure.Some? <==> attempts != [])
    && (forall id | id in r.rejected :: Settled(r.rejected[id], envelope))
    && (if attempts == [] then r.current.None? && r.rejected == map[]
        else && r.current.Some? && r.current.value.callId == attempts[|attempts| - 1].id && Settled(r.current.value, envelope)
             && r.rejected.Keys == AttemptIds(attempts[..|attempts| - 1]) && |r.rejected| == |attempts| - 1)
  }

  lemma RunTwo(es: seq<Event>, e: Event, f: Event)
    ensures Run(es + [e, f]) == Step(Step(Run(es), e), f)
  {
    hide Step;
    var all := es + [e, f];
    assert all[..|all| - 1] == es + [e];
    assert (es + [e])[..|es + [e]| - 1] == es;
  }

  lemma AttemptsSnoc(attempts: seq<Attempt>, a: Attempt)
    requires FreshIds(attempts + [a])
    ensures FreshIds(attempts) && a.id !in AttemptIds(attempts) && AttemptIds(attempts + [a]) == AttemptIds(attempts) + {a.id}
  {
    var all := attempts + [a];
    assert all[|attempts|] == a;
    forall k | 0 <= k < |attempts| ensures attempts[k].id != a.id {
      assert all[k] == attempts[k];
    }
    forall i, j | 0 <= i < j < |attempts| ensures attempts[i].id != attempts[j].id {
      assert all[i] == attempts[i] && all[j] == attempts[j];
    }
    forall id | id in AttemptIds(attempts) ensures id in AttemptIds(all) {
      var k :| 0 <= k < |attempts| && attempts[k].id == id;
      assert all[k].id == id;
    }
  }

  /** Before the next call, the call in force is new to the rejected ones. */
  lemma CurrentFresh(s: Calls, envelope: Envelope, attempts: seq<Attempt>)
    requires Correctable(s, envelope, attempts) && FreshIds(attempts) && attempts != []
    ensures s.reports.current.value.callId !in s.reports.rejected
    ensures s.reports.rejected.Keys + {s.reports.current.value.callId} == AttemptIds(attempts)
  {
    hide AttemptIds;
    var init, last := attempts[..|attempts| - 1], attempts[|attempts| - 1];
    assert attempts == init + [last];
    AttemptsSnoc(init, last);
  }

  lemma AttemptCall(s: Calls, envelope: Envelope, attempts: seq<Attempt>, a: Attempt)
    requires Correctable(s, envelope, attempts) && FreshIds(attempts + [a]) && ShortId(a.id) && a.arguments.guard.None?
    ensures var called := Step(s, ReportCall(envelope, Some(a.id), a.arguments));
            && called.mcp == s.mcp
            && called.reports == if |attempts| < ELEPHA_MCP_RESULTS_PER_TURN_MAX then CallFirst(s.reports, envelope, a.id, a.arguments)
                                 else Fail(s.reports, MultipleReports)
  {
    hide Utf8Length;
    hide CallFirst;
    hide AttemptIds;
    AttemptsSnoc(attempts, a);
    assert McpIds(s.mcp) == {};
    if attempts != [] {
      CurrentFresh(s, envelope, attempts);
    }
  }

  lemma CallFirstOpens(s: Calls, envelope: Envelope, attempts: seq<Attempt>, a: Attempt)
    requires Correctable(s, envelope, attempts) && FreshIds(attempts + [a])
    ensures var r := CallFirst(s.reports, envelope, a.id, a.arguments);
            && r.rejected.Keys == AttemptIds(attempts) && |r.rejected| == |attempts| && a.id !in r.rejected
            && (forall id | id in r.rejected :: Settled(r.rejected[id], envelope))
            && r.current == Some(FirstCall(envelope, a.id, a.arguments)) && !r.retryBlocked && r.guard.None?
            && (r.failure.Some? <==> a.arguments.parsed.Incomplete?)
  {
    hide FirstCall;
    hide AttemptIds;
    AttemptsSnoc(attempts, a);
    var r := s.reports;
    if attempts != [] {
      CurrentFresh(s, envelope, attempts);
      var moved := r.rejected[r.current.value.callId := r.current.value];
      assert moved.Keys == r.rejected.Keys + {r.current.value.callId};
    } else {
      assert AttemptIds(attempts) == {} by { NoIds(); }
    }
  }

  lemma NoIds()
    ensures AttemptIds([]) == {}
  {
  }

  lemma AttemptSettles(s: Calls, envelope: Envelope, attempts: seq<Attempt>, a: Attempt)
    requires Correctable(s, envelope, attempts) && FreshIds(attempts + [a]) && Refused(a)
    requires |attempts| < ELEPHA_MCP_RESULTS_PER_TURN_MAX
    ensures Correctable(Step(Step(s, ReportCall(envelope, Some(a.id), a.arguments)),
                             ReportResult(envelope, Some(a.id), a.value, a.isError)), envelope, attempts + [a])
  {
    hide Utf8Length;
    hide Rejects;
    hide Acknowledges;
    hide AttemptIds;
    hide CallFirst;
    hide ObserveCall;
    var called := Step(s, ReportCall(envelope, Some(a.id), a.arguments));
    AttemptCall(s, envelope, attempts, a);
    CallFirstOpens(s, envelope, attempts, a);
    assert (attempts + [a])[..|attempts + [a]| - 1] == attempts;
  }

  lemma {:induction false} ExchangeCorrectable(envelope: Envelope, attempts: seq<Attempt>)
    requires FreshIds(attempts) && (forall a | a in attempts :: Refused(a)) && |attempts| <= ELEPHA_MCP_RESULTS_PER_TURN_MAX
    ensures Correctable(Run(Exchange(envelope, attempts)), envelope, attempts)
    decreases |attempts|
  {
    hide Step;
    hide Refused;
    if attempts == [] {
      assert Run([]) == NoCalls();
    } else {
      var init, a := attempts[..|attempts| - 1], attempts[|attempts| - 1];
      assert attempts == init + [a];
      ExchangeCorrectable(envelope, init);
      AttemptSettles(Run(Exchange(envelope, init)), envelope, init, a);
      RunTwo(Exchange(envelope, init), ReportCall(envelope, Some(a.id), a.arguments),
             ReportResult(envelope, Some(a.id), a.value, a.isError));
    }
  }

  lemma {:induction false} ExchangePrefix(envelope: Envelope, attempts: seq<Attempt>, k: nat)
    requires k < |attempts|
    ensures var call := ReportCall(envelope, Some(attempts[k].id), attempts[k].arguments);
            Exchange(envelope, attempts[..k]) + [call] <= Exchange(envelope, attempts)
    decreases |attempts|
  {
    var init := attempts[..|attempts| - 1];
    if k < |init| {
      ExchangePrefix(envelope, init, k);
      assert init[..k] == attempts[..k];
    }
  }

  lemma TooManyAttempts(envelope: Envelope, attempts: seq<Attempt>)
    requires FreshIds(attempts) && |attempts| > ELEPHA_MCP_RESULTS_PER_TURN_MAX
    requires forall k | 0 <= k < ELEPHA_MCP_RESULTS_PER_TURN_MAX :: Refused(attempts[k])
    requires var a := attempts[ELEPHA_MCP_RESULTS_PER_TURN_MAX]; ShortId(a.id) && a.arguments.guard.None?
    ensures ReportOutcome(Run(Exchange(envelope, attempts)).reports).Failure?
  {
    hide Step;
    hide Refused;
    hide ShortId;
    hide Correctable;
    hide Exchange;
    hide ReportOutcome;
    var most := attempts[..ELEPHA_MCP_RESULTS_PER_TURN_MAX];
    var a, es := attempts[ELEPHA_MCP_RESULTS_PER_TURN_MAX], Exchange(envelope, attempts);
    var first := Exchange(envelope, most);
    var call := ReportCall(envelope, Some(a.id), a.arguments);
    ExchangeCorrectable(envelope, most);
    assert most + [a] == attempts[..|most| + 1];
    AttemptCall(Run(first), envelope, most, a);
    ExchangePrefix(envelope, attempts, |most|);
    assert es[..|first| + 1] == first + [call];
    assert (first + [call])[..|first + [call]| - 1] == first;
    FailuresAbsorb(es, |first| + 1);
  }

  /** Invalid calls, each rejected, followed by a valid one, acknowledged, give the
      valid report exactly when fewer than sixty-four of them were rejected. */
  lemma CorrectedReportPasses(envelope: Envelope, attempts: seq<Attempt>, valid: Attempt)
    requires FreshIds(attempts + [valid]) && (forall a | a in attempts :: Refused(a)) && Accepted(valid)
    ensures var outcome := ReportOutcome(Run(Exchange(envelope, attempts + [valid])).reports);
            if |attempts| < ELEPHA_MCP_RESULTS_PER_TURN_MAX
            then outcome == Reported(valid.id, valid.arguments.parsed.input, attempts != [])
            else outcome.Failure?
  {
    hide Step;
    hide ShortId;
    hide FreshIds;
    hide Rejects;
    hide Acknowledges;
    var all := attempts + [valid];
    if |attempts| >= ELEPHA_MCP_RESULTS_PER_TURN_MAX {
      assert all[ELEPHA_MCP_RESULTS_PER_TURN_MAX] in all;
      TooManyAttempts(envelope, all);
    } else {
      AttemptsSnoc(attempts, valid);
      ExchangeCorrectable(envelope, attempts);
      assert all[..|all| - 1] == attempts;
      RunTwo(Exchange(envelope, attempts), ReportCall(envelope, Some(valid.id), valid.arguments),
             ReportResult(envelope, Some(valid.id), valid.value, valid.isError));
      ValidPasses(Run(Exchange(envelope, attempts)), envelope, attempts, valid);
    }
  }

  lemma ValidPasses(s: Calls, envelope: Envelope, attempts: seq<Attempt>, valid: Attempt)
    requires Correctable(s, envelope, attempts) && FreshIds(attempts + [valid]) && Accepted(valid)
    requires |attempts| < ELEPHA_MCP_RESULTS_PER_TURN_MAX
    ensures var done := Step(Step(s, ReportCall(envelope, Some(valid.id), valid.arguments)),
                             ReportResult(envelope, Some(valid.id), valid.value, valid.isError));
            ReportOutcome(done.reports) == Reported(valid.id, valid.arguments.parsed.input, attempts != [])
  {
    hide Utf8Length;
    hide Rejects;
    hide Acknowledges;
    hide AttemptIds;
    hide CallFirst;
    hide ObserveCall;
    AttemptCall(s, envelope, attempts, valid);
    CallFirstOpens(s, envelope, attempts, valid);
    var called := Step(s, ReportCall(envelope, Some(valid.id), valid.arguments)).reports;
    assert called.rejected == map[] <==> attempts == [] by { assert |called.rejected| == |attempts|; }
  }
}

/** When a turn hands its task-state report on, read off the turn's records alone, in
    whatever order the envelopes write them (src/adapters/base.ts). */
module ReportHistory {
  import opened Reading
  import opened TaskStateReport
  import opened Correlation
  import opened McpRuns
  import opened ReportRuns

  // ----------------------------------------------------------- what the records say

  /** A report call under an id of its own: usable, and no other Elepha call's. */
  predicate Usable(es: seq<Event>, e: Event) {
    e.ReportCall? && e.id.Some? && ShortId(e.id.value) && e.id.value !in McpIds(Run(es).mcp)
  }

  /** The report calls of the turn, in order. */
  function Calls(es: seq<Event>): seq<Event> {
    if es == [] then []
    else
      var init, last := es[..|es| - 1], es[|es| - 1];
      Calls(init) + if Usable(init, last) then [last] else []
  }

  /** Their ids. */
  function Ids(calls: seq<Event>): set<string> {
    if calls == [] then {}
    else
      var last := calls[|calls| - 1];
      Ids(calls[..|calls| - 1]) + if last.ReportCall? && last.id.Some? then {last.id.value} else {}
  }

  /** The results under an id already called. */
  function Answers(es: seq<Event>): seq<Event> {
    if es == [] then []
    else
      var init, last := es[..|es| - 1], es[|es| - 1];
      Answers(init) + if IsAnswer(last) && last.id.Some? && last.id.value in Ids(Calls(init)) then [last] else []
  }

  /** The envelopes that recorded something under `id`. */
  function Envelopes(events: seq<Event>, id: string): set<Envelope> {
    if events == [] then {}
    else
      var last := events[|events| - 1];
      Envelopes(events[..|events| - 1], id) + if (last.ReportCall? || IsAnswer(last)) && last.id == Some(id) then {last.envelope} else {}
  }

  /** The arguments the call was first recorded with. */
  function First(calls: seq<Event>, id: string): Option<Arguments> {
    if calls == [] then None
    else
      var last := calls[|calls| - 1];
      var before := First(calls[..|calls| - 1], id);
      if before.None? && last.ReportCall? && last.id == Some(id) then Some(last.arguments) else before
  }

  /** The id called last of all new ones. */
  function Newest(calls: seq<Event>): Option<string> {
    if calls == [] then None
    else
      var init, last := calls[..|calls| - 1], calls[|calls| - 1];
      if last.ReportCall? && last.id.Some? && last.id.value !in Ids(init) then last.id else Newest(init)
  }

  predicate Refuses(a: Event, arguments: Arguments) {
    && IsAnswer(a) && arguments.parsed.Incomplete?
    && Rejects(a.value, a.isError, arguments.parsed.reason, arguments.diagnostic)
  }

  /** The envelopes whose answer rejected the call, in the words its arguments call for. */
  function Refusals(calls: seq<Event>, answers: seq<Event>, id: string): set<Envelope> {
    if answers == [] then {}
    else
      var last := answers[|answers| - 1];
      Refusals(calls, answers[..|answers| - 1], id)
      + if IsAnswer(last) && last.id == Some(id) && First(calls, id).Some? && Refuses(last, First(calls, id).value)
        then {last.envelope} else {}
  }

  /** Has any report call of the turn been guarded? */
  function Guarded(es: seq<Event>): bool {
    es != [] && (Guarded(es[..|es| - 1]) || (es[|es| - 1].ReportCall? && es[|es| - 1].arguments.guard.Some?))
  }

  /** The same arguments once more: the same valid input, or the same invalid one. */
  predicate SameArguments(first: Arguments, again: Arguments) {
    match first.parsed
    case Complete(input) => again.parsed == Complete(input)
    case Incomplete(reason) =>
      again.parsed == Incomplete(reason) && first.guard.None? && first.digest.Some? && again.digest == first.digest
  }

  /** May a further id be called: none was, or the newest was invalid and every envelope
      that recorded it recorded its rejection, unguarded, and fewer than 64 ids are known. */
  predicate MayCorrect(es: seq<Event>, e: Event) {
    var calls, answers := Calls(es), Answers(es);
    Newest(calls).None? ||
    (var id := Newest(calls).value;
     && First(calls, id).Some? && First(calls, id).value.parsed.Incomplete?
     && |Envelopes(answers, id)| == |Envelopes(calls, id)| && Envelopes(calls, id) <= Refusals(calls, answers, id)
     && !Guarded(es + [e]) && |Ids(calls)| < ELEPHA_MCP_RESULTS_PER_TURN_MAX)
  }

  /** Is the record one the protocol goes on from, behind `es`? */
  predicate Proper(es: seq<Event>, e: Event) {
    var calls, answers := Calls(es), Answers(es);
    if e.ReportCall? then
      && e.id.Some? && ShortId(e.id.value)
      && (|| e.id.value in McpIds(Run(es).mcp)
          || if e.id.value in Ids(calls) then
               && e.envelope !in Envelopes(calls, e.id.value) && e.envelope !in Envelopes(answers, e.id.value)
               && First(calls, e.id.value).Some? && SameArguments(First(calls, e.id.value).value, e.arguments)
             else MayCorrect(es, e))
    else if IsAnswer(e) && e.id.Some? && e.id.value in Ids(calls) then
      && e.envelope in Envelopes(calls, e.id.value) && e.envelope !in Envelopes(answers, e.id.value)
      && First(calls, e.id.value).Some?
      && (Refuses(e, First(calls, e.id.value).value) || (Newest(calls) == e.id && Acks(e)))
    else true
  }

  /** The failure of the newest call, when it is invalid: it stands until corrected. */
  function Standing(calls: seq<Event>): Option<ReportFailure> {
    if Newest(calls).None? then None
    else
      var first := First(calls, Newest(calls).value);
      if first.Some? && first.value.parsed.Incomplete? then Some(BadInput(first.value.parsed.reason)) else None
  }

  /** What a report call under a known id fails for that does not repeat it. */
  function CallFault(calls: seq<Event>, answers: seq<Event>, e: Event, id: string): ReportFailure
    requires e.ReportCall?
  {
    if e.envelope in Envelopes(calls, id) then RepeatedCallId
    else if Newest(calls) != Some(id) then ConflictingDuplicate
    else if e.envelope in Envelopes(answers, id) then UnexpectedResult
    else if e.arguments.parsed.Incomplete? then BadInput(e.arguments.parsed.reason)
    else ConflictingDuplicate
  }

  /** What an answer to a known id fails for. */
  function AnswerFault(calls: seq<Event>, answers: seq<Event>, e: Event, id: string): ReportFailure
    requires IsAnswer(e)
  {
    if e.envelope in Envelopes(calls, id) && e.envelope in Envelopes(answers, id) then RepeatedCallId else UnexpectedResult
  }

  /** What a record that is not proper behind `es` makes the turn fail for: the invalid
      call that still stands, or else its own fault. */
  function FailureAt(es: seq<Event>, e: Event): ReportFailure {
    var calls, answers := Calls(es), Answers(es);
    if Standing(calls).Some? then Standing(calls).value
    else if e.ReportCall? then
      if e.id.None? || e.id.value == "" then NoCallId
      else if !ShortId(e.id.value) then CallIdTooLong
      else if e.id.value in Ids(calls) then CallFault(calls, answers, e, e.id.value)
      else MultipleReports
    else if IsAnswer(e) && e.id.Some? then AnswerFault(calls, answers, e, e.id.value)
    else UnexpectedResult
  }

  ghost predicate AllProper(es: seq<Event>) {
    forall k | 0 <= k < |es| :: Proper(es[..k], es[k])
  }

  /** What acknowledges a report: the fixed text, no error, plain, as a bare list of one
      text block, or as the only field of an object. */
  lemma AcknowledgedForms(value: ReportValue, isError: bool)
    ensures Acknowledges(value, isError) <==>
              && !isError
              && match value
                 case TooLongText => false
                 case NotJson(text) => text == TASK_STATE_REPORT_ACK
                 case Bare(content) => content == OneText(TASK_STATE_REPORT_ACK)
                 case Object(keys, hasContent, flag, content) =>
                   keys == 1 && hasContent && flag != Some(true) && content == OneText(TASK_STATE_REPORT_ACK)
  {
  }

  /** The value says `text`, marked as an error by the record, or in an object by its own
      mark. */
  predicate SaysError(value: ReportValue, isError: bool, text: string) {
    match value
    case TooLongText => false
    case NotJson(found) => found == text && isError
    case Bare(content) => content == OneText(text) && isError
    case Object(keys, hasContent, flag, content) =>
      hasContent && content == OneText(text) && if flag.Some? then keys == 2 && flag.value else keys == 1 && isError
  }

  /** What rejects one: one of the two texts its arguments call for. */
  lemma RejectedForms(value: ReportValue, isError: bool, reason: InputFailure, diagnostic: string)
    ensures Rejects(value, isError, reason, diagnostic) <==>
              SaysError(value, isError, ErrorText(reason)) || SaysError(value, isError, REPORT_SDK_ERROR_PREFIX + diagnostic)
  {
  }

  // ------------------------------------------------------------- what is kept of them

  function Kept(calls: seq<Event>, answers: seq<Event>, id: string): Observation
    requires First(calls, id).Some?
  {
    var first := First(calls, id).value;
    Observation(id, if first.parsed.Complete? then Some(first.parsed.input) else None,
                if first.parsed.Incomplete? then Some(first.parsed.reason) else None,
                if first.parsed.Incomplete? then first.diagnostic else "",
                if first.parsed.Incomplete? && first.guard.None? then first.digest else None,
                Envelopes(calls, id), Envelopes(answers, id), Refusals(calls, answers, id))
  }

  ghost predicate Agrees(r: Reports, calls: seq<Event>, answers: seq<Event>, guarded: bool) {
    && !r.retryBlocked && (r.guard.Some? <==> guarded)
    && (forall id | id in Ids(calls) :: First(calls, id).Some?)
    && (Newest(calls).Some? ==> Newest(calls).value in Ids(calls))
    && (if Newest(calls).None? then Ids(calls) == {} && r.current.None?
        else r.current == Some(Kept(calls, answers, Newest(calls).value)))
    && r.rejected.Keys == Ids(calls) - (if Newest(calls).Some? then {Newest(calls).value} else {})
    && (forall id | id in r.rejected :: r.rejected[id] == Kept(calls, answers, id) && r.rejected[id].inputFailure.Some?)
    && r.failure == Standing(calls)
  }

  lemma CallSnoc(calls: seq<Event>, c: Event, id: string)
    requires c.ReportCall? && c.id.Some?
    ensures Ids(calls + [c]) == Ids(calls) + {c.id.value}
    ensures Envelopes(calls + [c], id) == Envelopes(calls, id) + if c.id == Some(id) then {c.envelope} else {}
    ensures First(calls + [c], id) == if First(calls, id).None? && c.id == Some(id) then Some(c.arguments) else First(calls, id)
    ensures Newest(calls + [c]) == if c.id.value in Ids(calls) then Newest(calls) else c.id
  {
    assert (calls + [c])[..|calls|] == calls;
  }

  lemma AnswerSnoc(calls: seq<Event>, answers: seq<Event>, a: Event, id: string)
    requires IsAnswer(a)
    ensures Envelopes(answers + [a], id) == Envelopes(answers, id) + if a.id == Some(id) then {a.envelope} else {}
    ensures Refusals(calls, answers + [a], id)
         == Refusals(calls, answers, id)
            + if a.id == Some(id) && First(calls, id).Some? && Refuses(a, First(calls, id).value) then {a.envelope} else {}
  {
    assert (answers + [a])[..|answers|] == answers;
  }

  lemma {:induction false} RefusalsSame(calls: seq<Event>, more: seq<Event>, answers: seq<Event>, id: string)
    requires First(calls, id) == First(more, id)
    ensures Refusals(calls, answers, id) == Refusals(more, answers, id)
    decreases |answers|
  {
    if answers != [] {
      RefusalsSame(calls, more, answers[..|answers| - 1], id);
    }
  }

  /** Nothing answers what was not called. */
  lemma {:induction false} UncalledUnanswered(es: seq<Event>, calls: seq<Event>, id: string)
    requires id !in Ids(Calls(es))
    ensures Envelopes(Answers(es), id) == {} && Refusals(calls, Answers(es), id) == {}
    ensures Envelopes(Calls(es), id) == {} && First(Calls(es), id).None?
    decreases |es|
  {
    hide Usable;
    hide Refuses;
    if es != [] {
      var init, last := es[..|es| - 1], es[|es| - 1];
      if Usable(init, last) {
        UsableIs(init, last);
        CallSnoc(Calls(init), last, id);
      } else {
        assert Calls(init) + [] == Calls(init);
      }
      UncalledUnanswered(init, calls, id);
      if IsAnswer(last) && last.id.Some? && last.id.value in Ids(Calls(init)) {
        AnswerSnoc(calls, Answers(init), last, id);
      } else {
        assert Answers(init) + [] == Answers(init);
      }
    }
  }

  lemma UsableIs(es: seq<Event>, e: Event)
    requires Usable(es, e)
    ensures e.ReportCall? && e.id.Some? && ShortId(e.id.value)
  {
  }

  /** What one record adds. */
  lemma OneMore(es: seq<Event>, e: Event)
    ensures Calls(es + [e]) == Calls(es) + (if Usable(es, e) then [e] else [])
    ensures Answers(es + [e]) == Answers(es) + (if IsAnswer(e) && e.id.Some? && e.id.value in Ids(Calls(es)) then [e] else [])
    ensures Guarded(es + [e]) == (Guarded(es) || (e.ReportCall? && e.arguments.guard.Some?))
    ensures Run(es + [e]) == Step(Run(es), e)
  {
    assert (es + [e])[..|es|] == es;
  }

  // --------------------------------------------------------------------- one record

  ghost predicate Says(es: seq<Event>, r: Reports) {
    Agrees(r, Calls(es), Answers(es), Guarded(es))
  }

  lemma GuardNoted(r: Reports, guard: Option<Guard>)
    ensures var n := NoteGuard(r, guard); n == r.(guard := n.guard) && (n.guard.Some? <==> r.guard.Some? || guard.Some?)
  {
    if guard.Some? {
      match guard.value
      case Sentinel =>
      case ScanIncomplete =>
    }
  }

  lemma AgreesGuarded(r: Reports, calls: seq<Event>, answers: seq<Event>, guarded: bool, guard: Option<Guard>)
    requires Agrees(r, calls, answers, guarded)
    ensures Agrees(NoteGuard(r, guard), calls, answers, guarded || guard.Some?)
  {
    hide Ids;
    hide Newest;
    hide First;
    hide Kept;
    hide NoteGuard;
    GuardNoted(r, guard);
  }

  lemma SameSays(es: seq<Event>, e: Event, r: Reports)
    requires Says(es, r) && !Usable(es, e) && !(IsAnswer(e) && e.id.Some? && e.id.value in Ids(Calls(es)))
    ensures Says(es + [e], NoteGuard(r, if e.ReportCall? then e.arguments.guard else None))
  {
    hide Calls;
    hide Answers;
    hide Guarded;
    hide Ids;
    hide Usable;
    hide Agrees;
    hide NoteGuard;
    OneMore(es, e);
    assert Calls(es) + [] == Calls(es) && Answers(es) + [] == Answers(es);
    AgreesGuarded(r, Calls(es), Answers(es), Guarded(es), if e.ReportCall? then e.arguments.guard else None);
  }

  lemma KeptIs(calls: seq<Event>, answers: seq<Event>, id: string)
    requires First(calls, id).Some?
    ensures var o, first := Kept(calls, answers, id), First(calls, id).value;
            && (o.inputFailure.Some? <==> first.parsed.Incomplete?) && (o.input.Some? <==> first.parsed.Complete?)
            && o.calls == Envelopes(calls, id) && o.results == Envelopes(answers, id) && o.rejected == Refusals(calls, answers, id)
  {
  }

  lemma FirstIsKept(calls: seq<Event>, answers: seq<Event>, c: Event, id: string)
    requires c.ReportCall? && c.id == Some(id) && First(calls, id).None? && Envelopes(calls, id) == {}
    requires Envelopes(answers, id) == {} && Refusals(calls + [c], answers, id) == {}
    ensures First(calls + [c], id).Some? && Kept(calls + [c], answers, id) == FirstCall(c.envelope, id, c.arguments)
  {
    CallSnoc(calls, c, id);
  }

  lemma AgainIsKept(calls: seq<Event>, answers: seq<Event>, c: Event, id: string)
    requires c.ReportCall? && c.id.Some? && First(calls, id).Some?
    ensures First(calls + [c], id) == First(calls, id)
    ensures var o := Kept(calls, answers, id);
            Kept(calls + [c], answers, id) == if c.id == Some(id) then o.(calls := o.calls + {c.envelope}) else o
  {
    CallSnoc(calls, c, id);
    RefusalsSame(calls, calls + [c], answers, id);
    assert Envelopes(calls, id) + {} == Envelopes(calls, id);
  }

  /** The same call once more, or not. */
  lemma RepeatIs(calls: seq<Event>, answers: seq<Event>, id: string, again: Arguments)
    requires First(calls, id).Some?
    ensures var o := Kept(calls, answers, id);
            SameArguments(First(calls, id).value, again)
            <==> if again.parsed.Complete? then o.input.Some? && SameInput(o.input.value, again.parsed.input) else RepeatsInvalid(o, again)
  {
    hide SameInput;
    if First(calls, id).value.parsed.Complete? && again.parsed.Complete? {
      SameInputIsEqual(First(calls, id).value.parsed.input, again.parsed.input);
    }
  }

  // ---------------------------------------------------------------------- a report call

  ghost predicate CallFollows(calls: seq<Event>, answers: seq<Event>, c: Event, guarded: bool, proper: bool, r: Reports) {
    && (!r.retryBlocked <==> proper)
    && (proper ==> Agrees(r, calls + [c], answers, guarded))
  }

  /** The failure of a record that is not proper. */
  ghost predicate Blames(calls: seq<Event>, r: Reports, fault: ReportFailure) {
    r.retryBlocked ==> r.failure == if Standing(calls).Some? then Standing(calls) else Some(fault)
  }

  lemma StandsOn(calls: seq<Event>, c: Event, id: string)
    requires c.ReportCall? && c.id == Some(id) && id in Ids(calls)
    requires Newest(calls).Some? ==> First(calls, Newest(calls).value).Some?
    ensures Standing(calls + [c]) == Standing(calls)
  {
    hide Ids;
    hide Newest;
    hide First;
    CallSnoc(calls, c, id);
    if Newest(calls).Some? {
      CallSnoc(calls, c, Newest(calls).value);
    }
  }

  lemma StandingIs(r: Reports, calls: seq<Event>, answers: seq<Event>, guarded: bool)
    requires Agrees(r, calls, answers, guarded)
    ensures r.failure.Some? <==> r.current.Some? && r.current.value.inputFailure.Some?
    ensures Newest(calls).Some? ==> First(calls, Newest(calls).value).Some?
  {
  }

  /** A further envelope of a call already rejected. */
  lemma PriorFollows(r: Reports, calls: seq<Event>, answers: seq<Event>, c: Event, id: string, guarded: bool)
    requires Agrees(r, calls, answers, guarded) && c.ReportCall? && c.id == Some(id) && id in r.rejected
    ensures CallFollows(calls, answers, c, guarded,
                        && c.envelope !in Envelopes(calls, id) && c.envelope !in Envelopes(answers, id)
                        && First(calls, id).Some? && SameArguments(First(calls, id).value, c.arguments),
                        CallPrior(r, c.envelope, id, c.arguments))
    ensures Blames(calls, CallPrior(r, c.envelope, id, c.arguments), CallFault(calls, answers, c, id))
  {
    hide Standing;
    hide Ids;
    hide Newest;
    hide First;
    hide Envelopes;
    hide Kept;
    hide SameArguments;
    hide SameInput;
    StandingIs(r, calls, answers, guarded);
    StandsOn(calls, c, id);
    RepeatIs(calls, answers, id, c.arguments);
    KeptIs(calls, answers, id);
    CallSnoc(calls, c, id);
    forall other | other in Ids(calls)
      ensures First(calls, other).Some? && First(calls + [c], other) == First(calls, other)
      ensures Kept(calls + [c], answers, other)
           == if other == id then Kept(calls, answers, id).(calls := Kept(calls, answers, id).calls + {c.envelope})
              else Kept(calls, answers, other)
    {
      AgainIsKept(calls, answers, c, other);
    }
    assert Ids(calls + [c]) == Ids(calls);
  }

  /** A further envelope of the newest call. */
  lemma AgainFollows(r: Reports, calls: seq<Event>, answers: seq<Event>, c: Event, id: string, guarded: bool)
    requires Agrees(r, calls, answers, guarded) && c.ReportCall? && c.id == Some(id) && Newest(calls) == Some(id)
    ensures CallFollows(calls, answers, c, guarded,
                        && c.envelope !in Envelopes(calls, id) && c.envelope !in Envelopes(answers, id)
                        && First(calls, id).Some? && SameArguments(First(calls, id).value, c.arguments),
                        CallAgain(r, c.envelope, c.arguments))
    ensures Blames(calls, CallAgain(r, c.envelope, c.arguments), CallFault(calls, answers, c, id))
  {
    hide Standing;
    hide Ids;
    hide Newest;
    hide First;
    hide Envelopes;
    hide Kept;
    hide SameArguments;
    hide SameInput;
    StandingIs(r, calls, answers, guarded);
    StandsOn(calls, c, id);
    RepeatIs(calls, answers, id, c.arguments);
    KeptIs(calls, answers, id);
    CallSnoc(calls, c, id);
    forall other | other in Ids(calls)
      ensures First(calls, other).Some? && First(calls + [c], other) == First(calls, other)
      ensures Kept(calls + [c], answers, other)
           == if other == id then Kept(calls, answers, id).(calls := Kept(calls, answers, id).calls + {c.envelope})
              else Kept(calls, answers, other)
    {
      AgainIsKept(calls, answers, c, other);
    }
    assert Ids(calls + [c]) == Ids(calls);
  }

  /** The first call under an id. */
  lemma FirstFollows(r: Reports, calls: seq<Event>, answers: seq<Event>, c: Event, id: string, guarded: bool)
    requires Agrees(r, calls, answers, guarded) && c.ReportCall? && c.id == Some(id) && id !in Ids(calls)
    requires r.current.Some? ==> r.current.value.inputFailure.Some?
    requires First(calls, id).None? && Envelopes(calls, id) == {} && Envelopes(answers, id) == {}
    requires Refusals(calls + [c], answers, id) == {}
    ensures CallFollows(calls, answers, c, guarded, true, CallFirst(r, c.envelope, id, c.arguments))
  {
    hide Ids;
    hide Newest;
    hide First;
    hide Envelopes;
    hide Refusals;
    hide Kept;
    CallSnoc(calls, c, id);
    FirstIsKept(calls, answers, c, id);
    forall other | other in Ids(calls)
      ensures First(calls, other).Some? && First(calls + [c], other) == First(calls, other)
      ensures Kept(calls + [c], answers, other) == Kept(calls, answers, other)
    {
      AgainIsKept(calls, answers, c, other);
    }
    if r.current.Some? {
      KeptNewest(r, calls, answers, guarded);
    }
  }

  lemma KeptNewest(r: Reports, calls: seq<Event>, answers: seq<Event>, guarded: bool)
    requires Agrees(r, calls, answers, guarded) && r.current.Some?
    ensures Newest(calls).Some? && r.current.value.callId == Newest(calls).value && Newest(calls).value !in r.rejected
  {
  }

  lemma RejectedIs(r: Reports, calls: seq<Event>, answers: seq<Event>, guarded: bool)
    requires Agrees(r, calls, answers, guarded) && r.current.Some?
    ensures Newest(calls).Some? && First(calls, Newest(calls).value).Some?
    ensures var id := Newest(calls).value;
            Rejected(r.current.value)
            <==> && First(calls, id).value.parsed.Incomplete? && |Envelopes(answers, id)| == |Envelopes(calls, id)|
                 && Envelopes(calls, id) <= Refusals(calls, answers, id)
    ensures |r.rejected| + 1 == |Ids(calls)|
  {
    hide Envelopes;
    hide Refusals;
    var id := Newest(calls).value;
    KeptIs(calls, answers, id);
    assert r.rejected.Keys == Ids(calls) - {id} && |Ids(calls) - {id}| == |Ids(calls)| - 1;
  }

  /** A report call under a usable id. */
  lemma UnderFollows(es: seq<Event>, e: Event, r: Reports)
    requires Says(es, r) && Usable(es, e)
    ensures var t := CallUnder(NoteGuard(r, e.arguments.guard), e.envelope, e.id.value, e.arguments);
            && (!t.retryBlocked <==> Proper(es, e)) && (Proper(es, e) ==> Says(es + [e], t))
            && (t.retryBlocked ==> t.failure == Some(FailureAt(es, e)))
  {
    hide Standing;
    hide CallFault;
    hide CallPrior;
    hide CallAgain;
    hide CallFirst;
    hide NoteGuard;
    hide Rejected;
    hide SameArguments;
    hide Envelopes;
    hide Refusals;
    hide First;
    hide Newest;
    hide Ids;
    hide Calls;
    hide Answers;
    hide Kept;
    hide Guarded;
    var calls, answers, id := Calls(es), Answers(es), e.id.value;
    var n, guarded := NoteGuard(r, e.arguments.guard), Guarded(es + [e]);
    OneMore(es, e);
    assert answers + [] == answers;
    UsableIs(es, e);
    AgreesGuarded(r, calls, answers, Guarded(es), e.arguments.guard);
    assert Agrees(n, calls, answers, guarded);
    StandingIs(n, calls, answers, guarded);
    if id in n.rejected {
      PriorFollows(n, calls, answers, e, id, guarded);
    } else if id in Ids(calls) {
      AgainFollows(n, calls, answers, e, id, guarded);
      CurrentId(n, calls, answers, guarded);
    } else {
      UncalledUnanswered(es, calls + [e], id);
      if n.current.Some? {
        RejectedIs(n, calls, answers, guarded);
        CurrentId(n, calls, answers, guarded);
        CurrentInvalid(n.current.value);
      }
      if n.current.None? || n.current.value.inputFailure.Some? {
        FirstFollows(n, calls, answers, e, id, guarded);
      }
    }
  }

  lemma CurrentId(r: Reports, calls: seq<Event>, answers: seq<Event>, guarded: bool)
    requires Agrees(r, calls, answers, guarded)
    ensures r.current.Some? <==> Newest(calls).Some?
    ensures r.current.Some? ==> r.current.value.callId == Newest(calls).value
  {
  }

  lemma CurrentInvalid(o: Observation)
    ensures Rejected(o) ==> o.inputFailure.Some?
  {
  }

  // --------------------------------------------------------------------------- a result

  predicate ProperAnswer(calls: seq<Event>, answers: seq<Event>, a: Event, id: string) {
    && IsAnswer(a) && a.envelope in Envelopes(calls, id) && a.envelope !in Envelopes(answers, id) && First(calls, id).Some?
    && (Refuses(a, First(calls, id).value) || (Newest(calls) == a.id && Acks(a)))
  }

  lemma ConsumeFollows(r: Reports, calls: seq<Event>, answers: seq<Event>, a: Event, id: string, guarded: bool)
    requires Agrees(r, calls, answers, guarded) && IsAnswer(a) && a.id == Some(id) && id in Ids(calls)
    ensures ObservationOf(r, id).Some?
    ensures var t := Consume(r, a.envelope, id, a.value, a.isError);
            && (!t.retryBlocked <==> ProperAnswer(calls, answers, a, id))
            && (ProperAnswer(calls, answers, a, id) ==> Agrees(t, calls, answers + [a], guarded))
            && Blames(calls, t, AnswerFault(calls, answers, a, id))
  {
    hide Standing;
    hide Envelopes;
    hide Refusals;
    hide First;
    hide Newest;
    hide Ids;
    hide Kept;
    hide Acknowledges;
    hide Rejects;
    CurrentId(r, calls, answers, guarded);
    KeptIs(calls, answers, id);
    KeptReason(calls, answers, id);
    forall other | other in Ids(calls)
      ensures Kept(calls, answers + [a], other)
           == if other != id then Kept(calls, answers, other)
              else var o := Kept(calls, answers, id);
                   o.(results := o.results + {a.envelope},
                      rejected := if Refuses(a, First(calls, id).value) then o.rejected + {a.envelope} else o.rejected)
    {
      AnsweredIsKept(calls, answers, a, other);
    }
  }

  /** A result under the id of a report call. */
  lemma AnswerFollows(es: seq<Event>, e: Event, r: Reports)
    requires Says(es, r) && IsAnswer(e) && e.id.Some? && e.id.value in Ids(Calls(es))
    ensures ObservationOf(r, e.id.value).Some?
    ensures var t := Consume(r, e.envelope, e.id.value, e.value, e.isError);
            && (!t.retryBlocked <==> Proper(es, e)) && (Proper(es, e) ==> Says(es + [e], t))
            && (t.retryBlocked ==> t.failure == Some(FailureAt(es, e)))
  {
    hide Agrees;
    hide Consume;
    hide Calls;
    hide Answers;
    hide Ids;
    hide Guarded;
    hide Envelopes;
    hide First;
    hide Newest;
    hide ObservationOf;
    OneMore(es, e);
    assert Calls(es) + [] == Calls(es);
    ConsumeFollows(r, Calls(es), Answers(es), e, e.id.value, Guarded(es));
  }

  lemma KeptReason(calls: seq<Event>, answers: seq<Event>, id: string)
    requires First(calls, id).Some?
    ensures var o, first := Kept(calls, answers, id), First(calls, id).value;
            first.parsed.Incomplete? ==> o.inputFailure == Some(first.parsed.reason) && o.diagnostic == first.diagnostic
  {
  }

  lemma AnsweredIsKept(calls: seq<Event>, answers: seq<Event>, a: Event, id: string)
    requires IsAnswer(a) && a.id.Some? && First(calls, id).Some?
    ensures var o := Kept(calls, answers, id);
            Kept(calls, answers + [a], id)
            == if a.id != Some(id) then o
               else o.(results := o.results + {a.envelope},
                       rejected := if Refuses(a, First(calls, id).value) then o.rejected + {a.envelope} else o.rejected)
  {
    AnswerSnoc(calls, answers, a, id);
    assert Envelopes(answers, id) + {} == Envelopes(answers, id) && Refusals(calls, answers, id) + {} == Refusals(calls, answers, id);
  }

  // ------------------------------------------------------------------------ every run

  lemma StepFollows(es: seq<Event>, e: Event)
    requires Says(es, Run(es).reports)
    ensures var t := Step(Run(es), e).reports;
            && (!t.retryBlocked <==> Proper(es, e)) && (Proper(es, e) ==> Says(es + [e], t))
            && (t.retryBlocked ==> t.failure == Some(FailureAt(es, e)))
  {
    hide Standing;
    hide CallFault;
    hide AnswerFault;
    hide Agrees;
    hide Kept;
    hide Run;
    hide Says;
    hide CallUnder;
    hide Consume;
    hide NoteGuard;
    hide Register;
    hide ObserveItem;
    hide McpResult;
    hide Utf8Length;
    hide McpIds;
    hide Ids;
    hide Calls;
    var r := Run(es).reports;
    ReportIdIs(es, r, if e.DesktopItem? || e.McpCall? || e.id.None? then "" else e.id.value);
    if Usable(es, e) {
      UnderFollows(es, e, r);
    } else if IsAnswer(e) && e.id.Some? && e.id.value in Ids(Calls(es)) {
      AnswerFollows(es, e, r);
    } else {
      SameSays(es, e, r);
      NoGuardNoted(r);
      UnblockedSays(es, r);
      if e.ReportCall? {
        FailNoted(r, Calls(es), e.arguments.guard, if e.id.None? || e.id.value == "" then NoCallId else CallIdTooLong);
      }
    }
  }

  lemma FailNoted(r: Reports, calls: seq<Event>, guard: Option<Guard>, fault: ReportFailure)
    requires r.failure == Standing(calls) && !fault.BadInput?
    ensures Blames(calls, Fail(NoteGuard(r, guard), fault), fault)
  {
    hide Standing;
  }

  lemma NoGuardNoted(r: Reports)
    ensures NoteGuard(r, None) == r
  {
  }

  lemma UnblockedSays(es: seq<Event>, r: Reports)
    requires Says(es, r)
    ensures !r.retryBlocked && r.failure == Standing(Calls(es)) && forall guard: Option<Guard> :: !NoteGuard(r, guard).retryBlocked
  {
  }

  lemma ReportIdIs(es: seq<Event>, r: Reports, id: string)
    requires Says(es, r)
    ensures IsReportId(r, Some(id)) <==> id in Ids(Calls(es))
  {
    CurrentId(r, Calls(es), Answers(es), Guarded(es));
  }

  lemma NothingSaid()
    ensures Says([], NoCalls().reports)
  {
  }

  /** No failure but that of an invalid call still to be corrected stands, exactly when
      every record was proper where it stood; and what is then kept is just what the
      records say. */
  lemma {:induction false} UnblockedWhenProper(es: seq<Event>)
    ensures !Run(es).reports.retryBlocked <==> AllProper(es)
    ensures AllProper(es) ==> Says(es, Run(es).reports)
    decreases |es|
  {
    hide Step;
    hide Proper;
    hide Says;
    if es == [] {
      NothingSaid();
    } else {
      var init, e := es[..|es| - 1], es[|es| - 1];
      UnblockedWhenProper(init);
      assert forall k | 0 <= k < |init| :: init[..k] == es[..k];
      assert AllProper(es) <==> AllProper(init) && Proper(init, e);
      assert init + [e] == es;
      if AllProper(init) {
        StepFollows(init, e);
      } else {
        RunBlocks(init);
        StepBlocks(Run(init), e);
      }
    }
  }

  /** The first record that is not proper decides what the turn fails for. */
  lemma ImproperRecordFails(es: seq<Event>, k: nat)
    requires k < |es| && AllProper(es[..k]) && !Proper(es[..k], es[k])
    ensures ReportOutcome(Run(es).reports) == Failure(FailureAt(es[..k], es[k]))
  {
    hide Step;
    hide Proper;
    hide Says;
    hide FailureAt;
    var init := es[..k];
    UnblockedWhenProper(init);
    StepFollows(init, es[k]);
    assert es[..k + 1][..k] == init;
    FailuresAbsorb(es, k + 1);
  }

  /** Every envelope that recorded a call under another id recorded its rejection. */
  ghost predicate OthersRefused(calls: seq<Event>, answers: seq<Event>, id: string) {
    forall other | other in Ids(calls) && other != id :: Envelopes(calls, other) <= Refusals(calls, answers, other)
  }

  ghost predicate HasOthers(calls: seq<Event>, id: string) {
    exists other | other in Ids(calls) :: other != id
  }

  ghost predicate Earned(calls: seq<Event>, answers: seq<Event>, id: string) {
    && Newest(calls) == Some(id) && First(calls, id).Some? && First(calls, id).value.parsed.Complete?
    && Envelopes(calls, id) <= Envelopes(answers, id) && OthersRefused(calls, answers, id)
  }

  lemma OthersAre(r: Reports, calls: seq<Event>, answers: seq<Event>, guarded: bool)
    requires Agrees(r, calls, answers, guarded) && r.current.Some?
    ensures (forall id | id in r.rejected :: r.rejected[id].calls <= r.rejected[id].rejected)
            <==> OthersRefused(calls, answers, Newest(calls).value)
    ensures r.rejected != map[] <==> HasOthers(calls, Newest(calls).value)
  {
    hide Envelopes;
    hide Refusals;
    hide Ids;
    hide First;
    hide Newest;
    hide Kept;
    var newest := Newest(calls).value;
    forall other | other in Ids(calls) && other != newest
      ensures other in r.rejected
      ensures r.rejected[other].calls == Envelopes(calls, other) && r.rejected[other].rejected == Refusals(calls, answers, other)
    {
      assert other in r.rejected.Keys;
      KeptIs(calls, answers, other);
    }
    assert forall other | other in r.rejected :: other in r.rejected.Keys;
    if r.rejected != map[] {
      var other :| other in r.rejected.Keys;
    }
  }

  lemma OutcomeIs(r: Reports, calls: seq<Event>, answers: seq<Event>, guarded: bool)
    requires Agrees(r, calls, answers, guarded)
    ensures ReportOutcome(r).Reported? <==> Newest(calls).Some? && Earned(calls, answers, Newest(calls).value)
    ensures ReportOutcome(r).Reported? ==>
              var id := Newest(calls).value;
              ReportOutcome(r) == Reported(id, First(calls, id).value.parsed.input, HasOthers(calls, id))
    ensures !ReportOutcome(r).Reported? ==>
              ReportOutcome(r) == if Standing(calls).Some? then Failure(Standing(calls).value)
                                  else if Newest(calls).None? then NoReport else Failure(MissingResult)
  {
    hide Envelopes;
    hide Refusals;
    hide Ids;
    hide First;
    hide Newest;
    hide Kept;
    hide OthersRefused;
    hide HasOthers;
    CurrentId(r, calls, answers, guarded);
    if r.current.Some? {
      OthersAre(r, calls, answers, guarded);
      KeptIs(calls, answers, Newest(calls).value);
      KeptInput(calls, answers, Newest(calls).value);
    }
  }

  lemma KeptId(calls: seq<Event>, answers: seq<Event>, id: string)
    requires First(calls, id).Some?
    ensures Kept(calls, answers, id).callId == id
  {
  }

  lemma KeptInput(calls: seq<Event>, answers: seq<Event>, id: string)
    requires First(calls, id).Some?
    ensures var first := First(calls, id).value;
            Kept(calls, answers, id).input == if first.parsed.Complete? then Some(first.parsed.input) else None
  {
  }

  /** A report is handed on exactly when the turn's records were all proper, the id called
      last of all new ones was called with this valid input, every envelope that recorded
      it was answered, and every envelope that recorded another id recorded its rejection;
      it counts as a retry exactly when there is another id. */
  lemma ReportedExactly(es: seq<Event>, id: string, input: ReportInput, retried: bool)
    ensures ReportOutcome(Run(es).reports) == Reported(id, input, retried) <==>
              && AllProper(es) && Earned(Calls(es), Answers(es), id)
              && First(Calls(es), id).value.parsed.input == input && (retried <==> HasOthers(Calls(es), id))
  {
    hide Run;
    hide AllProper;
    hide Calls;
    hide Answers;
    hide First;
    hide Newest;
    hide HasOthers;
    hide OthersRefused;
    UnblockedWhenProper(es);
    RunBlocks(es);
    if AllProper(es) {
      OutcomeIs(Run(es).reports, Calls(es), Answers(es), Guarded(es));
    }
  }

  /** A turn all of whose records were proper, and that hands nothing on, fails for the
      invalid call that still stands, or for a result it misses, or never called. */
  lemma ProperWithoutReport(es: seq<Event>)
    requires AllProper(es) && !ReportOutcome(Run(es).reports).Reported?
    ensures var calls := Calls(es);
            ReportOutcome(Run(es).reports)
            == if Standing(calls).Some? then Failure(Standing(calls).value)
               else if Newest(calls).None? then NoReport else Failure(MissingResult)
  {
    hide Run;
    hide AllProper;
    hide Calls;
    hide Answers;
    hide Standing;
    hide Newest;
    UnblockedWhenProper(es);
    OutcomeIs(Run(es).reports, Calls(es), Answers(es), Guarded(es));
  }

  // -------------------------------------------------------------------------- the guard

  predicate GuardedBy(es: seq<Event>, guard: Guard) {
    exists k | 0 <= k < |es| :: es[k].ReportCall? && es[k].arguments.guard == Some(guard)
  }

  lemma GuardedSnoc(es: seq<Event>, e: Event, guard: Guard)
    ensures GuardedBy(es + [e], guard) <==> GuardedBy(es, guard) || (e.ReportCall? && e.arguments.guard == Some(guard))
  {
    var all := es + [e];
    assert all[|es|] == e;
    if k :| 0 <= k < |es| && es[k].ReportCall? && es[k].arguments.guard == Some(guard) {
      assert all[k] == es[k];
    }
  }

  /** The guard kept is the strongest any report call had, usable or not, and stays. */
  lemma {:induction false} GuardKept(es: seq<Event>)
    ensures Run(es).reports.guard
         == if GuardedBy(es, Sentinel) then Some(Sentinel) else if GuardedBy(es, ScanIncomplete) then Some(ScanIncomplete) else None
    decreases |es|
  {
    hide Step;
    hide GuardedBy;
    if es == [] {
      NoGuards();
    } else {
      var init, e := es[..|es| - 1], es[|es| - 1];
      assert es == init + [e];
      GuardKept(init);
      GuardedSnoc(init, e, Sentinel);
      GuardedSnoc(init, e, ScanIncomplete);
      StepGuards(Run(init), e);
      OneGuard(if e.ReportCall? then e.arguments.guard else None);
    }
  }

  lemma OneGuard(guard: Option<Guard>)
    ensures guard.Some? ==> guard.value == Sentinel || guard.value == ScanIncomplete
  {
  }

  lemma NoGuards()
    ensures !GuardedBy([], Sentinel) && !GuardedBy([], ScanIncomplete) && NoCalls().reports.guard.None?
  {
  }

  lemma StepGuards(s: Calls, e: Event)
    ensures Step(s, e).reports.guard == if e.ReportCall? then NoteGuard(s.reports, e.arguments.guard).guard else s.reports.guard
  {
    hide CallUnder;
    hide Consume;
    hide NoteGuard;
    hide Register;
    hide ObserveItem;
    hide McpResult;
    hide McpIds;
    hide Utf8Length;
    match e
    case ReportCall(envelope, id, arguments) =>
      if id.Some? {
        CallKeepsGuard(NoteGuard(s.reports, arguments.guard), envelope, id.value, arguments);
      }
    case ReportResult(envelope, id, value, isError) =>
      if IsReportId(s.reports, id) {
        ConsumeKeepsGuard(s.reports, envelope, id.value, value, isError);
      }
    case AnyResult(envelope, id, value, isError, _) =>
      if IsReportId(s.reports, id) {
        ConsumeKeepsGuard(s.reports, envelope, id.value, value, isError);
      }
    case _ =>
  }

  lemma CallKeepsGuard(r: Reports, envelope: Envelope, id: string, arguments: Arguments)
    ensures CallUnder(r, envelope, id, arguments).guard == r.guard
  {
    hide SameInput;
    hide RepeatsInvalid;
    hide FirstCall;
    hide Rejected;
  }

  lemma ConsumeKeepsGuard(r: Reports, envelope: Envelope, id: string, value: ReportValue, isError: bool)
    requires ObservationOf(r, id).Some?
    ensures Consume(r, envelope, id, value, isError).guard == r.guard
  {
    hide Acknowledges;
    hide Rejects;
  }
}

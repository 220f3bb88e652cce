/** The mutable state of one open turn that both call protocols write
    (`TurnBuilderState` of src/adapters/base.ts), event by event. */
module TurnBuilding {
  import opened Reading
  import opened TaskStateReport
  import opened Correlation
  import opened McpRuns
  import opened ReportRuns

  /** What a closing turn becomes: withheld by the raw guard, kept with what its
      report says, refused, or dropped as Elepha MCP content. */
  datatype Closed =
    | GuardDropped(guard: Guard)
    | KeptTurn(report: Outcome)
    | RefusedTurn(reason: CoverageFailure)
    | MissingResultTurn
    | McpDropped

  class TurnBuilder {
    var taskStateReport: Option<Observation>
    var taskStateReportFailure: Option<ReportFailure>
    var taskStateReportRetryBlocked: bool
    var taskStateReportRejectedCalls: map<string, Observation>
    var taskStateReportRawGuard: Option<Guard>
    var elephaMcpCallIds: set<string>
    var elephaMcpResultReceipts: seq<Receipt>
    var elephaMcpResultBytes: nat
    var elephaMcpUnmatchedResultIds: set<string>
    var elephaMcpUnmatchedResultBytes: nat
    var elephaMcpUnmatchedCoverageIncomplete: bool
    var elephaMcpCoverageFailure: Option<CoverageFailure>
    var desktopMcpCallIds: set<string>

    constructor ()
      ensures View() == NoCalls()
    {
      taskStateReport, taskStateReportFailure, taskStateReportRetryBlocked := None, None, false;
      taskStateReportRejectedCalls, taskStateReportRawGuard := map[], None;
      elephaMcpCallIds, elephaMcpResultReceipts, elephaMcpResultBytes := {}, [], 0;
      elephaMcpUnmatchedResultIds, elephaMcpUnmatchedResultBytes, elephaMcpUnmatchedCoverageIncomplete := {}, 0, false;
      elephaMcpCoverageFailure, desktopMcpCallIds := None, {};
    }

    function ReportView(): Reports
      reads this
    {
      Reports(taskStateReport, taskStateReportFailure, taskStateReportRetryBlocked, taskStateReportRejectedCalls,
              taskStateReportRawGuard)
    }

    function McpView(): Mcp
      reads this
    {
      Mcp(elephaMcpCallIds, elephaMcpResultReceipts, elephaMcpResultBytes,
          Unmatched(elephaMcpUnmatchedResultIds, elephaMcpUnmatchedResultBytes, elephaMcpUnmatchedCoverageIncomplete),
          elephaMcpCoverageFailure, desktopMcpCallIds)
    }

    function View(): Calls
      reads this
    {
      Calls(ReportView(), McpView())
    }

    method FailReport(reason: ReportFailure)
      modifies this`taskStateReportFailure, this`taskStateReportRetryBlocked
      ensures ReportView() == Fail(old(ReportView()), reason)
    {
      if taskStateReportFailure.None? {
        taskStateReportFailure := Some(reason);
      }
      if !reason.BadInput? {
        taskStateReportRetryBlocked := true;
      }
    }

    method CallOfRejected(envelope: Envelope, callId: string, arguments: Arguments)
      requires callId in taskStateReportRejectedCalls
      modifies this`taskStateReportFailure, this`taskStateReportRetryBlocked, this`taskStateReportRejectedCalls
      ensures ReportView() == CallPrior(old(ReportView()), envelope, callId, arguments)
    {
      hide RepeatsInvalid;
      var prior := taskStateReportRejectedCalls[callId];
      if envelope in prior.calls {
        FailReport(RepeatedCallId);
      } else if envelope in prior.results || !RepeatsInvalid(prior, arguments) {
        FailReport(ConflictingDuplicate);
      } else {
        taskStateReportRejectedCalls := taskStateReportRejectedCalls[callId := prior.(calls := prior.calls + {envelope})];
      }
    }

    method BeginReport(envelope: Envelope, callId: string, arguments: Arguments)
      modifies this`taskStateReport, this`taskStateReportFailure, this`taskStateReportRetryBlocked, this`taskStateReportRejectedCalls
      ensures ReportView() == CallFirst(old(ReportView()), envelope, callId, arguments)
    {
      hide FirstCall;
      if taskStateReport.Some? {
        var existing := taskStateReport.value;
        taskStateReportRejectedCalls := taskStateReportRejectedCalls[existing.callId := existing];
        taskStateReportFailure := None;
      }
      taskStateReport := Some(FirstCall(envelope, callId, arguments));
      if arguments.parsed.Incomplete? {
        FailReport(BadInput(arguments.parsed.reason));
      }
    }

    method JoinReport(envelope: Envelope, arguments: Arguments)
      requires taskStateReport.Some?
      modifies this`taskStateReport, this`taskStateReportFailure, this`taskStateReportRetryBlocked
      ensures ReportView() == CallAgain(old(ReportView()), envelope, arguments)
    {
      hide RepeatsInvalid;
      hide SameInput;
      var existing := taskStateReport.value;
      if envelope in existing.calls {
        FailReport(RepeatedCallId);
        return;
      }
      if envelope in existing.results {
        FailReport(UnexpectedResult);
        return;
      }
      taskStateReport := Some(existing.(calls := existing.calls + {envelope}));
      if arguments.parsed.Incomplete? {
        FailReport(BadInput(arguments.parsed.reason));
        if !RepeatsInvalid(existing, arguments) {
          FailReport(ConflictingDuplicate);
        }
        return;
      }
      if existing.input.None? || !SameInput(existing.input.value, arguments.parsed.input) {
        FailReport(ConflictingDuplicate);
      }
    }

    /** Which report call an identified call is. */
    method FileReportCall(envelope: Envelope, callId: string, arguments: Arguments)
      modifies this`taskStateReport, this`taskStateReportFailure, this`taskStateReportRetryBlocked, this`taskStateReportRejectedCalls
      ensures ReportView() == CallUnder(old(ReportView()), envelope, callId, arguments)
    {
      hide CallPrior;
      hide CallFirst;
      hide CallAgain;
      hide Rejected;
      if callId in taskStateReportRejectedCalls {
        CallOfRejected(envelope, callId, arguments);
        return;
      }
      if taskStateReport.None? {
        BeginReport(envelope, callId, arguments);
        return;
      }
      var existing := taskStateReport.value;
      if existing.callId == callId {
        JoinReport(envelope, arguments);
      } else if !(Rejected(existing) && !taskStateReportRetryBlocked && taskStateReportRawGuard.None?)
                || |taskStateReportRejectedCalls| + 1 >= ELEPHA_MCP_RESULTS_PER_TURN_MAX {
        FailReport(MultipleReports);
      } else {
        BeginReport(envelope, callId, arguments);
      }
    }

    method ObserveTaskStateReportCall(envelope: Envelope, id: Option<string>, arguments: Arguments)
      modifies this
      ensures View() == ObserveCall(old(View()), envelope, id, arguments)
    {
      hide CallUnder;
      if arguments.guard == Some(Sentinel) || (arguments.guard == Some(ScanIncomplete) && taskStateReportRawGuard.None?) {
        taskStateReportRawGuard := arguments.guard;
      }
      if id.None? || id.value == "" {
        FailReport(NoCallId);
      } else if Utf8Length(id.value) > ELEPHA_MCP_CALL_ID_MAX_BYTES {
        FailReport(CallIdTooLong);
      } else if id.value in elephaMcpCallIds || id.value in ReceiptIds(elephaMcpResultReceipts) {
        elephaMcpCoverageFailure := Some(DuplicateCallId);
      } else {
        FileReportCall(envelope, id.value, arguments);
      }
    }

    /** A result of a report call; `mine` when it is one. */
    method ConsumeTaskStateReportResult(envelope: Envelope, id: Option<string>, value: ReportValue, isError: bool)
      returns (mine: bool)
      modifies this`taskStateReport, this`taskStateReportFailure, this`taskStateReportRetryBlocked, this`taskStateReportRejectedCalls
      ensures mine == IsReportId(old(ReportView()), id)
      ensures ReportView() == if mine then Consume(old(ReportView()), envelope, id.value, value, isError) else old(ReportView())
    {
      hide Rejects;
      hide Acknowledges;
      if id.None? {
        return false;
      }
      var prior := id.value in taskStateReportRejectedCalls;
      if !prior && !(taskStateReport.Some? && taskStateReport.value.callId == id.value) {
        return false;
      }
      mine := true;
      var o := if prior then taskStateReportRejectedCalls[id.value] else taskStateReport.value;
      if envelope !in o.calls {
        FailReport(UnexpectedResult);
        return;
      }
      if envelope in o.results {
        FailReport(RepeatedCallId);
        return;
      }
      var rejects := o.inputFailure.Some? && Rejects(value, isError, o.inputFailure.value, o.diagnostic);
      var answered := o.(results := o.results + {envelope}, rejected := if rejects then o.rejected + {envelope} else o.rejected);
      if prior {
        taskStateReportRejectedCalls := taskStateReportRejectedCalls[id.value := answered];
      } else {
        taskStateReport := Some(answered);
      }
      if !rejects && (prior || !Acknowledges(value, isError)) {
        FailReport(UnexpectedResult);
      }
    }

    method RememberUnmatchedElephaMcpResult(callId: string)
      modifies this`elephaMcpUnmatchedResultIds, this`elephaMcpUnmatchedResultBytes, this`elephaMcpUnmatchedCoverageIncomplete
      ensures McpView() == old(McpView()).(unmatched := Remember(old(McpView()).unmatched, callId))
    {
      if callId in elephaMcpUnmatchedResultIds {
        return;
      }
      var bytes := Utf8Length(callId);
      if || |elephaMcpUnmatchedResultIds| >= ELEPHA_MCP_UNMATCHED_RESULT_IDS_MAX
         || elephaMcpUnmatchedResultBytes + bytes > ELEPHA_MCP_UNMATCHED_RESULT_ID_BYTES_MAX {
        elephaMcpUnmatchedCoverageIncomplete := true;
        return;
      }
      elephaMcpUnmatchedResultIds := elephaMcpUnmatchedResultIds + {callId};
      elephaMcpUnmatchedResultBytes := elephaMcpUnmatchedResultBytes + bytes;
    }

    method RegisterElephaMcpCall(id: Option<string>) returns (registered: bool)
      modifies this`elephaMcpCallIds, this`elephaMcpCoverageFailure
      ensures (McpView(), registered) == Register(old(McpView()), ReportIds(ReportView()), id)
      ensures registered ==> id.Some?
    {
      registered := false;
      if id.None? || id.value == "" {
        elephaMcpCoverageFailure := Some(MissingCallId);
        return;
      }
      if Utf8Length(id.value) > ELEPHA_MCP_CALL_ID_MAX_BYTES {
        elephaMcpCoverageFailure := Some(OversizedCallId);
        return;
      }
      if id.value in elephaMcpCallIds || id.value in ReceiptIds(elephaMcpResultReceipts) || id.value in ReportIds(ReportView()) {
        elephaMcpCoverageFailure := Some(DuplicateCallId);
        return;
      }
      if id.value in elephaMcpUnmatchedResultIds {
        elephaMcpCoverageFailure := Some(OutOfOrderResult);
      } else if elephaMcpUnmatchedCoverageIncomplete {
        elephaMcpCoverageFailure := Some(IncompleteCorrelation);
      }
      if |elephaMcpCallIds| + |elephaMcpResultReceipts| >= ELEPHA_MCP_RESULTS_PER_TURN_MAX {
        elephaMcpCoverageFailure := Some(OversizedCallSet);
        return;
      }
      elephaMcpCallIds := elephaMcpCallIds + {id.value};
      registered := true;
    }

    method RecordElephaMcpResult(id: Option<string>, value: McpValue)
      modifies this
      ensures View() == old(View()).(mcp := Record(old(McpView()), id, value))
    {
      hide Bounded;
      hide Remember;
      if id.None? {
        return;
      }
      if Utf8Length(id.value) > ELEPHA_MCP_CALL_ID_MAX_BYTES {
        if id.value in elephaMcpCallIds {
          elephaMcpCoverageFailure := Some(OversizedCallId);
        }
        return;
      }
      if id.value in ReceiptIds(elephaMcpResultReceipts) {
        elephaMcpCoverageFailure := Some(DuplicateCallId);
        return;
      }
      if id.value !in elephaMcpCallIds {
        RememberUnmatchedElephaMcpResult(id.value);
        return;
      }
      var result := BoundedMcpResult(value);
      if result.Unbounded? {
        elephaMcpCoverageFailure := Some(result.reason);
        return;
      }
      elephaMcpCallIds := elephaMcpCallIds - {id.value};
      if || |elephaMcpResultReceipts| >= ELEPHA_MCP_RESULTS_PER_TURN_MAX
         || elephaMcpResultBytes + result.bytes > ELEPHA_MCP_RESULTS_PER_TURN_MAX_BYTES {
        elephaMcpCoverageFailure := Some(OversizedResult);
        return;
      }
      elephaMcpResultBytes := elephaMcpResultBytes + result.bytes;
      elephaMcpResultReceipts := elephaMcpResultReceipts + [Receipt(id.value, result.body)];
    }

    method CompareWithReceipt(callId: string, value: McpValue) returns (same: bool)
      modifies this`elephaMcpCoverageFailure
      ensures McpView() == Compare(old(McpView()), callId, value) && same == RepeatsReceipt(old(McpView()), callId, value)
    {
      hide Bounded;
      hide ReceiptBody;
      var duplicate := BoundedMcpResult(value);
      same := duplicate.Body? && ReceiptBody(elephaMcpResultReceipts, callId) == Some(duplicate.body);
      if !same {
        elephaMcpCoverageFailure := Some(if duplicate.Unbounded? then duplicate.reason else DuplicateCallId);
      }
    }

    method ObserveDesktopItem(id: Option<string>, value: McpValue)
      modifies this
      ensures View() == old(View()).(mcp := ObserveItem(old(McpView()), ReportIds(old(ReportView())), id, value))
    {
      hide Record;
      hide Register;
      hide RepeatsReceipt;
      hide Compare;
      if id.Some? && id.value in desktopMcpCallIds {
        elephaMcpCoverageFailure := Some(DuplicateCallId);
      } else if id.Some? && id.value in ReceiptIds(elephaMcpResultReceipts) {
        var same := CompareWithReceipt(id.value, value);
        if same {
          assert McpView() == old(McpView()) by { SameCompare(old(McpView()), id.value, value); }
          desktopMcpCallIds := desktopMcpCallIds + {id.value};
        }
      } else if id.Some? && id.value in elephaMcpCallIds {
        desktopMcpCallIds := desktopMcpCallIds + {id.value};
        RecordElephaMcpResult(id, value);
      } else {
        var registered := RegisterElephaMcpCall(id);
        if registered {
          desktopMcpCallIds := desktopMcpCallIds + {id.value};
          RecordElephaMcpResult(id, value);
        }
      }
    }

    /** One record of the turn. */
    method Observe(e: Event)
      modifies this
      ensures View() == Step(old(View()), e)
    {
      hide ObserveCall;
      hide Consume;
      hide Record;
      hide Register;
      hide ObserveItem;
      hide Compare;
      match e {
        case ReportCall(envelope, id, arguments) => ObserveTaskStateReportCall(envelope, id, arguments);
        case ReportResult(envelope, id, value, isError) =>
          var _ := ConsumeTaskStateReportResult(envelope, id, value, isError);
        case AnyResult(envelope, id, value, isError, mcp) =>
          var mine := ConsumeTaskStateReportResult(envelope, id, value, isError);
          if !mine {
            if id.Some? && id.value in desktopMcpCallIds {
              var _ := CompareWithReceipt(id.value, mcp);
            } else {
              RecordElephaMcpResult(id, mcp);
            }
          }
        case McpCall(id) =>
          if id.None? || id.value !in desktopMcpCallIds {
            var _ := RegisterElephaMcpCall(id);
          }
        case DesktopItem(id, mcp) => ObserveDesktopItem(id, mcp);
      }
    }

    /** Every record of the turn, in order. */
    method ObserveAll(es: seq<Event>)
      requires View() == NoCalls()
      modifies this
      ensures View() == Run(es)
    {
      hide Step;
      var k := 0;
      while k < |es|
        invariant k <= |es| && View() == Run(es[..k])
      {
        Observe(es[k]);
        RunOneMore(es, k);
        k := k + 1;
      }
      assert es[..k] == es;
    }

    /** `taskStateReportOutcome`. */
    method Outcome() returns (outcome: Outcome)
      ensures outcome == ReportOutcome(ReportView())
    {
      if taskStateReportFailure.Some? {
        return Failure(taskStateReportFailure.value);
      }
      var left := taskStateReportRejectedCalls.Keys;
      while left != {}
        invariant left <= taskStateReportRejectedCalls.Keys
        invariant forall id | id in taskStateReportRejectedCalls.Keys - left ::
                    taskStateReportRejectedCalls[id].calls <= taskStateReportRejectedCalls[id].rejected
        decreases left
      {
        var id :| id in left;
        if !(taskStateReportRejectedCalls[id].calls <= taskStateReportRejectedCalls[id].rejected) {
          return Failure(MissingResult);
        }
        left := left - {id};
      }
      if taskStateReport.None? {
        return NoReport;
      }
      var observation := taskStateReport.value;
      if observation.input.None? {
        return Failure(BadInput(MalformedInput));
      }
      if !(observation.calls <= observation.results) {
        return Failure(MissingResult);
      }
      outcome := Reported(observation.callId, observation.input.value, |taskStateReportRejectedCalls| > 0);
    }

    /** What the closing turn becomes, the order of its refusals included. */
    method Close() returns (closed: Closed)
      ensures closed == CloseOf(View())
    {
      hide ReportOutcome;
      if taskStateReportRawGuard.Some? {
        return GuardDropped(taskStateReportRawGuard.value);
      }
      if |elephaMcpCallIds| == 0 && |elephaMcpResultReceipts| == 0 && elephaMcpCoverageFailure.None? {
        var outcome := Outcome();
        return KeptTurn(outcome);
      }
      if elephaMcpCoverageFailure.Some? {
        return RefusedTurn(elephaMcpCoverageFailure.value);
      }
      if |elephaMcpCallIds| > 0 {
        return MissingResultTurn;
      }
      if |elephaMcpResultReceipts| > ELEPHA_MCP_RESULTS_PER_TURN_MAX
         || elephaMcpResultBytes > ELEPHA_MCP_RESULTS_PER_TURN_MAX_BYTES {
        return RefusedTurn(OversizedResult);
      }
      closed := McpDropped;
    }
  }

  lemma SameCompare(m: Mcp, id: string, value: McpValue)
    ensures RepeatsReceipt(m, id, value) ==> Compare(m, id, value) == m
  {
  }

  function CloseOf(s: Calls): Closed {
    if s.reports.guard.Some? then GuardDropped(s.reports.guard.value)
    else if s.mcp.pending == {} && s.mcp.receipts == [] && s.mcp.coverage.None? then KeptTurn(ReportOutcome(s.reports))
    else if s.mcp.coverage.Some? then RefusedTurn(s.mcp.coverage.value)
    else if s.mcp.pending != {} then MissingResultTurn
    else if |s.mcp.receipts| > ELEPHA_MCP_RESULTS_PER_TURN_MAX || s.mcp.receiptBytes > ELEPHA_MCP_RESULTS_PER_TURN_MAX_BYTES
    then RefusedTurn(OversizedResult)
    else McpDropped
  }

  /** A turn is refused at its close only for a failure met on the way: the bounds
      checked again there never fire. */
  lemma CloseBoundsNeverFire(es: seq<Event>)
    ensures CloseOf(Run(es)).RefusedTurn? ==> Run(es).mcp.coverage == Some(CloseOf(Run(es)).reason)
  {
    hide Run;
    hide Tracked;
    RunKept(es);
  }

  /** A turn kept with a report holds no other Elepha call: a report earned by the
      transcript, and no result of another Elepha tool beside it. */
  lemma KeptReportIsEarned(es: seq<Event>)
    requires CloseOf(Run(es)).KeptTurn? && CloseOf(Run(es)).report.Reported?
    ensures McpIds(Run(es).mcp) == {}
    ensures forall e: Envelope, id: string :: Count(ReportCalls(es), e, id) == Count(Answers(es), e, id) <= 1
    ensures var reported := CloseOf(Run(es)).report;
            forall c | c in ReportCalls(es) :: c.ReportCall? && c.id.Some? &&
              if c.id.value == reported.callId then c.arguments.parsed == Complete(reported.input)
              else c.arguments.parsed.Incomplete?
  {
    hide Run;
    hide Count;
    var reported := CloseOf(Run(es)).report;
    ReportIsEarned(es, reported.callId, reported.input, reported.retried);
  }
}

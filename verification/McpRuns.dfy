/** What the Elepha MCP correlation keeps over every run of events in a turn. */
module McpRuns {
  import opened Reading
  import opened TaskStateReport
  import opened Correlation

  function TotalBytes(receipts: seq<Receipt>): nat {
    if receipts == [] then 0
    else TotalBytes(receipts[..|receipts| - 1]) + Utf8Length(receipts[|receipts| - 1].body)
  }

  predicate ShortId(id: string) { id != "" && Utf8Length(id) <= ELEPHA_MCP_CALL_ID_MAX_BYTES }

  ghost predicate AllShort(ids: set<string>) { forall id | id in ids :: ShortId(id) }

  ghost predicate Distinct(receipts: seq<Receipt>) {
    forall i, j | 0 <= i < j < |receipts| :: receipts[i].callId != receipts[j].callId
  }

  /** Results without a call: the bound on their number is reached before the one
      on their bytes, and only reaching it gives up on tracking them. */
  ghost predicate Tracked(u: Unmatched) {
    && u.bytes <= |u.ids| * ELEPHA_MCP_CALL_ID_MAX_BYTES && |u.ids| <= ELEPHA_MCP_UNMATCHED_RESULT_IDS_MAX
    && (u.incomplete ==> |u.ids| == ELEPHA_MCP_UNMATCHED_RESULT_IDS_MAX)
  }

  /** Registered calls: each id once, either waiting or settled, within the bounds. */
  ghost predicate Sound(m: Mcp) {
    && Distinct(m.receipts) && m.pending !! ReceiptIds(m.receipts) && AllShort(McpIds(m))
    && |m.pending| + |m.receipts| <= ELEPHA_MCP_RESULTS_PER_TURN_MAX
    && m.receiptBytes == TotalBytes(m.receipts) <= ELEPHA_MCP_RESULTS_PER_TURN_MAX_BYTES
    && Tracked(m.unmatched)
  }

  /** Report calls: each filed under its own id. */
  ghost predicate Filed(r: Reports) {
    && (r.current.Some? ==> r.current.value.callId !in r.rejected)
    && (forall id | id in r.rejected :: r.rejected[id].callId == id)
    && AllShort(ReportIds(r))
  }

  /** Every id belongs to one call at most, and every bound holds. */
  ghost predicate Matched(s: Calls) {
    Sound(s.mcp) && Filed(s.reports) && McpIds(s.mcp) !! ReportIds(s.reports)
  }

  // ---------------------------------------------------------------- report events

  /** A report call adds its own id to the report's, or none. */
  ghost predicate Adds(r: Reports, t: Reports, id: string) {
    Filed(t) && ReportIds(r) <= ReportIds(t) <= ReportIds(r) + {id}
  }

  lemma FailAdds(r: Reports, reason: ReportFailure, id: string)
    requires Filed(r)
    ensures Adds(r, Fail(r, reason), id)
  {
    hide AllShort;
    assert ReportIds(Fail(r, reason)) == ReportIds(r);
  }

  lemma CallPriorAdds(r: Reports, envelope: Envelope, id: string, arguments: Arguments)
    requires Filed(r) && id in r.rejected
    ensures Adds(r, CallPrior(r, envelope, id, arguments), id)
  {
    hide AllShort;
    hide RepeatsInvalid;
    assert ReportIds(CallPrior(r, envelope, id, arguments)) == ReportIds(r);
  }

  lemma CallFirstAdds(r: Reports, envelope: Envelope, id: string, arguments: Arguments)
    requires Filed(r) && ShortId(id) && id !in ReportIds(r)
    ensures Adds(r, CallFirst(r, envelope, id, arguments), id)
  {
    hide ShortId;
    var t := CallFirst(r, envelope, id, arguments);
    assert FirstCall(envelope, id, arguments).callId == id;
    assert ReportIds(t) == ReportIds(r) + {id};
  }

  lemma CallAgainAdds(r: Reports, envelope: Envelope, id: string, arguments: Arguments)
    requires Filed(r) && r.current.Some? && r.current.value.callId == id
    ensures Adds(r, CallAgain(r, envelope, arguments), id)
  {
    hide AllShort;
    hide SameInput;
    hide RepeatsInvalid;
    assert ReportIds(CallAgain(r, envelope, arguments)) == ReportIds(r);
  }

  lemma CallUnderAdds(r: Reports, envelope: Envelope, id: string, arguments: Arguments)
    requires Filed(r) && ShortId(id)
    ensures Adds(r, CallUnder(r, envelope, id, arguments), id)
  {
    hide CallPrior;
    hide CallFirst;
    hide CallAgain;
    hide AllShort;
    hide Rejected;
    hide Adds;
    if id in r.rejected {
      CallPriorAdds(r, envelope, id, arguments);
    } else if r.current.None? {
      CallFirstAdds(r, envelope, id, arguments);
    } else if r.current.value.callId == id {
      CallAgainAdds(r, envelope, id, arguments);
    } else {
      FailAdds(r, MultipleReports, id);
      CallFirstAdds(r, envelope, id, arguments);
    }
  }

  lemma ObserveCallMatched(s: Calls, envelope: Envelope, id: Option<string>, arguments: Arguments)
    requires Matched(s)
    ensures var t := ObserveCall(s, envelope, id, arguments);
            && Matched(t) && ReportIds(s.reports) <= ReportIds(t.reports)
            && t.mcp == s.mcp.(coverage := t.mcp.coverage)
            && t.mcp.coverage == if id.Some? && ShortId(id.value) && id.value in McpIds(s.mcp) then Some(DuplicateCallId)
                                 else s.mcp.coverage
  {
    hide CallUnder;
    hide Utf8Length;
    hide Sound;
    hide McpIds;
    var n, t := NoteGuard(s.reports, arguments.guard), ObserveCall(s, envelope, id, arguments);
    GuardAdds(s.reports, arguments.guard);
    SameSound(s.mcp, t.mcp);
    if id.Some? && ShortId(id.value) && id.value !in McpIds(s.mcp) {
      CallUnderAdds(n, envelope, id.value, arguments);
    } else {
      FailAdds(n, NoCallId, "");
      FailAdds(n, CallIdTooLong, "");
    }
  }

  lemma GuardAdds(r: Reports, guard: Option<Guard>)
    ensures var t := NoteGuard(r, guard); ReportIds(t) == ReportIds(r) && Filed(t) == Filed(r)
  {
    hide AllShort;
    assert ReportIds(NoteGuard(r, guard)) == ReportIds(r);
  }

  lemma SameSound(m: Mcp, n: Mcp)
    requires n == m.(coverage := n.coverage, desktop := n.desktop)
    ensures Sound(m) == Sound(n) && McpIds(m) == McpIds(n)
  {
  }

  lemma IsReportIdIs(r: Reports, id: Option<string>)
    ensures IsReportId(r, id) <==> id.Some? && id.value in ReportIds(r)
  {
  }

  lemma ConsumeFiles(r: Reports, envelope: Envelope, id: string, value: ReportValue, isError: bool)
    requires Filed(r) && ObservationOf(r, id).Some?
    ensures var t := Consume(r, envelope, id, value, isError); Filed(t) && ReportIds(t) == ReportIds(r)
  {
    hide Acknowledges;
    hide Rejects;
    hide ShortId;
    var t := Consume(r, envelope, id, value, isError);
    assert ReportIds(t) == ReportIds(r);
  }

  // ------------------------------------------------------------------- MCP events

  /** A call registers exactly its own id, or fails coverage. */
  ghost predicate Registered(m: Mcp, n: Mcp, reportIds: set<string>, id: Option<string>, ok: bool) {
    && Sound(n) && n == m.(pending := n.pending, coverage := n.coverage) && (m.coverage.Some? ==> n.coverage.Some?)
    && (ok ==> id.Some? && McpIds(n) == McpIds(m) + {id.value} && id.value in n.pending
               && id.value !in McpIds(m) && id.value !in reportIds && ShortId(id.value))
    && (!ok ==> n.pending == m.pending && n.coverage.Some?)
    && (n.coverage.None? ==> id.value !in m.unmatched.ids && !m.unmatched.incomplete)
  }

  lemma PendingSound(m: Mcp, id: string)
    requires Sound(m) && ShortId(id) && id !in McpIds(m) && |m.pending| + |m.receipts| < ELEPHA_MCP_RESULTS_PER_TURN_MAX
    ensures var n := m.(pending := m.pending + {id}); Sound(n) && McpIds(n) == McpIds(m) + {id}
  {
    hide Utf8Length;
    hide TotalBytes;
    hide Tracked;
    hide Distinct;
    hide ReceiptIds;
    var n := m.(pending := m.pending + {id});
    assert McpIds(n) == McpIds(m) + {id};
    assert |n.pending| == |m.pending| + 1;
  }

  lemma RegisterSound(m: Mcp, reportIds: set<string>, id: Option<string>)
    requires Sound(m)
    ensures var (n, ok) := Register(m, reportIds, id); Registered(m, n, reportIds, id, ok)
  {
    hide Utf8Length;
    hide Sound;
    hide McpIds;
    var (n, ok) := Register(m, reportIds, id);
    if ok {
      PendingSound(m, id.value);
      SameSound(m.(pending := m.pending + {id.value}), n);
    } else {
      SameSound(m, n);
    }
  }

  lemma ReceiptsSnoc(receipts: seq<Receipt>, r: Receipt)
    ensures ReceiptIds(receipts + [r]) == ReceiptIds(receipts) + {r.callId}
    ensures TotalBytes(receipts + [r]) == TotalBytes(receipts) + Utf8Length(r.body)
    ensures Distinct(receipts) && r.callId !in ReceiptIds(receipts) ==> Distinct(receipts + [r])
  {
    var more := receipts + [r];
    assert more[..|more| - 1] == receipts;
    forall id | id in ReceiptIds(receipts) ensures id in ReceiptIds(more) {
      var k :| 0 <= k < |receipts| && receipts[k].callId == id;
      assert more[k].callId == id;
    }
    assert more[|receipts|].callId == r.callId;
  }

  lemma BoundedBytes(value: McpValue)
    ensures Bounded(value).Body? ==> Bounded(value).bytes == Utf8Length(Bounded(value).body) <= ELEPHA_MCP_RESULT_MAX_BYTES
  {
    hide Join;
  }

  /** A result settles the call that waits for it, is remembered, or fails coverage. */
  ghost predicate Recorded(m: Mcp, n: Mcp, id: Option<string>) {
    && Sound(n) && n.desktop == m.desktop && McpIds(n) <= McpIds(m) && (m.coverage.Some? ==> n.coverage.Some?)
    && m.unmatched.ids <= n.unmatched.ids <= m.unmatched.ids + (if id.Some? then {id.value} else {})
    && (m.unmatched.incomplete ==> n.unmatched.incomplete)
    && (n.coverage.None? ==> McpIds(n) == McpIds(m))
    && (n.coverage.None? && id.Some? && Utf8Length(id.value) <= ELEPHA_MCP_CALL_ID_MAX_BYTES ==>
          id.value in McpIds(n) || id.value in n.unmatched.ids || n.unmatched.incomplete)
  }

  lemma TakenSound(m: Mcp, id: string)
    requires Sound(m) && id in m.pending
    ensures var n := m.(pending := m.pending - {id});
            && Sound(n) && McpIds(n) == McpIds(m) - {id} && |n.pending| + |n.receipts| < ELEPHA_MCP_RESULTS_PER_TURN_MAX
  {
    hide Utf8Length;
    hide TotalBytes;
    hide Tracked;
    hide Distinct;
    hide ReceiptIds;
    var n := m.(pending := m.pending - {id});
    assert |n.pending| == |m.pending| - 1;
    assert McpIds(n) == McpIds(m) - {id};
  }

  lemma FiledSound(m: Mcp, r: Receipt)
    requires Sound(m) && ShortId(r.callId) && r.callId !in McpIds(m)
    requires |m.pending| + |m.receipts| < ELEPHA_MCP_RESULTS_PER_TURN_MAX
    requires m.receiptBytes + Utf8Length(r.body) <= ELEPHA_MCP_RESULTS_PER_TURN_MAX_BYTES
    ensures var n := m.(receipts := m.receipts + [r], receiptBytes := m.receiptBytes + Utf8Length(r.body));
            Sound(n) && McpIds(n) == McpIds(m) + {r.callId}
  {
    hide Utf8Length;
    hide TotalBytes;
    hide Tracked;
    hide Distinct;
    hide ReceiptIds;
    ReceiptsSnoc(m.receipts, r);
  }

  lemma SettleSound(m: Mcp, id: string, value: McpValue)
    requires Sound(m) && id in m.pending
    ensures Recorded(m, Settle(m, id, value), Some(id))
  {
    hide Utf8Length;
    hide Bounded;
    hide Sound;
    hide McpIds;
    var n, taken := Settle(m, id, value), m.(pending := m.pending - {id});
    PendingId(m, id);
    TakenSound(m, id);
    if Bounded(value).Unbounded? {
      SameSound(m, n);
    } else {
      BoundedBytes(value);
      SameSound(taken, Uncover(taken, OversizedResult));
      if n.receipts != m.receipts {
        FiledSound(taken, Receipt(id, Bounded(value).body));
      }
    }
  }

  lemma PendingId(m: Mcp, id: string)
    requires Sound(m) && id in m.pending
    ensures ShortId(id) && id in McpIds(m)
  {
  }

  /** Settling never meets the bound on the number of receipts. */
  lemma ReceiptCountNeverBinds(m: Mcp, id: string)
    requires Sound(m) && id in m.pending
    ensures |m.receipts| < ELEPHA_MCP_RESULTS_PER_TURN_MAX
  {
    hide Tracked;
    assert m.pending != {};
  }

  lemma RememberTracks(u: Unmatched, id: string)
    requires Tracked(u) && Utf8Length(id) <= ELEPHA_MCP_CALL_ID_MAX_BYTES
    ensures var v := Remember(u, id);
            && Tracked(v) && u.ids <= v.ids <= u.ids + {id} && (id in v.ids || v.incomplete) && (u.incomplete ==> v.incomplete)
            && (v.incomplete ==> u.incomplete || (|u.ids| == ELEPHA_MCP_UNMATCHED_RESULT_IDS_MAX && id !in u.ids))
  {
    hide Utf8Length;
    if id !in u.ids {
      assert |u.ids + {id}| == |u.ids| + 1;
    }
  }

  lemma RecordSound(m: Mcp, id: Option<string>, value: McpValue)
    requires Sound(m)
    ensures Recorded(m, Record(m, id, value), id)
  {
    hide Utf8Length;
    hide Bounded;
    hide Settle;
    hide Remember;
    hide TotalBytes;
    hide Distinct;
    hide Tracked;
    hide ReceiptIds;
    var n := Record(m, id, value);
    if id.Some? && id.value in m.pending && id.value !in ReceiptIds(m.receipts) {
      SettleSound(m, id.value, value);
    } else {
      if id.Some? && Utf8Length(id.value) <= ELEPHA_MCP_CALL_ID_MAX_BYTES {
        RememberTracks(m.unmatched, id.value);
      }
      assert McpIds(n) == McpIds(m);
    }
  }

  /** What a Desktop item may change: it registers its id and settles it at once. */
  ghost predicate Itemized(m: Mcp, n: Mcp, reportIds: set<string>, id: Option<string>) {
    && Sound(n) && (m.coverage.Some? ==> n.coverage.Some?) && McpIds(n) <= McpIds(m) + (if id.Some? then {id.value} else {})
    && McpIds(n) !! reportIds
    && m.unmatched.ids <= n.unmatched.ids <= m.unmatched.ids + (if id.Some? then {id.value} else {})
    && (m.unmatched.incomplete ==> n.unmatched.incomplete)
    && (n.coverage.None? ==>
          && id.Some? && McpIds(n) == McpIds(m) + {id.value} && n.desktop == m.desktop + {id.value}
          && (id.value !in McpIds(m) ==> id.value !in m.unmatched.ids && !m.unmatched.incomplete))
  }

  lemma ItemSound(m: Mcp, reportIds: set<string>, id: Option<string>, value: McpValue)
    requires Sound(m) && McpIds(m) !! reportIds
    ensures Itemized(m, ObserveItem(m, reportIds, id, value), reportIds, id)
  {
    hide Sound;
    hide Record;
    hide Register;
    hide RepeatsReceipt;
    hide ReceiptIds;
    var n := ObserveItem(m, reportIds, id, value);
    if id.None? || (id.value !in m.desktop && id.value !in McpIds(m)) {
      RegisterSound(m, reportIds, id);
      var (registered, ok) := Register(m, reportIds, id);
      if ok {
        SameSound(registered, Claim(registered, id.value));
        RecordSound(Claim(registered, id.value), id, value);
      }
    } else if id.value in m.pending && id.value !in m.desktop && id.value !in ReceiptIds(m.receipts) {
      SameSound(m, Claim(m, id.value));
      RecordSound(Claim(m, id.value), id, value);
    } else {
      SameSound(m, n);
    }
  }

  // ------------------------------------------------------------------------ a run

  function HeardId(e: Event): Option<string> {
    match e
    case AnyResult(_, id, _, _, _) => id
    case DesktopItem(id, _) => id
    case _ => None
  }

  /** Ids of every result recorded so far, a report item's own excepted. */
  function Heard(es: seq<Event>): set<string> {
    if es == [] then {}
    else
      var id := HeardId(es[|es| - 1]);
      Heard(es[..|es| - 1]) + (if id.Some? then {id.value} else {})
  }

  /** A result heard is accounted for. */
  ghost predicate Accounted(s: Calls, id: string) {
    || Utf8Length(id) > ELEPHA_MCP_CALL_ID_MAX_BYTES || id in McpIds(s.mcp) || id in ReportIds(s.reports)
    || id in s.mcp.unmatched.ids || s.mcp.unmatched.incomplete
  }

  /** What one event may change. */
  ghost predicate Stepped(s: Calls, t: Calls, heard: Option<string>) {
    && Matched(t) && (s.mcp.coverage.Some? ==> t.mcp.coverage.Some?) && ReportIds(s.reports) <= ReportIds(t.reports)
    && s.mcp.unmatched.ids <= t.mcp.unmatched.ids <= s.mcp.unmatched.ids + (if heard.Some? then {heard.value} else {})
    && (s.mcp.unmatched.incomplete ==> t.mcp.unmatched.incomplete)
    && (t.mcp.coverage.None? ==>
          && McpIds(s.mcp) <= McpIds(t.mcp) && (s.mcp.desktop <= McpIds(s.mcp) ==> t.mcp.desktop <= McpIds(t.mcp))
          && (forall id | id in McpIds(t.mcp) && id !in McpIds(s.mcp) ::
                ShortId(id) && id !in ReportIds(s.reports) && id !in s.mcp.unmatched.ids && !s.mcp.unmatched.incomplete)
          && (heard.Some? ==> Accounted(t, heard.value)))
  }

  lemma ResultStepped(s: Calls, id: Option<string>, value: McpValue)
    requires Matched(s) && (s.mcp.coverage.None? ==> s.mcp.desktop <= McpIds(s.mcp)) && !IsReportId(s.reports, id)
    ensures Stepped(s, s.(mcp := McpResult(s.mcp, id, value)), id)
  {
    hide Sound;
    hide Filed;
    hide RepeatsReceipt;
    hide Record;
    hide ReceiptIds;
    hide Utf8Length;
    if id.Some? && id.value in s.mcp.desktop {
      SameSound(s.mcp, Compare(s.mcp, id.value, value));
    } else {
      RecordSound(s.mcp, id, value);
    }
  }

  lemma CallStepped(s: Calls, id: Option<string>)
    requires Matched(s)
    ensures Stepped(s, s.(mcp := Register(s.mcp, ReportIds(s.reports), id).0), None)
  {
    hide Sound;
    hide Filed;
    hide Register;
    hide ReceiptIds;
    RegisterSound(s.mcp, ReportIds(s.reports), id);
    MatchedShort(s);
  }

  lemma ItemStepped(s: Calls, id: Option<string>, value: McpValue)
    requires Matched(s)
    ensures Stepped(s, s.(mcp := ObserveItem(s.mcp, ReportIds(s.reports), id, value)), id)
  {
    hide Filed;
    hide TotalBytes;
    hide Tracked;
    hide Distinct;
    hide ObserveItem;
    hide ReceiptIds;
    hide Utf8Length;
    ItemSound(s.mcp, ReportIds(s.reports), id, value);
  }

  lemma MatchedShort(s: Calls)
    requires Matched(s)
    ensures AllShort(McpIds(s.mcp))
  {
  }

  lemma StepSteps(s: Calls, e: Event)
    requires Matched(s) && (s.mcp.coverage.None? ==> s.mcp.desktop <= McpIds(s.mcp))
    ensures Stepped(s, Step(s, e), HeardId(e))
  {
    hide Sound;
    hide Filed;
    hide ObserveCall;
    hide Consume;
    hide McpResult;
    hide Register;
    hide ObserveItem;
    hide ReceiptIds;
    hide Utf8Length;
    match e
    case ReportCall(envelope, id, arguments) =>
      ObserveCallMatched(s, envelope, id, arguments);
      SameSound(s.mcp, ObserveCall(s, envelope, id, arguments).mcp);
    case ReportResult(envelope, id, value, isError) =>
      if IsReportId(s.reports, id) {
        ConsumeFiles(s.reports, envelope, id.value, value, isError);
      }
    case AnyResult(envelope, id, value, isError, mcp) =>
      IsReportIdIs(s.reports, id);
      if IsReportId(s.reports, id) {
        ConsumeFiles(s.reports, envelope, id.value, value, isError);
      } else {
        ResultStepped(s, id, mcp);
      }
    case McpCall(id) => CallStepped(s, id);
    case DesktopItem(id, mcp) => ItemStepped(s, id, mcp);
  }

  /** The correlation invariant, for every run: pending, settled and report ids
      are disjoint and each names one call; calls, bytes and unmatched results stay
      within their bounds; every unmatched result was recorded; and, while
      coverage holds, every result recorded is accounted for. */
  ghost predicate Kept(s: Calls, heard: set<string>) {
    && Matched(s) && s.mcp.unmatched.ids <= heard
    && (s.mcp.coverage.None? ==> s.mcp.desktop <= McpIds(s.mcp) && forall id | id in heard :: Accounted(s, id))
  }

  lemma NothingKept()
    ensures Kept(NoCalls(), {})
  {
    assert McpIds(NoCalls().mcp) == {};
    assert ReportIds(NoCalls().reports) == {};
  }

  lemma {:induction false} RunKept(es: seq<Event>)
    ensures Kept(Run(es), Heard(es))
    decreases |es|
  {
    hide Matched;
    hide Step;
    hide Utf8Length;
    if es == [] {
      NothingKept();
    } else {
      var init := es[..|es| - 1];
      RunKept(init);
      StepSteps(Run(init), es[|es| - 1]);
    }
  }

  /** A failure of coverage is never withdrawn. */
  lemma {:induction false} CoverageStays(es: seq<Event>, k: nat)
    requires k <= |es|
    ensures Run(es[..k]).mcp.coverage.Some? ==> Run(es).mcp.coverage.Some?
    ensures Run(es).mcp.coverage.None? ==> McpIds(Run(es[..k]).mcp) <= McpIds(Run(es).mcp)
    decreases |es| - k
  {
    hide Matched;
    hide Step;
    if k == |es| {
      assert es[..k] == es;
    } else {
      var next := es[..k + 1];
      assert next[..k] == es[..k];
      RunKept(es[..k]);
      StepSteps(Run(es[..k]), es[k]);
      CoverageStays(es, k + 1);
    }
  }

  /** With no coverage failure, the result of a call registered by event `k` was
      never recorded before it, although unmatched results are tracked in a
      bounded set. */
  lemma NoResultBeforeItsCall(es: seq<Event>, k: nat, id: string)
    requires k < |es| && Run(es).mcp.coverage.None?
    requires id in McpIds(Run(es[..k + 1]).mcp) && id !in McpIds(Run(es[..k]).mcp)
    ensures id !in Heard(es[..k])
  {
    hide Matched;
    hide Step;
    hide Utf8Length;
    hide Run;
    CoverageStays(es, k + 1);
    RunKept(es[..k]);
    StepSteps(Run(es[..k]), es[k]);
    assert es[..k + 1][..k] == es[..k];
    assert Run(es[..k + 1]) == Step(Run(es[..k]), es[k]) by { RunOneMore(es, k); }
  }

  lemma RunOneMore(es: seq<Event>, k: nat)
    requires k < |es|
    ensures Run(es[..k + 1]) == Step(Run(es[..k]), es[k])
  {
    assert es[..k + 1][..k] == es[..k];
  }
}

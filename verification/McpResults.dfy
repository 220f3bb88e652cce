/** What the receipts of a turn hold: while coverage stands, every recorded result of
    a registered call, and the very same one each time. */
module McpResults {
  import opened Reading
  import opened TaskStateReport
  import opened Correlation
  import opened McpRuns

  lemma {:induction false} BodyFound(receipts: seq<Receipt>, id: string)
    ensures ReceiptBody(receipts, id).Some? <==> id in ReceiptIds(receipts)
    decreases |receipts|
  {
    if receipts != [] {
      var rest := receipts[1..];
      BodyFound(rest, id);
      forall k | 0 <= k < |rest| ensures rest[k] == receipts[k + 1] {
      }
      if id in ReceiptIds(receipts) && receipts[0].callId != id {
        var k :| 0 <= k < |receipts| && receipts[k].callId == id;
        assert rest[k - 1].callId == id;
      }
    }
  }

  lemma {:induction false} BodyAppend(receipts: seq<Receipt>, r: Receipt, id: string)
    ensures ReceiptBody(receipts + [r], id)
         == if ReceiptBody(receipts, id).Some? then ReceiptBody(receipts, id) else if r.callId == id then Some(r.body) else None
    decreases |receipts|
  {
    if receipts == [] {
      assert [] + [r] == [r] && [r][1..] == [];
    } else {
      assert (receipts + [r])[1..] == receipts[1..] + [r];
      BodyAppend(receipts[1..], r, id);
    }
  }

  /** Receipts are only added to. */
  ghost predicate Grown(m: Mcp, n: Mcp) {
    n.receipts == m.receipts || exists r :: n.receipts == m.receipts + [r]
  }

  lemma GrownKeeps(m: Mcp, n: Mcp, id: string, value: McpValue)
    requires Grown(m, n) && RepeatsReceipt(m, id, value)
    ensures RepeatsReceipt(n, id, value)
  {
    hide Bounded;
    hide ReceiptBody;
    if n.receipts != m.receipts {
      var r :| n.receipts == m.receipts + [r];
      BodyAppend(m.receipts, r, id);
    }
  }

  /** A result recorded for a waiting call is its receipt. */
  lemma SettledIs(m: Mcp, id: string, value: McpValue)
    requires Sound(m) && id in m.pending
    ensures var n := Record(m, Some(id), value); Grown(m, n) && (n.coverage.None? ==> RepeatsReceipt(n, id, value))
  {
    hide Bounded;
    hide Utf8Length;
    hide ReceiptBody;
    hide TotalBytes;
    hide Tracked;
    PendingId(m, id);
    BodyFound(m.receipts, id);
    var n := Record(m, Some(id), value);
    if n.receipts != m.receipts {
      var r := Receipt(id, Bounded(value).body);
      assert n.receipts == m.receipts + [r];
      BodyAppend(m.receipts, r, id);
    }
  }

  /** A result, while coverage stands, repeats the receipt of the call it belongs to. */
  lemma ResultRepeats(m: Mcp, id: Option<string>, value: McpValue)
    requires Sound(m)
    ensures var n := McpResult(m, id, value);
            Grown(m, n) && (n.coverage.None? && id.Some? && id.value in McpIds(n) ==> RepeatsReceipt(n, id.value, value))
  {
    hide Bounded;
    hide ReceiptBody;
    hide RepeatsReceipt;
    hide Settle;
    hide Remember;
    hide Sound;
    if id.Some? && id.value !in m.desktop && id.value in m.pending {
      SettledIs(m, id.value, value);
      PendingId(m, id.value);
    } else if id.Some? && id.value !in m.desktop && id.value in ReceiptIds(m.receipts) {
      SettledShort(m, id.value);
    }
  }

  lemma SettledShort(m: Mcp, id: string)
    requires Sound(m) && id in ReceiptIds(m.receipts)
    ensures Utf8Length(id) <= ELEPHA_MCP_CALL_ID_MAX_BYTES
  {
    assert id in McpIds(m);
  }

  lemma ItemRepeats(m: Mcp, reportIds: set<string>, id: Option<string>, value: McpValue)
    requires Sound(m) && McpIds(m) !! reportIds
    ensures var n := ObserveItem(m, reportIds, id, value);
            Grown(m, n) && (n.coverage.None? ==> id.Some? && RepeatsReceipt(n, id.value, value))
  {
    hide Bounded;
    hide ReceiptBody;
    hide RepeatsReceipt;
    hide Record;
    hide Register;
    hide Sound;
    if id.None? || (id.value !in m.desktop && id.value !in ReceiptIds(m.receipts) && id.value !in m.pending) {
      RegisterSound(m, reportIds, id);
      var (registered, ok) := Register(m, reportIds, id);
      if ok {
        SameSound(registered, Claim(registered, id.value));
        SettledIs(Claim(registered, id.value), id.value, value);
      }
    } else if id.value in m.pending && id.value !in m.desktop && id.value !in ReceiptIds(m.receipts) {
      SameSound(m, Claim(m, id.value));
      SettledIs(Claim(m, id.value), id.value, value);
    } else if id.value !in m.desktop {
      SameReceipts(m, Claim(m, id.value), id.value, value);
    }
  }

  lemma SameReceipts(m: Mcp, n: Mcp, id: string, value: McpValue)
    requires m.receipts == n.receipts
    ensures RepeatsReceipt(m, id, value) == RepeatsReceipt(n, id, value)
  {
  }

  /** The recorded value of a result. */
  function ValueAt(e: Event): McpValue {
    match e
    case AnyResult(_, _, _, _, mcp) => mcp
    case DesktopItem(_, mcp) => mcp
    case _ => Unreadable
  }

  /** Every result recorded for a registered call is what its receipt says. */
  ghost predicate Answered(es: seq<Event>, m: Mcp) {
    forall k | 0 <= k < |es| :: HeardId(es[k]).Some? && HeardId(es[k]).value in McpIds(m) ==>
      RepeatsReceipt(m, HeardId(es[k]).value, ValueAt(es[k]))
  }

  /** One event adds a receipt at most, and its own result is what it says. */
  lemma StepRepeats(s: Calls, e: Event)
    requires Matched(s)
    ensures var n := Step(s, e).mcp;
            && Grown(s.mcp, n)
            && (n.coverage.None? && HeardId(e).Some? && HeardId(e).value in McpIds(n) ==>
                  RepeatsReceipt(n, HeardId(e).value, ValueAt(e)))
  {
    hide Sound;
    hide Filed;
    hide Consume;
    hide McpResult;
    hide ObserveItem;
    hide Register;
    hide RepeatsReceipt;
    hide ReceiptIds;
    hide CallUnder;
    hide Utf8Length;
    match e
    case AnyResult(_, id, _, _, mcp) =>
      IsReportIdIs(s.reports, id);
      ResultRepeats(s.mcp, id, mcp);
    case DesktopItem(id, mcp) => ItemRepeats(s.mcp, ReportIds(s.reports), id, mcp);
    case McpCall(id) => RegisterSound(s.mcp, ReportIds(s.reports), id);
    case _ =>
  }

  lemma HeardAt(es: seq<Event>, k: nat)
    requires k < |es| && HeardId(es[k]).Some?
    ensures HeardId(es[k]).value in Heard(es)
    decreases |es|
  {
    if k < |es| - 1 {
      HeardAt(es[..|es| - 1], k);
    }
  }

  /** While coverage stands, every result recorded for a registered call, in whatever
      envelope and however often, has exactly the body its receipt keeps; so a call
      still pending has none. */
  lemma {:induction false} ReceiptsHoldEveryResult(es: seq<Event>)
    requires Run(es).mcp.coverage.None?
    ensures Answered(es, Run(es).mcp)
    decreases |es|
  {
    hide Matched;
    hide Step;
    hide RepeatsReceipt;
    hide Utf8Length;
    hide McpIds;
    if es != [] {
      var init, e := es[..|es| - 1], es[|es| - 1];
      RunKept(init);
      StepSteps(Run(init), e);
      ReceiptsHoldEveryResult(init);
      StepRepeats(Run(init), e);
      forall k | 0 <= k < |es| && HeardId(es[k]).Some? && HeardId(es[k]).value in McpIds(Run(es).mcp)
        ensures RepeatsReceipt(Run(es).mcp, HeardId(es[k]).value, ValueAt(es[k]))
      {
        if k < |init| {
          assert es[k] == init[k];
          HeardAt(init, k);
          assert HeardId(es[k]).value in McpIds(Run(init).mcp);
          GrownKeeps(Run(init).mcp, Run(es).mcp, HeardId(es[k]).value, ValueAt(es[k]));
        }
      }
    }
  }

  /** A call without a receipt had no result recorded. */
  lemma PendingHadNoResult(es: seq<Event>, id: string, k: nat)
    requires Run(es).mcp.coverage.None? && id in Run(es).mcp.pending && k < |es|
    ensures HeardId(es[k]) != Some(id)
  {
    hide Run;
    RunKept(es);
    ReceiptsHoldEveryResult(es);
    var m := Run(es).mcp;
    BodyFound(m.receipts, id);
    assert id in McpIds(m) && id !in ReceiptIds(m.receipts);
  }
}

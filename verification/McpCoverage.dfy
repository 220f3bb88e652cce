/** When the coverage of a turn's Elepha MCP calls stands, and what is then recorded of
    them, read off the turn's records alone (src/adapters/codex.ts,
    src/adapters/claude-code.ts). */
module McpCoverage {
  import opened Reading
  import opened TaskStateReport
  import opened Correlation
  import opened McpRuns

  // ----------------------------------------------------------- what the records say

  /** Ids that belong to report calls after `es`. */
  function Reporting(es: seq<Event>): set<string> { ReportIds(Run(es).reports) }

  /** Ids of every call recorded, by a call record or with its result in a Desktop item. */
  function Called(es: seq<Event>): set<string> {
    if es == [] then {}
    else
      var last := es[|es| - 1];
      Called(es[..|es| - 1]) + if (last.McpCall? || last.DesktopItem?) && last.id.Some? then {last.id.value} else {}
  }

  function Items(es: seq<Event>): set<string> {
    if es == [] then {}
    else
      var last := es[|es| - 1];
      Items(es[..|es| - 1]) + if last.DesktopItem? && last.id.Some? then {last.id.value} else {}
  }

  /** The result a record brings, unless it is a report's. */
  function ResultOf(es: seq<Event>, e: Event): Option<(string, McpValue)> {
    match e
    case AnyResult(_, id, _, _, mcp) => if id.Some? && id.value !in Reporting(es) then Some((id.value, mcp)) else None
    case DesktopItem(id, mcp) => if id.Some? then Some((id.value, mcp)) else None
    case _ => None
  }

  /** Ids of results without a call, those too long for any call left out. */
  function Strays(es: seq<Event>): set<string> {
    if es == [] then {}
    else
      var result := ResultOf(es[..|es| - 1], es[|es| - 1]);
      Strays(es[..|es| - 1])
      + if result.Some? && result.value.0 !in Called(es) && Utf8Length(result.value.0) <= ELEPHA_MCP_CALL_ID_MAX_BYTES
        then {result.value.0} else {}
  }

  /** The first result of each call, in the order they came. */
  function FirstResults(es: seq<Event>): seq<Receipt> {
    if es == [] then []
    else
      var before, result := FirstResults(es[..|es| - 1]), ResultOf(es[..|es| - 1], es[|es| - 1]);
      if result.Some? && result.value.0 in Called(es) && result.value.0 !in ReceiptIds(before) && Bounded(result.value.1).Body?
      then before + [Receipt(result.value.0, Bounded(result.value.1).body)] else before
  }

  /** A call under a short id that no call and no report has, that no result had, and
      while fewer than sixty-four calls and no more than as many strays are known. */
  predicate FreshCall(es: seq<Event>, id: string) {
    && ShortId(id) && id !in Called(es) && id !in Reporting(es) && id !in Strays(es)
    && |Called(es)| < ELEPHA_MCP_RESULTS_PER_TURN_MAX && |Strays(es)| <= ELEPHA_MCP_UNMATCHED_RESULT_IDS_MAX
  }

  /** A readable result within its bound, and within what is left for the turn. */
  predicate Fits(es: seq<Event>, value: McpValue) {
    Bounded(value).Body? && TotalBytes(FirstResults(es)) + Bounded(value).bytes <= ELEPHA_MCP_RESULTS_PER_TURN_MAX_BYTES
  }

  /** Which recorded results are readable and bounded, and as what: text by itself, the
      parts of an envelope or of a list of text blocks one to a line, nothing else. */
  lemma BoundedForms(value: McpValue)
    ensures match value
            case Plain(text) =>
              Bounded(value) == (if Utf8Length(text) <= ELEPHA_MCP_RESULT_MAX_BYTES then Body(text, Utf8Length(text))
                                 else Unbounded(OversizedResult))
            case Encoded(text, parts) =>
              Bounded(value) == (if Utf8Length(text) > ELEPHA_MCP_RESULT_MAX_BYTES then Unbounded(OversizedResult)
                                 else Bounded(Blocks(parts)))
            case Blocks(parts) =>
              Bounded(value) == (if parts.None? || parts.value == [] then Unbounded(UnsupportedResult)
                                 else if Utf8Length(Join(parts.value)) > ELEPHA_MCP_RESULT_MAX_BYTES then Unbounded(OversizedResult)
                                 else Body(Join(parts.value), Utf8Length(Join(parts.value))))
            case Unreadable => Bounded(value) == Unbounded(UnsupportedResult)
  {
  }

  /** The same text as the call's first result. */
  predicate Repeats(es: seq<Event>, id: string, value: McpValue) {
    Bounded(value).Body? && exists k | 0 <= k < |FirstResults(es)| :: FirstResults(es)[k] == Receipt(id, Bounded(value).body)
  }

  /** Is the record one that coverage survives, behind `es`? */
  predicate Orderly(es: seq<Event>, e: Event) {
    match e
    case ReportCall(_, id, _) => !(id.Some? && ShortId(id.value) && id.value in Called(es))
    case ReportResult(_, _, _, _) => true
    case McpCall(id) => id.Some? && (id.value in Items(es) || FreshCall(es, id.value))
    case AnyResult(_, id, _, _, mcp) =>
      if id.None? || id.value in Reporting(es) || id.value !in Called(es) then true
      else if id.value in Items(es) then Repeats(es, id.value, mcp)
      else id.value !in ReceiptIds(FirstResults(es)) && Fits(es, mcp)
    case DesktopItem(id, mcp) =>
      && id.Some? && id.value !in Items(es)
      && if id.value in ReceiptIds(FirstResults(es)) then Repeats(es, id.value, mcp)
         else (id.value in Called(es) || FreshCall(es, id.value)) && Fits(es, mcp)
  }

  /** What a first result that does not fit fails for. */
  function UnfitReason(value: McpValue): CoverageFailure {
    if Bounded(value).Unbounded? then Bounded(value).reason else OversizedResult
  }

  /** What a further result that does not repeat the first fails for. */
  function UnlikeReason(value: McpValue): CoverageFailure {
    if Bounded(value).Unbounded? then Bounded(value).reason else DuplicateCallId
  }

  /** A call that would be registered, if perhaps behind its result. */
  predicate Admitted(es: seq<Event>, id: Option<string>) {
    && id.Some? && ShortId(id.value) && id.value !in Called(es) && id.value !in Reporting(es)
    && |Called(es)| < ELEPHA_MCP_RESULTS_PER_TURN_MAX
  }

  /** What a call that is not fresh fails for: its id, its number, or its result, when
      that came before it, or may have among too many strays to remember. */
  predicate CallFailsFor(es: seq<Event>, id: Option<string>, reason: CoverageFailure) {
    if id.None? || id.value == "" then reason == MissingCallId
    else if !ShortId(id.value) then reason == OversizedCallId
    else if id.value in Called(es) || id.value in Reporting(es) then reason == DuplicateCallId
    else if |Called(es)| >= ELEPHA_MCP_RESULTS_PER_TURN_MAX then reason == OversizedCallSet
    else
      || (reason == OutOfOrderResult && id.value in Strays(es))
      || (reason == IncompleteCorrelation && |Strays(es)| > ELEPHA_MCP_UNMATCHED_RESULT_IDS_MAX)
  }

  /** What a record that is not orderly behind `es` fails coverage for. */
  predicate FailsFor(es: seq<Event>, e: Event, reason: CoverageFailure) {
    match e
    case ReportCall(_, _, _) => reason == DuplicateCallId
    case ReportResult(_, _, _, _) => false
    case McpCall(id) => CallFailsFor(es, id, reason)
    case AnyResult(_, id, _, _, mcp) =>
      && id.Some?
      && (if id.value in Items(es) then reason == UnlikeReason(mcp)
          else reason == if id.value in ReceiptIds(FirstResults(es)) then DuplicateCallId else UnfitReason(mcp))
    case DesktopItem(id, mcp) =>
      if id.Some? && id.value in Items(es) then reason == DuplicateCallId
      else if id.Some? && id.value in ReceiptIds(FirstResults(es)) then reason == UnlikeReason(mcp)
      else if (id.Some? && id.value in Called(es)) || (Admitted(es, id) && !Fits(es, mcp)) then reason == UnfitReason(mcp)
      else CallFailsFor(es, id, reason)
  }

  ghost predicate AllOrderly(es: seq<Event>) {
    forall k | 0 <= k < |es| :: Orderly(es[..k], es[k])
  }

  // ------------------------------------------------------------- what is kept of them

  ghost predicate Agrees(m: Mcp, called: set<string>, items: set<string>, strays: set<string>, first: seq<Receipt>) {
    && m.receipts == first && m.pending == called - ReceiptIds(first) && ReceiptIds(first) <= called
    && m.desktop == items && items <= ReceiptIds(first) && called !! strays
    && (m.unmatched.incomplete <==> |strays| > ELEPHA_MCP_UNMATCHED_RESULT_IDS_MAX)
    && (if m.unmatched.incomplete then m.unmatched.ids <= strays else m.unmatched.ids == strays)
  }

  /** The state says just what the records say. */
  ghost predicate Says(es: seq<Event>, m: Mcp) {
    Agrees(m, Called(es), Items(es), Strays(es), FirstResults(es))
  }

  lemma SaysIds(es: seq<Event>, m: Mcp)
    requires Says(es, m)
    ensures McpIds(m) == Called(es)
  {
    hide Called;
    hide ReceiptIds;
  }

  lemma SaysCount(es: seq<Event>, m: Mcp)
    requires Says(es, m) && Sound(m)
    ensures |m.pending| + |m.receipts| == |Called(es)| && m.receiptBytes == TotalBytes(FirstResults(es))
  {
    hide Called;
    hide Strays;
    hide Items;
    hide Tracked;
    hide TotalBytes;
    DistinctCount(m.receipts);
    SaysIds(es, m);
    assert m.pending + ReceiptIds(m.receipts) == Called(es);
  }

  lemma {:induction false} DistinctCount(receipts: seq<Receipt>)
    requires Distinct(receipts)
    ensures |ReceiptIds(receipts)| == |receipts|
    decreases |receipts|
  {
    if receipts != [] {
      var init, last := receipts[..|receipts| - 1], receipts[|receipts| - 1];
      DistinctCount(init);
      ReceiptsSnoc(init, last);
      assert receipts == init + [last];
      assert last.callId !in ReceiptIds(init);
    }
  }

  lemma {:induction false} BodyIs(receipts: seq<Receipt>, id: string, body: string)
    requires Distinct(receipts)
    ensures ReceiptBody(receipts, id) == Some(body) <==> exists k | 0 <= k < |receipts| :: receipts[k] == Receipt(id, body)
    decreases |receipts|
  {
    if receipts != [] {
      var rest := receipts[1..];
      BodyIs(rest, id, body);
      forall k | 0 <= k < |rest| ensures rest[k] == receipts[k + 1] {
      }
      if k :| 0 <= k < |receipts| && receipts[k] == Receipt(id, body) {
        assert k > 0 ==> rest[k - 1] == Receipt(id, body) && receipts[0].callId != id;
      }
    }
  }

  lemma RepeatsIs(es: seq<Event>, m: Mcp, id: string, value: McpValue)
    requires Says(es, m) && Sound(m)
    ensures RepeatsReceipt(m, id, value) <==> Repeats(es, id, value)
  {
    hide Called;
    hide Strays;
    hide Items;
    hide FirstResults;
    hide Bounded;
    hide Tracked;
    if Bounded(value).Body? {
      BodyIs(m.receipts, id, Bounded(value).body);
    }
  }

  /** The records behind `e`: what it adds to each of them. */
  lemma OneMore(es: seq<Event>, e: Event)
    ensures var all, result := es + [e], ResultOf(es, e);
            && Called(all) == Called(es) + (if (e.McpCall? || e.DesktopItem?) && e.id.Some? then {e.id.value} else {})
            && Items(all) == Items(es) + (if e.DesktopItem? && e.id.Some? then {e.id.value} else {})
            && Strays(all) == Strays(es) + (if result.Some? && result.value.0 !in Called(all)
                                               && Utf8Length(result.value.0) <= ELEPHA_MCP_CALL_ID_MAX_BYTES
                                            then {result.value.0} else {})
            && FirstResults(all) == (if result.Some? && result.value.0 in Called(all) && result.value.0 !in ReceiptIds(FirstResults(es))
                                        && Bounded(result.value.1).Body?
                                     then FirstResults(es) + [Receipt(result.value.0, Bounded(result.value.1).body)]
                                     else FirstResults(es))
  {
    assert (es + [e])[..|es|] == es;
  }

  // --------------------------------------------------------------------- one record

  /** Coverage after one record, and what is then kept. */
  ghost predicate Follows(es: seq<Event>, e: Event, n: Mcp) {
    && (n.coverage.None? <==> Orderly(es, e))
    && (n.coverage.None? ==> Says(es + [e], n)) && (n.coverage.Some? ==> FailsFor(es, e, n.coverage.value))
  }

  lemma SameSays(es: seq<Event>, e: Event, m: Mcp)
    requires Says(es, m)
    requires e.ReportCall? || e.ReportResult? || (e.AnyResult? && (e.id.None? || e.id.value in Reporting(es)))
    ensures Says(es + [e], m)
  {
    hide Utf8Length;
    hide Bounded;
    OneMore(es, e);
  }

  lemma RegisterFollows(es: seq<Event>, m: Mcp, id: Option<string>)
    requires Says(es, m) && Sound(m) && m.coverage.None? && !(id.Some? && id.value in Items(es))
    ensures var (n, ok) := Register(m, Reporting(es), id);
            && (n.coverage.None? <==> id.Some? && FreshCall(es, id.value))
            && (n.coverage.None? ==> ok && n == m.(pending := m.pending + {id.value}))
            && (n.coverage.Some? ==> CallFailsFor(es, id, n.coverage.value))
            && (ok <==> Admitted(es, id)) && (ok ==> n == m.(pending := m.pending + {id.value}, coverage := n.coverage))
  {
    hide Called;
    hide Strays;
    hide Items;
    hide FirstResults;
    hide ReceiptIds;
    hide TotalBytes;
    hide Distinct;
    hide Utf8Length;
    SaysIds(es, m);
    SaysCount(es, m);
  }

  lemma WaitsAgrees(m: Mcp, called: set<string>, items: set<string>, strays: set<string>, first: seq<Receipt>, id: string)
    requires Agrees(m, called, items, strays, first) && id !in called && id !in strays
    ensures Agrees(m.(pending := m.pending + {id}), called + {id}, items, strays, first)
  {
    hide ReceiptIds;
    assert called + {id} - ReceiptIds(first) == m.pending + {id};
  }

  lemma FreshIs(es: seq<Event>, id: string)
    requires FreshCall(es, id)
    ensures ShortId(id) && Utf8Length(id) <= ELEPHA_MCP_CALL_ID_MAX_BYTES && id !in Called(es) && id !in Strays(es)
    ensures |Called(es)| < ELEPHA_MCP_RESULTS_PER_TURN_MAX
  {
  }

  /** A fresh call waits for its result. */
  lemma WaitsFor(es: seq<Event>, e: Event, m: Mcp, id: string)
    requires e == McpCall(Some(id)) && Says(es, m) && FreshCall(es, id)
    ensures Says(es + [e], m.(pending := m.pending + {id}))
  {
    hide Called;
    hide Strays;
    hide Items;
    hide FirstResults;
    hide Agrees;
    hide Utf8Length;
    hide FreshCall;
    hide ShortId;
    FreshIs(es, id);
    OneMore(es, e);
    assert Items(es) + {} == Items(es) && Strays(es) + {} == Strays(es);
    WaitsAgrees(m, Called(es), Items(es), Strays(es), FirstResults(es), id);
  }

  lemma AgainSays(es: seq<Event>, e: Event, m: Mcp, id: string)
    requires e == McpCall(Some(id)) && Says(es, m) && id in Items(es)
    ensures Says(es + [e], m)
  {
    hide Called;
    hide Strays;
    hide Items;
    hide FirstResults;
    hide ReceiptIds;
    hide Utf8Length;
    OneMore(es, e);
    assert Called(es) + {id} == Called(es);
  }

  lemma CallFollows(es: seq<Event>, m: Mcp, id: Option<string>)
    requires Says(es, m) && Sound(m) && m.coverage.None?
    ensures Follows(es, McpCall(id), if id.Some? && id.value in m.desktop then m else Register(m, Reporting(es), id).0)
  {
    hide Register;
    hide FreshCall;
    hide Sound;
    hide Says;
    assert m.desktop == Items(es) by { SaysItems(es, m); }
    if id.Some? && id.value in Items(es) {
      AgainSays(es, McpCall(id), m, id.value);
    } else {
      RegisterFollows(es, m, id);
      if id.Some? && FreshCall(es, id.value) {
        WaitsFor(es, McpCall(id), m, id.value);
      }
    }
  }

  lemma SaysItems(es: seq<Event>, m: Mcp)
    requires Says(es, m)
    ensures m.desktop == Items(es) && m.receipts == FirstResults(es) && McpIds(m) == Called(es)
    ensures Items(es) <= ReceiptIds(FirstResults(es)) <= Called(es) && m.pending == Called(es) - ReceiptIds(FirstResults(es))
  {
    SaysIds(es, m);
  }

  /** Remembering a stray keeps the bounded set in step with all there are. */
  lemma RememberKeeps(u: Unmatched, strays: set<string>, id: string)
    requires Tracked(u) && Utf8Length(id) <= ELEPHA_MCP_CALL_ID_MAX_BYTES
    requires u.incomplete <==> |strays| > ELEPHA_MCP_UNMATCHED_RESULT_IDS_MAX
    requires if u.incomplete then u.ids <= strays else u.ids == strays
    ensures var v, more := Remember(u, id), strays + {id};
            && (v.incomplete <==> |more| > ELEPHA_MCP_UNMATCHED_RESULT_IDS_MAX)
            && (if v.incomplete then v.ids <= more else v.ids == more)
  {
    hide Utf8Length;
    if id !in strays {
      assert |strays + {id}| == |strays| + 1;
    } else {
      assert strays + {id} == strays;
    }
  }

  lemma RememberFollows(es: seq<Event>, e: Event, m: Mcp, id: string)
    requires Says(es, m) && Sound(m) && id !in Called(es) && e.AnyResult? && e.id == Some(id) && id !in Reporting(es)
    ensures Says(es + [e], if Utf8Length(id) > ELEPHA_MCP_CALL_ID_MAX_BYTES then m else m.(unmatched := Remember(m.unmatched, id)))
  {
    hide Called;
    hide Strays;
    hide Items;
    hide FirstResults;
    hide ReceiptIds;
    hide TotalBytes;
    hide Tracked;
    hide Distinct;
    hide Utf8Length;
    hide Remember;
    hide Reporting;
    OneMore(es, e);
    assert ResultOf(es, e) == Some((id, e.mcp));
    if Utf8Length(id) <= ELEPHA_MCP_CALL_ID_MAX_BYTES {
      RememberKeeps(m.unmatched, Strays(es), id);
    }
  }

  lemma SettleFollows(es: seq<Event>, m: Mcp, id: string, value: McpValue)
    requires Sound(m) && m.receiptBytes == TotalBytes(FirstResults(es)) && m.coverage.None? && id in m.pending
    ensures var n := Settle(m, id, value);
            && (n.coverage.None? <==> Fits(es, value)) && (n.coverage.Some? ==> n.coverage.value == UnfitReason(value))
            && (n.coverage.None? ==> n == m.(pending := m.pending - {id}, receipts := m.receipts + [Receipt(id, Bounded(value).body)],
                                             receiptBytes := m.receiptBytes + Bounded(value).bytes))
  {
    hide FirstResults;
    hide ReceiptIds;
    hide Distinct;
    hide Bounded;
    ReceiptCountNeverBinds(m, id);
  }

  lemma SettledAgrees(m: Mcp, called: set<string>, items: set<string>, strays: set<string>, first: seq<Receipt>, r: Receipt,
                      bytes: nat, item: bool)
    requires Agrees(m, called, items, strays, first) && r.callId !in ReceiptIds(first) && r.callId !in strays
    requires item || r.callId in called
    ensures Agrees(m.(pending := m.pending - {r.callId}, receipts := m.receipts + [r], receiptBytes := bytes,
                      desktop := if item then m.desktop + {r.callId} else m.desktop),
                   called + {r.callId}, if item then items + {r.callId} else items, strays, first + [r])
  {
    ReceiptsSnoc(first, r);
    hide ReceiptIds;
  }

  /** A first result settles its call, at once when a Desktop item brings both. */
  lemma SettledSays(es: seq<Event>, e: Event, m: Mcp, id: string, value: McpValue)
    requires Says(es, m) && ResultOf(es, e) == Some((id, value)) && Bounded(value).Body?
    requires id !in ReceiptIds(FirstResults(es)) && id !in Strays(es)
    requires (e.AnyResult? && id in Called(es)) || e == DesktopItem(Some(id), value)
    ensures Says(es + [e], m.(pending := m.pending - {id}, receipts := m.receipts + [Receipt(id, Bounded(value).body)],
                              receiptBytes := m.receiptBytes + Bounded(value).bytes,
                              desktop := if e.DesktopItem? then m.desktop + {id} else m.desktop))
  {
    hide Called;
    hide Strays;
    hide Items;
    hide FirstResults;
    hide ReceiptIds;
    hide Agrees;
    hide Utf8Length;
    hide Bounded;
    hide ResultOf;
    OneMore(es, e);
    assert Items(es) + {} == Items(es) && Strays(es) + {} == Strays(es);
    assert Called(es + [e]) == Called(es) + {id};
    SettledAgrees(m, Called(es), Items(es), Strays(es), FirstResults(es), Receipt(id, Bounded(value).body),
                  m.receiptBytes + Bounded(value).bytes, e.DesktopItem?);
  }

  /** A result that repeats a call's first adds nothing, but an item claims its call. */
  lemma RepeatSays(es: seq<Event>, e: Event, m: Mcp, id: string, value: McpValue)
    requires Says(es, m) && ResultOf(es, e) == Some((id, value)) && id in ReceiptIds(FirstResults(es))
    requires e.AnyResult? || e == DesktopItem(Some(id), value)
    ensures Says(es + [e], m.(desktop := if e.DesktopItem? then m.desktop + {id} else m.desktop))
  {
    hide Called;
    hide Strays;
    hide Items;
    hide FirstResults;
    hide ReceiptIds;
    hide Utf8Length;
    hide Bounded;
    hide ResultOf;
    OneMore(es, e);
    assert Called(es) + {id} == Called(es);
  }

  lemma ResultFollows(es: seq<Event>, e: Event, m: Mcp)
    requires Says(es, m) && Sound(m) && m.coverage.None?
    requires e.AnyResult? && !(e.id.Some? && e.id.value in Reporting(es))
    ensures Follows(es, e, McpResult(m, e.id, e.mcp))
  {
    hide Says;
    hide Sound;
    hide Settle;
    hide Remember;
    hide Bounded;
    hide RepeatsReceipt;
    hide Repeats;
    hide Utf8Length;
    hide ReceiptIds;
    hide Reporting;
    SaysItems(es, m);
    if e.id.None? {
      SameSays(es, e, m);
    } else {
      var id := e.id.value;
      if id !in Called(es) {
        RememberFollows(es, e, m, id);
      } else {
        CalledIsShort(es, m, id);
        if id in Items(es) {
          RepeatsIs(es, m, id, e.mcp);
          RepeatSays(es, e, m, id, e.mcp);
        } else if id in m.pending {
          SaysCount(es, m);
          SettleFollows(es, m, id, e.mcp);
          if Fits(es, e.mcp) {
            SettledSays(es, e, m, id, e.mcp);
          }
        }
      }
    }
  }

  lemma CalledIsShort(es: seq<Event>, m: Mcp, id: string)
    requires Says(es, m) && Sound(m) && id in Called(es)
    ensures Utf8Length(id) <= ELEPHA_MCP_CALL_ID_MAX_BYTES && id !in Strays(es)
  {
    SaysIds(es, m);
  }

  lemma ClaimedRecord(m: Mcp, id: string, value: McpValue)
    requires id in m.pending && id !in ReceiptIds(m.receipts) && Utf8Length(id) <= ELEPHA_MCP_CALL_ID_MAX_BYTES
    ensures Record(Claim(m, id), Some(id), value) == Settle(Claim(m, id), id, value)
  {
    hide ReceiptIds;
    hide Utf8Length;
    hide Settle;
  }

  /** What settling at once leaves. */
  function AtOnce(m: Mcp, id: string, value: McpValue): Mcp
    requires Bounded(value).Body?
  {
    m.(pending := m.pending - {id}, receipts := m.receipts + [Receipt(id, Bounded(value).body)],
       receiptBytes := m.receiptBytes + Bounded(value).bytes, desktop := m.desktop + {id})
  }

  lemma SettlesAtOnce(es: seq<Event>, m: Mcp, id: string, value: McpValue)
    requires Sound(m) && m.receiptBytes == TotalBytes(FirstResults(es)) && m.coverage.None? && id in m.pending
    requires id !in ReceiptIds(m.receipts) && Utf8Length(id) <= ELEPHA_MCP_CALL_ID_MAX_BYTES
    ensures var n := Record(Claim(m, id), Some(id), value);
            && (n.coverage.None? <==> Fits(es, value)) && (n.coverage.Some? ==> n.coverage.value == UnfitReason(value))
            && (n.coverage.None? ==> Bounded(value).Body? && n == AtOnce(m, id, value))
  {
    hide Sound;
    hide Utf8Length;
    hide Bounded;
    hide Settle;
    hide Record;
    hide FirstResults;
    hide ReceiptIds;
    SameSound(m, Claim(m, id));
    ClaimedRecord(m, id, value);
    SettleFollows(es, Claim(m, id), id, value);
  }

  lemma ClaimSettles(es: seq<Event>, e: Event, m: Mcp, id: string, value: McpValue)
    requires Says(es, m) && Sound(m) && m.coverage.None? && id in m.pending && e == DesktopItem(Some(id), value)
    ensures var n := Record(Claim(m, id), Some(id), value);
            && (n.coverage.None? <==> Fits(es, value)) && (n.coverage.Some? ==> n.coverage.value == UnfitReason(value))
            && (n.coverage.None? ==> Says(es + [e], n))
  {
    hide Says;
    hide Sound;
    hide Utf8Length;
    hide Bounded;
    hide Record;
    hide FirstResults;
    hide ReceiptIds;
    hide Called;
    hide McpIds;
    hide ShortId;
    hide Fits;
    hide Strays;
    hide Items;
    SaysItems(es, m);
    SaysCount(es, m);
    CalledIsShort(es, m, id);
    SettlesAtOnce(es, m, id, value);
    if Fits(es, value) {
      SettledSays(es, e, m, id, value);
    }
  }

  lemma FreshItem(es: seq<Event>, e: Event, m: Mcp, id: string, value: McpValue)
    requires Says(es, m) && Sound(m) && m.coverage.None? && FreshCall(es, id) && e == DesktopItem(Some(id), value)
    ensures var n := Record(Claim(m.(pending := m.pending + {id}), id), Some(id), value);
            && (n.coverage.None? <==> Fits(es, value)) && (n.coverage.Some? ==> n.coverage.value == UnfitReason(value))
            && (n.coverage.None? ==> Says(es + [e], n))
  {
    hide Says;
    hide Sound;
    hide Utf8Length;
    hide Bounded;
    hide Record;
    hide FirstResults;
    hide ReceiptIds;
    hide Called;
    hide McpIds;
    hide FreshCall;
    hide ShortId;
    hide Fits;
    hide Strays;
    hide Items;
    FreshIs(es, id);
    SaysItems(es, m);
    SaysCount(es, m);
    PendingSound(m, id);
    SettlesAtOnce(es, m.(pending := m.pending + {id}), id, value);
    if Fits(es, value) {
      SettledSays(es, e, m, id, value);
      assert AtOnce(m.(pending := m.pending + {id}), id, value) == AtOnce(m, id, value) by {
        assert m.pending + {id} - {id} == m.pending - {id};
      }
    }
  }

  lemma SettleCoverage(es: seq<Event>, m: Mcp, id: string, value: McpValue)
    requires Sound(m) && m.receiptBytes == TotalBytes(FirstResults(es)) && id in m.pending
    ensures Settle(m, id, value).coverage == if Fits(es, value) then m.coverage else Some(UnfitReason(value))
  {
    hide FirstResults;
    hide ReceiptIds;
    hide Distinct;
    hide Bounded;
    ReceiptCountNeverBinds(m, id);
  }

  lemma NewItem(m: Mcp, reportIds: set<string>, id: Option<string>, value: McpValue)
    requires id.Some? ==> id.value !in m.desktop && id.value !in ReceiptIds(m.receipts) && id.value !in m.pending
    ensures ObserveItem(m, reportIds, id, value)
         == var (registered, ok) := Register(m, reportIds, id);
            if ok && id.Some? then Record(Claim(registered, id.value), id, value) else registered
  {
    hide Record;
    hide ReceiptIds;
    hide Utf8Length;
    hide McpIds;
  }

  /** The coverage an item leaves that brings a new call. */
  lemma NewItemCoverage(es: seq<Event>, m: Mcp, id: Option<string>, value: McpValue)
    requires Says(es, m) && Sound(m) && m.coverage.None?
    requires id.Some? ==> id.value !in m.desktop && id.value !in ReceiptIds(m.receipts) && id.value !in m.pending
    ensures ObserveItem(m, Reporting(es), id, value).coverage
         == if Admitted(es, id) && !Fits(es, value) then Some(UnfitReason(value)) else Register(m, Reporting(es), id).0.coverage
  {
    hide Sound;
    hide Says;
    hide Register;
    hide Record;
    hide ReceiptIds;
    hide Called;
    hide Strays;
    hide Fits;
    hide CallFailsFor;
    hide FreshCall;
    hide Reporting;
    hide Utf8Length;
    hide ObserveItem;
    hide Settle;
    hide Items;
    hide FirstResults;
    hide UnfitReason;
    var reportIds := Reporting(es);
    SaysItems(es, m);
    SaysCount(es, m);
    RegisterFollows(es, m, id);
    RegisterSound(m, reportIds, id);
    NewItem(m, reportIds, id, value);
    var (registered, ok) := Register(m, reportIds, id);
    if ok {
      SameSound(registered, Claim(registered, id.value));
      ClaimedRecord(registered, id.value, value);
      SettleCoverage(es, Claim(registered, id.value), id.value, value);
    }
  }

  /** An item whose call is not registered in order fails coverage all the same. */
  lemma UncoveredItem(es: seq<Event>, m: Mcp, id: Option<string>, value: McpValue)
    requires Says(es, m) && Sound(m) && m.coverage.None? && Register(m, Reporting(es), id).0.coverage.Some?
    requires id.Some? ==> id.value !in m.desktop && id.value !in ReceiptIds(m.receipts) && id.value !in m.pending
    ensures ObserveItem(m, Reporting(es), id, value).coverage.Some?
    ensures FailsFor(es, DesktopItem(id, value), ObserveItem(m, Reporting(es), id, value).coverage.value)
  {
    hide Sound;
    hide Says;
    hide Register;
    hide ReceiptIds;
    hide Called;
    hide Strays;
    hide Fits;
    hide CallFailsFor;
    hide FreshCall;
    hide Reporting;
    hide ObserveItem;
    hide Items;
    hide FirstResults;
    hide UnfitReason;
    hide Admitted;
    NewItemCoverage(es, m, id, value);
    SaysItems(es, m);
    RegisterFollows(es, m, id);
  }

  lemma ItemFollows(es: seq<Event>, m: Mcp, id: Option<string>, value: McpValue)
    requires Says(es, m) && Sound(m) && m.coverage.None?
    ensures Follows(es, DesktopItem(id, value), ObserveItem(m, Reporting(es), id, value))
  {
    hide Says;
    hide Sound;
    hide Settle;
    hide Register;
    hide Remember;
    hide Bounded;
    hide RepeatsReceipt;
    hide Repeats;
    hide Utf8Length;
    hide ReceiptIds;
    hide Reporting;
    hide FreshCall;
    var e := DesktopItem(id, value);
    SaysItems(es, m);
    if id.Some? && id.value in ReceiptIds(m.receipts) {
      RepeatsIs(es, m, id.value, value);
      RepeatSays(es, e, m, id.value, value);
    } else if id.Some? && id.value in m.pending {
      ClaimSettles(es, e, m, id.value, value);
    } else {
      RegisterFollows(es, m, id);
      if !(id.Some? && id.value in m.desktop) && Register(m, Reporting(es), id).0.coverage.Some? {
        UncoveredItem(es, m, id, value);
      }
      if id.Some? && FreshCall(es, id.value) {
        FreshItem(es, e, m, id.value, value);
      }
    }
  }

  // ------------------------------------------------------------------------ every run

  lemma StepFollows(es: seq<Event>, e: Event)
    requires Run(es).mcp.coverage.None? && Says(es, Run(es).mcp) && Matched(Run(es))
    ensures Follows(es, e, Step(Run(es), e).mcp)
  {
    hide Run;
    hide Says;
    hide Sound;
    hide Filed;
    hide Consume;
    hide Register;
    hide ObserveItem;
    hide McpResult;
    hide CallUnder;
    hide Utf8Length;
    var s := Run(es);
    SaysItems(es, s.mcp);
    match e
    case ReportCall(envelope, id, arguments) =>
      ObserveCallMatched(s, envelope, id, arguments);
      SameSays(es, e, s.mcp);
    case ReportResult(envelope, id, value, isError) => SameSays(es, e, s.mcp);
    case AnyResult(envelope, id, value, isError, mcp) =>
      IsReportIdIs(s.reports, id);
      if IsReportId(s.reports, id) { SameSays(es, e, s.mcp); } else { ResultFollows(es, e, s.mcp); }
    case McpCall(id) => CallFollows(es, s.mcp, id);
    case DesktopItem(id, mcp) => ItemFollows(es, s.mcp, id, mcp);
  }

  lemma NothingSaid()
    ensures Says([], NoCalls().mcp)
  {
  }

  /** Coverage stands exactly when every record was orderly where it stood: each call
      under a short id of its own, no more than sixty-four of them, none behind its
      result; each call's first result readable and within its bound and the turn's; and
      each further one the same. What is then kept is just what the records say: as
      receipts the first results, in their order, and as pending the calls without. The
      first record that is not orderly says what coverage fails for. */
  lemma {:induction false} CoverageStandsWhenOrderly(es: seq<Event>)
    ensures Run(es).mcp.coverage.None? <==> AllOrderly(es)
    ensures AllOrderly(es) ==> Says(es, Run(es).mcp)
    ensures es != [] && AllOrderly(es[..|es| - 1]) && Run(es).mcp.coverage.Some? ==>
              FailsFor(es[..|es| - 1], es[|es| - 1], Run(es).mcp.coverage.value)
    decreases |es|
  {
    hide Step;
    hide Orderly;
    hide Says;
    hide FailsFor;
    if es == [] {
      NothingSaid();
    } else {
      var init, e := es[..|es| - 1], es[|es| - 1];
      CoverageStandsWhenOrderly(init);
      assert forall k | 0 <= k < |init| :: init[..k] == es[..k];
      assert AllOrderly(es) <==> AllOrderly(init) && Orderly(init, e);
      assert init + [e] == es;
      RunKept(init);
      CoverageStays(es, |init|);
      if AllOrderly(init) {
        StepFollows(init, e);
      }
    }
  }
}

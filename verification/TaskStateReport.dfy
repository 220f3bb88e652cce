/** Task-state report input (src/adapters/task-state-report.ts): what a validated
    report holds, when two are the same and how a rejection reads. */
module TaskStateReport {
  import opened Reading

  const TASK_STATE_REPORT_INPUT_MAX_BYTES: nat := 32 * 1024

  /** One UTF-16 code unit, as the source's strings hold them. */
  type CodeUnit = u: int | 0 <= u < 0x1_0000

  /** A string as the source holds it: beyond the first plane, a surrogate pair. */
  function Utf16(s: string): seq<CodeUnit> {
    if s == "" then []
    else
      var c := s[0] as nat;
      (if c < 0x1_0000 then [c] else [0xd800 + (c - 0x1_0000) / 0x400, 0xdc00 + (c - 0x1_0000) % 0x400]) + Utf16(s[1..])
  }

  datatype Mode = PrecompactManifest | PostcompactRetained

  datatype Source = Source(fromUser: bool, quote: string)

  datatype Item = Item(text: string, sources: Option<seq<Source>>)

  datatype ReportInput = ReportInput(mode: Mode, requestId: string, objective: Option<Item>, decisions: seq<Item>,
                                     constraints: seq<Item>, pendingItems: seq<Item>)

  datatype InputFailure = MalformedInput | OversizedInput

  datatype Parsed = Complete(input: ReportInput) | Incomplete(reason: InputFailure)

  function SourceCount(item: Item): nat {
    if item.sources.Some? then |item.sources.value| else 0
  }

  predicate SameItem(left: Item, right: Item) {
    && left.text == right.text
    && left.sources.None? == right.sources.None?
    && SourceCount(left) == SourceCount(right)
    && (left.sources.Some? && right.sources.Some? ==>
          forall k | 0 <= k < SourceCount(left) ::
            && left.sources.value[k].fromUser == right.sources.value[k].fromUser
            && left.sources.value[k].quote == right.sources.value[k].quote)
  }

  predicate SameList(left: seq<Item>, right: seq<Item>) {
    |left| == |right| && forall k | 0 <= k < |left| :: SameItem(left[k], right[k])
  }

  predicate SameInput(left: ReportInput, right: ReportInput) {
    && left.mode == right.mode
    && left.requestId == right.requestId
    && (if left.objective.None? then right.objective.None?
        else right.objective.Some? && SameItem(left.objective.value, right.objective.value))
    && SameList(left.decisions, right.decisions)
    && SameList(left.constraints, right.constraints)
    && SameList(left.pendingItems, right.pendingItems)
  }

  lemma SameItemIsEqual(left: Item, right: Item)
    ensures SameItem(left, right) <==> left == right
  {
    if SameItem(left, right) && left.sources.Some? {
      forall k | 0 <= k < SourceCount(left) ensures left.sources.value[k] == right.sources.value[k] {
      }
      assert left.sources.value == right.sources.value;
    }
  }

  lemma SameListIsEqual(left: seq<Item>, right: seq<Item>)
    ensures SameList(left, right) <==> left == right
  {
    forall a: Item, b: Item ensures SameItem(a, b) <==> a == b {
      SameItemIsEqual(a, b);
    }
  }

  /** Two envelopes of one call agree exactly when the validated input is identical. */
  lemma SameInputIsEqual(left: ReportInput, right: ReportInput)
    ensures SameInput(left, right) <==> left == right
  {
    if left.objective.Some? && right.objective.Some? {
      SameItemIsEqual(left.objective.value, right.objective.value);
    }
    SameListIsEqual(left.decisions, right.decisions);
    SameListIsEqual(left.constraints, right.constraints);
    SameListIsEqual(left.pendingItems, right.pendingItems);
  }

  const REPORT_SDK_ERROR_PREFIX: string :=
    "MCP error -32602: Input validation error: Invalid arguments for tool report_task_state: "

  function ErrorText(reason: InputFailure): string {
    if reason == MalformedInput then "task_state_report_malformed_input" else "task_state_report_oversized_input"
  }

  predicate IsRejection(text: Option<string>, reason: InputFailure, diagnostic: string) {
    text == Some(ErrorText(reason)) || text == Some(REPORT_SDK_ERROR_PREFIX + diagnostic)
  }
}

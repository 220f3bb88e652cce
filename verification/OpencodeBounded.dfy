/** The bounded suffix of an OpenCode session (`parseSessionTurnsBounded` of
    src/adapters/opencode.ts): the newest turns that fit two budgets. */
module OpencodeBounded {
  import opened Reading
  import opened OpencodeV1

  const CURRENT_CHAT_OPENCODE_MAX_MESSAGE_ROWS: nat := 512
  const CURRENT_CHAT_OPENCODE_MAX_INDEX_ROWS: nat := 8_192

  function PartBytes(parts: seq<Part>): nat {
    if parts == [] then 0 else PartBytes(parts[..|parts| - 1]) + parts[|parts| - 1].bytes
  }

  /** Rows and bytes of messages and their parts. */
  function RowCost(session: Session, rows: seq<Row>): nat {
    if rows == [] then 0 else 1 + |session.parts(rows[0].key.id)| + RowCost(session, rows[1..])
  }

  function ByteCost(session: Session, rows: seq<Row>): nat {
    if rows == [] then 0 else rows[0].bytes + PartBytes(session.parts(rows[0].key.id)) + ByteCost(session, rows[1..])
  }

  function PartsBytes(session: Session, rows: seq<Row>): nat {
    if rows == [] then 0 else PartBytes(session.parts(rows[0].key.id)) + PartsBytes(session, rows[1..])
  }

  function MessageBytes(rows: seq<Row>): nat {
    if rows == [] then 0 else rows[0].bytes + MessageBytes(rows[1..])
  }

  /** The rows older ones are looked up by: `time_created < ?` and `= ?` hold of numbers
      only. */
  function Older(rows: seq<Row>): seq<Row> {
    if rows == [] then [] else (if rows[0].time.NotNumeric? then [] else [rows[0]]) + Older(rows[1..])
  }

  /** Rows whose JSON says user, whether their time is usable or not. */
  function UserRows(rows: seq<Row>): nat {
    if rows == [] then 0 else (if rows[0].role == Some(User) then 1 else 0) + UserRows(rows[1..])
  }

  datatype Bounded = Kept(turns: seq<Turn>, omittedBefore: nat) | OverBudget | Interrupted

  // ------------------------------------------------------- which suffix is to be kept

  function Limit(maxRows: nat): nat { Min(maxRows, CURRENT_CHAT_OPENCODE_MAX_MESSAGE_ROWS) }

  predicate MessagesFit(session: Session, maxBytes: nat, maxRows: nat, k: nat)
    requires k <= |session.rows|
  {
    |session.rows| - k <= Limit(maxRows) && MessageBytes(session.rows[k..]) <= maxBytes
  }

  predicate PartsFit(session: Session, maxBytes: nat, maxRows: nat, k: nat)
    requires k <= |session.rows|
  {
    RowCost(session, session.rows[k..]) <= maxRows && ByteCost(session, session.rows[k..]) <= maxBytes
  }

  /** The messages read: the most that fit. */
  ghost predicate Selects(session: Session, maxBytes: nat, maxRows: nat, k: nat) {
    k <= |session.rows| && MessagesFit(session, maxBytes, maxRows, k) && (k > 0 ==> !MessagesFit(session, maxBytes, maxRows, k - 1))
  }

  /** Those of them, from a user row on, whose parts fit as well. */
  ghost predicate Retains(session: Session, maxBytes: nat, maxRows: nat, user: nat, k: nat) {
    user <= k <= |session.rows| && PartsFit(session, maxBytes, maxRows, k) && (k > user ==> !PartsFit(session, maxBytes, maxRows, k - 1))
  }

  ghost predicate FirstUserAt(rows: seq<Row>, from: nat, k: nat) {
    from <= k < |rows| && rows[k].role == Some(User) && forall j | from <= j < k :: rows[j].role != Some(User)
  }

  /** The suffix from `first` on is kept: it is what is left of the rows that fit, and
      the rows before it are few and small enough to be counted in the bytes left. */
  ghost predicate Affords(session: Session, maxBytes: nat, maxRows: nat, first: nat, selected: nat, user: nat, kept: nat) {
    var rows := session.rows;
    && Selects(session, maxBytes, maxRows, selected) && FirstUserAt(rows, selected, user)
    && Retains(session, maxBytes, maxRows, user, kept) && FirstUserAt(rows, kept, first)
    && !rows[first].time.NotNumeric? && |Older(rows[..first])| <= CURRENT_CHAT_OPENCODE_MAX_INDEX_ROWS
    && MessageBytes(rows[selected..]) + MessageBytes(Older(rows[..first])) + PartsBytes(session, rows[kept..]) <= maxBytes
  }

  ghost predicate Keeps(session: Session, maxBytes: nat, maxRows: nat, first: nat) {
    exists selected: nat, user: nat, kept: nat :: Affords(session, maxBytes, maxRows, first, selected, user, kept)
  }

  /** The longest suffix that fits and starts at a user row. */
  ghost predicate LongestFit(session: Session, maxBytes: nat, maxRows: nat, first: nat) {
    && first < |session.rows| && session.rows[first].role == Some(User)
    && MessagesFit(session, maxBytes, maxRows, first) && PartsFit(session, maxBytes, maxRows, first)
    && forall k | 0 <= k < first && session.rows[k].role == Some(User) ::
         !(MessagesFit(session, maxBytes, maxRows, k) && PartsFit(session, maxBytes, maxRows, k))
  }

  lemma {:induction false} FitShrinks(session: Session, maxBytes: nat, maxRows: nat, k: nat, l: nat)
    requires k <= l <= |session.rows|
    ensures MessagesFit(session, maxBytes, maxRows, k) ==> MessagesFit(session, maxBytes, maxRows, l)
    ensures PartsFit(session, maxBytes, maxRows, k) ==> PartsFit(session, maxBytes, maxRows, l)
    decreases l - k
  {
    if k < l {
      assert session.rows[k..][1..] == session.rows[k + 1..];
      FitShrinks(session, maxBytes, maxRows, k + 1, l);
    }
  }

  lemma SelectsOne(session: Session, maxBytes: nat, maxRows: nat, first: nat, selected: nat, user: nat, kept: nat, selected': nat)
    requires Affords(session, maxBytes, maxRows, first, selected, user, kept) && Selects(session, maxBytes, maxRows, selected')
    ensures selected == selected'
  {
    hide MessagesFit;
    if selected < selected' {
      FitShrinks(session, maxBytes, maxRows, selected, selected' - 1);
    } else if selected' < selected {
      FitShrinks(session, maxBytes, maxRows, selected', selected - 1);
    }
  }

  lemma RetainsOne(session: Session, maxBytes: nat, maxRows: nat, user: nat, kept: nat, kept': nat)
    requires Retains(session, maxBytes, maxRows, user, kept) && Retains(session, maxBytes, maxRows, user, kept')
    ensures kept == kept'
  {
    hide PartsFit;
    if kept < kept' {
      FitShrinks(session, maxBytes, maxRows, kept, kept' - 1);
    } else if kept' < kept {
      FitShrinks(session, maxBytes, maxRows, kept', kept - 1);
    }
  }

  /** What is kept is the longest suffix that fits and starts at a user row. */
  lemma KeepsLongest(session: Session, maxBytes: nat, maxRows: nat, first: nat)
    requires Keeps(session, maxBytes, maxRows, first)
    ensures LongestFit(session, maxBytes, maxRows, first)
  {
    hide MessagesFit;
    hide PartsFit;
    hide MessageBytes;
    hide Older;
    var selected: nat, user: nat, kept: nat :| Affords(session, maxBytes, maxRows, first, selected, user, kept);
    FitShrinks(session, maxBytes, maxRows, selected, first);
    FitShrinks(session, maxBytes, maxRows, kept, first);
    forall k | 0 <= k < first && session.rows[k].role == Some(User)
      ensures !(MessagesFit(session, maxBytes, maxRows, k) && PartsFit(session, maxBytes, maxRows, k))
    {
      if k < selected {
        FitShrinks(session, maxBytes, maxRows, k, selected - 1);
      } else {
        assert user <= k < kept;
        FitShrinks(session, maxBytes, maxRows, k, kept - 1);
      }
    }
  }

  // ----------------------------------------------------------------- the code's steps

  /** The newest rows, down to the first that does not fit. */
  method SelectNewest(session: Session, maxBytes: nat, maxRows: nat, abortable: bool)
    returns (stop: Option<Bounded>, from: nat, remaining: nat)
    ensures stop.Some? ==> stop.value.OverBudget? || (stop.value.Interrupted? && abortable)
    ensures stop == Some(OverBudget) ==> from == |session.rows|
    ensures stop != Some(Interrupted) ==>
              && Selects(session, maxBytes, maxRows, from)
              && remaining + MessageBytes(session.rows[from..]) == maxBytes
  {
    var rows := session.rows;
    var limit := Limit(maxRows);
    from, remaining := |rows|, maxBytes;
    while from > 0 && |rows| - from <= limit
      invariant from <= |rows| && |rows| - from <= limit && remaining + MessageBytes(rows[from..]) == maxBytes
      decreases from
    {
      var aborted: bool := *;
      if abortable && aborted {
        return Some(Interrupted), from, remaining;
      }
      var row := rows[from - 1];
      assert rows[from - 1..][1..] == rows[from..];
      if row.bytes > maxBytes {
        if from == |rows| {
          return Some(OverBudget), from, remaining;
        }
        break;
      }
      if |rows| - from >= limit || row.bytes > remaining {
        break;
      }
      remaining := remaining - row.bytes;
      from := from - 1;
    }
    stop := None;
  }

  method FirstUser(rows: seq<Row>, from: nat) returns (found: Option<nat>)
    requires from <= |rows|
    ensures if found.Some? then FirstUserAt(rows, from, found.value) else forall j | from <= j < |rows| :: rows[j].role != Some(User)
  {
    var k := from;
    while k < |rows|
      invariant from <= k <= |rows| && forall j | from <= j < k :: rows[j].role != Some(User)
    {
      if rows[k].role == Some(User) {
        return Some(k);
      }
      k := k + 1;
    }
    found := None;
  }

  /** The newest of those messages whose parts fit as well. */
  method RetainWithParts(session: Session, from: nat, maxBytes: nat, maxRows: nat) returns (kept: nat, partBytes: nat)
    requires from <= |session.rows|
    ensures Retains(session, maxBytes, maxRows, from, kept) && partBytes == PartsBytes(session, session.rows[kept..])
  {
    var rows, usedRows, usedBytes := session.rows, 0, 0;
    kept, partBytes := |rows|, 0;
    while kept > from
      invariant from <= kept <= |rows| && usedRows == RowCost(session, rows[kept..]) <= maxRows
      invariant usedBytes == ByteCost(session, rows[kept..]) <= maxBytes
      invariant partBytes == PartsBytes(session, rows[kept..])
      decreases kept
    {
      var row := rows[kept - 1];
      var parts := session.parts(row.key.id);
      assert rows[kept - 1..][1..] == rows[kept..];
      if usedRows + 1 + |parts| > maxRows || usedBytes + row.bytes + PartBytes(parts) > maxBytes {
        break;
      }
      usedRows := usedRows + 1 + |parts|;
      usedBytes := usedBytes + row.bytes + PartBytes(parts);
      partBytes := partBytes + PartBytes(parts);
      kept := kept - 1;
    }
  }

  lemma {:induction false} OlderGrows(rows: seq<Row>, at: nat, first: nat)
    requires at <= first <= |rows|
    ensures |Older(rows[at..first])| <= |Older(rows[..first])|
    ensures MessageBytes(Older(rows[at..first])) <= MessageBytes(Older(rows[..first]))
    decreases at
  {
    if at > 0 {
      OlderSnoc(rows, at, first);
      OlderGrows(rows, at - 1, first);
    } else {
      assert rows[0..first] == rows[..first];
    }
  }

  lemma OlderSnoc(rows: seq<Row>, at: nat, first: nat)
    requires 0 < at <= first <= |rows|
    ensures var row, more := rows[at - 1], rows[at..first];
            && Older(rows[at - 1..first]) == (if row.time.NotNumeric? then [] else [row]) + Older(more)
            && MessageBytes(Older(rows[at - 1..first])) == (if row.time.NotNumeric? then 0 else row.bytes) + MessageBytes(Older(more))
            && UserRows(Older(rows[at - 1..first]))
               == (if !row.time.NotNumeric? && row.role == Some(User) then 1 else 0) + UserRows(Older(more))
  {
    var more := Older(rows[at..first]);
    assert rows[at - 1..first][1..] == rows[at..first];
    assert ([rows[at - 1]] + more)[1..] == more && [] + more == more;
  }

  /** Counts the user rows before the suffix that the query finds, to number its first
      turn. */
  method CountOlder(session: Session, first: nat, maxBytes: nat, remaining0: nat, abortable: bool)
    returns (stop: Option<Bounded>, omittedBefore: nat, remaining: nat)
    requires first <= |session.rows| && remaining0 <= maxBytes
    ensures stop.Some? ==> stop.value.OverBudget? || (stop.value.Interrupted? && abortable)
    ensures var older := Older(session.rows[..first]);
            && (stop == Some(OverBudget) ==> |older| > CURRENT_CHAT_OPENCODE_MAX_INDEX_ROWS || MessageBytes(older) > remaining0)
            && (stop.None? ==> |older| <= CURRENT_CHAT_OPENCODE_MAX_INDEX_ROWS && omittedBefore == UserRows(older)
                               && remaining + MessageBytes(older) == remaining0)
  {
    hide Older;
    hide UserRows;
    hide MessageBytes;
    var rows, olderRows := session.rows, 0;
    var at: nat := first;
    omittedBefore, remaining := 0, remaining0;
    OlderNothing();
    assert rows[first..first] == [];
    while at > 0
      invariant at <= first && olderRows == |Older(rows[at..first])| <= CURRENT_CHAT_OPENCODE_MAX_INDEX_ROWS
      invariant omittedBefore == UserRows(Older(rows[at..first]))
      invariant remaining + MessageBytes(Older(rows[at..first])) == remaining0
      decreases at
    {
      OlderSnoc(rows, at, first);
      OlderGrows(rows, at - 1, first);
      var row := rows[at - 1];
      at := at - 1;
      if row.time.NotNumeric? {
        continue;
      }
      var aborted: bool := *;
      if abortable && aborted {
        return Some(Interrupted), omittedBefore, remaining;
      }
      olderRows := olderRows + 1;
      if olderRows > CURRENT_CHAT_OPENCODE_MAX_INDEX_ROWS || row.bytes > maxBytes || row.bytes > remaining {
        return Some(OverBudget), omittedBefore, remaining;
      }
      remaining := remaining - row.bytes;
      if row.role == Some(User) {
        omittedBefore := omittedBefore + 1;
      }
    }
    stop := None;
    assert rows[0..first] == rows[..first];
  }

  lemma OlderNothing()
    ensures Older([]) == [] && UserRows([]) == 0 && MessageBytes([]) == 0
  {
  }

  /** Which suffix is kept, and by what number its first turn goes. */
  method ChooseSuffix(session: Session, maxBytes: nat, maxRows: nat, abortable: bool)
    returns (stop: Option<Bounded>, first: nat, omittedBefore: nat)
    ensures stop.Some? ==> stop.value.OverBudget? || (stop.value.Interrupted? && abortable)
    ensures stop == Some(OverBudget) ==> forall k: nat :: !Keeps(session, maxBytes, maxRows, k)
    ensures stop.None? ==> Keeps(session, maxBytes, maxRows, first) && omittedBefore == UserRows(Older(session.rows[..first]))
  {
    hide MessageBytes;
    hide Older;
    hide UserRows;
    hide PartsBytes;
    hide Selects;
    hide Retains;
    first, omittedBefore := 0, 0;
    var rows := session.rows;
    var selected, remaining;
    stop, selected, remaining := SelectNewest(session, maxBytes, maxRows, abortable);
    if stop == Some(Interrupted) {
      return;
    }
    OthersDiffer(session, maxBytes, maxRows, selected);
    if stop.Some? {
      return;
    }
    var user := FirstUser(rows, selected);
    if user.None? {
      return Some(OverBudget), first, omittedBefore;
    }
    var kept, partBytes := RetainWithParts(session, user.value, maxBytes, maxRows);
    OthersRetain(session, maxBytes, maxRows, selected, user.value, kept);
    var complete := FirstUser(rows, kept);
    if complete.None? || rows[complete.value].time.NotNumeric? {
      return Some(OverBudget), first, omittedBefore;
    }
    first := complete.value;
    var left;
    stop, omittedBefore, left := CountOlder(session, first, maxBytes, remaining, abortable);
    if stop.None? && partBytes > left {
      stop := Some(OverBudget);
    }
    assert stop.None? ==> Affords(session, maxBytes, maxRows, first, selected, user.value, kept);
  }

  /** `parseSessionTurnsBounded`. Unless it is interrupted, it keeps turns if and only if
      there is a suffix to be kept, the longest that fits and starts at a user row; and
      it numbers them by the user rows it finds before that. */
  method ParseSessionTurnsBounded(session: Session, maxBytes: nat, maxRows: nat, abortable: bool)
    returns (result: Bounded, ghost from: nat)
    ensures result.Interrupted? ==> abortable
    ensures result.Kept? ==> Keeps(session, maxBytes, maxRows, from) && LongestFit(session, maxBytes, maxRows, from)
    ensures result.OverBudget? ==> forall first: nat :: !Keeps(session, maxBytes, maxRows, first)
    ensures result.Kept? ==>
              && result.omittedBefore == UserRows(Older(session.rows[..from])) >= Users(session.rows[..from])
              && result.turns == Finish(session, Run(session, Begin(result.omittedBefore), session.rows[from..]), true)
              && TailOf(result.turns, Finish(session, Parsed(session, None), true), result.omittedBefore - Users(session.rows[..from]))
  {
    hide Run;
    hide TailOf;
    hide Finish;
    hide Parsed;
    hide Older;
    hide UserRows;
    hide Users;
    hide Keeps;
    from := 0;
    var stop, first, omittedBefore := ChooseSuffix(session, maxBytes, maxRows, abortable);
    if stop.Some? {
      return stop.value, from;
    }
    KeepsLongest(session, maxBytes, maxRows, first);
    var suffix := session.(rows := session.rows[first..]);
    var turns := ParseLoadedRows(suffix, None, Some(omittedBefore), true);
    SuffixParsed(session, suffix, first);
    from := first;
    result := Kept(turns, omittedBefore);
  }

  lemma OthersDiffer(session: Session, maxBytes: nat, maxRows: nat, selected: nat)
    requires Selects(session, maxBytes, maxRows, selected)
    ensures forall first: nat, other: nat, user: nat, kept: nat | Affords(session, maxBytes, maxRows, first, other, user, kept) ::
              other == selected
  {
    forall first: nat, other: nat, user: nat, kept: nat | Affords(session, maxBytes, maxRows, first, other, user, kept)
      ensures other == selected
    {
      SelectsOne(session, maxBytes, maxRows, first, other, user, kept, selected);
    }
  }

  lemma OthersRetain(session: Session, maxBytes: nat, maxRows: nat, selected: nat, user: nat, kept: nat)
    requires Retains(session, maxBytes, maxRows, user, kept) && FirstUserAt(session.rows, selected, user)
    ensures forall first: nat, user': nat, other: nat | Affords(session, maxBytes, maxRows, first, selected, user', other) ::
              user' == user && other == kept
  {
    forall first: nat, user': nat, other: nat | Affords(session, maxBytes, maxRows, first, selected, user', other)
      ensures user' == user && other == kept
    {
      RetainsOne(session, maxBytes, maxRows, user, kept, other);
    }
  }

  lemma SuffixParsed(session: Session, suffix: Session, first: nat)
    requires first < |session.rows| && suffix == session.(rows := session.rows[first..])
    ensures var omitted := UserRows(Older(session.rows[..first]));
            var turns := Finish(suffix, Run(suffix, Begin(omitted), After(suffix.rows, None)), true);
            && omitted >= Users(session.rows[..first])
            && turns == Finish(session, Run(session, Begin(omitted), session.rows[first..]), true)
            && TailOf(turns, Finish(session, Parsed(session, None), true), omitted - Users(session.rows[..first]))
  {
    hide TailOf;
    hide Users;
    var omitted := UserRows(Older(session.rows[..first]));
    AfterAll(suffix.rows);
    SuffixSame(session, suffix, Begin(omitted), suffix.rows);
    FinishSame(session, suffix, Run(session, Begin(omitted), suffix.rows));
    SuffixIsTail(session, first);
  }

  lemma FinishSame(session: Session, suffix: Session, s: State)
    requires suffix.judge == session.judge
    ensures Finish(suffix, s, true) == Finish(session, s, true)
  {
  }

  lemma {:induction false} SuffixSame(session: Session, suffix: Session, s: State, rows: seq<Row>)
    requires suffix.parts == session.parts && suffix.judge == session.judge
    ensures Run(suffix, s, rows) == Run(session, s, rows)
    decreases |rows|
  {
    if rows != [] {
      SuffixSame(session, suffix, s, rows[..|rows| - 1]);
    }
  }

  // ------------------------------------------------- the suffix against the full parse

  function Renumbered(turns: seq<Turn>, shift: nat): seq<Turn> {
    seq(|turns|, i requires 0 <= i < |turns| => turns[i].(index := turns[i].index + shift))
  }

  /** In step but for the numbering. */
  ghost predicate Shifted(s: State, r: State, n: nat, shift: nat) {
    && (s.open.Some? <==> r.open.Some?) && (s.open.Some? ==> r.open.value == s.open.value.(index := s.open.value.index + shift))
    && r.next == s.next + shift && n <= |s.turns| && r.turns == Renumbered(s.turns[n..], shift)
  }

  lemma AcceptShifted(session: Session, s: State, r: State, n: nat, shift: nat, row: Row)
    requires Shifted(s, r, n, shift)
    ensures Shifted(Accept(session, s, row), Accept(session, r, row), n, shift)
  {
    if s.open.Some? {
      RenumberedSnoc(s.turns, n, shift, Closed(s.open.value));
    }
  }

  lemma RenumberedSnoc(turns: seq<Turn>, n: nat, shift: nat, turn: Turn)
    requires n <= |turns|
    ensures Renumbered((turns + [turn])[n..], shift) == Renumbered(turns[n..], shift) + [turn.(index := turn.index + shift)]
  {
    assert (turns + [turn])[n..] == turns[n..] + [turn];
  }

  lemma {:induction false} RunShifted(session: Session, s: State, r: State, n: nat, shift: nat, rows: seq<Row>)
    requires Shifted(s, r, n, shift)
    ensures Shifted(Run(session, s, rows), Run(session, r, rows), n, shift)
    decreases |rows|
  {
    hide Accept;
    if rows != [] {
      var init := rows[..|rows| - 1];
      RunShifted(session, s, r, n, shift, init);
      AcceptShifted(session, Run(session, s, init), Run(session, r, init), n, shift, rows[|rows| - 1]);
    }
  }

  /** Nothing opens before the first user message. */
  lemma {:induction false} ClosedUntilUser(session: Session, next: nat, rows: seq<Row>)
    requires Users(rows) == 0
    ensures Run(session, Begin(next), rows) == Begin(next)
    decreases |rows|
  {
    if rows != [] {
      ClosedUntilUser(session, next, rows[..|rows| - 1]);
    }
  }

  /** Counted among the older rows, and discarded by a parse. */
  predicate CountedAway(row: Row) { row.time.Unsafe? && row.role == Some(User) }

  lemma CountsOne(rows: seq<Row>)
    requires rows != []
    ensures Users(rows) == (if IsUser(rows[0]) then 1 else 0) + Users(rows[1..])
    ensures UserRows(Older(rows)) == (if IsUser(rows[0]) || CountedAway(rows[0]) then 1 else 0) + UserRows(Older(rows[1..]))
  {
    UsersSplit(rows, 1);
    assert rows[..1] == [rows[0]] && rows[..1][..0] == [];
    var older := Older(rows[1..]);
    assert ([rows[0]] + older)[1..] == older && [] + older == older;
  }

  lemma {:induction false} UserRowsAtLeast(rows: seq<Row>)
    ensures Users(rows) <= UserRows(Older(rows))
    ensures Users(rows) == UserRows(Older(rows)) <==> forall row | row in rows :: !CountedAway(row)
    decreases |rows|
  {
    if rows != [] {
      CountsOne(rows);
      hide Users;
      hide UserRows;
      hide Older;
      UserRowsAtLeast(rows[1..]);
      assert (forall row | row in rows :: !CountedAway(row))
             <==> !CountedAway(rows[0]) && forall row | row in rows[1..] :: !CountedAway(row);
    }
  }

  /** The first user message of rows[from..], where both parses stand open on it. */
  lemma MeetAtUser(session: Session, from: nat, omitted: nat) returns (q: nat)
    requires from < |session.rows| && Users(session.rows[from..]) > 0 && omitted >= Users(session.rows[..from])
    ensures from <= q < |session.rows|
    ensures var s := Run(session, Begin(0), session.rows[..q + 1]);
            Shifted(s, Run(session, Begin(omitted), session.rows[from..q + 1]), |s.turns|, omitted - Users(session.rows[..from]))
  {
    hide Accept;
    hide Counted;
    var rows := session.rows;
    q := FindUser(rows, from);
    var s := Run(session, Begin(0), rows[..q]);
    RunCounts(session, rows[..q]);
    CountedNext(s, rows[..q]);
    UsersSplit(rows[..q], from);
    assert rows[..q][..from] == rows[..from] && rows[..q][from..] == rows[from..q];
    ClosedUntilUser(session, omitted, rows[from..q]);
    assert rows[from..q + 1] == rows[from..q] + [rows[q]] && rows[..q + 1] == rows[..q] + [rows[q]];
    RunSnoc(session, Begin(omitted), rows[from..q], rows[q]);
    RunSnoc(session, Begin(0), rows[..q], rows[q]);
    UserOpens(session, s, Begin(omitted), rows[q], Users(rows[..from]));
  }

  lemma CountedNext(s: State, rows: seq<Row>)
    requires Counted(s, rows)
    ensures s.open.Some? ==> s.next + 1 == Users(rows)
    ensures s.open.None? ==> s.next == 0 == Users(rows)
  {
  }

  lemma UserOpens(session: Session, s: State, r: State, row: Row, users: nat)
    requires IsUser(row) && r == Begin(r.next) && users <= r.next
    requires if s.open.Some? then s.next + 1 == users else s.next == 0 == users
    ensures var t := Accept(session, s, row); Shifted(t, Accept(session, r, row), |t.turns|, r.next - users)
  {
    var t := Accept(session, s, row);
    assert t.turns[|t.turns|..] == [];
  }

  lemma {:induction false} FindUser(rows: seq<Row>, from: nat) returns (q: nat)
    requires from <= |rows| && Users(rows[from..]) > 0
    ensures from <= q < |rows| && IsUser(rows[q]) && Users(rows[from..q]) == 0
    decreases |rows| - from
  {
    if IsUser(rows[from]) {
      q := from;
      assert rows[from..q] == [];
    } else {
      UsersSplit(rows[from..], 1);
      assert rows[from..][1..] == rows[from + 1..] && rows[from..][..1] == [rows[from]] && [rows[from]][..0] == [];
      q := FindUser(rows, from + 1);
      UsersSplit(rows[from..q], 1);
      assert rows[from..q][1..] == rows[from + 1..q] && rows[from..q][..1] == [rows[from]];
    }
  }

  /** `bounded` is the last of `full`, numbered higher by `shift`. */
  ghost predicate TailOf(bounded: seq<Turn>, full: seq<Turn>, shift: nat) {
    && |bounded| <= |full| && bounded == Renumbered(full[|full| - |bounded|..], shift)
    && (bounded == full[|full| - |bounded|..] <==> bounded == [] || shift == 0)
  }

  lemma SuffixFollows(session: Session, from: nat, omitted: nat)
    requires from < |session.rows| && Users(session.rows[from..]) > 0 && omitted >= Users(session.rows[..from])
    ensures TailOf(Finish(session, Run(session, Begin(omitted), session.rows[from..]), true),
                   Finish(session, Run(session, Begin(0), session.rows), true), omitted - Users(session.rows[..from]))
  {
    hide Run;
    hide Users;
    hide Finish;
    var rows, tail := session.rows, session.rows[from..];
    var shift := omitted - Users(rows[..from]);
    var q := MeetAtUser(session, from, omitted);
    var s, r := Run(session, Begin(0), rows[..q + 1]), Run(session, Begin(omitted), rows[from..q + 1]);
    assert tail[..q + 1 - from] == rows[from..q + 1] && tail[q + 1 - from..] == rows[q + 1..];
    RunSplit(session, Begin(0), rows, q + 1);
    RunSplit(session, Begin(omitted), tail, q + 1 - from);
    RunShifted(session, s, r, |s.turns|, shift, rows[q + 1..]);
    FinishShifted(session, Run(session, Begin(0), rows), Run(session, Begin(omitted), tail), |s.turns|, shift);
  }

  /** A suffix numbered by the user rows found before it gives exactly the tail of the
      full parse's turns; the indexes too, if and only if no user row before it has a
      numeric time that is not a safe integer, or there is no turn to number. */
  lemma SuffixIsTail(session: Session, from: nat)
    requires from < |session.rows|
    ensures var full := Finish(session, Parsed(session, None), true);
            var older := session.rows[..from];
            var omitted := UserRows(Older(older));
            var bounded := Finish(session, Run(session, Begin(omitted), session.rows[from..]), true);
            && Users(older) <= omitted && TailOf(bounded, full, omitted - Users(older))
            && (Users(older) == omitted <==> forall row | row in older :: !CountedAway(row))
  {
    hide Run;
    hide Users;
    hide UserRows;
    hide Older;
    var rows, older := session.rows, session.rows[..from];
    var omitted := UserRows(Older(older));
    UserRowsAtLeast(older);
    AfterAll(rows);
    if Users(rows[from..]) == 0 {
      ClosedUntilUser(session, omitted, rows[from..]);
    } else {
      SuffixFollows(session, from, omitted);
    }
  }

  /** A user row whose time is a fraction, and one turn behind it. */
  function FractionalRows(): seq<Row> {
    [Row(Key(1, 1), Unsafe, Some(User), 10, "first"), Row(Key(2, 2), Safe, Some(User), 10, "second"),
     Row(Key(3, 3), Safe, Some(Assistant), 10, "answer")]
  }

  function FractionalSession(time: Time): Session {
    Session(FractionalRows()[0 := FractionalRows()[0].(time := time)], id => [], Judge(entries => true, entries => true))
  }

  lemma TwoRows(session: Session, next: nat)
    requires |session.rows| == 3 && session.rows[1..] == FractionalRows()[1..] && session.judge == FractionalSession(Unsafe).judge
    ensures var turns := Finish(session, Run(session, Begin(next), session.rows[1..]), true); |turns| == 1 && turns[0].index == next
  {
    var tail := session.rows[1..];
    assert tail[..1] == [tail[0]] && [tail[0]][..0] == [] && tail[1] == session.rows[2];
    assert Run(session, Begin(next), [tail[0]]) == Accept(session, Begin(next), tail[0]);
  }

  /** With that row's time a fraction, the turn kept is numbered 1 where the full parse
      numbers it 0; with no time at all, both number it 0. */
  lemma FractionalTimeShifts(time: Time)
    ensures var session := FractionalSession(time);
            var full := Finish(session, Parsed(session, None), true);
            var bounded := Finish(session, Run(session, Begin(UserRows(Older(session.rows[..1]))), session.rows[1..]), true);
            |bounded| == 1 && bounded[0].index == (if time.NotNumeric? then 0 else 1)
            && (time.Unsafe? ==> |full| == 1 && full[0].index == 0) && (time.NotNumeric? ==> full == bounded)
  {
    hide Run;
    hide Finish;
    var session := FractionalSession(time);
    var older := session.rows[..1];
    assert older == [session.rows[0]] && older[1..] == [] && older[..0] == [];
    assert [session.rows[0]][1..] == [];
    TwoRows(session, UserRows(Older(older)));
    SuffixIsTail(session, 1);
    if !time.Safe? {
      FullIsOne(session);
      TwoRows(session, 0);
    }
  }

  lemma FullIsOne(session: Session)
    requires |session.rows| == 3 && session.rows[1..] == FractionalRows()[1..] && session.judge == FractionalSession(Unsafe).judge
    requires !session.rows[0].time.Safe?
    ensures Finish(session, Parsed(session, None), true) == Finish(session, Run(session, Begin(0), session.rows[1..]), true)
  {
    hide Finish;
    AfterAll(session.rows);
    RunSplit(session, Begin(0), session.rows, 1);
    assert session.rows[..1] == [session.rows[0]] && [session.rows[0]][..0] == [];
    assert Run(session, Begin(0), [session.rows[0]]) == Begin(0);
  }

  lemma FinishShifted(session: Session, s: State, r: State, n: nat, shift: nat)
    requires Shifted(s, r, n, shift)
    ensures TailOf(Finish(session, r, true), Finish(session, s, true), shift)
  {
    var full, bounded := Finish(session, s, true), Finish(session, r, true);
    if s.open.Some? {
      RenumberedSnoc(s.turns, n, shift, Closed(s.open.value));
    }
    assert |bounded| == |full| - n;
    if bounded != [] && shift > 0 {
      assert bounded[0].index == full[n..][0].index + shift;
    }
    if shift == 0 {
      assert Renumbered(full[n..], 0) == full[n..];
    }
  }
}

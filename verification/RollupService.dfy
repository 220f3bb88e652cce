/** The batch loop of one rollup call (src/daemon/rollup-service.ts), with other
    calls writing the store between any two of its steps. */
module RollupService {
  import opened Reading
  import opened Rollup

  /** The rows a call finds when it reads its decisions and its instructions back. */
  datatype Back = Back(decisions: Row, instructions: Row)

  /** A call behind its next batch: its row landed, and `back` read. */
  function After(c: Call, back: Back): Call
    requires c.rest != [] && c.rest[0] != []
  {
    WithInstructions(WithDecisions(Landed(c), Some(back.decisions)), Some(back.instructions))
  }

  ghost function CallAfter(c: Call, backs: seq<Back>): (d: Call)
    requires |backs| <= |c.rest| && [] !in c.rest
    ensures d.rest == c.rest[|backs|..] && d.version == c.version && d.oldStamp == c.oldStamp
  {
    if backs == [] then c else After(CallAfter(c, backs[..|backs| - 1]), backs[|backs| - 1])
  }

  /** The rows a call lands, one behind each batch, given what it reads back. */
  ghost predicate Lands(c: Call, backs: seq<Back>, rows: seq<Row>)
    requires [] !in c.rest
  {
    |rows| == |backs| <= |c.rest| && forall k | 0 <= k < |rows| :: rows[k] == NextRow(CallAfter(c, backs[..k]))
  }

  /** What is read back is a row of another call or one this call has landed. */
  ghost predicate Found(backs: seq<Back>, rows: seq<Row>, others: seq<Row>)
    requires |backs| == |rows|
  {
    forall k | 0 <= k < |backs| ::
      && (backs[k].decisions in others || backs[k].decisions in rows[..k + 1])
      && (backs[k].instructions in others || backs[k].instructions in rows[..k + 1])
  }

  /** Each of the first `n` read-backs found the watermark just written. */
  predicate OwnMark(backs: seq<Back>, rows: seq<Row>, n: int)
    requires |backs| == |rows| && n <= |rows|
  {
    forall k | 0 <= k < n :: backs[k].decisions.watermark == rows[k].watermark == backs[k].instructions.watermark
  }

  ghost predicate AllCover(turns: seq<nat>, rows: seq<Row>) {
    forall row | row in rows :: RowCovers(turns, row)
  }

  class RollupStore {
    var row: Option<Row>

    constructor (row: Option<Row>)
      ensures this.row == row
    {
      this.row := row;
    }

    /** `RollupStore.write`: conditional on the watermark the caller observed; a first
        write replaces whatever is there. */
    method Write(next: Row, expected: Option<nat>) returns (wrote: bool)
      modifies this
      ensures wrote == Takes(old(row), expected)
      ensures row == if wrote then Some(next) else old(row)
    {
      wrote := expected.None? || (row.Some? && row.value.watermark == expected.value);
      if wrote {
        row := Some(next);
      }
    }

    /** Other calls may leave any of the rows they write. */
    method Others(rows: seq<Row>)
      modifies this
      ensures row == old(row) || (row.Some? && row.value in rows)
    {
      var changed: nat := *;
      if 0 <= changed < |rows| {
        row := Some(rows[changed]);
      }
    }
  }

  /** `rollupSessionGuarded`: merges the fresh turns batch by batch, any other calls
      writing the store in between, read-backs included. `turns` are all there will be,
      the first `begun` of them captured when the call begins. The rows it lands are
      those of the protocol's call, one behind each batch; all of them account for
      exactly the turns up to their watermark if and only if every read-back that a
      landed row follows found the watermark just written. Left alone and with nothing
      failing, it lands one for every batch. */
  method RollupSession(store: RollupStore, ghost turns: seq<nat>, begun: seq<nat>, version: nat, batches: seq<seq<nat>>,
                       others: seq<Row>, smooth: bool)
    returns (wroteAny: bool, complete: bool, ghost backs: seq<Back>, ghost rows: seq<Row>)
    requires Ascending(turns) && begun <= turns && AllCover(turns, others) && (store.row.Some? ==> RowCovers(begun, store.row.value))
    requires Partitions(batches, Fresh(begun, if Existing(store.row, version).Some? then Some(store.row.value.watermark) else None))
    modifies store
    ensures Lands(old(Started(store.row, version, batches)), backs, rows) && Found(backs, rows, others)
    ensures store.row == old(store.row) || (store.row.Some? && (store.row.value in others || store.row.value in rows))
    ensures (wroteAny <==> rows != []) && (complete <==> |rows| == |batches|)
    ensures smooth && others == [] ==> complete
    ensures AllCover(turns, rows) <==> OwnMark(backs, rows, |rows| - 1)
    ensures complete && batches != [] && OwnMark(backs, rows, |rows| - 1) ==>
              Accounts(begun, rows[|rows| - 1].content, |begun|) && rows[|rows| - 1].version == version
  {
    hide AllCover;
    hide RowCovers;
    hide Ascending;
    hide Accounts;
    hide Fresh;
    hide Flat;
    hide NextRow;
    hide CallAfter;
    hide After;
    hide Lands;
    hide Found;
    hide OwnMark;
    wroteAny, complete, backs, rows := false, false, [], [];
    var stored := store.row;
    var existing := Existing(stored, version);
    var oldStamp := if stored.Some? && existing.None? then Some(stored.value.version) else None;
    var carry := if existing.Some? then existing.value.content else Content([], [], []);
    var expected := if existing.Some? then Some(existing.value.watermark) else None;
    ghost var c := Started(stored, version, batches);
    var index := 0;
    AfterNothing(c);
    FoundNothing(others);
    while index < |batches|
      invariant index == |backs| == |rows| <= |batches| && Lands(c, backs, rows) && Found(backs, rows, others)
      invariant carry == CallAfter(c, backs).carry && expected == CallAfter(c, backs).expected
      invariant wroteAny <==> rows != []
      invariant others == [] ==> Takes(store.row, expected)
      invariant store.row == stored || (store.row.Some? && (store.row.value in others || store.row.value in rows))
      decreases |batches| - index
    {
      store.Others(others);
      var go: bool := *;
      if !Takes(store.row, expected) || (!go && !smooth) {
        assert !(smooth && others == []);
        break;
      }
      store.Others(others);
      var batch := batches[index];
      ghost var d := CallAfter(c, backs);
      assert batch in batches;
      NextRowIs(d, batches, index);
      var row := Row(Content(carry.told + Pieces(batch, version), carry.decisions + Pieces(batch, version),
                             carry.instructions + Pieces(batch, version)), batch[|batch| - 1],
                     if oldStamp.None? || index == |batches| - 1 then version else oldStamp.value);
      var wrote := store.Write(row, expected);
      if !wrote {
        break;
      }
      var decided, instructed := ReadBack(store, others);
      ghost var back := Back(decided, instructed);
      LandsOneMore(c, backs, rows, back, row);
      FoundOneMore(backs, rows, others, back, row);
      AfterIs(d, back);
      wroteAny, expected := true, Some(row.watermark);
      carry := row.content.(decisions := decided.content.decisions, instructions := instructed.content.instructions);
      backs, rows := backs + [back], rows + [row];
      index := index + 1;
    }
    complete := index == |batches|;
    Concludes(turns, begun, stored, version, batches, backs, rows, others);
  }

  /** The two reads behind a write, other calls before each. */
  method ReadBack(store: RollupStore, others: seq<Row>) returns (decided: Row, instructed: Row)
    requires store.row.Some?
    modifies store
    ensures decided in others || Some(decided) == old(store.row)
    ensures instructed in others || Some(instructed) == old(store.row)
    ensures store.row == Some(instructed)
  {
    store.Others(others);
    decided := store.row.value;
    store.Others(others);
    instructed := store.row.value;
  }

  lemma FoundNothing(others: seq<Row>)
    ensures Found([], [], others)
  {
  }

  lemma LandsOneMore(c: Call, backs: seq<Back>, rows: seq<Row>, back: Back, row: Row)
    requires [] !in c.rest && Lands(c, backs, rows) && |backs| < |c.rest| && row == NextRow(CallAfter(c, backs))
    ensures Lands(c, backs + [back], rows + [row])
    ensures CallAfter(c, backs + [back]) == After(CallAfter(c, backs), back)
  {
    hide NextRow;
    assert (backs + [back])[..|backs|] == backs;
    forall k | 0 <= k < |rows| ensures (backs + [back])[..k] == backs[..k] {
    }
  }

  lemma ReadBoth(turns: seq<nat>, c: Call, back: Back)
    requires Ascending(turns) && CallCovers(turns, c) && c.rest != [] && c.stage.ReadingDecisions?
    requires RowCovers(turns, back.decisions) && RowCovers(turns, back.instructions)
    requires Some(back.decisions.watermark) == c.expected == Some(back.instructions.watermark)
    ensures CallCovers(turns, WithInstructions(WithDecisions(c, Some(back.decisions)), Some(back.instructions)))
  {
    hide CallCovers;
    hide RowCovers;
    ReadBackCovers(turns, c, back.decisions);
    ReadBackCovers(turns, WithDecisions(c, Some(back.decisions)), back.instructions);
  }

  lemma BatchCovers(turns: seq<nat>, c: Call)
    requires Ascending(turns) && CallCovers(turns, c) && c.rest != []
    ensures c.rest[0] != [] && RowCovers(turns, NextRow(c)) && CallCovers(turns, Landed(c))
  {
    hide CallAt;
    hide RowCovers;
    var n: nat, m: nat :| CallAt(turns, c, n, m);
    NextRowCovers(turns, c, n, m);
  }

  lemma AfterNothing(c: Call)
    requires [] !in c.rest
    ensures CallAfter(c, []) == c && Lands(c, [], [])
  {
  }

  /** What a call carries and expects once its row has landed and been read back. */
  lemma AfterIs(c: Call, back: Back)
    requires c.rest != [] && c.rest[0] != []
    ensures var content := NextRow(c).content;
            && After(c, back).carry == content.(decisions := back.decisions.content.decisions,
                                                  instructions := back.instructions.content.instructions)
            && After(c, back).expected == Some(NextRow(c).watermark)
  {
    hide NextRow;
  }

  lemma FoundOneMore(backs: seq<Back>, rows: seq<Row>, others: seq<Row>, back: Back, row: Row)
    requires |backs| == |rows| && Found(backs, rows, others)
    requires (back.decisions in others || back.decisions in rows + [row])
    requires (back.instructions in others || back.instructions in rows + [row])
    ensures Found(backs + [back], rows + [row], others)
  {
    assert (rows + [row])[..|rows| + 1] == rows + [row];
    forall k | 0 <= k <= |rows| ensures (rows + [row])[..k] == rows[..k] {
    }
  }

  lemma NextRowIs(c: Call, batches: seq<seq<nat>>, index: nat)
    requires index < |batches| && c.rest == batches[index..] && batches[index] != []
    ensures var batch := Pieces(batches[index], c.version);
            NextRow(c) == Row(Content(c.carry.told + batch, c.carry.decisions + batch, c.carry.instructions + batch),
                              batches[index][|batches[index]| - 1],
                              if c.oldStamp.None? || index == |batches| - 1 then c.version else c.oldStamp.value)
  {
  }

  lemma Lengths(c: Call, backs: seq<Back>, rows: seq<Row>)
    requires [] !in c.rest && Lands(c, backs, rows)
    ensures |rows| == |backs| <= |c.rest|
  {
  }

  /** The first `k` landed rows are those of the call cut short there. */
  lemma Prefix(c: Call, backs: seq<Back>, rows: seq<Row>, others: seq<Row>, k: nat)
    requires [] !in c.rest && Lands(c, backs, rows) && Found(backs, rows, others) && k <= |rows|
    ensures Lands(c, backs[..k], rows[..k]) && Found(backs[..k], rows[..k], others)
    ensures forall n: int | n <= k :: OwnMark(backs[..k], rows[..k], n) <==> OwnMark(backs, rows, n)
  {
    hide CallAfter;
    hide NextRow;
    assert forall i | 0 <= i < k :: backs[..k][..i] == backs[..i] && rows[..k][..i + 1] == rows[..i + 1];
  }

  lemma LastRow(c: Call, backs: seq<Back>, rows: seq<Row>)
    requires [] !in c.rest && Lands(c, backs, rows) && backs != []
    ensures var d := CallAfter(c, backs[..|backs| - 1]);
            && d.rest == c.rest[|backs| - 1..] && d.rest[0] != [] && rows[|rows| - 1] == NextRow(d)
            && CallAfter(c, backs) == After(d, backs[|backs| - 1]) && d.version == c.version
  {
    hide NextRow;
    assert CallAfter(c, backs[..|backs| - 1]).rest[0] in c.rest;
  }

  ghost predicate FoundLast(backs: seq<Back>, rows: seq<Row>, others: seq<Row>)
    requires |backs| == |rows|
  {
    backs == []
    || ((backs[|backs| - 1].decisions in others || backs[|backs| - 1].decisions in rows)
        && (backs[|backs| - 1].instructions in others || backs[|backs| - 1].instructions in rows))
  }

  lemma FoundBehind(backs: seq<Back>, rows: seq<Row>, others: seq<Row>)
    requires |backs| == |rows| && Found(backs, rows, others)
    ensures FoundLast(backs, rows, others)
  {
    assert rows[..|rows|] == rows;
  }

  lemma OwnMarkAt(backs: seq<Back>, rows: seq<Row>, k: nat)
    requires |backs| == |rows| && k < |rows| && OwnMark(backs, rows, k + 1)
    ensures backs[k].decisions.watermark == rows[k].watermark == backs[k].instructions.watermark
  {
  }

  lemma OwnMarkLess(backs: seq<Back>, rows: seq<Row>, k: nat)
    requires |backs| == |rows| && k <= |rows| && OwnMark(backs, rows, k)
    ensures OwnMark(backs, rows, k - 1)
  {
  }

  /** Short of its end, a call whose read-backs found their own watermark stands on
      exactly what its rows account for, and they all cover. */
  lemma {:induction false} OwnMarksCover(turns: seq<nat>, c: Call, backs: seq<Back>, rows: seq<Row>, others: seq<Row>)
    requires Ascending(turns) && CallCovers(turns, c) && c.rest != [] && [] !in c.rest && AllCover(turns, others)
    requires Lands(c, backs, rows) && Found(backs, rows, others) && OwnMark(backs, rows, |rows| - 1)
    ensures AllCover(turns, rows)
    ensures |rows| < |c.rest| && OwnMark(backs, rows, |rows|) ==> CallCovers(turns, CallAfter(c, backs))
    decreases |backs|
  {
    hide RowCovers;
    hide CallCovers;
    hide NextRow;
    hide Lands;
    hide Found;
    hide CallAfter;
    hide OwnMark;
    Lengths(c, backs, rows);
    if backs != [] {
      var k := |backs| - 1;
      Prefix(c, backs, rows, others, k);
      OwnMarkLess(backs, rows, k);
      OwnMarksCover(turns, c, backs[..k], rows[..k], others);
      LastRow(c, backs, rows);
      BatchCovers(turns, CallAfter(c, backs[..k]));
      assert rows == rows[..k] + [rows[k]];
      if |rows| < |c.rest| && OwnMark(backs, rows, |rows|) {
        FoundBehind(backs, rows, others);
        OwnMarkAt(backs, rows, k);
        ReadBoth(turns, Landed(CallAfter(c, backs[..k])), backs[k]);
      }
    } else {
      AfterNothing(c);
    }
  }

  /** The row landed behind a read-back that found another watermark does not cover. */
  lemma SpoiltRow(turns: seq<nat>, c: Call, back: Back)
    requires Ascending(turns) && CallCovers(turns, c) && RowCovers(turns, back.decisions) && RowCovers(turns, back.instructions)
    requires |c.rest| > 1 && [] !in c.rest && !(back.decisions.watermark == NextRow(c).watermark == back.instructions.watermark)
    ensures !RowCovers(turns, NextRow(After(c, back)))
  {
    hide RowCovers;
    hide CallCovers;
    hide NextRow;
    BatchCovers(turns, c);
    var d := Landed(c);
    assert d.rest[0] == c.rest[1] && c.rest[1] in c.rest;
    if Some(back.decisions.watermark) != d.expected {
      MisreadReachesTheRow(turns, d, back.decisions, Some(back.instructions));
    } else {
      MisreadReachesTheRow(turns, d, back.instructions, Some(back.decisions));
    }
  }

  lemma {:induction false} CoverOnlyOwnMarks(turns: seq<nat>, c: Call, backs: seq<Back>, rows: seq<Row>, others: seq<Row>)
    requires Ascending(turns) && CallCovers(turns, c) && c.rest != [] && [] !in c.rest && AllCover(turns, others)
    requires Lands(c, backs, rows) && Found(backs, rows, others) && AllCover(turns, rows)
    ensures OwnMark(backs, rows, |rows| - 1)
    decreases |backs|
  {
    hide RowCovers;
    hide CallCovers;
    hide NextRow;
    hide Lands;
    hide Found;
    hide CallAfter;
    hide After;
    Lengths(c, backs, rows);
    if |backs| > 1 {
      var k := |backs| - 1;
      Prefix(c, backs, rows, others, k);
      CoverOnlyOwnMarks(turns, c, backs[..k], rows[..k], others);
      Prefix(c, backs, rows, others, k - 1);
      OwnMarksCover(turns, c, backs[..k - 1], rows[..k - 1], others);
      LastRow(c, backs, rows);
      LastRow(c, backs[..k], rows[..k]);
      FoundBehind(backs[..k], rows[..k], others);
      assert backs[..k][..k - 1] == backs[..k - 1] && rows[k] in rows;
      var d := CallAfter(c, backs[..k - 1]);
      assert [] !in d.rest;
      if !OwnMark(backs, rows, k) {
        SpoiltRow(turns, d, backs[k - 1]);
      }
    }
  }

  lemma LastAccounts(turns: seq<nat>, begun: seq<nat>, row: Row)
    requires Ascending(turns) && begun <= turns && begun != [] && RowCovers(turns, row) && row.watermark == begun[|begun| - 1]
    ensures Accounts(begun, row.content, |begun|)
  {
    var n: nat :| 0 < n && Accounts(turns, row.content, n) && row.watermark == turns[n - 1];
    assert turns[|begun| - 1] == turns[n - 1];
  }

  lemma {:induction false} FlatEnds(batches: seq<seq<nat>>)
    requires batches != [] && [] !in batches
    ensures Flat(batches) != [] && Flat(batches)[|Flat(batches)| - 1] == batches[|batches| - 1][|batches[|batches| - 1]| - 1]
  {
    if |batches| > 1 {
      FlatEnds(batches[1..]);
    } else {
      FlatOne(batches[0]);
      assert batches == [batches[0]];
    }
  }

  lemma LastStamp(c: Call, backs: seq<Back>, rows: seq<Row>)
    requires [] !in c.rest && Lands(c, backs, rows) && |rows| == |c.rest| > 0
    ensures rows[|rows| - 1].version == c.version
    ensures var batch := c.rest[|c.rest| - 1]; batch in c.rest && rows[|rows| - 1].watermark == batch[|batch| - 1]
  {
    LastRow(c, backs, rows);
  }

  lemma Concludes(turns: seq<nat>, begun: seq<nat>, stored: Option<Row>, version: nat, batches: seq<seq<nat>>, backs: seq<Back>,
                  rows: seq<Row>, others: seq<Row>)
    requires Ascending(turns) && begun <= turns && AllCover(turns, others) && (stored.Some? ==> RowCovers(begun, stored.value))
    requires Partitions(batches, Fresh(begun, if Existing(stored, version).Some? then Some(stored.value.watermark) else None))
    requires Lands(Started(stored, version, batches), backs, rows) && Found(backs, rows, others)
    ensures AllCover(turns, rows) <==> OwnMark(backs, rows, |rows| - 1)
    ensures |rows| == |batches| && batches != [] && OwnMark(backs, rows, |rows| - 1) ==>
              Accounts(begun, rows[|rows| - 1].content, |begun|) && rows[|rows| - 1].version == version
  {
    hide RowCovers;
    hide Ascending;
    hide Accounts;
    hide Fresh;
    hide Flat;
    hide Lands;
    hide Found;
    hide CallAfter;
    Lengths(Started(stored, version, batches), backs, rows);
    if batches != [] {
      var c := Started(stored, version, batches);
      StartsCovered(turns, begun, stored, version, batches);
      if AllCover(turns, rows) {
        CoverOnlyOwnMarks(turns, c, backs, rows, others);
      } else if OwnMark(backs, rows, |rows| - 1) {
        OwnMarksCover(turns, c, backs, rows, others);
      }
      if |rows| == |batches| && OwnMark(backs, rows, |rows| - 1) {
        OwnMarksCover(turns, c, backs, rows, others);
        LastStamp(c, backs, rows);
        LastAccounts(turns, begun, rows[|rows| - 1]);
      }
    }
  }

  /** A call begun on the first turns keeps its place among all of them. */
  lemma StartsCovered(turns: seq<nat>, begun: seq<nat>, stored: Option<Row>, version: nat, batches: seq<seq<nat>>)
    requires Ascending(turns) && begun <= turns && (stored.Some? ==> RowCovers(begun, stored.value)) && batches != []
    requires Partitions(batches, Fresh(begun, if Existing(stored, version).Some? then Some(stored.value.watermark) else None))
    ensures CallCovers(turns, Started(stored, version, batches))
    ensures var batch := batches[|batches| - 1]; batch in batches && begun != [] && batch[|batch| - 1] == begun[|begun| - 1]
  {
    hide RowCovers;
    hide Fresh;
    hide Flat;
    hide Accounts;
    assert Ascending(begun);
    hide Ascending;
    var n := StartedCovers(begun, stored, version, batches);
    FlatEnds(batches);
    assert begun[n..|begun|] == Flat(batches);
    StandsAmongAll(turns, begun, Started(stored, version, batches), n);
  }

  lemma StandsAmongAll(turns: seq<nat>, begun: seq<nat>, c: Call, n: nat)
    requires begun <= turns && CallAt(begun, c, n, |begun|)
    ensures CallAt(turns, c, n, |begun|)
  {
    hide Partitions;
    assert begun[n..|begun|] == turns[n..|begun|] && begun[..n] == turns[..n];
  }

  // -------------------------------------------------------------------------- stamp

  predicate UnderOwn(back: Back, version: nat) {
    NewestUnder(back.decisions.content.decisions, version) && NewestUnder(back.instructions.content.instructions, version)
  }

  /** Each of the first `n` read-backs found parts last merged under `version`. */
  predicate OwnVersion(backs: seq<Back>, n: int, version: nat)
    requires n <= |backs|
  {
    forall k | 0 <= k < n :: UnderOwn(backs[k], version)
  }

  ghost predicate Merged(rows: seq<Row>, version: nat) {
    forall row | row in rows :: AllUnder(row.content, version)
  }

  lemma NewestIsAll(row: Row, version: nat)
    requires RowStamped(row, version) || AllUnder(row.content, version)
    ensures NewestUnder(row.content.decisions, version) <==> Under(row.content.decisions, version)
    ensures NewestUnder(row.content.instructions, version) <==> Under(row.content.instructions, version)
  {
    var a, b := row.content.decisions, row.content.instructions;
    assert (a != [] ==> a[|a| - 1] in a) && (b != [] ==> b[|b| - 1] in b);
  }

  lemma NextUnder(c: Call)
    requires c.rest != [] && c.rest[0] != []
    ensures AllUnder(NextRow(c).content, c.version) <==> AllUnder(c.carry, c.version)
  {
    var batch := Pieces(c.rest[0], c.version);
    UnderAppend(c.carry.told, batch, c.version);
    UnderAppend(c.carry.decisions, batch, c.version);
    UnderAppend(c.carry.instructions, batch, c.version);
  }

  /** What a call carries behind a read-back is its own version's exactly when what it
      read was last merged under it. */
  lemma BackUnder(c: Call, back: Back)
    requires c.rest != [] && c.rest[0] != [] && AllUnder(NextRow(c).content, c.version)
    requires RowStamped(back.decisions, c.version) || AllUnder(back.decisions.content, c.version)
    requires RowStamped(back.instructions, c.version) || AllUnder(back.instructions.content, c.version)
    ensures AllUnder(After(c, back).carry, c.version) <==> UnderOwn(back, c.version)
  {
    hide NextRow;
    NewestIsAll(back.decisions, c.version);
    NewestIsAll(back.instructions, c.version);
  }

  /** All the rows a call lands were merged under its version alone if and only if
      every read-back that a landed row follows found parts last merged under it. */
  lemma {:induction false} MergedOnlyUnderOwn(c: Call, backs: seq<Back>, rows: seq<Row>, others: seq<Row>)
    requires c.rest != [] && [] !in c.rest && AllUnder(c.carry, c.version)
    requires Lands(c, backs, rows) && Found(backs, rows, others) && forall row | row in others :: RowStamped(row, c.version)
    ensures Merged(rows, c.version) <==> OwnVersion(backs, |rows| - 1, c.version)
    ensures Merged(rows, c.version) && |rows| < |c.rest| ==>
              (OwnVersion(backs, |rows|, c.version) <==> AllUnder(CallAfter(c, backs).carry, c.version))
    decreases |backs|
  {
    hide AllUnder;
    hide RowStamped;
    hide NextRow;
    hide Lands;
    hide Found;
    hide CallAfter;
    hide After;
    hide UnderOwn;
    Lengths(c, backs, rows);
    if backs == [] {
      AfterNothing(c);
    } else {
      var k := |backs| - 1;
      Prefix(c, backs, rows, others, k);
      MergedOnlyUnderOwn(c, backs[..k], rows[..k], others);
      LastRow(c, backs, rows);
      NextUnder(CallAfter(c, backs[..k]));
      assert rows == rows[..k] + [rows[k]];
      if Merged(rows, c.version) {
        FoundBehind(backs, rows, others);
        BackUnder(CallAfter(c, backs[..k]), backs[k]);
      }
    }
  }
}

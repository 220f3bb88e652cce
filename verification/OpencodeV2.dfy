/** OpenCode's second row format (src/adapters/opencode.ts): whole messages in
    sequence order, a turn closed by a durable idle row, read in bounded pages. */
module OpencodeV2 {
  import opened Framing
  import opened Reading

  const CURRENT_CHAT_OPENCODE_MAX_SOURCE_ROWS: nat := 2_048

  /** What a row's type and data say. `sound` holds when the inline content has the
      shape its type calls for. */
  datatype Kind =
    | UserRow(sound: bool)
    | AssistantRow(list: bool, sound: bool)
    | IdleRow
    | OtherRow
    | UnknownRow

  /** A row, its columns and JSON well-formed or not. */
  datatype Row = Row(seqNo: nat, id: string, bytes: nat, wellFormed: bool, kind: Kind, text: string)

  datatype Judge = Judge(hasContent: seq<Row> -> bool)

  /** A turn: the rows folded into it, numbered by the idle row that closed it, which
      is its cursor too. */
  datatype Turn = Turn(index: nat, body: seq<Row>, cursorId: string)

  datatype State = State(open: Option<seq<Row>>, turns: seq<Turn>)

  predicate Readable(row: Row) {
    row.wellFormed && row.bytes <= MAX_TRANSCRIPT_RECORD_BYTES
  }

  /** Does the fold accept the row? Inline content is read only inside a turn. */
  predicate Accepts(s: State, row: Row) {
    match row.kind
    case UserRow(sound) => sound
    case AssistantRow(list, sound) => list && (s.open.Some? ==> sound)
    case IdleRow => true
    case OtherRow => true
    case UnknownRow => false
  }

  /** The checks an omitted row must still pass. */
  predicate Skippable(row: Row) {
    match row.kind
    case UserRow(sound) => sound
    case AssistantRow(list, _) => list
    case IdleRow => false
    case OtherRow => true
    case UnknownRow => false
  }

  /** A row no turn can pass over: of no known type, or without the text or the list
      its type calls for. */
  predicate Unfit(row: Row) {
    row.kind.UnknownRow? || (row.kind.UserRow? && !row.kind.sound) || (row.kind.AssistantRow? && !row.kind.list)
  }

  /** One row: a user row opens a turn or joins the open one, an idle row closes it. */
  function Fold(judge: Judge, s: State, row: Row): State {
    match row.kind
    case UserRow(_) => s.(open := Some((if s.open.Some? then s.open.value else []) + [row]))
    case IdleRow =>
      State(None, if s.open.Some? && judge.hasContent(s.open.value) then s.turns + [Turn(row.seqNo, s.open.value, row.id)] else s.turns)
    case _ => if s.open.Some? then s.(open := Some(s.open.value + [row])) else s
  }

  function Start(): State { State(None, []) }

  /** The unpaged parse. */
  function Run(judge: Judge, s: State, rows: seq<Row>): State {
    if rows == [] then s else Fold(judge, Run(judge, s, rows[..|rows| - 1]), rows[|rows| - 1])
  }

  /** The unpaged parse meets no row it refuses. */
  ghost predicate Sound(judge: Judge, rows: seq<Row>) {
    forall k | 0 <= k < |rows| :: Readable(rows[k]) && Accepts(Run(judge, Start(), rows[..k]), rows[k])
  }

  ghost predicate Ascending(rows: seq<Row>) {
    forall i, j | 0 <= i < j < |rows| :: rows[i].seqNo < rows[j].seqNo
  }

  function Bytes(rows: seq<Row>): nat {
    if rows == [] then 0 else Bytes(rows[..|rows| - 1]) + rows[|rows| - 1].bytes
  }

  // ------------------------------------------------------------------------- a page

  /** How a page ends: the rows ran out, a budget did with turns to deliver, the
      oldest rows must be omitted and reading starts behind row `from`, or a row or
      budget refuses the session. */
  datatype PageEnd = Drained(pending: bool) | More | OmitBefore(from: nat) | Refused

  /** Position of a page in the rows: how many it read, whether it still skips, and
      the turns ready. */
  datatype Page = Page(read: nat, skipping: bool, state: State, end: PageEnd)

  function FirstIdle(rows: seq<Row>): nat
    ensures FirstIdle(rows) <= |rows|
    ensures FirstIdle(rows) < |rows| ==> rows[FirstIdle(rows)].kind.IdleRow?
    ensures forall k | 0 <= k < FirstIdle(rows) :: !rows[k].kind.IdleRow?
  {
    if rows == [] then 0 else if rows[0].kind.IdleRow? then 0 else 1 + FirstIdle(rows[1..])
  }

  /** What a page has folded after reading `rows`: all of them or, skipping, those
      after the first idle row. */
  function Folded(judge: Judge, rows: seq<Row>, skipping: bool): State {
    if !skipping then Run(judge, Start(), rows)
    else if FirstIdle(rows) == |rows| then Start()
    else Run(judge, Start(), rows[FirstIdle(rows) + 1..])
  }

  /** `readV2Page`. Its rows are those behind the cursor. */
  method ReadV2Page(judge: Judge, rows: seq<Row>, omittedPrefix: bool) returns (page: Page)
    ensures page.read <= |rows| && page.state == Folded(judge, rows[..page.read], omittedPrefix)
    ensures page.read <= CURRENT_CHAT_OPENCODE_MAX_SOURCE_ROWS && Bytes(rows[..page.read]) <= MAX_TRANSCRIPT_RECORD_BYTES
    ensures page.end.Drained? ==> page.read == |rows|
    ensures page.end.Drained? ==> (page.end.pending <==> page.state.open.Some? || (omittedPrefix && page.state.turns == []))
    ensures page.end.More? ==>
              && page.state.turns != [] && page.read < |rows|
              && (page.read == CURRENT_CHAT_OPENCODE_MAX_SOURCE_ROWS || Bytes(rows[..page.read + 1]) > MAX_TRANSCRIPT_RECORD_BYTES)
    ensures page.end.OmitBefore? ==>
              && !omittedPrefix && page.state.turns == [] && page.read == CURRENT_CHAT_OPENCODE_MAX_SOURCE_ROWS < |rows|
              && page.end.from == |rows| - CURRENT_CHAT_OPENCODE_MAX_SOURCE_ROWS
    ensures page.end.Refused? && !omittedPrefix ==>
              && page.read < |rows| && page.read < CURRENT_CHAT_OPENCODE_MAX_SOURCE_ROWS
              && (|| !Readable(rows[page.read]) || !Accepts(page.state, rows[page.read])
                  || (page.state.turns == [] && Bytes(rows[..page.read + 1]) > MAX_TRANSCRIPT_RECORD_BYTES))
    ensures page.end.Refused? && omittedPrefix ==>
              && page.read < |rows|
              && (|| page.read == CURRENT_CHAT_OPENCODE_MAX_SOURCE_ROWS || !Readable(rows[page.read])
                  || Bytes(rows[..page.read + 1]) > MAX_TRANSCRIPT_RECORD_BYTES
                  || if page.skipping then Unfit(rows[page.read]) else !Accepts(page.state, rows[page.read]))
  {
    hide FirstIdle;
    hide Fold;
    hide Run;
    var usedBytes, skipping, skippedClosed := 0, omittedPrefix, false;
    var openTurn: Option<seq<Row>> := None;
    var ready: seq<Turn> := [];
    var k := 0;
    assert rows[..0] == [];
    RunNothing(judge, rows[..0]);
    while k < |rows|
      invariant k <= |rows| && k <= CURRENT_CHAT_OPENCODE_MAX_SOURCE_ROWS
      invariant usedBytes == Bytes(rows[..k]) <= MAX_TRANSCRIPT_RECORD_BYTES
      invariant State(openTurn, ready) == Folded(judge, rows[..k], omittedPrefix)
      invariant skipping <==> omittedPrefix && FirstIdle(rows[..k]) == k
      invariant skippedClosed <==> omittedPrefix && !skipping
      invariant skipping ==> openTurn.None?
    {
      var row := rows[k];
      assert rows[..k + 1][..k] == rows[..k];
      var here := State(openTurn, ready);
      if k == CURRENT_CHAT_OPENCODE_MAX_SOURCE_ROWS {
        if ready != [] {
          return Page(k, skipping, here, More);
        }
        if omittedPrefix {
          return Page(k, skipping, here, Refused);
        }
        return Page(k, skipping, here, OmitBefore(|rows| - CURRENT_CHAT_OPENCODE_MAX_SOURCE_ROWS));
      }
      if !Readable(row) {
        return Page(k, skipping, here, Refused);
      }
      SkipOrFold(judge, rows, k, omittedPrefix);
      if usedBytes + row.bytes > MAX_TRANSCRIPT_RECORD_BYTES {
        return Page(k, skipping, here, if ready != [] then More else Refused);
      }
      usedBytes := usedBytes + row.bytes;
      if skipping && !row.kind.IdleRow? {
        if !Skippable(row) {
          return Page(k, skipping, here, Refused);
        }
      } else if skipping {
        skipping, skippedClosed := false, true;
      } else {
        if !Accepts(here, row) {
          return Page(k, skipping, here, Refused);
        }
        openTurn, ready := FoldRow(judge, openTurn, ready, row);
      }
      k := k + 1;
    }
    assert rows[..k] == rows;
    page := Page(k, skipping, State(openTurn, ready), Drained(openTurn.Some? || skipping || (skippedClosed && ready == [])));
  }

  method FoldRow(judge: Judge, open0: Option<seq<Row>>, ready0: seq<Turn>, row: Row) returns (openTurn: Option<seq<Row>>, ready: seq<Turn>)
    ensures State(openTurn, ready) == Fold(judge, State(open0, ready0), row)
  {
    openTurn, ready := open0, ready0;
    if row.kind.IdleRow? {
      if openTurn.Some? && judge.hasContent(openTurn.value) {
        ready := ready + [Turn(row.seqNo, openTurn.value, row.id)];
      }
      openTurn := None;
    } else if openTurn.Some? {
      openTurn := Some(openTurn.value + [row]);
    } else if row.kind.UserRow? {
      assert [] + [row] == [row];
      openTurn := Some([row]);
    }
  }

  lemma Refusing(judge: Judge, rows: seq<Row>, k: nat)
    requires k < |rows| && (!Readable(rows[k]) || !Accepts(Run(judge, Start(), rows[..k]), rows[k]))
    ensures !Sound(judge, rows)
  {
  }

  lemma {:induction false} FirstIdleMore(rows: seq<Row>, row: Row)
    ensures FirstIdle(rows + [row]) == if FirstIdle(rows) < |rows| || row.kind.IdleRow? then FirstIdle(rows) else |rows| + 1
    decreases |rows|
  {
    if rows == [] {
      assert [row][1..] == [];
    } else {
      assert (rows + [row])[1..] == rows[1..] + [row];
      if !rows[0].kind.IdleRow? {
        FirstIdleMore(rows[1..], row);
      }
    }
  }

  /** What one more row does to what is folded. */
  lemma SkipOrFold(judge: Judge, rows: seq<Row>, k: nat, skipping: bool)
    requires k < |rows|
    ensures Folded(judge, rows[..k + 1], skipping)
         == if skipping && FirstIdle(rows[..k]) == k then Start() else Fold(judge, Folded(judge, rows[..k], skipping), rows[k])
    ensures skipping ==> (FirstIdle(rows[..k + 1]) == k + 1 <==> FirstIdle(rows[..k]) == k && !rows[k].kind.IdleRow?)
    ensures Bytes(rows[..k + 1]) == Bytes(rows[..k]) + rows[k].bytes
  {
    hide FirstIdle;
    var now, next := rows[..k], rows[..k + 1];
    assert next == now + [rows[k]] && next[..k] == now;
    FirstIdleMore(now, rows[k]);
    if skipping {
      var f := FirstIdle(now);
      if f < k {
        assert next[f + 1..] == now[f + 1..] + [rows[k]];
        RunSnoc(judge, now[f + 1..], rows[k]);
      } else if rows[k].kind.IdleRow? {
        assert next[k + 1..] == [];
      }
    }
  }

  lemma RunSnoc(judge: Judge, rows: seq<Row>, row: Row)
    ensures Run(judge, Start(), rows + [row]) == Fold(judge, Run(judge, Start(), rows), row)
  {
    assert (rows + [row])[..|rows + [row]| - 1] == rows;
  }

  // ------------------------------------------------------- pages against the whole

  lemma {:induction false} RunSplit(judge: Judge, s: State, rows: seq<Row>, k: nat)
    requires k <= |rows|
    ensures Run(judge, s, rows) == Run(judge, Run(judge, s, rows[..k]), rows[k..])
    decreases |rows|
  {
    hide Fold;
    if k == |rows| {
      assert rows[..k] == rows && rows[k..] == [];
    } else {
      var init := rows[..|rows| - 1];
      RunSplit(judge, s, init, k);
      assert init[..k] == rows[..k] && init[k..] == rows[k..][..|rows[k..]| - 1];
    }
  }

  /** With no turn open, what follows does not depend on what came before. */
  lemma {:induction false} Restart(judge: Judge, turns: seq<Turn>, rows: seq<Row>)
    ensures var anew := Run(judge, Start(), rows); Run(judge, State(None, turns), rows) == State(anew.open, turns + anew.turns)
    decreases |rows|
  {
    if rows != [] {
      Restart(judge, turns, rows[..|rows| - 1]);
      var anew := Run(judge, Start(), rows[..|rows| - 1]);
      assert forall turn: Turn :: turns + (anew.turns + [turn]) == turns + anew.turns + [turn];
    }
  }

  lemma Cut(judge: Judge, rows: seq<Row>, k: nat)
    requires k <= |rows| && Run(judge, Start(), rows[..k]).open.None?
    ensures var anew := Run(judge, Start(), rows[k..]);
            Run(judge, Start(), rows) == State(anew.open, Run(judge, Start(), rows[..k]).turns + anew.turns)
  {
    RunSplit(judge, Start(), rows, k);
    Restart(judge, Run(judge, Start(), rows[..k]).turns, rows[k..]);
  }

  /** The idle row that closed the last turn: nothing is open behind it. */
  lemma {:induction false} LastClosed(judge: Judge, rows: seq<Row>) returns (j: nat)
    requires Run(judge, Start(), rows).turns != []
    ensures j < |rows| && rows[j].kind.IdleRow?
    ensures var turns := Run(judge, Start(), rows).turns;
            Run(judge, Start(), rows[..j + 1]) == State(None, turns) && turns[|turns| - 1].index == rows[j].seqNo
    decreases |rows|
  {
    var init := rows[..|rows| - 1];
    if Run(judge, Start(), rows).turns == Run(judge, Start(), init).turns {
      j := LastClosed(judge, init);
      assert rows[..j + 1] == init[..j + 1];
    } else {
      j := |rows| - 1;
      assert rows[..j + 1] == rows;
    }
  }

  lemma {:induction false} TurnsOnlyGrow(judge: Judge, rows: seq<Row>, k: nat)
    requires k <= |rows|
    ensures Run(judge, Start(), rows[..k]).turns <= Run(judge, Start(), rows).turns
    decreases |rows|
  {
    if k == |rows| {
      assert rows[..k] == rows;
    } else {
      TurnsOnlyGrow(judge, rows[..|rows| - 1], k);
      assert rows[..|rows| - 1][..k] == rows[..k];
    }
  }

  /** A page that closes no turn before a budget stops it. */
  ghost predicate StallsAt(judge: Judge, rows: seq<Row>, from: nat, to: nat) {
    && from <= to < |rows| && Run(judge, Start(), rows[from..to]).turns == []
    && (to - from == CURRENT_CHAT_OPENCODE_MAX_SOURCE_ROWS || Bytes(rows[from..to + 1]) > MAX_TRANSCRIPT_RECORD_BYTES)
  }

  ghost predicate Stalls(judge: Judge, rows: seq<Row>, from: nat) {
    exists to: nat :: StallsAt(judge, rows, from, to)
  }

  /** The rows behind a turn's cursor. */
  method Behind(rows: seq<Row>, from: nat, seqNo: nat) returns (next: nat)
    requires from <= |rows|
    ensures from <= next <= |rows|
    ensures forall k | from <= k < next :: rows[k].seqNo <= seqNo
    ensures next < |rows| ==> rows[next].seqNo > seqNo
  {
    next := from;
    while next < |rows| && rows[next].seqNo <= seqNo
      invariant from <= next <= |rows| && forall k | from <= k < next :: rows[k].seqNo <= seqNo
    {
      next := next + 1;
    }
  }

  lemma BehindIs(rows: seq<Row>, at: nat, closing: nat, next: nat)
    requires Ascending(rows) && at <= closing < |rows| && at <= next <= |rows|
    requires forall k | at <= k < next :: rows[k].seqNo <= rows[closing].seqNo
    requires next < |rows| ==> rows[next].seqNo > rows[closing].seqNo
    ensures next == closing + 1
  {
    assert closing + 1 < |rows| ==> rows[closing].seqNo < rows[closing + 1].seqNo;
  }

  /** A page read from a point with nothing open: where its last turn's cursor leaves
      the next page. */
  lemma NextPage(judge: Judge, rows: seq<Row>, at: nat, page: Page, next: nat)
    requires Ascending(rows) && at <= |rows| && Run(judge, Start(), rows[..at]).open.None?
    requires page.read <= |rows| - at && page.state == Run(judge, Start(), rows[at..][..page.read]) && page.state.turns != []
    requires at <= next <= |rows|
    requires var cursor := page.state.turns[|page.state.turns| - 1].index;
             (forall k | at <= k < next :: rows[k].seqNo <= cursor) && (next < |rows| ==> rows[next].seqNo > cursor)
    ensures next > at && Run(judge, Start(), rows[..next]) == State(None, Run(judge, Start(), rows[..at]).turns + page.state.turns)
  {
    hide Run;
    hide Ascending;
    var tail := rows[at..at + page.read];
    assert rows[at..][..page.read] == tail;
    var j := LastClosed(judge, tail);
    assert rows[at + j] == tail[j];
    BehindIs(rows, at, at + j, next);
    assert tail[..j + 1] == rows[at..next];
    CutRange(judge, rows, at, next);
  }

  lemma CutRange(judge: Judge, rows: seq<Row>, at: nat, to: nat)
    requires at <= to <= |rows| && Run(judge, Start(), rows[..at]).open.None?
    ensures var anew := Run(judge, Start(), rows[at..to]);
            Run(judge, Start(), rows[..to]) == State(anew.open, Run(judge, Start(), rows[..at]).turns + anew.turns)
  {
    hide Run;
    assert rows[..to][..at] == rows[..at] && rows[..to][at..] == rows[at..to];
    Cut(judge, rows[..to], at);
  }

  /** Reading page after page from the last emitted cursor gives exactly the turns of
      the unpaged parse, unless some page closes no turn within its budgets; then it
      gives the ones before. */
  method ReadPages(judge: Judge, rows: seq<Row>) returns (turns: seq<Turn>, complete: bool, ghost stalled: nat)
    requires Ascending(rows) && Sound(judge, rows)
    ensures turns <= Run(judge, Start(), rows).turns
    ensures complete ==> turns == Run(judge, Start(), rows).turns
    ensures !complete ==> Stalls(judge, rows, stalled) && stalled <= |rows| && turns == Run(judge, Start(), rows[..stalled]).turns
  {
    hide Run;
    hide Bytes;
    hide Sound;
    turns, stalled := [], 0;
    var at := 0;
    assert Run(judge, Start(), rows[..0]) == Start() by { RunNothing(judge, rows[..0]); }
    while true
      invariant at <= |rows| && Run(judge, Start(), rows[..at]) == State(None, turns)
      decreases |rows| - at
    {
      SoundBehind(judge, rows, at);
      var page := ReadV2Page(judge, rows[at..], false);
      TurnsOnlyGrow(judge, rows, at);
      Cut(judge, rows, at);
      if page.end.Drained? {
        assert rows[at..][..page.read] == rows[at..];
        return turns + page.state.turns, true, stalled;
      }
      if !page.end.More? {
        StallHere(judge, rows, at, page);
        return turns, false, at;
      }
      var next := Behind(rows, at, page.state.turns[|page.state.turns| - 1].index);
      NextPage(judge, rows, at, page, next);
      turns := turns + page.state.turns;
      at := next;
    }
  }

  lemma RunNothing(judge: Judge, rows: seq<Row>)
    requires rows == []
    ensures Run(judge, Start(), rows) == Start()
  {
  }

  lemma SoundBehind(judge: Judge, rows: seq<Row>, at: nat)
    requires Sound(judge, rows) && at <= |rows| && Run(judge, Start(), rows[..at]).open.None?
    ensures Sound(judge, rows[at..])
  {
    var tail := rows[at..];
    forall k | 0 <= k < |tail| ensures Readable(tail[k]) && Accepts(Run(judge, Start(), tail[..k]), tail[k]) {
      var upTo := rows[..at + k];
      assert upTo[..at] == rows[..at] && upTo[at..] == tail[..k] && rows[at + k] == tail[k];
      Cut(judge, upTo, at);
    }
  }

  lemma StallHere(judge: Judge, rows: seq<Row>, at: nat, page: Page)
    requires at <= |rows| && page.read <= |rows| - at && page.state == Run(judge, Start(), rows[at..][..page.read])
    requires page.state.turns == [] && page.read < |rows| - at
    requires page.read == CURRENT_CHAT_OPENCODE_MAX_SOURCE_ROWS || Bytes(rows[at..][..page.read + 1]) > MAX_TRANSCRIPT_RECORD_BYTES
    ensures Stalls(judge, rows, at)
  {
    assert rows[at..][..page.read] == rows[at..at + page.read];
    assert rows[at..][..page.read + 1] == rows[at..at + page.read + 1];
    assert StallsAt(judge, rows, at, at + page.read);
  }

  /** A page can read `n` rows and no more. */
  predicate Fills(rows: seq<Row>, n: nat) {
    && n < |rows| && n <= CURRENT_CHAT_OPENCODE_MAX_SOURCE_ROWS && Bytes(rows[..n]) <= MAX_TRANSCRIPT_RECORD_BYTES
    && (n == CURRENT_CHAT_OPENCODE_MAX_SOURCE_ROWS || Bytes(rows[..n + 1]) > MAX_TRANSCRIPT_RECORD_BYTES)
  }

  /** The first rows a page may read fit its bytes and close no turn, and there are more. */
  ghost predicate MustOmit(judge: Judge, rows: seq<Row>) {
    && CURRENT_CHAT_OPENCODE_MAX_SOURCE_ROWS < |rows|
    && var first := rows[..CURRENT_CHAT_OPENCODE_MAX_SOURCE_ROWS];
    Bytes(first) <= MAX_TRANSCRIPT_RECORD_BYTES && Run(judge, Start(), first).turns == []
  }

  lemma {:induction false} BytesGrow(rows: seq<Row>, j: nat, k: nat)
    requires j <= k <= |rows|
    ensures Bytes(rows[..j]) <= Bytes(rows[..k])
    decreases k
  {
    if j < k {
      assert rows[..k][..k - 1] == rows[..k - 1];
      BytesGrow(rows, j, k - 1);
    }
  }

  lemma OmitsWhenMust(judge: Judge, rows: seq<Row>, page: Page)
    requires Sound(judge, rows) && page.read <= |rows| && page.state == Run(judge, Start(), rows[..page.read])
    requires page.read <= CURRENT_CHAT_OPENCODE_MAX_SOURCE_ROWS && Bytes(rows[..page.read]) <= MAX_TRANSCRIPT_RECORD_BYTES
    requires page.end.Drained? ==> page.read == |rows|
    requires page.end.More? ==> page.state.turns != []
    requires page.end.OmitBefore? ==> page.state.turns == [] && page.read == CURRENT_CHAT_OPENCODE_MAX_SOURCE_ROWS < |rows|
    requires page.end.Refused? ==>
               && page.read < |rows| && page.read < CURRENT_CHAT_OPENCODE_MAX_SOURCE_ROWS
               && (|| !Readable(rows[page.read]) || !Accepts(page.state, rows[page.read])
                   || (page.state.turns == [] && Bytes(rows[..page.read + 1]) > MAX_TRANSCRIPT_RECORD_BYTES))
    ensures page.end.OmitBefore? <==> MustOmit(judge, rows)
    ensures page.end.Refused? ==> page.state.turns == [] && Bytes(rows[..page.read + 1]) > MAX_TRANSCRIPT_RECORD_BYTES
  {
    hide Run;
    hide Bytes;
    hide Readable;
    hide Accepts;
    if CURRENT_CHAT_OPENCODE_MAX_SOURCE_ROWS < |rows| {
      var first := rows[..CURRENT_CHAT_OPENCODE_MAX_SOURCE_ROWS];
      TurnsOnlyGrow(judge, first, page.read);
      assert first[..page.read] == rows[..page.read];
      if page.end.Refused? {
        BytesGrow(rows, page.read + 1, CURRENT_CHAT_OPENCODE_MAX_SOURCE_ROWS);
      }
    }
  }

  // ------------------------------------------------------------------- sound rows

  /** Does a user row stand in `rows` with no idle row behind it? */
  ghost predicate InTurn(rows: seq<Row>) {
    exists j | 0 <= j < |rows| :: rows[j].kind.UserRow? && forall i | j < i < |rows| :: !rows[i].kind.IdleRow?
  }

  /** The session is read without refusal exactly when every row is well-formed and not
      too long, of a known type with what its type calls for, and sound content when it
      stands in a turn. */
  lemma SoundIs(judge: Judge, rows: seq<Row>)
    ensures Sound(judge, rows) <==>
              forall k | 0 <= k < |rows| ::
                && rows[k].wellFormed && rows[k].bytes <= MAX_TRANSCRIPT_RECORD_BYTES && !Unfit(rows[k])
                && (rows[k].kind.AssistantRow? && InTurn(rows[..k]) ==> rows[k].kind.sound)
  {
    hide Run;
    hide InTurn;
    forall k | 0 <= k < |rows| ensures Run(judge, Start(), rows[..k]).open.Some? <==> InTurn(rows[..k]) {
      OpensInTurn(judge, rows[..k]);
    }
    forall k | 0 <= k < |rows|
      ensures Readable(rows[k]) && Accepts(Run(judge, Start(), rows[..k]), rows[k]) <==>
                && rows[k].wellFormed && rows[k].bytes <= MAX_TRANSCRIPT_RECORD_BYTES && !Unfit(rows[k])
                && (rows[k].kind.AssistantRow? && InTurn(rows[..k]) ==> rows[k].kind.sound)
    {
      AcceptsIs(Run(judge, Start(), rows[..k]), rows[k]);
    }
  }

  lemma AcceptsIs(s: State, row: Row)
    ensures Accepts(s, row) <==> !Unfit(row) && (row.kind.AssistantRow? && s.open.Some? ==> row.kind.sound)
    ensures !row.kind.IdleRow? ==> (Skippable(row) <==> !Unfit(row))
  {
  }

  lemma OpensInTurn(judge: Judge, rows: seq<Row>)
    ensures Run(judge, Start(), rows).open.Some? <==> InTurn(rows)
  {
    hide Run;
    var b := OpenTurnHolds(judge, rows);
  }

  /** `parseSessionTurnsV2`: a page, or, when the oldest rows must be omitted, a page
      of the newest rows behind their first idle row. Without an omission it delivers
      a beginning of the unpaged turns. With one it delivers a run of them that starts
      after that idle row, to the very end when the rows ran out. */
  method ParseSessionTurnsV2(judge: Judge, rows: seq<Row>) returns (turns: seq<Turn>, end: PageEnd, omitted: Option<nat>)
    requires Sound(judge, rows)
    ensures omitted.None? ==> turns <= Run(judge, Start(), rows).turns
    ensures omitted.None? && end.Drained? ==> turns == Run(judge, Start(), rows).turns
    ensures omitted.Some? ==> omitted.value <= |rows| && OmittedPrefix(judge, rows, omitted.value, turns, end.Drained?)
    ensures omitted.Some? <==> MustOmit(judge, rows)
    ensures omitted.Some? ==> omitted.value == |rows| - CURRENT_CHAT_OPENCODE_MAX_SOURCE_ROWS
    ensures omitted.None? && end.More? ==> turns != []
    ensures omitted.None? && !end.Drained? ==> exists n: nat :: Fills(rows, n) && turns == Run(judge, Start(), rows[..n]).turns
    ensures omitted.None? && end.Refused? ==> Stalls(judge, rows, 0)
  {
    hide Run;
    hide Sound;
    hide OmittedPrefix;
    hide FirstIdle;
    hide Bytes;
    hide Readable;
    hide Accepts;
    var page := ReadV2Page(judge, rows, false);
    OmitsWhenMust(judge, rows, page);
    if page.end.Refused? {
      StallHere(judge, rows, 0, page);
    }
    assert page.end.More? || page.end.Refused? ==> Fills(rows, page.read);
    if !page.end.OmitBefore? {
      TurnsOnlyGrow(judge, rows, page.read);
      if page.end.Drained? {
        assert rows[..page.read] == rows;
      }
      return page.state.turns, page.end, None;
    }
    var from := page.end.from;
    var tail := ReadV2Page(judge, rows[from..], true);
    FoldedIsOmitted(judge, rows, from, tail);
    return tail.state.turns, tail.end, Some(from);
  }

  /** The turns emitted behind an omitted prefix: a run of the whole parse's turns
      made only of rows behind the tail's first idle row, all of the rest when
      `drained`. */
  ghost predicate OmittedPrefix(judge: Judge, rows: seq<Row>, from: nat, turns: seq<Turn>, drained: bool)
    requires from <= |rows|
  {
    var cut, all := from + FirstIdle(rows[from..]), Run(judge, Start(), rows).turns;
    && (cut == |rows| ==> turns == [])
    && (cut < |rows| ==>
          var before := |Run(judge, Start(), rows[..cut + 1]).turns|;
          && before <= |all| && turns <= all[before..] && (drained ==> turns == all[before..])
          && forall turn | turn in turns :: forall row | row in turn.body :: row in rows[cut + 1..])
  }

  lemma {:induction false} BodiesWithin(judge: Judge, rows: seq<Row>)
    ensures var s := Run(judge, Start(), rows);
            && (forall turn | turn in s.turns :: forall row | row in turn.body :: row in rows)
            && (s.open.Some? ==> forall row | row in s.open.value :: row in rows)
    decreases |rows|
  {
    if rows != [] {
      var init, last := rows[..|rows| - 1], rows[|rows| - 1];
      BodiesWithin(judge, init);
      assert last in rows && forall row | row in init :: row in rows;
    }
  }

  lemma IdleCloses(judge: Judge, rows: seq<Row>, k: nat)
    requires k < |rows| && rows[k].kind.IdleRow?
    ensures Run(judge, Start(), rows[..k + 1]).open.None?
  {
    assert rows[..k + 1][..k] == rows[..k];
  }

  lemma FirstIdleOf(rows: seq<Row>, k: nat)
    requires k <= |rows|
    ensures FirstIdle(rows[..k]) == if FirstIdle(rows) < k then FirstIdle(rows) else k
  {
    var f := FirstIdle(rows[..k]);
    assert forall i | 0 <= i < k :: rows[..k][i] == rows[i];
  }

  lemma FoldedIsOmitted(judge: Judge, rows: seq<Row>, from: nat, page: Page)
    requires from <= |rows| && page.read <= |rows| - from && page.state == Folded(judge, rows[from..][..page.read], true)
    requires page.end.Drained? ==> page.read == |rows| - from
    ensures OmittedPrefix(judge, rows, from, page.state.turns, page.end.Drained?)
  {
    hide Run;
    hide Fold;
    hide FirstIdle;
    var tail := rows[from..];
    var cut := from + FirstIdle(tail);
    FirstIdleOf(tail, page.read);
    assert tail[..|tail|] == tail;
    if cut < |rows| {
      assert rows[cut] == tail[cut - from];
      IdleCloses(judge, rows, cut);
      Cut(judge, rows, cut + 1);
      var rest := rows[cut + 1..];
      if cut - from < page.read {
        var m := page.read - (cut - from) - 1;
        assert tail[..page.read][cut - from + 1..] == rest[..m];
        TurnsOnlyGrow(judge, rest, m);
        BodiesWithin(judge, rest[..m]);
        if page.end.Drained? {
          assert rest[..m] == rest;
        }
      }
    } else {
      assert tail[..page.read] == tail || FirstIdle(tail[..page.read]) == page.read;
    }
  }

  // ------------------------------------------------------------------ what a turn holds

  /** rows[b] is the first user row since the last idle row. */
  ghost predicate FirstUserSinceIdle(rows: seq<Row>, b: nat) {
    && b < |rows| && rows[b].kind.UserRow?
    && (forall j | b < j < |rows| :: !rows[j].kind.IdleRow?)
    && forall j | 0 <= j < b :: rows[j].kind.UserRow? ==> exists i :: j < i < b && rows[i].kind.IdleRow?
  }

  /** No user row stands behind the last idle row. */
  ghost predicate NoUserSinceIdle(rows: seq<Row>) {
    forall j | 0 <= j < |rows| :: rows[j].kind.UserRow? ==> exists i :: j < i < |rows| && rows[i].kind.IdleRow?
  }

  ghost predicate OpenHolds(rows: seq<Row>, open: Option<seq<Row>>, b: nat) {
    if open.None? then NoUserSinceIdle(rows) else FirstUserSinceIdle(rows, b) && open.value == rows[b..]
  }

  lemma OpenStep(judge: Judge, rows: seq<Row>, row: Row, s: State, b: nat) returns (b': nat)
    requires OpenHolds(rows, s.open, b)
    ensures OpenHolds(rows + [row], Fold(judge, s, row).open, b')
  {
    var all := rows + [row];
    assert all[|rows|] == row;
    forall j | 0 <= j < |rows| ensures all[j] == rows[j] {
    }
    b' := b;
    if row.kind.IdleRow? {
      assert NoUserSinceIdle(all);
    } else if s.open.Some? {
      assert all[b..] == rows[b..] + [row];
    } else {
      forall j | 0 <= j < |rows| && rows[j].kind.UserRow? ensures exists i :: j < i < |rows| && all[i].kind.IdleRow? {
        var i :| j < i < |rows| && rows[i].kind.IdleRow?;
        assert all[i].kind.IdleRow?;
      }
      if row.kind.UserRow? {
        b' := |rows|;
        assert all[b'..] == [] + [row];
      }
    }
  }

  lemma {:induction false} OpenTurnHolds(judge: Judge, rows: seq<Row>) returns (b: nat)
    ensures OpenHolds(rows, Run(judge, Start(), rows).open, b)
    decreases |rows|
  {
    hide Fold;
    b := 0;
    if rows != [] {
      var init, row := rows[..|rows| - 1], rows[|rows| - 1];
      b := OpenTurnHolds(judge, init);
      b := OpenStep(judge, init, row, Run(judge, Start(), init), b);
      assert init + [row] == rows;
    }
  }

  lemma {:induction false} EmittedWhere(judge: Judge, rows: seq<Row>, i: nat) returns (k: nat)
    requires i < |Run(judge, Start(), rows).turns|
    ensures k < |rows| && rows[k].kind.IdleRow?
    ensures var s := Run(judge, Start(), rows[..k]);
            s.open.Some? && Run(judge, Start(), rows).turns[i] == Turn(rows[k].seqNo, s.open.value, rows[k].id)
    decreases |rows|
  {
    var init := rows[..|rows| - 1];
    if i < |Run(judge, Start(), init).turns| {
      k := EmittedWhere(judge, init, i);
      assert init[..k] == rows[..k];
    } else {
      k := |rows| - 1;
    }
  }

  /** Every turn holds exactly the rows from the first user row since the idle row
      before it up to the idle row that closed it, which numbers it. */
  lemma EmittedTurnHolds(judge: Judge, rows: seq<Row>, i: nat) returns (b: nat, k: nat)
    requires i < |Run(judge, Start(), rows).turns|
    ensures b < k < |rows| && rows[k].kind.IdleRow? && FirstUserSinceIdle(rows[..k], b)
    ensures Run(judge, Start(), rows).turns[i] == Turn(rows[k].seqNo, rows[b..k], rows[k].id)
  {
    k := EmittedWhere(judge, rows, i);
    b := OpenTurnHolds(judge, rows[..k]);
    assert rows[..k][b..] == rows[b..k];
  }

  // --------------------------------------------------------- which turns, and all of them

  /** Where the first user row behind the last idle row stands, if there is one. */
  function FirstUserAt(rows: seq<Row>): (b: Option<nat>)
    ensures b.Some? ==> b.value < |rows|
  {
    if rows == [] || rows[|rows| - 1].kind.IdleRow? then None
    else if FirstUserAt(rows[..|rows| - 1]).Some? then FirstUserAt(rows[..|rows| - 1])
    else if rows[|rows| - 1].kind.UserRow? then Some(|rows| - 1)
    else None
  }

  lemma UserMore(rows: seq<Row>, row: Row, b: nat)
    ensures row.kind.IdleRow? ==> NoUserSinceIdle(rows + [row])
    ensures NoUserSinceIdle(rows) && !row.kind.UserRow? ==> NoUserSinceIdle(rows + [row])
    ensures NoUserSinceIdle(rows) && row.kind.UserRow? ==> FirstUserSinceIdle(rows + [row], |rows|)
    ensures FirstUserSinceIdle(rows, b) && !row.kind.IdleRow? ==> FirstUserSinceIdle(rows + [row], b)
  {
    var all := rows + [row];
    assert all[|rows|] == row;
    forall j | 0 <= j < |rows| ensures all[j] == rows[j] {
    }
    if NoUserSinceIdle(rows) {
      forall j | 0 <= j < |rows| && rows[j].kind.UserRow? ensures exists i :: j < i < |rows| && all[i].kind.IdleRow? {
        var i :| j < i < |rows| && rows[i].kind.IdleRow?;
        assert all[i].kind.IdleRow?;
      }
    }
    if FirstUserSinceIdle(rows, b) {
      forall j | 0 <= j < b && rows[j].kind.UserRow? ensures exists i :: j < i < b && all[i].kind.IdleRow? {
        var i :| j < i < b && rows[i].kind.IdleRow?;
        assert all[i].kind.IdleRow?;
      }
    }
  }

  lemma {:induction false} FirstUserIs(rows: seq<Row>)
    ensures if FirstUserAt(rows).Some? then FirstUserSinceIdle(rows, FirstUserAt(rows).value) else NoUserSinceIdle(rows)
    decreases |rows|
  {
    if rows == [] {
      assert NoUserSinceIdle(rows);
    } else {
      hide FirstUserSinceIdle;
      hide NoUserSinceIdle;
      var init, row := rows[..|rows| - 1], rows[|rows| - 1];
      FirstUserIs(init);
      UserMore(init, row, if FirstUserAt(init).Some? then FirstUserAt(init).value else 0);
      assert init + [row] == rows;
    }
  }

  /** The turns rows call for: at each idle row, what stands since the first user row
      behind the idle row before it, if there is one and it has content. */
  function TurnsOf(judge: Judge, rows: seq<Row>): seq<Turn> {
    if rows == [] then []
    else
      var init, last := rows[..|rows| - 1], rows[|rows| - 1];
      TurnsOf(judge, init)
      + if last.kind.IdleRow? && FirstUserAt(init).Some? && judge.hasContent(init[FirstUserAt(init).value..])
        then [Turn(last.seqNo, init[FirstUserAt(init).value..], last.id)] else []
  }

  /** The unpaged parse gives exactly the turns its rows call for. */
  lemma {:induction false} TurnsAreClosed(judge: Judge, rows: seq<Row>)
    ensures Run(judge, Start(), rows)
         == State(if FirstUserAt(rows).Some? then Some(rows[FirstUserAt(rows).value..]) else None, TurnsOf(judge, rows))
    decreases |rows|
  {
    if rows != [] {
      var init, row := rows[..|rows| - 1], rows[|rows| - 1];
      TurnsAreClosed(judge, init);
      assert TurnsOf(judge, init) + [] == TurnsOf(judge, init);
      if FirstUserAt(init).Some? {
        assert rows[FirstUserAt(init).value..] == init[FirstUserAt(init).value..] + [row];
      } else {
        assert rows[|init|..] == [] + [row];
      }
    }
  }
}

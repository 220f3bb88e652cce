/** OpenCode's first row format (src/adapters/opencode.ts): message rows in
    (time, id) order, folded into turns numbered by user messages. */
module OpencodeV1 {
  import opened Reading

  /** Position of a row. Identifiers are taken by their rank in the one order the
      queries and the cursor comparison share. */
  datatype Key = Key(time: int, id: nat)

  predicate AtOrBefore(a: Key, b: Key) {
    a.time < b.time || (a.time == b.time && a.id <= b.id)
  }

  datatype Role = User | Assistant

  /** A row's time: a safe integer, a number that is not one, a fraction or past 2^53,
      or no number at all. */
  datatype Time = Safe | Unsafe | NotNumeric

  /** A message row: its role when its JSON holds one, and what its time is. */
  datatype Row = Row(key: Key, time: Time, role: Option<Role>, bytes: nat, text: string)

  datatype Part = Part(bytes: nat, text: string)

  /** A message and its parts, in order; every field of a turn is a function of
      these. */
  datatype Entry = Entry(row: Row, parts: seq<Part>)

  /** How folded content is judged: worth a turn, answered by the assistant. */
  datatype Judge = Judge(hasContent: seq<Entry> -> bool, answered: seq<Entry> -> bool)

  datatype Session = Session(rows: seq<Row>, parts: nat -> seq<Part>, judge: Judge)

  datatype OpenTurn = OpenTurn(index: nat, body: seq<Entry>, last: Key)

  datatype Turn = Turn(index: nat, body: seq<Entry>, cursor: Key)

  datatype State = State(open: Option<OpenTurn>, next: nat, turns: seq<Turn>)

  predicate IsMessage(row: Row) { row.time.Safe? && row.role.Some? }

  predicate IsUser(row: Row) { IsMessage(row) && row.role == Some(User) }

  ghost predicate Ordered(rows: seq<Row>) {
    forall i, j | 0 <= i < j < |rows| ::
      rows[i].key.time < rows[j].key.time || (rows[i].key.time == rows[j].key.time && rows[i].key.id < rows[j].key.id)
  }

  function Closed(turn: OpenTurn): Turn {
    Turn(turn.index, turn.body, turn.last)
  }

  /** A user message closes the open turn, emitting it when it holds something. */
  function StartTurn(session: Session, s: State, row: Row): State {
    if s.open.None? then s.(open := Some(OpenTurn(s.next, [], row.key)))
    else State(Some(OpenTurn(s.next + 1, [], row.key)), s.next + 1,
               if session.judge.hasContent(s.open.value.body) then s.turns + [Closed(s.open.value)] else s.turns)
  }

  function Fold(session: Session, s: State, row: Row): State {
    if s.open.None? then s
    else s.(open := Some(s.open.value.(body := s.open.value.body + [Entry(row, session.parts(row.key.id))], last := row.key)))
  }

  /** One row; rows that are no messages are discarded. */
  function Accept(session: Session, s: State, row: Row): State {
    if !IsMessage(row) then s else Fold(session, if IsUser(row) then StartTurn(session, s, row) else s, row)
  }

  function Run(session: Session, s: State, rows: seq<Row>): State {
    if rows == [] then s else Accept(session, Run(session, s, rows[..|rows| - 1]), rows[|rows| - 1])
  }

  function Begin(next: nat): State { State(None, next, []) }

  /** Quiet time closes an answered trailing turn. */
  function Finish(session: Session, s: State, closeTrailingOnIdle: bool): seq<Turn> {
    if s.open.Some? && closeTrailingOnIdle && session.judge.answered(s.open.value.body) then s.turns + [Closed(s.open.value)]
    else s.turns
  }

  function Users(rows: seq<Row>): nat {
    if rows == [] then 0 else Users(rows[..|rows| - 1]) + (if IsUser(rows[|rows| - 1]) then 1 else 0)
  }

  /** The rows a parse from `since` folds, and the index it starts at: the number
      of user rows at or before the cursor. */
  function After(rows: seq<Row>, since: Option<Key>): seq<Row> {
    if rows == [] then []
    else
      var last := rows[|rows| - 1];
      After(rows[..|rows| - 1], since) + (if since.Some? && AtOrBefore(last.key, since.value) then [] else [last])
  }

  function UsersUpTo(rows: seq<Row>, since: Option<Key>): nat {
    if rows == [] || since.None? then 0
    else
      var last := rows[|rows| - 1];
      UsersUpTo(rows[..|rows| - 1], since) + (if IsUser(last) && AtOrBefore(last.key, since.value) then 1 else 0)
  }

  function Parsed(session: Session, since: Option<Key>): State {
    Run(session, Begin(UsersUpTo(session.rows, since)), After(session.rows, since))
  }

  /** The loop of `parseLoadedRows`. */
  method ParseLoadedRows(session: Session, since: Option<Key>, initialTurnIndex: Option<nat>, closeTrailingOnIdle: bool)
    returns (turns: seq<Turn>)
    ensures turns == Finish(session, Run(session, Begin(if initialTurnIndex.Some? then initialTurnIndex.value
                                                        else UsersUpTo(session.rows, since)), After(session.rows, since)),
                            closeTrailingOnIdle)
  {
    hide Accept;
    var rows, turnIndex, k := session.rows, 0, 0;
    if initialTurnIndex.Some? {
      turnIndex := initialTurnIndex.value;
    } else if since.Some? {
      while k < |rows|
        invariant k <= |rows| && turnIndex == UsersUpTo(rows[..k], since)
      {
        assert rows[..k + 1][..k] == rows[..k];
        if IsUser(rows[k]) && AtOrBefore(rows[k].key, since.value) {
          turnIndex := turnIndex + 1;
        }
        k := k + 1;
      }
      assert rows[..k] == rows;
    }
    ghost var s := Begin(turnIndex);
    var openTurn: Option<OpenTurn> := None;
    turns, k := [], 0;
    while k < |rows|
      invariant k <= |rows| && State(openTurn, turnIndex, turns) == Run(session, s, After(rows[..k], since))
    {
      assert rows[..k + 1][..k] == rows[..k];
      var row := rows[k];
      ghost var before := State(openTurn, turnIndex, turns);
      ghost var kept := After(rows[..k], since);
      if since.None? || !AtOrBefore(row.key, since.value) {
        RunSnoc(session, s, kept, row);
        openTurn, turnIndex, turns := TakeRow(session, openTurn, turnIndex, turns, row);
      } else {
        assert kept + [] == kept;
      }
      k := k + 1;
    }
    assert rows[..k] == rows;
    if openTurn.Some? && closeTrailingOnIdle && session.judge.answered(openTurn.value.body) {
      turns := turns + [Closed(openTurn.value)];
    }
  }

  /** `parseSessionTurns` over every row; a cursor with a negative time is refused. */
  method ParseSessionTurns(session: Session, since: Option<Key>, closeTrailingOnIdle: bool) returns (turns: Option<seq<Turn>>)
    ensures turns.None? <==> since.Some? && since.value.time < 0
    ensures turns.Some? ==> turns.value == Finish(session, Parsed(session, since), closeTrailingOnIdle)
  {
    if since.Some? && since.value.time < 0 {
      return None;
    }
    var found := ParseLoadedRows(session, since, None, closeTrailingOnIdle);
    turns := Some(found);
  }

  method TakeRow(session: Session, open0: Option<OpenTurn>, index0: nat, turns0: seq<Turn>, row: Row)
    returns (openTurn: Option<OpenTurn>, turnIndex: nat, turns: seq<Turn>)
    ensures State(openTurn, turnIndex, turns) == Accept(session, State(open0, index0, turns0), row)
  {
    openTurn, turnIndex, turns := open0, index0, turns0;
    if !IsMessage(row) {
      return;
    }
    if row.role == Some(User) {
      if openTurn.Some? {
        if session.judge.hasContent(openTurn.value.body) {
          turns := turns + [Closed(openTurn.value)];
        }
        turnIndex := turnIndex + 1;
      }
      openTurn := Some(OpenTurn(turnIndex, [], row.key));
    }
    if openTurn.None? {
      return;
    }
    openTurn := Some(openTurn.value.(body := openTurn.value.body + [Entry(row, session.parts(row.key.id))], last := row.key));
  }

  lemma RunSnoc(session: Session, s: State, rows: seq<Row>, row: Row)
    ensures Run(session, s, rows + [row]) == Accept(session, Run(session, s, rows), row)
  {
    hide Accept;
    assert (rows + [row])[..|rows + [row]| - 1] == rows;
  }

  // ----------------------------------------------------------------------- resume

  /** Two parses in step: the same open turn, `r` having emitted what `s` has from
      its `n`-th turn on. */
  ghost predicate InStep(s: State, r: State, n: nat) {
    && s.open == r.open && s.next == r.next && n <= |s.turns| && s.turns[n..] == r.turns
  }

  lemma AcceptInStep(session: Session, s: State, r: State, n: nat, row: Row)
    requires InStep(s, r, n)
    ensures InStep(Accept(session, s, row), Accept(session, r, row), n)
  {
    if s.open.Some? {
      assert (s.turns + [Closed(s.open.value)])[n..] == s.turns[n..] + [Closed(s.open.value)];
    }
  }

  lemma {:induction false} RunInStep(session: Session, s: State, r: State, n: nat, rows: seq<Row>)
    requires InStep(s, r, n)
    ensures InStep(Run(session, s, rows), Run(session, r, rows), n)
    decreases |rows|
  {
    hide Accept;
    if rows != [] {
      var init := rows[..|rows| - 1];
      RunInStep(session, s, r, n, init);
      AcceptInStep(session, Run(session, s, init), Run(session, r, init), n, rows[|rows| - 1]);
    }
  }

  lemma {:induction false} RunSplit(session: Session, s: State, rows: seq<Row>, k: nat)
    requires k <= |rows|
    ensures Run(session, s, rows) == Run(session, Run(session, s, rows[..k]), rows[k..])
    decreases |rows|
  {
    hide Accept;
    if k == |rows| {
      assert rows[..k] == rows && rows[k..] == [];
    } else {
      var init := rows[..|rows| - 1];
      RunSplit(session, s, init, k);
      assert init[..k] == rows[..k] && init[k..] == rows[k..][..|rows[k..]| - 1];
    }
  }

  predicate LastMessageAt(rows: seq<Row>, j: int, key: Key) {
    0 <= j < |rows| && IsMessage(rows[j]) && rows[j].key == key && forall i | j < i < |rows| :: !IsMessage(rows[i])
  }

  /** After `rows` the open turn is numbered by the user rows seen, and its last
      message is theirs. */
  ghost predicate Counted(s: State, rows: seq<Row>) {
    && s.next == (if s.open.None? then 0 else Users(rows) - 1) && (s.open.None? <==> Users(rows) == 0)
    && (s.open.Some? ==> s.open.value.index == s.next && exists j :: LastMessageAt(rows, j, s.open.value.last))
  }

  lemma AcceptCounts(session: Session, s: State, rows: seq<Row>, row: Row)
    requires Counted(s, rows)
    ensures Counted(Accept(session, s, row), rows + [row])
  {
    var all, t := rows + [row], Accept(session, s, row);
    assert all[..|all| - 1] == rows;
    if IsMessage(row) {
      assert LastMessageAt(all, |rows|, row.key);
    } else if s.open.Some? {
      var j :| LastMessageAt(rows, j, s.open.value.last);
      assert LastMessageAt(all, j, s.open.value.last);
    }
  }

  lemma {:induction false} RunCounts(session: Session, rows: seq<Row>)
    ensures Counted(Run(session, Begin(0), rows), rows)
    decreases |rows|
  {
    hide Accept;
    hide Counted;
    if rows == [] {
      assert Counted(Begin(0), []) by { NothingCounted(); }
    } else {
      var init := rows[..|rows| - 1];
      RunCounts(session, init);
      AcceptCounts(session, Run(session, Begin(0), init), init, rows[|rows| - 1]);
      assert init + [rows[|rows| - 1]] == rows;
    }
  }

  lemma NothingCounted()
    ensures Counted(Begin(0), [])
  {
  }

  /** Which user row emitted turn `i`. */
  lemma {:induction false} EmittedWhere(session: Session, rows: seq<Row>, i: nat) returns (k: nat)
    requires i < |Run(session, Begin(0), rows).turns|
    ensures k < |rows| && IsUser(rows[k])
    ensures var s := Run(session, Begin(0), rows[..k]);
            && s.open.Some? && |s.turns| == i && session.judge.hasContent(s.open.value.body)
            && Run(session, Begin(0), rows).turns[i] == Closed(s.open.value)
            && Run(session, Begin(0), rows[..k + 1]) == Accept(session, s, rows[k])
    decreases |rows|
  {
    var init := rows[..|rows| - 1];
    var s := Run(session, Begin(0), init);
    if i < |s.turns| {
      k := EmittedWhere(session, init, i);
      assert init[..k] == rows[..k] && init[..k + 1] == rows[..k + 1];
    } else {
      k := |rows| - 1;
      assert rows[..k + 1] == rows;
    }
  }

  lemma {:induction false} AfterSuffix(rows: seq<Row>, since: Key, k: nat)
    requires k <= |rows|
    requires forall i | 0 <= i < |rows| :: AtOrBefore(rows[i].key, since) <==> i < k
    ensures After(rows, Some(since)) == rows[k..] && UsersUpTo(rows, Some(since)) == Users(rows[..k])
    decreases |rows|
  {
    hide AtOrBefore;
    hide IsUser;
    if rows != [] {
      var init, last := rows[..|rows| - 1], rows[|rows| - 1];
      var j := if k == |rows| then k - 1 else k;
      forall i | 0 <= i < |init| ensures AtOrBefore(init[i].key, since) <==> i < j {
        assert init[i] == rows[i];
      }
      AfterSuffix(init, since, j);
      if k == |rows| {
        assert rows[..k] == rows && init[..j] == init;
      } else {
        assert rows[k..] == init[k..] + [last] && rows[..k] == init[..k];
      }
    }
  }

  lemma OrderedBefore(rows: seq<Row>, j: nat, cursor: Key)
    requires Ordered(rows) && j < |rows| && rows[j].key == cursor
    ensures forall i | 0 <= i < |rows| :: AtOrBefore(rows[i].key, cursor) <==> i < j + 1
  {
    forall i | 0 <= i < |rows| ensures AtOrBefore(rows[i].key, cursor) <==> i < j + 1 {
      if i > j {
        assert !AtOrBefore(rows[i].key, rows[j].key);
      } else if i < j {
        assert !AtOrBefore(rows[j].key, rows[i].key);
      }
    }
  }

  lemma {:induction false} SkipNonMessages(session: Session, s: State, rows: seq<Row>)
    requires forall i | 0 <= i < |rows| :: !IsMessage(rows[i])
    ensures Run(session, s, rows) == s && Users(rows) == 0
    decreases |rows|
  {
    if rows != [] {
      SkipNonMessages(session, s, rows[..|rows| - 1]);
    }
  }

  lemma {:induction false} UsersSplit(rows: seq<Row>, k: nat)
    requires k <= |rows|
    ensures Users(rows) == Users(rows[..k]) + Users(rows[k..])
    decreases |rows|
  {
    if k == |rows| {
      assert rows[..k] == rows && rows[k..] == [];
    } else {
      var init := rows[..|rows| - 1];
      UsersSplit(init, k);
      assert init[..k] == rows[..k] && init[k..] == rows[k..][..|rows[k..]| - 1];
    }
  }

  /** The parse resumed at a closed turn's cursor, and the full one, meet at the user
      row that closed it. */
  lemma ResumeMeets(session: Session, i: nat) returns (k: nat)
    requires Ordered(session.rows) && i < |Run(session, Begin(0), session.rows).turns|
    ensures k < |session.rows|
    ensures var since := Some(Run(session, Begin(0), session.rows).turns[i].cursor);
            && |After(session.rows, since)| >= |session.rows| - k
            && session.rows[k + 1..] == After(session.rows, since)[|After(session.rows, since)| - (|session.rows| - k - 1)..]
            && InStep(Run(session, Begin(0), session.rows[..k + 1]),
                      Run(session, Begin(UsersUpTo(session.rows, since)),
                          After(session.rows, since)[..|After(session.rows, since)| - (|session.rows| - k - 1)]), i + 1)
  {
    hide Run;
    hide Users;
    hide After;
    hide UsersUpTo;
    hide Counted;
    var rows := session.rows;
    k := EmittedWhere(session, rows, i);
    var s := Run(session, Begin(0), rows[..k]);
    var cursor := s.open.value.last;
    RunCounts(session, rows[..k]);
    var j := LastMessage(session, s, rows[..k]);
    OrderedBefore(rows, j, cursor);
    AfterSuffix(rows, cursor, j + 1);
    var tail := rows[j + 1..];
    assert tail[..k - j] == rows[j + 1..k] + [rows[k]];
    assert rows[j + 1..k] == rows[..k][j + 1..];
    SkipNonMessages(session, Begin(Users(rows[..j + 1])), rows[j + 1..k]);
    UsersSplit(rows[..k], j + 1);
    assert rows[..k][..j + 1] == rows[..j + 1];
    RunSnoc(session, Begin(Users(rows[..j + 1])), rows[j + 1..k], rows[k]);
    CountedIndex(s, rows[..k]);
  }

  lemma CountedIndex(s: State, rows: seq<Row>)
    requires Counted(s, rows) && s.open.Some?
    ensures s.next == Users(rows) - 1 && Users(rows) > 0 && s.open.value.index == s.next
  {
  }

  lemma LastMessage(session: Session, s: State, rows: seq<Row>) returns (j: nat)
    requires Counted(s, rows) && s.open.Some?
    ensures j < |rows| && rows[j].key == s.open.value.last && forall i | j < i < |rows| :: !IsMessage(rows[i])
  {
    j :| LastMessageAt(rows, j, s.open.value.last);
  }

  /** Resuming at any turn a user message closed gives exactly the remaining turns
      with the same indexes and bodies, idle close included, although the index is
      counted again from the rows. */
  lemma ResumingCountsTheSame(session: Session, i: nat, closeTrailingOnIdle: bool)
    requires Ordered(session.rows) && i < |Parsed(session, None).turns|
    ensures var full := Parsed(session, None);
            var resumed := Parsed(session, Some(full.turns[i].cursor));
            && resumed.turns == full.turns[i + 1..] && resumed.open == full.open
            && Finish(session, resumed, closeTrailingOnIdle) == Finish(session, full, closeTrailingOnIdle)[i + 1..]
  {
    hide Accept;
    AfterAll(session.rows);
    var rows := session.rows;
    var since := Some(Run(session, Begin(0), rows).turns[i].cursor);
    var k := ResumeMeets(session, i);
    var tail := After(rows, since);
    var cut := |tail| - (|rows| - k - 1);
    RunSplit(session, Begin(0), rows, k + 1);
    RunSplit(session, Begin(UsersUpTo(rows, since)), tail, cut);
    RunInStep(session, Run(session, Begin(0), rows[..k + 1]),
              Run(session, Begin(UsersUpTo(rows, since)), tail[..cut]), i + 1, rows[k + 1..]);
  }

  lemma {:induction false} AfterAll(rows: seq<Row>)
    ensures After(rows, None) == rows && UsersUpTo(rows, None) == 0
    decreases |rows|
  {
    if rows != [] {
      AfterAll(rows[..|rows| - 1]);
      assert rows[..|rows| - 1] + [rows[|rows| - 1]] == rows;
    }
  }

  // ------------------------------------------------------------------ what a turn holds

  /** The messages among `rows`, with their parts. */
  function Entries(session: Session, rows: seq<Row>): seq<Entry> {
    if rows == [] then []
    else
      var last := rows[|rows| - 1];
      Entries(session, rows[..|rows| - 1]) + (if IsMessage(last) then [Entry(last, session.parts(last.key.id))] else [])
  }

  /** rows[b] is the last user message. */
  ghost predicate LastUser(rows: seq<Row>, b: nat) {
    b < |rows| && IsUser(rows[b]) && forall j | b < j < |rows| :: !IsUser(rows[j])
  }

  ghost predicate OpenHolds(session: Session, rows: seq<Row>, s: State, b: nat) {
    if s.open.None? then Users(rows) == 0
    else LastUser(rows, b) && s.open.value.body == Entries(session, rows[b..])
  }

  lemma {:induction false} OpenTurnHolds(session: Session, next: nat, rows: seq<Row>) returns (b: nat)
    ensures OpenHolds(session, rows, Run(session, Begin(next), rows), b)
    decreases |rows|
  {
    b := 0;
    if rows != [] {
      var init, row := rows[..|rows| - 1], rows[|rows| - 1];
      b := OpenTurnHolds(session, next, init);
      if IsUser(row) {
        b := |init|;
        assert rows[b..] == [row] && [row][..0] == [];
      } else if Run(session, Begin(next), init).open.Some? {
        assert rows[b..][..|rows[b..]| - 1] == init[b..];
        forall j | b < j < |rows| ensures !IsUser(rows[j]) {
          assert j < |init| ==> rows[j] == init[j];
        }
        assert rows[b] == init[b];
      }
    }
  }

  /** Every turn emitted at a user message holds exactly the messages from the user
      message before it up to that one, with their parts, in order. */
  lemma EmittedTurnHolds(session: Session, rows: seq<Row>, i: nat) returns (b: nat, k: nat)
    requires i < |Run(session, Begin(0), rows).turns|
    ensures b < k < |rows| && IsUser(rows[k]) && LastUser(rows[..k], b)
    ensures Run(session, Begin(0), rows).turns[i].body == Entries(session, rows[b..k])
  {
    k := EmittedWhere(session, rows, i);
    b := OpenTurnHolds(session, 0, rows[..k]);
    assert rows[..k][b..] == rows[b..k];
  }

  // --------------------------------------------------------- which turns, and all of them

  /** Where the last user message stands. */
  function LastUserAt(rows: seq<Row>): nat
    requires Users(rows) > 0
    ensures LastUserAt(rows) < |rows|
  {
    if IsUser(rows[|rows| - 1]) then |rows| - 1 else LastUserAt(rows[..|rows| - 1])
  }

  /** What the last user message and the rows behind it come to: their messages,
      numbered by the user messages before it, up to the key of the last one. */
  function LastStretch(session: Session, rows: seq<Row>, next: nat): Turn
    requires Users(rows) > 0 && Entries(session, rows[LastUserAt(rows)..]) != []
  {
    var body := Entries(session, rows[LastUserAt(rows)..]);
    Turn(next + Users(rows) - 1, body, body[|body| - 1].row.key)
  }

  predicate Stretched(session: Session, rows: seq<Row>) {
    Users(rows) > 0 && Entries(session, rows[LastUserAt(rows)..]) != []
  }

  /** The turns rows call for: at each user message that follows another, what stands
      between the two, if it has content. */
  function TurnsOf(session: Session, rows: seq<Row>, next: nat): seq<Turn> {
    if rows == [] then []
    else
      var init := rows[..|rows| - 1];
      TurnsOf(session, init, next)
      + if IsUser(rows[|rows| - 1]) && Stretched(session, init) && session.judge.hasContent(LastStretch(session, init, next).body)
        then [LastStretch(session, init, next)] else []
  }

  ghost predicate AtStretch(session: Session, rows: seq<Row>, next: nat, s: State) {
    && s.turns == TurnsOf(session, rows, next)
    && if Users(rows) == 0 then s.open.None? && s.next == next
       else && Stretched(session, rows) && s.next == next + Users(rows) - 1
            && s.open == Some(OpenTurn(s.next, LastStretch(session, rows, next).body, LastStretch(session, rows, next).cursor))
  }

  lemma OneEntry(session: Session, row: Row)
    requires IsMessage(row)
    ensures Entries(session, [row]) == [Entry(row, session.parts(row.key.id))]
  {
    assert [row][..0] == [];
  }

  lemma EntriesSnoc(session: Session, rows: seq<Row>, row: Row)
    ensures Entries(session, rows + [row])
         == Entries(session, rows) + if IsMessage(row) then [Entry(row, session.parts(row.key.id))] else []
  {
    assert (rows + [row])[..|rows|] == rows;
  }

  lemma StretchGrows(session: Session, rows: seq<Row>, row: Row)
    requires Users(rows) > 0 && !IsUser(row)
    ensures var b := LastUserAt(rows);
            && Users(rows + [row]) == Users(rows) && LastUserAt(rows + [row]) == b
            && Entries(session, (rows + [row])[b..])
               == Entries(session, rows[b..]) + if IsMessage(row) then [Entry(row, session.parts(row.key.id))] else []
  {
    assert (rows + [row])[..|rows|] == rows;
    EntriesSnoc(session, rows[LastUserAt(rows)..], row);
    assert (rows + [row])[LastUserAt(rows)..] == rows[LastUserAt(rows)..] + [row];
  }

  lemma UserStep(session: Session, rows: seq<Row>, next: nat, s: State, row: Row)
    requires AtStretch(session, rows, next, s) && IsUser(row)
    ensures AtStretch(session, rows + [row], next, Accept(session, s, row))
  {
    hide Entries;
    var all := rows + [row];
    assert all[..|rows|] == rows && all[|rows|..] == [row];
    OneEntry(session, row);
    assert [] + [Entry(row, session.parts(row.key.id))] == [Entry(row, session.parts(row.key.id))];
    assert TurnsOf(session, rows, next) + [] == TurnsOf(session, rows, next);
  }

  lemma OtherStep(session: Session, rows: seq<Row>, next: nat, s: State, row: Row)
    requires AtStretch(session, rows, next, s) && !IsUser(row)
    ensures AtStretch(session, rows + [row], next, Accept(session, s, row))
  {
    hide Entries;
    hide LastUserAt;
    var all := rows + [row];
    assert all[..|rows|] == rows;
    assert TurnsOf(session, all, next) == TurnsOf(session, rows, next);
    if Users(rows) > 0 {
      StretchGrows(session, rows, row);
      var body := LastStretch(session, rows, next).body;
      assert body + [] == body;
      assert Stretched(session, all);
      assert LastStretch(session, all, next).index == LastStretch(session, rows, next).index;
    } else {
      assert Users(all) == 0;
    }
  }

  lemma {:induction false} RunAtStretch(session: Session, rows: seq<Row>, next: nat)
    ensures AtStretch(session, rows, next, Run(session, Begin(next), rows))
    decreases |rows|
  {
    hide AtStretch;
    if rows == [] {
      NothingStretched(session, next);
    } else {
      var init, row := rows[..|rows| - 1], rows[|rows| - 1];
      RunAtStretch(session, init, next);
      assert init + [row] == rows;
      if IsUser(row) {
        UserStep(session, init, next, Run(session, Begin(next), init), row);
      } else {
        OtherStep(session, init, next, Run(session, Begin(next), init), row);
      }
    }
  }

  lemma NothingStretched(session: Session, next: nat)
    ensures AtStretch(session, [], next, Begin(next))
  {
  }

  /** The parse gives exactly the turns its rows call for: of each stretch from a user
      message to the next, numbered by the stretches before it, if it has content; and
      the last stretch, when quiet time is to close it, if the assistant has answered. */
  lemma TurnsAreStretches(session: Session, rows: seq<Row>, next: nat, closeTrailingOnIdle: bool)
    ensures Users(rows) > 0 ==> Stretched(session, rows)
    ensures Finish(session, Run(session, Begin(next), rows), closeTrailingOnIdle)
         == TurnsOf(session, rows, next)
            + if Users(rows) > 0 && closeTrailingOnIdle && session.judge.answered(LastStretch(session, rows, next).body)
              then [LastStretch(session, rows, next)] else []
  {
    hide Accept;
    hide TurnsOf;
    RunAtStretch(session, rows, next);
    assert TurnsOf(session, rows, next) + [] == TurnsOf(session, rows, next);
  }
}

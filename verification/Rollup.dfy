/** The rollup watermark protocol (src/daemon/rollup-service.ts,
    src/storage/rollup-store.ts): calls of any number of processes merging batches
    of one session's turns into one stored row, step by step. */
module Rollup {
  import opened Reading

  type Caller = nat

  /** One turn's contribution, and the prompt version it was merged under. */
  datatype Piece = Piece(turn: nat, version: nat)

  /** What merged content accounts for. Decisions and instructions are read back from
      the store after each write, one after the other; `told` is the rest. */
  datatype Content = Content(told: seq<Piece>, decisions: seq<Piece>, instructions: seq<Piece>)

  datatype Row = Row(content: Content, watermark: nat, version: nat)

  datatype Stage = Checking | Summarizing | ReadingDecisions | ReadingInstructions

  /** A call in progress: its prompt version, the watermark its next write expects,
      what it carries, the batches left, and the stamp of the stale row it rebuilds. */
  datatype Call = Call(version: nat, expected: Option<nat>, carry: Content, rest: seq<seq<nat>>, oldStamp: Option<nat>, stage: Stage)

  /** Stored turns in ascending order, the stored row, and the calls in progress. */
  datatype System = System(turns: seq<nat>, row: Option<Row>, calls: map<Caller, Call>)

  datatype Event =
    | Capture(turn: nat)
    | Begin(caller: Caller, version: nat, batches: seq<seq<nat>>)
    | Check(caller: Caller)
    | Write(caller: Caller)
    | ReadDecisions(caller: Caller)
    | ReadInstructions(caller: Caller)
    | Stop(caller: Caller)

  function Pieces(turns: seq<nat>, version: nat): seq<Piece> {
    seq(|turns|, i requires 0 <= i < |turns| => Piece(turns[i], version))
  }

  function Turns(pieces: seq<Piece>): seq<nat> {
    seq(|pieces|, i requires 0 <= i < |pieces| => pieces[i].turn)
  }

  function Flat(batches: seq<seq<nat>>): seq<nat> {
    if batches == [] then [] else batches[0] + Flat(batches[1..])
  }

  /** Turns behind the watermark: what is still to roll up. */
  function Fresh(turns: seq<nat>, watermark: Option<nat>): seq<nat> {
    if turns == [] then []
    else
      var last := turns[|turns| - 1];
      Fresh(turns[..|turns| - 1], watermark) + (if watermark.None? || last > watermark.value then [last] else [])
  }

  /** Batches are an ordered partition of what is fresh. */
  predicate Partitions(batches: seq<seq<nat>>, left: seq<nat>) {
    Flat(batches) == left && forall batch | batch in batches :: batch != []
  }

  /** The row a call builds on: the stored one unless another version wrote it. */
  function Existing(row: Option<Row>, version: nat): Option<Row> {
    if row.Some? && row.value.version == version then row else None
  }

  function Started(row: Option<Row>, version: nat, batches: seq<seq<nat>>): Call {
    var existing := Existing(row, version);
    Call(version, if existing.Some? then Some(existing.value.watermark) else None,
         if existing.Some? then existing.value.content else Content([], [], []), batches,
         if row.Some? && existing.None? then Some(row.value.version) else None, Checking)
  }

  /** The row a call writes with its next batch. */
  function NextRow(c: Call): Row
    requires c.rest != [] && c.rest[0] != []
  {
    var batch := Pieces(c.rest[0], c.version);
    Row(Content(c.carry.told + batch, c.carry.decisions + batch, c.carry.instructions + batch), c.rest[0][|c.rest[0]| - 1],
        if c.oldStamp.None? || |c.rest| == 1 then c.version else c.oldStamp.value)
  }

  /** The call once that row has landed, and as it reads the stored row back. */
  function Landed(c: Call): Call
    requires c.rest != [] && c.rest[0] != []
  {
    c.(expected := Some(NextRow(c).watermark), carry := NextRow(c).content, rest := c.rest[1..], stage := ReadingDecisions)
  }

  function WithDecisions(c: Call, row: Option<Row>): Call {
    c.(carry := if row.Some? then c.carry.(decisions := row.value.content.decisions) else c.carry, stage := ReadingInstructions)
  }

  function WithInstructions(c: Call, row: Option<Row>): Call {
    c.(carry := if row.Some? then c.carry.(instructions := row.value.content.instructions) else c.carry, stage := Checking)
  }

  /** Does the store take a write? A first write replaces any row; a later one only
      the row whose watermark it expects. */
  predicate Takes(row: Option<Row>, expected: Option<nat>) {
    expected.None? || (row.Some? && row.value.watermark == expected.value)
  }

  predicate Writing(c: Call) { c.stage.Summarizing? && c.rest != [] && c.rest[0] != [] }

  function Without(calls: map<Caller, Call>, caller: Caller): map<Caller, Call> {
    calls - {caller}
  }

  /** One step; a step that is not possible changes nothing. */
  function Step(s: System, e: Event): System {
    match e
    case Capture(turn) => if s.turns == [] || turn > s.turns[|s.turns| - 1] then s.(turns := s.turns + [turn]) else s
    case Begin(caller, version, batches) =>
      var watermark := if Existing(s.row, version).Some? then Some(s.row.value.watermark) else None;
      if caller in s.calls || batches == [] || !Partitions(batches, Fresh(s.turns, watermark)) then s
      else s.(calls := s.calls[caller := Started(s.row, version, batches)])
    case Check(caller) =>
      if caller !in s.calls || !s.calls[caller].stage.Checking? then s
      else if !Takes(s.row, s.calls[caller].expected) then s.(calls := Without(s.calls, caller))
      else s.(calls := s.calls[caller := s.calls[caller].(stage := Summarizing)])
    case Write(caller) =>
      if caller !in s.calls || !Writing(s.calls[caller]) then s
      else if !Takes(s.row, s.calls[caller].expected) then s.(calls := Without(s.calls, caller))
      else System(s.turns, Some(NextRow(s.calls[caller])), s.calls[caller := Landed(s.calls[caller])])
    case ReadDecisions(caller) =>
      if caller !in s.calls || !s.calls[caller].stage.ReadingDecisions? then s
      else if s.calls[caller].rest == [] then s.(calls := Without(s.calls, caller))
      else s.(calls := s.calls[caller := WithDecisions(s.calls[caller], s.row)])
    case ReadInstructions(caller) =>
      if caller !in s.calls || !s.calls[caller].stage.ReadingInstructions? then s
      else if s.calls[caller].rest == [] then s.(calls := Without(s.calls, caller))
      else s.(calls := s.calls[caller := WithInstructions(s.calls[caller], s.row)])
    case Stop(caller) => s.(calls := Without(s.calls, caller))
  }

  function Run(s: System, es: seq<Event>): System {
    if es == [] then s else Step(Run(s, es[..|es| - 1]), es[|es| - 1])
  }

  // ----------------------------------------------------------------------- coverage

  ghost predicate Ascending(turns: seq<nat>) {
    forall i, j | 0 <= i < j < |turns| :: turns[i] < turns[j]
  }

  /** Content accounts for exactly the first `n` turns, each once. */
  ghost predicate Accounts(turns: seq<nat>, content: Content, n: nat) {
    && n <= |turns| && Turns(content.told) == turns[..n]
    && Turns(content.decisions) == turns[..n] && Turns(content.instructions) == turns[..n]
  }

  /** A row accounts for exactly the turns up to its watermark. */
  ghost predicate RowCovers(turns: seq<nat>, row: Row) {
    exists n: nat :: 0 < n && Accounts(turns, row.content, n) && row.watermark == turns[n - 1]
  }

  /** A call carries exactly the turns up to the watermark it expects, and its
      batches are the turns that follow. */
  ghost predicate CallAt(turns: seq<nat>, c: Call, n: nat, m: nat) {
    && n <= m <= |turns| && Accounts(turns, c.carry, n) && (if n == 0 then c.expected.None? else c.expected == Some(turns[n - 1]))
    && Partitions(c.rest, turns[n..m]) && (c.rest == [] ==> c.stage.ReadingDecisions?)
  }

  ghost predicate CallCovers(turns: seq<nat>, c: Call) {
    exists n: nat, m: nat :: CallAt(turns, c, n, m)
  }

  ghost predicate Covered(s: System) {
    && Ascending(s.turns)
    && (s.row.Some? ==> RowCovers(s.turns, s.row.value))
    && forall caller | caller in s.calls :: CallCovers(s.turns, s.calls[caller])
  }

  /** The steps in which a call with batches left takes over what the store holds. */
  predicate ReadsBack(s: System, e: Event) {
    && (e.ReadDecisions? || e.ReadInstructions?) && e.caller in s.calls && s.calls[e.caller].rest != []
    && if e.ReadDecisions? then s.calls[e.caller].stage.ReadingDecisions? else s.calls[e.caller].stage.ReadingInstructions?
  }

  /** A row read back still has the watermark the next write expects. */
  predicate Undisturbed(s: System, e: Event) {
    ReadsBack(s, e) && s.row.Some? ==> Some(s.row.value.watermark) == s.calls[e.caller].expected
  }

  ghost predicate CoveredThroughout(s: System, es: seq<Event>) {
    forall k | 0 <= k <= |es| :: Covered(Run(s, es[..k]))
  }

  ghost predicate UndisturbedThroughout(s: System, es: seq<Event>) {
    forall k | 0 <= k < |es| :: Undisturbed(Run(s, es[..k]), es[k])
  }

  lemma {:induction false} FreshIs(turns: seq<nat>, n: nat)
    requires Ascending(turns) && n <= |turns|
    ensures Fresh(turns, if n == 0 then None else Some(turns[n - 1])) == turns[n..]
    decreases |turns|
  {
    var watermark := if n == 0 then None else Some(turns[n - 1]);
    if turns != [] {
      var init, last := turns[..|turns| - 1], turns[|turns| - 1];
      if n == |turns| {
        NothingFresh(turns, turns[n - 1]);
      } else {
        FreshIs(init, n);
        assert turns[n..] == init[n..] + [last];
        assert n > 0 ==> turns[n - 1] < last;
      }
    }
  }

  lemma {:induction false} NothingFresh(turns: seq<nat>, watermark: nat)
    requires forall k | 0 <= k < |turns| :: turns[k] <= watermark
    requires Ascending(turns) && turns != [] ==> turns[|turns| - 1] <= watermark
    ensures Fresh(turns, Some(watermark)) == []
    decreases |turns|
  {
    if turns != [] {
      NothingFresh(turns[..|turns| - 1], watermark);
    }
  }

  /** A later call builds on a row of its own version alone, and is handed exactly the
      turns that does not account for: all of them when there is no such row. */
  lemma ResumesWithTheRest(turns: seq<nat>, row: Option<Row>, version: nat) returns (n: nat)
    requires Ascending(turns) && (row.Some? ==> RowCovers(turns, row.value))
    ensures n <= |turns|
    ensures Fresh(turns, if row.Some? && row.value.version == version then Some(row.value.watermark) else None) == turns[n..]
    ensures Existing(row, version) == if row.Some? && row.value.version == version then row else None
    ensures if row.Some? && row.value.version == version
            then Accounts(turns, row.value.content, n) && n > 0 && row.value.watermark == turns[n - 1]
            else n == 0
  {
    n := 0;
    if row.Some? && row.value.version == version {
      n :| 0 < n && Accounts(turns, row.value.content, n) && row.value.watermark == turns[n - 1];
    }
    FreshIs(turns, n);
  }

  lemma CaptureCovered(s: System, turn: nat)
    requires Covered(s)
    ensures Covered(Step(s, Capture(turn)))
  {
    var t := Step(s, Capture(turn));
    if t != s {
      forall n: nat | n <= |s.turns| ensures t.turns[..n] == s.turns[..n] {
      }
      if s.row.Some? {
        var n: nat :| 0 < n && Accounts(s.turns, s.row.value.content, n) && s.row.value.watermark == s.turns[n - 1];
        assert Accounts(t.turns, s.row.value.content, n);
      }
      forall caller | caller in t.calls ensures CallCovers(t.turns, t.calls[caller]) {
        var c := s.calls[caller];
        var n: nat, m: nat :| CallAt(s.turns, c, n, m);
        assert t.turns[n..m] == s.turns[n..m];
        assert CallAt(t.turns, c, n, m);
      }
    }
  }

  /** A call starts on exactly what its row accounts for, with the rest to do. */
  lemma StartedCovers(turns: seq<nat>, row: Option<Row>, version: nat, batches: seq<seq<nat>>) returns (n: nat)
    requires Ascending(turns) && (row.Some? ==> RowCovers(turns, row.value)) && batches != []
    requires Partitions(batches, Fresh(turns, if Existing(row, version).Some? then Some(row.value.watermark) else None))
    ensures CallAt(turns, Started(row, version, batches), n, |turns|)
  {
    hide Ascending;
    hide Partitions;
    hide Fresh;
    n := ResumesWithTheRest(turns, row, version);
    assert turns[n..|turns|] == turns[n..];
    assert Accounts(turns, Started(row, version, batches).carry, n);
  }

  lemma BeginCovered(s: System, caller: Caller, version: nat, batches: seq<seq<nat>>)
    requires Covered(s)
    ensures Covered(Step(s, Begin(caller, version, batches)))
  {
    hide Ascending;
    hide RowCovers;
    hide CallAt;
    hide Partitions;
    hide Fresh;
    hide Started;
    var t := Step(s, Begin(caller, version, batches));
    if t != s {
      var _ := StartedCovers(s.turns, s.row, version, batches);
    }
  }

  lemma TurnsAppend(told: seq<Piece>, turns: seq<nat>, version: nat)
    ensures Turns(told + Pieces(turns, version)) == Turns(told) + turns
  {
  }

  /** A call's write accounts for exactly the turns up to its batch's last. */
  lemma NextRowCovers(turns: seq<nat>, c: Call, n: nat, m: nat)
    requires Ascending(turns) && CallAt(turns, c, n, m) && c.rest != []
    ensures c.rest[0] != [] && RowCovers(turns, NextRow(c)) && CallAt(turns, Landed(c), n + |c.rest[0]|, m)
  {
    hide Ascending;
    var batch, next := c.rest[0], n + |c.rest[0]|;
    assert batch in c.rest;
    assert turns[n..m] == batch + Flat(c.rest[1..]);
    assert turns[n..m][..|batch|] == batch && turns[n..next] == batch && turns[next..m] == Flat(c.rest[1..]);
    assert turns[..next] == turns[..n] + batch && batch[|batch| - 1] == turns[next - 1];
    TurnsAppend(c.carry.told, batch, c.version);
    TurnsAppend(c.carry.decisions, batch, c.version);
    TurnsAppend(c.carry.instructions, batch, c.version);
    assert Accounts(turns, NextRow(c).content, next);
    assert forall b | b in c.rest[1..] :: b in c.rest;
    assert Partitions(c.rest[1..], turns[next..m]);
  }

  lemma WriteCovered(s: System, caller: Caller)
    requires Covered(s)
    ensures Covered(Step(s, Write(caller)))
  {
    hide Ascending;
    hide RowCovers;
    hide CallAt;
    var t := Step(s, Write(caller));
    if t.row != s.row || (caller in t.calls && t.calls[caller] != s.calls[caller]) {
      var c := s.calls[caller];
      var n: nat, m: nat :| CallAt(s.turns, c, n, m);
      NextRowCovers(s.turns, c, n, m);
    }
    forall other | other in t.calls ensures CallCovers(t.turns, t.calls[other]) {
      if other != caller { assert CallCovers(s.turns, s.calls[other]); }
    }
  }

  /** A call the stored row has moved on from, or lost, stops at its next check or
      write, and changes nothing; so does one that is stopped. */
  lemma OvertakenCallStops(s: System, e: Event)
    requires (e.Check? || e.Write? || e.Stop?) && e.caller in s.calls
    requires e.Check? ==> s.calls[e.caller].stage.Checking?
    requires e.Write? ==> Writing(s.calls[e.caller])
    requires !e.Stop? ==> s.calls[e.caller].expected.Some?
    requires !e.Stop? && s.row.Some? ==> s.row.value.watermark != s.calls[e.caller].expected.value
    ensures Step(s, e) == s.(calls := map other | other in s.calls && other != e.caller :: s.calls[other])
  {
  }

  /** A later write lands on the row whose watermark it expects, and moves it on. */
  lemma WatermarkAdvances(s: System, caller: Caller)
    requires Covered(s) && caller in s.calls && Writing(s.calls[caller]) && s.calls[caller].expected.Some?
    requires s.row.Some? && s.row.value.watermark == s.calls[caller].expected.value
    ensures var t := Step(s, Write(caller));
            && t.row.Some? && t.row.value.watermark > s.row.value.watermark && RowCovers(s.turns, t.row.value)
            && t.turns == s.turns && t.calls.Keys == s.calls.Keys
            && t.calls[caller].expected == Some(t.row.value.watermark)
            && forall other | other in s.calls && other != caller :: t.calls[other] == s.calls[other]
  {
    hide RowCovers;
    hide CallAt;
    var c := s.calls[caller];
    var n: nat, m: nat :| CallAt(s.turns, c, n, m);
    NextRowCovers(s.turns, c, n, m);
    LaterWatermark(s.turns, c, n, m);
  }

  lemma LaterWatermark(turns: seq<nat>, c: Call, n: nat, m: nat)
    requires Ascending(turns) && CallAt(turns, c, n, m) && c.rest != [] && c.expected.Some?
    ensures c.rest[0] != [] && NextRow(c).watermark > c.expected.value
  {
    var batch := c.rest[0];
    assert batch in c.rest;
    assert turns[n..m] == batch + Flat(c.rest[1..]);
    assert turns[n..m][|batch| - 1] == batch[|batch| - 1] == turns[n + |batch| - 1];
  }

  /** Of two calls that expect the same row, only the first to write lands. */
  lemma OnlyOneLands(s: System, a: Caller, b: Caller)
    requires Covered(s) && a != b && a in s.calls && b in s.calls && Writing(s.calls[a]) && Writing(s.calls[b])
    requires s.calls[a].expected.Some? && s.calls[b].expected == s.calls[a].expected
    ensures var t := Step(s, Write(a)); var u := Step(t, Write(b)); u.row == t.row && b !in u.calls
  {
    hide Covered;
    hide Step;
    var t := Step(s, Write(a));
    if s.row.Some? && s.row.value.watermark == s.calls[a].expected.value {
      WatermarkAdvances(s, a);
    } else {
      OvertakenCallStops(s, Write(a));
    }
    OvertakenCallStops(t, Write(b));
  }

  lemma CheckCovered(s: System, e: Event)
    requires Covered(s) && (e.Check? || e.Stop? || ((e.ReadDecisions? || e.ReadInstructions?) && !ReadsBack(s, e)))
    ensures Covered(Step(s, e))
  {
    hide Ascending;
    hide RowCovers;
    hide Accounts;
    hide Partitions;
    var t := Step(s, e);
    forall other | other in t.calls ensures CallCovers(t.turns, t.calls[other]) {
      var c := s.calls[other];
      var n: nat, m: nat :| CallAt(s.turns, c, n, m);
      assert CallAt(t.turns, t.calls[other], n, m);
    }
  }

  /** Reading back leaves a call on what it accounts for just when the row read has
      the watermark it expects. */
  lemma ReadBackCovers(turns: seq<nat>, c: Call, row: Row)
    requires Ascending(turns) && CallCovers(turns, c) && RowCovers(turns, row) && c.rest != []
    ensures CallCovers(turns, WithDecisions(c, Some(row))) <==> Some(row.watermark) == c.expected
    ensures CallCovers(turns, WithInstructions(c, Some(row))) <==> Some(row.watermark) == c.expected
  {
    hide Partitions;
    var n: nat, m: nat :| CallAt(turns, c, n, m);
    var k: nat :| 0 < k && Accounts(turns, row.content, k) && row.watermark == turns[k - 1];
    assert |turns[..n]| == n && |turns[..k]| == k;
    var decided, instructed := WithDecisions(c, Some(row)), WithInstructions(c, Some(row));
    if n == k {
      assert CallAt(turns, decided, n, m) && CallAt(turns, instructed, n, m);
    } else {
      forall i: nat, j: nat ensures !CallAt(turns, decided, i, j) && !CallAt(turns, instructed, i, j) {
        assert i <= |turns| ==> |turns[..i]| == i;
      }
    }
  }

  lemma ReadBackCovered(s: System, e: Event)
    requires Covered(s) && ReadsBack(s, e)
    ensures Covered(Step(s, e)) <==> Undisturbed(s, e)
  {
    hide Ascending;
    hide RowCovers;
    hide Accounts;
    hide Partitions;
    var t, c := Step(s, e), s.calls[e.caller];
    if s.row.Some? {
      hide CallAt;
      ReadBackCovers(s.turns, c, s.row.value);
    } else {
      var n: nat, m: nat :| CallAt(s.turns, c, n, m);
      assert CallAt(t.turns, t.calls[e.caller], n, m);
    }
    hide CallCovers;
    assert Covered(t) <==> CallCovers(t.turns, t.calls[e.caller]);
  }

  /** One step keeps coverage just when it reads back no row with another watermark. */
  lemma StepCovered(s: System, e: Event)
    requires Covered(s)
    ensures Covered(Step(s, e)) <==> Undisturbed(s, e)
  {
    hide Step;
    hide Covered;
    match e
    case Capture(turn) => CaptureCovered(s, turn);
    case Begin(caller, v, batches) => BeginCovered(s, caller, v, batches);
    case Write(caller) => WriteCovered(s, caller);
    case _ => if ReadsBack(s, e) { ReadBackCovered(s, e); } else { CheckCovered(s, e); }
  }

  /** Coverage equals watermark: over every interleaving of calls of any versions,
      captures, failures and stops, the stored rollup and every call in progress keep
      accounting for exactly the turns up to their watermark, each once, if and only
      if no call with batches left ever reads back a row with another watermark. */
  lemma {:induction false} CoverageIsWatermark(s: System, es: seq<Event>)
    requires Covered(s)
    ensures CoveredThroughout(s, es) <==> UndisturbedThroughout(s, es)
    decreases |es|
  {
    hide Step;
    hide Covered;
    hide Undisturbed;
    assert es[..0] == [] && es[..|es|] == es;
    if es != [] {
      var init := es[..|es| - 1];
      assert forall k | 0 <= k <= |init| :: init[..k] == es[..k];
      assert CoveredThroughout(s, es) <==> CoveredThroughout(s, init) && Covered(Run(s, es)) by {
        assert forall k | 0 <= k <= |es| :: k == |es| || es[..k] == init[..k];
      }
      assert UndisturbedThroughout(s, es) <==> UndisturbedThroughout(s, init) && Undisturbed(Run(s, init), es[|es| - 1]);
      CoverageIsWatermark(s, init);
      if CoveredThroughout(s, init) {
        assert init[..|init|] == init;
        StepCovered(Run(s, init), es[|es| - 1]);
      }
    }
  }

  lemma PartsDiffer(turns: seq<nat>, row: Row)
    requires |row.content.told| != |row.content.decisions| || |row.content.told| != |row.content.instructions|
    ensures !RowCovers(turns, row)
  {
    forall n: nat ensures !Accounts(turns, row.content, n) {
      assert |Turns(row.content.told)| == |row.content.told| && |Turns(row.content.decisions)| == |row.content.decisions|;
      assert |Turns(row.content.instructions)| == |row.content.instructions|;
    }
  }

  /** A row with another watermark, read back for either part, is one whose next write
      leaves a row that does not cover, whatever the other part was read from. */
  lemma MisreadReachesTheRow(turns: seq<nat>, c: Call, row: Row, other: Option<Row>)
    requires Ascending(turns) && CallCovers(turns, c) && RowCovers(turns, row) && Some(row.watermark) != c.expected
    requires c.rest != [] && c.rest[0] != []
    ensures !RowCovers(turns, NextRow(WithInstructions(WithDecisions(c, Some(row)), other)))
    ensures !RowCovers(turns, NextRow(WithInstructions(WithDecisions(c, other), Some(row))))
  {
    hide Partitions;
    var n: nat, m: nat :| CallAt(turns, c, n, m);
    var k: nat :| 0 < k && Accounts(turns, row.content, k) && row.watermark == turns[k - 1];
    assert |turns[..n]| == n && |turns[..k]| == k && n != k;
    assert |Turns(c.carry.told)| == |c.carry.told| && |Turns(row.content.decisions)| == |row.content.decisions|;
    assert |Turns(row.content.instructions)| == |row.content.instructions|;
    PartsDiffer(turns, NextRow(WithInstructions(WithDecisions(c, Some(row)), other)));
    PartsDiffer(turns, NextRow(WithInstructions(WithDecisions(c, other), Some(row))));
  }

  /** A call that reads back with nothing of another in between meets the condition. */
  lemma OwnRowIsUndisturbed(s: System, caller: Caller)
    requires caller in s.calls && Writing(s.calls[caller]) && Takes(s.row, s.calls[caller].expected)
    ensures var t := Step(s, Write(caller));
            && Undisturbed(t, ReadDecisions(caller)) && Undisturbed(Step(t, ReadDecisions(caller)), ReadInstructions(caller))
  {
  }

  // -------------------------------------------------------------------------- stamp

  ghost predicate Under(pieces: seq<Piece>, version: nat) {
    forall piece | piece in pieces :: piece.version == version
  }

  ghost predicate AllUnder(content: Content, version: nat) {
    Under(content.told, version) && Under(content.decisions, version) && Under(content.instructions, version)
  }

  /** The version a part of the content was last merged under. */
  predicate NewestUnder(pieces: seq<Piece>, version: nat) {
    pieces != [] ==> pieces[|pieces| - 1].version == version
  }

  /** A row stamped `version` holds only content merged under it; what was last merged
      under `version` was all merged under it; and calls of `version` carry only that. */
  ghost predicate RowStamped(row: Row, version: nat) {
    && (row.version == version ==> AllUnder(row.content, version))
    && (NewestUnder(row.content.decisions, version) ==> Under(row.content.decisions, version))
    && (NewestUnder(row.content.instructions, version) ==> Under(row.content.instructions, version))
  }

  ghost predicate Stamped(s: System, version: nat) {
    && (s.row.Some? ==> RowStamped(s.row.value, version))
    && forall caller | caller in s.calls && s.calls[caller].version == version :: AllUnder(s.calls[caller].carry, version)
  }

  /** The write takes `version` over from a stale row, short of the last batch, for
      content of another version. */
  predicate TakesStamp(s: System, e: Event, version: nat) {
    && e.Write? && e.caller in s.calls && Writing(s.calls[e.caller]) && Takes(s.row, s.calls[e.caller].expected)
    && s.calls[e.caller].version != version && s.calls[e.caller].oldStamp == Some(version) && |s.calls[e.caller].rest| > 1
  }

  /** A call of `version` reads back what was last merged under another. */
  predicate ReadsMixed(s: System, e: Event, version: nat) {
    && ReadsBack(s, e) && s.row.Some? && s.calls[e.caller].version == version
    && !NewestUnder(if e.ReadDecisions? then s.row.value.content.decisions else s.row.value.content.instructions, version)
  }

  predicate Honest(s: System, e: Event, version: nat) { !TakesStamp(s, e, version) && !ReadsMixed(s, e, version) }

  lemma UnderAppend(a: seq<Piece>, b: seq<Piece>, version: nat)
    ensures Under(a + b, version) <==> Under(a, version) && Under(b, version)
  {
    assert forall piece | piece in a + b :: piece in a || piece in b;
    if Under(a + b, version) {
      forall piece | piece in a || piece in b ensures piece in a + b {
      }
    }
  }

  lemma NextRowStamped(c: Call, version: nat)
    requires c.rest != [] && c.rest[0] != [] && (c.version == version ==> AllUnder(c.carry, version))
    ensures c.version == version ==> AllUnder(NextRow(c).content, version)
    ensures RowStamped(NextRow(c), version) <==> c.version == version || c.oldStamp != Some(version) || |c.rest| == 1
  {
    var batch, row := Pieces(c.rest[0], c.version), NextRow(c);
    UnderAppend(c.carry.told, batch, version);
    UnderAppend(c.carry.decisions, batch, version);
    UnderAppend(c.carry.instructions, batch, version);
    var newest := batch[|batch| - 1];
    assert newest in batch && newest.version == c.version;
    assert NewestUnder(row.content.decisions, version) <==> c.version == version;
    assert NewestUnder(row.content.instructions, version) <==> c.version == version;
  }

  lemma BeginStamped(s: System, caller: Caller, v: nat, batches: seq<seq<nat>>, version: nat)
    requires Stamped(s, version)
    ensures Stamped(Step(s, Begin(caller, v, batches)), version)
  {
    hide Partitions;
    hide Fresh;
    var started := Started(s.row, v, batches);
    assert started.version == version ==> AllUnder(started.carry, version);
  }

  lemma WriteStamped(s: System, caller: Caller, version: nat)
    requires Stamped(s, version)
    ensures Stamped(Step(s, Write(caller)), version) <==> !TakesStamp(s, Write(caller), version)
  {
    hide NextRow;
    hide AllUnder;
    hide RowStamped;
    if caller in s.calls && Writing(s.calls[caller]) {
      NextRowStamped(s.calls[caller], version);
    }
  }

  lemma ReadBackStamped(s: System, e: Event, version: nat)
    requires Stamped(s, version) && ReadsBack(s, e) && s.row.Some?
    ensures Stamped(Step(s, e), version) <==> !ReadsMixed(s, e, version)
  {
    var read := if e.ReadDecisions? then s.row.value.content.decisions else s.row.value.content.instructions;
    assert read != [] ==> read[|read| - 1] in read;
    assert Step(s, e).calls[e.caller].version == s.calls[e.caller].version;
    assert NewestUnder(read, version) <==> Under(read, version);
  }

  /** One step keeps the stamp honest just when it is neither of the two. */
  lemma StepStamped(s: System, e: Event, version: nat)
    requires Stamped(s, version)
    ensures Stamped(Step(s, e), version) <==> Honest(s, e, version)
  {
    hide Partitions;
    hide Fresh;
    hide AllUnder;
    hide RowStamped;
    hide NewestUnder;
    match e
    case Begin(caller, v, batches) => hide Step; BeginStamped(s, caller, v, batches, version);
    case Write(caller) => hide Step; WriteStamped(s, caller, version);
    case _ => if ReadsBack(s, e) && s.row.Some? { ReadBackStamped(s, e, version); }
  }

  ghost predicate StampedThroughout(s: System, es: seq<Event>, version: nat) {
    forall k | 0 <= k <= |es| :: Stamped(Run(s, es[..k]), version)
  }

  ghost predicate HonestThroughout(s: System, es: seq<Event>, version: nat) {
    forall k | 0 <= k < |es| :: Honest(Run(s, es[..k]), es[k], version)
  }

  /** The stamp: over every interleaving, rows stamped `version` hold only content
      merged under it, and calls of `version` carry nothing else, if and only if no
      call of another version takes the stamp over before its last batch and none of
      `version` reads back what another version merged into last. */
  lemma {:induction false} StampIsHonest(s: System, es: seq<Event>, version: nat)
    requires Stamped(s, version)
    ensures StampedThroughout(s, es, version) <==> HonestThroughout(s, es, version)
    decreases |es|
  {
    hide Step;
    hide Stamped;
    hide Honest;
    assert es[..0] == [] && es[..|es|] == es;
    if es != [] {
      var init := es[..|es| - 1];
      assert forall k | 0 <= k <= |init| :: init[..k] == es[..k];
      assert StampedThroughout(s, es, version) <==> StampedThroughout(s, init, version) && Stamped(Run(s, es), version) by {
        assert forall k | 0 <= k <= |es| :: k == |es| || es[..k] == init[..k];
      }
      assert HonestThroughout(s, es, version) <==> HonestThroughout(s, init, version) && Honest(Run(s, init), es[|es| - 1], version);
      StampIsHonest(s, init, version);
      if StampedThroughout(s, init, version) {
        assert init[..|init|] == init;
        StepStamped(Run(s, init), es[|es| - 1], version);
      }
    }
  }

  /** Calls of one version: a row any of them still reads back was last merged into
      by one of them. */
  ghost predicate OneVersion(s: System, version: nat) {
    forall caller | caller in s.calls ::
      && s.calls[caller].version == version
      && (!s.calls[caller].stage.Checking? && !s.calls[caller].stage.Summarizing? ==> s.row.Some? && RowNewest(s.row.value, version))
  }

  predicate RowNewest(row: Row, version: nat) {
    NewestUnder(row.content.decisions, version) && NewestUnder(row.content.instructions, version)
  }

  lemma StepOneVersion(s: System, e: Event, version: nat)
    requires OneVersion(s, version) && (e.Begin? ==> e.version == version)
    ensures OneVersion(Step(s, e), version) && Honest(s, e, version)
  {
    hide Partitions;
    hide Fresh;
    if e.Write? && e.caller in s.calls && Writing(s.calls[e.caller]) {
      assert RowNewest(NextRow(s.calls[e.caller]), version);
    }
  }

  /** With every call of one version, the condition holds by itself. */
  lemma {:induction false} OneVersionIsHonest(s: System, es: seq<Event>, version: nat)
    requires s.calls == map[] && forall k | 0 <= k < |es| :: es[k].Begin? ==> es[k].version == version
    ensures HonestThroughout(s, es, version) && OneVersion(Run(s, es), version)
    decreases |es|
  {
    hide Step;
    hide Honest;
    if es != [] {
      var init := es[..|es| - 1];
      OneVersionIsHonest(s, init, version);
      StepOneVersion(Run(s, init), es[|es| - 1], version);
      assert forall k | 0 <= k <= |init| :: init[..k] == es[..k];
    }
  }

  // ------------------------------------------------------------- a call left alone

  function Passes(caller: Caller, n: nat): seq<Event> {
    if n == 0 then [] else Passes(caller, n - 1) + [Check(caller), Write(caller), ReadDecisions(caller), ReadInstructions(caller)]
  }

  /** A call about to check its next batch, the store as it expects. */
  ghost predicate AtBatch(s: System, caller: Caller, version: nat, rest: seq<seq<nat>>) {
    && Ascending(s.turns) && caller in s.calls && rest != []
    && var c := s.calls[caller];
    && c.stage.Checking? && c.rest == rest && c.version == version && Takes(s.row, c.expected)
    && exists n: nat :: CallAt(s.turns, c, n, |s.turns|)
  }

  /** One batch: the row lands, and when it was the last, accounts for every turn, in
      the call's own version. */
  lemma OneBatch(s: System, caller: Caller, version: nat, rest: seq<seq<nat>>)
    requires AtBatch(s, caller, version, rest)
    ensures var t := Step(Step(Step(Step(s, Check(caller)), Write(caller)), ReadDecisions(caller)), ReadInstructions(caller));
            && t.turns == s.turns
            && if |rest| > 1 then AtBatch(t, caller, version, rest[1..])
               else caller !in t.calls && t.row.Some? && t.row.value.version == version && Accounts(t.turns, t.row.value.content, |t.turns|)
  {
    hide Ascending;
    hide Accounts;
    hide Partitions;
    var c := s.calls[caller];
    var n: nat :| CallAt(s.turns, c, n, |s.turns|);
    NextRowCovers(s.turns, c, n, |s.turns|);
    var next, t := n + |rest[0]|, Step(Step(s, Check(caller)), Write(caller));
    assert t.row == Some(NextRow(c)) && CallAt(t.turns, t.calls[caller], next, |s.turns|);
    var u := Step(Step(t, ReadDecisions(caller)), ReadInstructions(caller));
    if |rest| > 1 {
      assert CallAt(u.turns, u.calls[caller], next, |s.turns|);
    } else {
      NothingLeft(s.turns, t.calls[caller], next, |s.turns|);
    }
  }

  lemma NothingLeft(turns: seq<nat>, c: Call, n: nat, m: nat)
    requires CallAt(turns, c, n, m) && c.rest == []
    ensures n == m
  {
    assert |turns[n..m]| == m - n;
  }

  lemma {:induction false} PassesThrough(s: System, caller: Caller, version: nat, rest: seq<seq<nat>>)
    requires AtBatch(s, caller, version, rest)
    ensures var t := Run(s, Passes(caller, |rest|));
            && caller !in t.calls && t.row.Some? && t.row.value.version == version
            && t.turns == s.turns && Accounts(t.turns, t.row.value.content, |t.turns|)
    decreases |rest|
  {
    hide Step;
    hide AtBatch;
    hide Accounts;
    assert |rest| > 0 by { HasBatch(s, caller, version, rest); }
    var one := [Check(caller), Write(caller), ReadDecisions(caller), ReadInstructions(caller)];
    OneBatch(s, caller, version, rest);
    RunFour(s, Check(caller), Write(caller), ReadDecisions(caller), ReadInstructions(caller));
    PassesFirst(caller, |rest| - 1);
    RunAppend(s, one, Passes(caller, |rest| - 1));
    if |rest| > 1 {
      PassesThrough(Run(s, one), caller, version, rest[1..]);
    } else {
      assert Passes(caller, 0) == [];
    }
  }

  lemma HasBatch(s: System, caller: Caller, version: nat, rest: seq<seq<nat>>)
    requires AtBatch(s, caller, version, rest)
    ensures |rest| > 0
  {
  }

  lemma {:induction false} PassesFirst(caller: Caller, n: nat)
    ensures Passes(caller, n + 1) == [Check(caller), Write(caller), ReadDecisions(caller), ReadInstructions(caller)] + Passes(caller, n)
  {
    var one := [Check(caller), Write(caller), ReadDecisions(caller), ReadInstructions(caller)];
    if n == 0 {
      assert Passes(caller, 0) == [] && Passes(caller, 1) == [] + one == one + [];
    } else {
      PassesFirst(caller, n - 1);
      assert one + Passes(caller, n - 1) + one == one + (Passes(caller, n - 1) + one);
    }
  }

  /** A call that nothing comes between runs through: it ends with a row of its version
      that accounts for every turn there is. */
  lemma CallAloneCompletes(s: System, caller: Caller, version: nat, batches: seq<seq<nat>>)
    requires Covered(s) && caller !in s.calls && batches != []
    requires var watermark := if s.row.Some? && s.row.value.version == version then Some(s.row.value.watermark) else None;
             Partitions(batches, Fresh(s.turns, watermark))
    ensures var t := Run(Step(s, Begin(caller, version, batches)), Passes(caller, |batches|));
            && caller !in t.calls && t.row.Some? && t.row.value.version == version
            && t.turns == s.turns && Accounts(t.turns, t.row.value.content, |t.turns|)
  {
    hide Partitions;
    hide Fresh;
    hide Run;
    hide Accounts;
    hide CallAt;
    var t := Step(s, Begin(caller, version, batches));
    var n := StartedCovers(s.turns, s.row, version, batches);
    assert AtBatch(t, caller, version, batches);
    PassesThrough(t, caller, version, batches);
  }

  // ---------------------------------------------------------------- the two failures

  lemma RunSnoc(s: System, es: seq<Event>, e: Event)
    ensures Run(s, es + [e]) == Step(Run(s, es), e)
  {
    assert (es + [e])[..|es|] == es;
  }

  lemma {:induction false} RunAppend(s: System, es: seq<Event>, more: seq<Event>)
    ensures Run(s, es + more) == Run(Run(s, es), more)
    decreases |more|
  {
    hide Step;
    if more == [] {
      assert es + more == es;
    } else {
      RunAppend(s, es, more[..|more| - 1]);
      assert es + more == es + more[..|more| - 1] + [more[|more| - 1]];
      RunSnoc(s, es + more[..|more| - 1], more[|more| - 1]);
    }
  }

  lemma RunFour(s: System, a: Event, b: Event, c: Event, d: Event)
    ensures Run(s, [a, b, c, d]) == Step(Step(Step(Step(s, a), b), c), d)
  {
    hide Step;
    RunSnoc(s, [], a);
    RunSnoc(s, [a], b);
    RunSnoc(s, [a, b], c);
    RunSnoc(s, [a, b, c], d);
    assert [] + [a] == [a] && [a] + [b] == [a, b] && [a, b] + [c] == [a, b, c] && [a, b, c] + [d] == [a, b, c, d];
  }

  lemma RunFive(s: System, a: Event, b: Event, c: Event, d: Event, e: Event)
    ensures Run(s, [a, b, c, d, e]) == Step(Step(Step(Step(Step(s, a), b), c), d), e)
  {
    hide Step;
    RunFour(s, a, b, c, d);
    RunSnoc(s, [a, b, c, d], e);
    assert [a, b, c, d] + [e] == [a, b, c, d, e];
  }

  lemma FlatOne(batch: seq<nat>)
    ensures Flat([batch]) == batch
  {
    assert [batch][1..] == [];
  }

  lemma FlatTwo(a: seq<nat>, b: seq<nat>)
    ensures Flat([a, b]) == a + b
  {
    assert [a, b][1..] == [b];
    FlatOne(b);
  }

  lemma FlatThree(a: seq<nat>, b: seq<nat>, c: seq<nat>)
    ensures Flat([a, b, c]) == a + b + c
  {
    assert [a, b, c][1..] == [b, c];
    FlatTwo(b, c);
  }

  function Upto(n: nat): Content
    requires n <= 3
  {
    var pieces := Pieces([1, 2, 3][..n], 7);
    Content(pieces, pieces, pieces)
  }

  /** Nothing rolled up yet of three turns. */
  function Captured(): System { System([1, 2, 3], None, map[]) }

  function OneByOne(): seq<seq<nat>> { [[1], [2], [3]] }

  /** Two processes merge turns 1, 2 and 3 one by one: both begin, and the first
      writes turns 1 and 2 while the second is on its first. */
  function Begins(): seq<Event> { [Begin(2, 7, OneByOne()), Check(2), Begin(1, 7, OneByOne()), Check(1)] }

  function FirstWritesTwo(): seq<Event> { [Write(1), ReadDecisions(1), ReadInstructions(1), Check(1), Write(1)] }

  /** The second's first write lands; the first reads that back. */
  function Misreads(): seq<Event> { [Write(2), ReadDecisions(1), ReadInstructions(1), ReadDecisions(2), ReadInstructions(2)] }

  /** The second goes on to turn 2, just where the first expects the store to be. */
  function Overtakes(): seq<Event> { [Check(2), Write(2), Check(1), Write(1)] }

  function Summarizes(): Call { Call(7, None, Content([], [], []), OneByOne(), None, Summarizing) }

  function Begun(): System { Captured().(calls := map[1 := Summarizes(), 2 := Summarizes()]) }

  function Overlapping(): System {
    System([1, 2, 3], Some(Row(Upto(2), 2, 7)),
           map[1 := Call(7, Some(2), Upto(2), [[3]], None, ReadingDecisions), 2 := Summarizes()])
  }

  function Misread(): System {
    System([1, 2, 3], Some(Row(Upto(1), 1, 7)),
           map[1 := Call(7, Some(2), Content(Upto(2).told, Upto(1).decisions, Upto(1).instructions), [[3]], None, Checking),
               2 := Call(7, Some(1), Upto(1), [[2], [3]], None, Checking)])
  }

  lemma OneByOnePartitions()
    ensures Partitions(OneByOne(), Fresh([1, 2, 3], None))
  {
    hide Flat;
    hide Fresh;
    FlatThree([1], [2], [3]);
    FreshIs([1, 2, 3], 0);
    assert [1] + [2] + [3] == [1, 2, 3] && [1, 2, 3][0..] == [1, 2, 3];
  }

  lemma BothBegun()
    ensures Run(Captured(), Begins()) == Begun()
  {
    hide Partitions;
    hide Fresh;
    OneByOnePartitions();
    RunFour(Captured(), Begin(2, 7, OneByOne()), Check(2), Begin(1, 7, OneByOne()), Check(1));
  }

  function OneWritten(): System {
    System([1, 2, 3], Some(Row(Upto(1), 1, 7)), map[1 := Call(7, Some(1), Upto(1), [[2], [3]], None, Checking), 2 := Summarizes()])
  }

  lemma FirstWritten()
    ensures Step(Step(Step(Begun(), Write(1)), ReadDecisions(1)), ReadInstructions(1)) == OneWritten()
  {
    assert OneByOne()[1..] == [[2], [3]];
    assert [] + Pieces([1], 7) == Upto(1).told;
  }

  lemma SecondWritten()
    ensures Step(Step(OneWritten(), Check(1)), Write(1)) == Overlapping()
  {
    assert [[2], [3]][1..] == [[3]];
    assert Upto(1).told + Pieces([2], 7) == Upto(2).told;
  }

  lemma TwoWritten()
    ensures Run(Begun(), FirstWritesTwo()) == Overlapping()
  {
    hide Step;
    FirstWritten();
    SecondWritten();
    RunFive(Begun(), Write(1), ReadDecisions(1), ReadInstructions(1), Check(1), Write(1));
  }

  lemma OverlappingIsReached()
    ensures Run(Captured(), Begins() + FirstWritesTwo()) == Overlapping()
  {
    hide Step;
    BothBegun();
    TwoWritten();
    RunAppend(Captured(), Begins(), FirstWritesTwo());
  }

  function Restarted(): System {
    Overlapping().(row := Some(Row(Upto(1), 1, 7)),
                   calls := Overlapping().calls[2 := Call(7, Some(1), Upto(1), [[2], [3]], None, ReadingDecisions)])
  }

  lemma SecondRestarts()
    ensures Step(Overlapping(), Write(2)) == Restarted()
  {
    assert OneByOne()[1..] == [[2], [3]];
    assert [] + Pieces([1], 7) == Upto(1).told;
  }

  lemma MisreadIsReached()
    ensures Run(Overlapping(), Misreads()) == Misread()
  {
    hide Run;
    hide Upto;
    hide NextRow;
    SecondRestarts();
    RunFive(Overlapping(), Write(2), ReadDecisions(1), ReadInstructions(1), ReadDecisions(2), ReadInstructions(2));
  }

  /** The row in the end: three turns claimed, one of them in no decision. */
  lemma OvertakenRow()
    ensures var s := Run(Misread(), Overtakes());
            s.turns == [1, 2, 3] && s.row.Some? && s.row.value.watermark == 3 && Turns(s.row.value.content.decisions) == [1, 3]
  {
    hide Fresh;
    hide Partitions;
    hide Started;
    RunFour(Misread(), Check(2), Write(2), Check(1), Write(1));
    var s := Step(Step(Misread(), Check(2)), Write(2));
    assert s.row.Some? && s.row.value.watermark == 2 && s.calls[1] == Misread().calls[1];
    TurnsAppend(Upto(1).decisions, [3], 7);
    assert Turns(Upto(1).decisions) == [1];
  }

  /** Coverage is lost on a run both processes can take from three captured turns: the
      first's read-back finds the second's row, and the row ends claiming three turns
      while its decisions account for two. */
  lemma OvertakenReadBackLosesATurn()
    ensures Covered(Captured())
    ensures var es := Begins() + FirstWritesTwo() + Misreads() + Overtakes();
            var s := Run(Captured(), es);
            s.row.Some? && s.row.value.watermark == 3 && Turns(s.row.value.content.decisions) == [1, 3] && !RowCovers(s.turns, s.row.value)
    ensures !UndisturbedThroughout(Captured(), Begins() + FirstWritesTwo() + Misreads() + Overtakes())
  {
    hide Step;
    hide Run;
    hide Undisturbed;
    var es := Begins() + FirstWritesTwo() + Misreads() + Overtakes();
    OverlappingIsReached();
    MisreadIsReached();
    OvertakenRow();
    RunAppend(Captured(), Begins() + FirstWritesTwo(), Misreads());
    RunAppend(Captured(), Begins() + FirstWritesTwo() + Misreads(), Overtakes());
    var s := Run(Captured(), es);
    forall n: nat ensures !Accounts(s.turns, s.row.value.content, n) {
      if n == 2 { assert s.turns[..n][1] == 2; }
    }
    CoverageIsWatermark(Captured(), es);
    assert es[..|es|] == es;
  }

  /** One turn rolled up under version 9, a second one captured. */
  function RolledUp(): seq<Event> { [Capture(1), Begin(1, 9, [[1]]), Check(1), Write(1)] }

  function Upgraded(): System {
    var pieces := Pieces([1], 9);
    System([1, 2], Some(Row(Content(pieces, pieces, pieces), 1, 9)), map[])
  }

  /** A process still running an older version rebuilds the row, and its first batch,
      merged under version 8, is stamped 9. */
  function Downgrades(): seq<Event> { [ReadDecisions(1), Capture(2), Begin(1, 8, [[1], [2]]), Check(1), Write(1)] }

  lemma OnePartition(a: nat)
    ensures Partitions([[a]], Fresh([a], None))
  {
    hide Flat;
    FlatOne([a]);
    FreshIs([a], 0);
  }

  lemma TwoPartitions(a: nat, b: nat)
    requires a < b
    ensures Partitions([[a], [b]], Fresh([a, b], None))
  {
    hide Flat;
    hide Fresh;
    FlatTwo([a], [b]);
    FreshIs([a, b], 0);
    assert [a] + [b] == [a, b] && [a, b][0..] == [a, b];
  }

  lemma FirstBegun()
    ensures Step(Step(System([], None, map[]), Capture(1)), Begin(1, 9, [[1]]))
         == System([1], None, map[1 := Call(9, None, Content([], [], []), [[1]], None, Checking)])
  {
    hide Partitions;
    hide Fresh;
    OnePartition(1);
    assert [] + [1] == [1];
  }

  lemma UpgradedIsReached()
    ensures var s := Run(System([], None, map[]), RolledUp()); Step(Step(s, ReadDecisions(1)), Capture(2)) == Upgraded()
  {
    hide Run;
    FirstBegun();
    RunFour(System([], None, map[]), Capture(1), Begin(1, 9, [[1]]), Check(1), Write(1));
    assert [] + Pieces([1], 9) == Pieces([1], 9) && [1] + [2] == [1, 2] && [[1]][1..] == [];
  }

  lemma DowngradedRow()
    ensures var s := Step(Step(Step(Upgraded(), Begin(1, 8, [[1], [2]])), Check(1)), Write(1));
            s.row.Some? && s.row.value.version == 9 && s.row.value.content.told == [Piece(1, 8)]
  {
    hide Partitions;
    hide Fresh;
    TwoPartitions(1, 2);
  }

  /** Two versions at once break the stamp: a run from nothing ends with a row that
      passes for content of version 9 and was merged under version 8. */
  lemma OlderVersionTakesTheStamp()
    ensures var s := Run(System([], None, map[]), RolledUp() + Downgrades());
            s.row.Some? && s.row.value.version == 9 && s.row.value.content.told == [Piece(1, 8)]
    ensures !HonestThroughout(System([], None, map[]), RolledUp() + Downgrades(), 9)
  {
    hide Step;
    hide Run;
    hide Honest;
    var s := Run(System([], None, map[]), RolledUp());
    RunAppend(System([], None, map[]), RolledUp(), Downgrades());
    RunFive(s, ReadDecisions(1), Capture(2), Begin(1, 8, [[1], [2]]), Check(1), Write(1));
    UpgradedIsReached();
    DowngradedRow();
    StampIsHonest(System([], None, map[]), RolledUp() + Downgrades(), 9);
    var es := RolledUp() + Downgrades();
    assert es[..|es|] == es && Piece(1, 8) in Run(System([], None, map[]), es).row.value.content.told;
  }
}

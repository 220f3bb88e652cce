/** The context issued with a cursor. A parse prunes its pending context records
    as it goes; here the pruned list is shown to answer, for every cursor the
    parse can still issue, what the whole history of context records answers. */
module TurnContext {
  import opened Framing
  import opened Reading
  import opened Turns

  /** The last record of `field` ending at or before `offset`: the newest in
      `records`, else the one in `base`. */
  function Lookup(base: Context, records: seq<ContextRecord>, field: Field, offset: nat): Option<ContextRecord> {
    var last := LastOf(records, field, offset);
    if last.Some? then last else if field in base then Some(base[field]) else None
  }

  /** The context records one entry gives, in the order they are noted. */
  function LineRecords(env: Env, line: Line, entry: Entry): seq<ContextRecord> {
    (if Cwd in entry.context then [RecordOf(env, line, Cwd)] else [])
    + (if Surface in entry.context then [RecordOf(env, line, Surface)] else [])
    + (if Branch in entry.context then [RecordOf(env, line, Branch)] else [])
  }

  /** The context in effect at `offset`, from history alone. */
  ghost function ContextAt(s: State, offset: nat): Context {
    map field: Field | Lookup(s.base, s.seen, field, offset).Some? :: Lookup(s.base, s.seen, field, offset).value
  }

  /** At `offset` the pruned records answer as the history does. */
  ghost predicate Agrees(s: State, offset: nat) {
    forall field: Field :: Lookup(s.committed, s.pending, field, offset) == Lookup(s.base, s.seen, field, offset)
  }

  ghost predicate Ascending(records: seq<ContextRecord>) {
    records == [] ||
    var init, last := records[..|records| - 1], records[|records| - 1];
    Ascending(init) && forall r | r in init && r.field == last.field :: r.End() <= last.End()
  }

  ghost predicate Bounded(records: seq<ContextRecord>, offset: nat) {
    forall r | r in records :: r.End() <= offset
  }

  // ------------------------------------------------------- the pruning functions

  lemma LastOfSnoc(records: seq<ContextRecord>, r: ContextRecord, field: Field, offset: nat)
    ensures LastOf(records + [r], field, offset)
         == if r.field == field && r.End() <= offset then Some(r) else LastOf(records, field, offset)
  {
    assert (records + [r])[..|records|] == records;
  }

  lemma {:induction false} WithoutIs(records: seq<ContextRecord>, field: Field, other: Field, offset: nat)
    ensures LastOf(Without(records, field), other, offset)
         == if other == field then None else LastOf(records, other, offset)
    ensures forall r | r in Without(records, field) :: r in records && r.field != field
    ensures Ascending(records) ==> Ascending(Without(records, field))
  {
    if records != [] {
      var init, last := records[..|records| - 1], records[|records| - 1];
      WithoutIs(init, field, other, offset);
      if last.field != field {
        LastOfSnoc(Without(init, field), last, other, offset);
        AscendingSnoc(Without(init, field), last);
      }
    }
  }

  lemma AscendingSnoc(records: seq<ContextRecord>, r: ContextRecord)
    ensures Ascending(records + [r])
        <==> Ascending(records) && forall q | q in records && q.field == r.field :: q.End() <= r.End()
  {
    assert (records + [r])[..|records|] == records;
  }

  /** After a new record, its field answers with it from its end on, and with the
      kept one up to the cutoff; other fields are untouched. */
  lemma RetainIs(pending: seq<ContextRecord>, cutoff: nat, r: ContextRecord, field: Field, offset: nat)
    requires r.End() <= offset || offset == cutoff
    ensures LastOf(Retain(pending, cutoff, r), field, offset)
         == if r.field == field && r.End() <= offset then Some(r) else LastOf(pending, field, offset)
    ensures forall q | q in Retain(pending, cutoff, r) :: q in pending || q == r
    ensures Ascending(pending) && Bounded(pending, r.End()) ==> Ascending(Retain(pending, cutoff, r))
  {
    var rest, before := Without(pending, r.field), LastOf(pending, r.field, cutoff);
    WithoutIs(pending, r.field, field, offset);
    var kept := rest + (if before.Some? then [before.value] else []);
    if before.Some? {
      LastOfSnoc(rest, before.value, field, offset);
      AscendingSnoc(rest, before.value);
    } else {
      assert kept == rest;
    }
    LastOfSnoc(kept, r, field, offset);
    AscendingSnoc(kept, r);
  }

  lemma {:induction false} CommitIs(committed: Context, pending: seq<ContextRecord>, offset: nat, field: Field)
    ensures var c := Commit(committed, pending, offset);
            (if field in c then Some(c[field]) else None) == Lookup(committed, pending, field, offset)
  {
    if pending != [] {
      CommitIs(committed, pending[..|pending| - 1], offset, field);
    }
  }

  /** With ascending ends, dropping what a commit at `offset` took loses nothing
      for any later offset. */
  lemma {:induction false} EndingAfterIs(pending: seq<ContextRecord>, offset: nat, field: Field, later: nat)
    requires Ascending(pending) && offset <= later
    ensures var last := LastOf(pending, field, later);
            && LastOf(EndingAfter(pending, offset), field, later) == (if last.Some? && last.value.End() > offset then last else None)
            && (last.None? || last.value.End() <= offset ==> LastOf(pending, field, offset) == last)
    ensures forall r | r in EndingAfter(pending, offset) :: r in pending
    ensures Ascending(EndingAfter(pending, offset))
  {
    if pending != [] {
      var init, last := pending[..|pending| - 1], pending[|pending| - 1];
      EndingAfterIs(init, offset, field, later);
      LastOfSnoc(EndingAfter(init, offset), last, field, later);
      AscendingSnoc(EndingAfter(init, offset), last);
    }
  }

  // ------------------------------------------------------------ one record at a time

  /** A record that sets context must not itself move the offset a boundary would
      close at: it neither latches a start nor, being a boundary, ends the
      lifecycle whose start is pending. */
  predicate Harmless(decided: Option<UserBoundary>, entry: Entry) {
    entry.context == map[] || entry.signal.None? ||
    (if entry.signal.value.phase == Started then Classify(decided, entry.role) == Content
     else Classify(decided, entry.role) != Boundary)
  }

  /** The pruned context is good for every cursor that can still be issued: any
      offset from `at` on, and the pending start of an open turn. */
  ghost predicate Faithful(s: State, at: nat) {
    && Ascending(s.pending) && Bounded(s.pending, at) && Bounded(s.seen, at)
    && (s.start.Some? ==> s.start.value.byteStart <= at)
    && (forall offset | offset >= at :: Agrees(s, offset))
    && (s.turn.Some? && s.start.Some? ==> Agrees(s, s.start.value.byteStart))
  }

  lemma BeginFaithful(next: nat, records: Context, values: map<Field, string>, at: nat)
    ensures Faithful(Begin(next, records, values), at)
  {
  }

  function Cutoff(s: State, line: Line): nat {
    if s.start.Some? then s.start.value.byteStart else line.byteStart
  }

  lemma NoteFieldAgrees(env: Env, s: State, line: Line, entry: Entry, field: Field, offset: nat)
    requires line.byteStart < line.byteEnd && Agrees(s, offset)
    requires offset >= line.byteEnd || offset == Cutoff(s, line)
    ensures Agrees(NoteField(env, s, line, entry, field), offset)
  {
    hide Retain;
    hide LastOf;
    if field in entry.context {
      var r, t := RecordOf(env, line, field), NoteField(env, s, line, entry, field);
      forall f: Field ensures Lookup(t.committed, t.pending, f, offset) == Lookup(t.base, t.seen, f, offset) {
        RetainIs(s.pending, Cutoff(s, line), r, f, offset);
        LastOfSnoc(s.seen, r, f, offset);
        assert Lookup(s.committed, s.pending, f, offset) == Lookup(s.base, s.seen, f, offset);
      }
    }
  }

  lemma NoteFieldOrdered(env: Env, s: State, line: Line, entry: Entry, field: Field)
    requires line.byteStart < line.byteEnd
    requires Ascending(s.pending) && Bounded(s.pending, line.byteEnd) && Bounded(s.seen, line.byteEnd)
    ensures var t := NoteField(env, s, line, entry, field);
            Ascending(t.pending) && Bounded(t.pending, line.byteEnd) && Bounded(t.seen, line.byteEnd)
  {
    if field in entry.context {
      RetainIs(s.pending, Cutoff(s, line), RecordOf(env, line, field), field, line.byteEnd);
    }
  }

  lemma NoteContextAgrees(env: Env, s: State, line: Line, entry: Entry, offset: nat)
    requires line.byteStart < line.byteEnd && Agrees(s, offset)
    requires offset >= line.byteEnd || offset == Cutoff(s, line)
    ensures Agrees(NoteContext(env, s, line, entry), offset)
  {
    NoteFieldAgrees(env, s, line, entry, Cwd, offset);
    var s1 := NoteField(env, s, line, entry, Cwd);
    NoteFieldAgrees(env, s1, line, entry, Surface, offset);
    var s2 := NoteField(env, s1, line, entry, Surface);
    NoteFieldAgrees(env, s2, line, entry, Branch, offset);
  }

  lemma NoteContextOrdered(env: Env, s: State, line: Line, entry: Entry)
    requires line.byteStart < line.byteEnd
    requires Ascending(s.pending) && Bounded(s.pending, line.byteEnd) && Bounded(s.seen, line.byteEnd)
    ensures var t := NoteContext(env, s, line, entry);
            Ascending(t.pending) && Bounded(t.pending, line.byteEnd) && Bounded(t.seen, line.byteEnd)
  {
    NoteFieldOrdered(env, s, line, entry, Cwd);
    var s1 := NoteField(env, s, line, entry, Cwd);
    NoteFieldOrdered(env, s1, line, entry, Surface);
    NoteFieldOrdered(env, NoteField(env, s1, line, entry, Surface), line, entry, Branch);
  }

  lemma NoNotes(env: Env, s: State, line: Line, entry: Entry)
    requires entry.context == map[]
    ensures var t := NoteContext(env, s, line, entry); t == s.(values := t.values)
  {
  }

  /** What a record does to the open turn and the pending start. */
  lemma PrepareFlow(env: Env, s: State, line: Line, entry: Entry)
    ensures var t := Prepare(env, s, line, entry);
            && (t.turn.Some? <==> s.turn.Some?)
            && (t.start == s.start || t.start.None? || t.start.value.byteStart == line.byteStart)
            && (t.start != s.start ==> entry.signal.Some? || Classify(env.decided, entry.role) == Content)
            && (t.start.Some? && t.start != s.start ==> entry.signal.value.phase == Started)
            && (s.turn.Some? && Classify(env.decided, entry.role) == Content ==> t.start.None?)
  {
    hide NoteContext;
  }

  lemma PrepareContext(env: Env, s: State, line: Line, entry: Entry)
    ensures var t, n := Prepare(env, s, line, entry), NoteContext(env, s, line, entry);
            && t.base == n.base && t.seen == n.seen && t.committed == n.committed && t.pending == n.pending
            && t.values == n.values && t.next == n.next && t.lastEnd == n.lastEnd && t.turns == n.turns && t.failed == n.failed
  {
    hide Flow;
  }

  /** The history agrees where the record could let a boundary close. */
  lemma PrepareFaithful(env: Env, s: State, line: Line, entry: Entry)
    requires line.byteStart < line.byteEnd && Faithful(s, line.byteStart) && Harmless(env.decided, entry)
    ensures var t := Prepare(env, s, line, entry);
            && Faithful(t, line.byteEnd)
            && (t.turn.Some? && Classify(env.decided, entry.role) == Boundary ==> Agrees(t, CloseOffset(t.start, line)))
  {
    hide Prepare;
    hide NoteContext;
    var t, n := Prepare(env, s, line, entry), NoteContext(env, s, line, entry);
    PrepareFlow(env, s, line, entry);
    PrepareContext(env, s, line, entry);
    NoteContextOrdered(env, s, line, entry);
    forall offset | offset >= line.byteEnd ensures Agrees(t, offset) {
      NoteContextAgrees(env, s, line, entry, offset);
    }
    if s.turn.Some? {
      NoteContextAgrees(env, s, line, entry, Cutoff(s, line));
      if entry.context == map[] {
        NoNotes(env, s, line, entry);
        assert Agrees(s, line.byteStart);
      }
    }
  }

  /** Emitting at an agreed offset issues the history's context there, and the
      pruned list still answers for every later offset. */
  lemma EmitFaithful(env: Env, s: State, turn: Turn, offset: nat, dropped: Option<Drop>, provisional: bool, at: nat)
    requires Faithful(s, at) && Agrees(s, offset) && offset <= at
    ensures var t := Emit(env, s, turn, offset, dropped, provisional);
            && Faithful(t.(start := None), at)
            && t.committed == ContextAt(s, offset)
  {
    hide Commit;
    hide EndingAfter;
    hide LastOf;
    var t := Emit(env, s, turn, offset, dropped, provisional);
    forall field: Field
      ensures (if field in t.committed then Some(t.committed[field]) else None) == Lookup(s.base, s.seen, field, offset)
    {
      CommitIs(s.committed, s.pending, offset, field);
      assert Lookup(s.committed, s.pending, field, offset) == Lookup(s.base, s.seen, field, offset);
    }
    EndingAfterIs(s.pending, offset, Cwd, at);
    var t' := t.(start := None);
    forall later | later >= at ensures Agrees(t', later) {
      EmitAgrees(env, s, turn, offset, dropped, provisional, later);
      assert Agrees(t, later);
    }
  }

  lemma EmitAgrees(env: Env, s: State, turn: Turn, offset: nat, dropped: Option<Drop>, provisional: bool, later: nat)
    requires Ascending(s.pending) && Agrees(s, later) && offset <= later
    ensures Agrees(Emit(env, s, turn, offset, dropped, provisional), later)
  {
    hide Commit;
    hide EndingAfter;
    hide LastOf;
    var t := Emit(env, s, turn, offset, dropped, provisional);
    forall field: Field ensures Lookup(t.committed, t.pending, field, later) == Lookup(t.base, t.seen, field, later) {
      CommitIs(s.committed, s.pending, offset, field);
      EndingAfterIs(s.pending, offset, field, later);
      assert Lookup(s.committed, s.pending, field, later) == Lookup(s.base, s.seen, field, later);
    }
  }

  // ----------------------------------------------------------------- whole runs

  predicate HarmlessLine(env: Env, line: Line) {
    var entry := env.format.decode(line.text);
    entry.Some? ==> Harmless(env.decided, entry.value)
  }

  /** Every record of the parse is harmless under the decision in force. */
  ghost predicate AllHarmless(env: Env, lines: seq<Line>) {
    forall k | 0 <= k < |lines| :: HarmlessLine(env, lines[k])
  }

  ghost predicate SameContext(s: State, t: State) {
    t.base == s.base && t.seen == s.seen && t.committed == s.committed && t.pending == s.pending
  }

  lemma SameContextFaithful(s: State, t: State, at: nat)
    requires Faithful(s, at) && SameContext(s, t)
    requires t.start.None? || (t.start == s.start && (t.turn.Some? ==> s.turn.Some?))
    ensures Faithful(t, at)
  {
    forall offset | Agrees(s, offset) ensures Agrees(t, offset) {
      forall field: Field ensures Lookup(t.committed, t.pending, field, offset) == Lookup(t.base, t.seen, field, offset) {
        assert Lookup(s.committed, s.pending, field, offset) == Lookup(s.base, s.seen, field, offset);
      }
    }
    assert forall offset | offset >= at :: Agrees(s, offset);
  }

  /** What a record adds to the emitted turns: nothing, or one numbered turn
      closed at `offset`. */
  ghost predicate Issued(s: State, t: State, offset: nat) {
    || (t.turns == s.turns && (t.next == s.next || t.failed))
    || (&& |t.turns| == |s.turns| + 1 && t.turns[..|s.turns|] == s.turns && !t.failed
        && var p := t.turns[|s.turns|];
        && p.index == s.next && t.next == s.next + 1
        && p.cursor.byteOffset == offset && p.cursor.nextTurnIndex == t.next)
  }

  /** A turn added carries the history's context at its own offset. */
  ghost predicate ContextIssued(s: State, t: State, offset: nat) {
    |t.turns| > |s.turns| ==> t.turns[|t.turns| - 1].context.records == ContextAt(t, offset)
  }

  lemma EmitShape(env: Env, s: State, turn: Turn, offset: nat, dropped: Option<Drop>, provisional: bool)
    ensures var t := Emit(env, s, turn, offset, dropped, provisional);
            && t == s.(next := s.next + 1, committed := t.committed, pending := t.pending, turns := t.turns, failed := t.failed)
            && (t.failed ==> t.turns == s.turns)
            && (!t.failed ==>
                  && |t.turns| == |s.turns| + 1 && t.turns[..|s.turns|] == s.turns
                  && var p := t.turns[|s.turns|];
                  && p.index == s.next && p.cursor.byteOffset == offset && p.cursor.nextTurnIndex == s.next + 1
                  && p.context.records == t.committed)
  {
    hide Commit;
    hide EndingAfter;
    hide Fingerprint;
  }

  lemma OpenNextFaithful(env: Env, s: State, line: Line)
    requires line.byteStart < line.byteEnd && Faithful(s, line.byteEnd)
    requires s.turn.Some? ==> Agrees(s, CloseOffset(s.start, line))
    ensures Faithful(OpenNext(env, s, line), line.byteEnd)
    ensures ContextIssued(s, OpenNext(env, s, line), CloseOffset(s.start, line))
  {
    hide Emit;
    hide Agrees;
    hide Lookup;
    var t := OpenNext(env, s, line);
    if Emits(env, s.turn) {
      var offset, turn := CloseOffset(s.start, line), s.turn.value;
      var dropped := CloseDrop(env, turn);
      EmitFaithful(env, s, turn, offset, dropped, false, line.byteEnd);
      EmitShape(env, s, turn, offset, dropped, false);
      SameContextFaithful(Emit(env, s, turn, offset, dropped, false).(start := None), t, line.byteEnd);
      assert ContextAt(t, offset) == ContextAt(s, offset);
    } else {
      SameContextFaithful(s, t, line.byteEnd);
    }
  }

  /** Where a boundary at `line` would close the open turn. */
  function CloseAt(env: Env, s: State, line: Line): nat {
    var entry := env.format.decode(line.text);
    if entry.None? then line.byteStart
    else CloseOffset(Prepare(env, s.(lastEnd := Some(line.byteEnd)), line, entry.value).start, line)
  }

  /** One record keeps the pruned context faithful and issues, if anything, a
      turn carrying the history's context at its own cursor. */
  lemma AcceptFaithful(env: Env, s: State, line: Line)
    requires line.byteStart < line.byteEnd && Faithful(s, line.byteStart)
    requires HarmlessLine(env, line)
    ensures Faithful(Accept(env, s, line), line.byteEnd)
    ensures ContextIssued(s, Accept(env, s, line), CloseAt(env, s, line))
  {
    hide Prepare;
    hide Agrees;
    hide Faithful;
    hide OpenNext;
    var at := s.(lastEnd := Some(line.byteEnd));
    var decoded := env.format.decode(line.text);
    if s.failed || decoded.None? {
      FaithfulLater(s, line.byteStart, line.byteEnd);
      SameContextFaithful(s, Accept(env, s, line), line.byteEnd);
    } else {
      SameContextFaithful(s, at, line.byteStart);
      AcceptEntryFaithful(env, at, line, decoded.value);
    }
  }

  lemma AcceptEntryFaithful(env: Env, s: State, line: Line, entry: Entry)
    requires line.byteStart < line.byteEnd && Faithful(s, line.byteStart) && Harmless(env.decided, entry)
    ensures var ready := Prepare(env, s, line, entry);
            var r := Act(env, ready, line, entry);
            Faithful(r, line.byteEnd) && ContextIssued(s, r, CloseOffset(ready.start, line))
  {
    hide Prepare;
    hide Agrees;
    hide Faithful;
    hide OpenNext;
    hide NoteContext;
    var ready := Prepare(env, s, line, entry);
    PrepareFaithful(env, s, line, entry);
    PrepareContext(env, s, line, entry);
    NoteContextKeeps(env, s, line, entry);
    var r := Act(env, ready, line, entry);
    match Classify(env.decided, entry.role)
    case Skip =>
    case Content => SameContextFaithful(ready, r, line.byteEnd);
    case Boundary => ActBoundary(env, ready, line, entry);
  }

  lemma ActBoundary(env: Env, s: State, line: Line, entry: Entry)
    requires line.byteStart < line.byteEnd && Faithful(s, line.byteEnd)
    requires Classify(env.decided, entry.role) == Boundary
    requires s.turn.Some? ==> Agrees(s, CloseOffset(s.start, line))
    ensures Faithful(Act(env, s, line, entry), line.byteEnd)
    ensures ContextIssued(s, Act(env, s, line, entry), CloseOffset(s.start, line))
  {
    hide Agrees;
    hide Lookup;
    hide LastOf;
    hide Ascending;
    hide OpenNext;
    var t, r := OpenNext(env, s, line), Act(env, s, line, entry);
    OpenNextFaithful(env, s, line);
    OpenNextFlow(env, s, line);
    SameContextFaithful(t, r, line.byteEnd);
    assert ContextAt(r, CloseOffset(s.start, line)) == ContextAt(t, CloseOffset(s.start, line)) by {
      SameHistory(t, r, CloseOffset(s.start, line));
    }
  }

  lemma SameHistory(s: State, t: State, offset: nat)
    requires s.base == t.base && s.seen == t.seen
    ensures ContextAt(s, offset) == ContextAt(t, offset)
  {
  }

  lemma OpenNextFlow(env: Env, s: State, line: Line)
    ensures var t := OpenNext(env, s, line);
            && t.start.None? && t.turn.Some? && !t.marker && t.values == s.values && t.lastEnd == s.lastEnd
            && t.base == s.base && t.seen == s.seen
  {
    hide Emit;
    hide Commit;
    if Emits(env, s.turn) {
      EmitShape(env, s, s.turn.value, CloseOffset(s.start, line), CloseDrop(env, s.turn.value), false);
    }
  }

  lemma ActIssues(env: Env, s: State, line: Line, entry: Entry)
    requires !s.failed
    ensures Issued(s, Act(env, s, line, entry), CloseOffset(s.start, line))
  {
    hide Emit;
    if Classify(env.decided, entry.role) == Boundary && Emits(env, s.turn) {
      EmitShape(env, s, s.turn.value, CloseOffset(s.start, line), CloseDrop(env, s.turn.value), false);
    }
  }

  lemma AcceptIssues(env: Env, s: State, line: Line)
    ensures Issued(s, Accept(env, s, line), CloseAt(env, s, line))
  {
    hide Prepare;
    hide Act;
    hide NoteContext;
    var decoded := env.format.decode(line.text);
    if !s.failed && decoded.Some? {
      var at := s.(lastEnd := Some(line.byteEnd));
      PrepareContext(env, at, line, decoded.value);
      NoteContextKeeps(env, at, line, decoded.value);
      ActIssues(env, Prepare(env, at, line, decoded.value), line, decoded.value);
    }
  }

  lemma NoteFieldKeeps(env: Env, s: State, line: Line, entry: Entry, field: Field)
    ensures var t := NoteField(env, s, line, entry, field); t == s.(pending := t.pending, seen := t.seen)
    ensures NoteField(env, s, line, entry, field).seen
         == s.seen + (if field in entry.context then [RecordOf(env, line, field)] else [])
  {
    hide Retain;
    hide RecordOf;
  }

  lemma NoteContextKeeps(env: Env, s: State, line: Line, entry: Entry)
    ensures var t := NoteContext(env, s, line, entry);
            t == s.(pending := t.pending, seen := t.seen, values := s.values + entry.context)
    ensures NoteContext(env, s, line, entry).seen == s.seen + LineRecords(env, line, entry)
  {
    hide NoteField;
    hide RecordOf;
    var s1 := NoteField(env, s, line, entry, Cwd);
    var s2 := NoteField(env, s1, line, entry, Surface);
    NoteFieldKeeps(env, s, line, entry, Cwd);
    NoteFieldKeeps(env, s1, line, entry, Surface);
    NoteFieldKeeps(env, s2, line, entry, Branch);
  }

  lemma FaithfulLater(s: State, at: nat, later: nat)
    requires Faithful(s, at) && at <= later
    ensures Faithful(s, later)
  {
  }
}

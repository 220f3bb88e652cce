/** Resuming equals not stopping: a parse started at the cursor of any closed
    turn, with the context issued beside it, emits exactly the turns that were
    still to come. */
module TurnResume {
  import opened Framing
  import opened Reading
  import opened Turns
  import opened TurnContext
  import opened TurnRuns

  // ------------------------------------------------------- reading context back

  function TextOf(file: Bytes, record: ContextRecord): Bytes {
    if 0 < record.length && record.End() <= |file| then file[record.offset..record.End() - 1] else []
  }

  /** A context record still stands: it ends before the cursor, is one complete
      line, hashes to its digest and still sets its field. */
  predicate Stands(env: Env, record: ContextRecord, beforeOffset: nat) {
    && 0 < record.length <= MAX_TRANSCRIPT_RECORD_BYTES + 1
    && record.End() <= beforeOffset && record.End() <= |env.file|
    && env.file[record.End() - 1] == NEWLINE
    && (record.offset > 0 ==> env.file[record.offset - 1] == NEWLINE)
    && env.format.hash(TextOf(env.file, record)) == record.digest
    && var entry := env.format.decode(TextOf(env.file, record));
    entry.Some? && record.field in entry.value.context
  }

  /** The value a record that stands gives, from the source bytes. */
  function ValueOf(env: Env, record: ContextRecord): string {
    var entry := env.format.decode(TextOf(env.file, record));
    if entry.Some? && record.field in entry.value.context then entry.value.context[record.field] else ""
  }

  function ValuesOf(env: Env, records: Context): map<Field, string> {
    map field | field in records :: ValueOf(env, records[field])
  }

  predicate AllStand(env: Env, records: Context, beforeOffset: nat) {
    forall field | field in records :: records[field].field == field && Stands(env, records[field], beforeOffset)
  }

  /** `readResumeContext`: the values, or a refusal. */
  function ReadBack(env: Env, records: Context, beforeOffset: nat): Option<map<Field, string>> {
    if AllStand(env, records, beforeOffset) then Some(ValuesOf(env, records)) else None
  }

  /** A beginning a parse can have: byte zero, or a line start whose context
      stands and whose values were read back from it. */
  ghost predicate Proper(env: Env, s: State, from: nat) {
    && s == Begin(s.next, s.base, s.values)
    && from <= |env.file| && (from > 0 ==> env.file[from - 1] == NEWLINE)
    && AllStand(env, s.base, from) && s.values == ValuesOf(env, s.base)
  }

  lemma StandsLater(env: Env, records: Context, before: nat, later: nat)
    requires AllStand(env, records, before) && before <= later
    ensures AllStand(env, records, later)
  {
  }

  /** A record just read stands from its end on, and gives the value it set. */
  lemma RecordStands(env: Env, line: Line, entry: Entry, field: Field)
    requires RecordAt(env.file, line) && (line.byteStart > 0 ==> env.file[line.byteStart - 1] == NEWLINE)
    requires env.format.decode(line.text) == Some(entry) && field in entry.context
    ensures Stands(env, RecordOf(env, line, field), line.byteEnd)
    ensures ValueOf(env, RecordOf(env, line, field)) == entry.context[field]
  {
  }

  lemma NoteStands(env: Env, latest: Context, line: Line)
    requires AllStand(env, latest, line.byteStart) && RecordAt(env.file, line)
    requires line.byteStart > 0 ==> env.file[line.byteStart - 1] == NEWLINE
    ensures AllStand(env, Note(env, latest, line), line.byteEnd)
  {
    hide Stands;
    hide RecordOf;
    StandsLater(env, latest, line.byteStart, line.byteEnd);
    var entry := env.format.decode(line.text);
    if entry.Some? {
      forall field: Field | field in entry.value.context
        ensures Stands(env, RecordOf(env, line, field), line.byteEnd) && RecordOf(env, line, field).field == field
      {
        RecordStands(env, line, entry.value, field);
        RecordField(env, line, field);
      }
    }
  }

  lemma NoteValues(env: Env, latest: Context, line: Line)
    requires RecordAt(env.file, line) && (line.byteStart > 0 ==> env.file[line.byteStart - 1] == NEWLINE)
    ensures ValuesOf(env, Note(env, latest, line))
         == ValuesOf(env, latest) + (var e := env.format.decode(line.text); if e.None? then map[] else e.value.context)
  {
    hide Stands;
    hide ValueOf;
    hide RecordOf;
    var entry := env.format.decode(line.text);
    if entry.Some? {
      forall field: Field | field in entry.value.context
        ensures ValueOf(env, RecordOf(env, line, field)) == entry.value.context[field]
      {
        RecordStands(env, line, entry.value, field);
      }
    }
  }

  /** The derived context of a chain stands at its end, and its values are the
      last ones the records set. */
  lemma {:induction false} LatestStands(env: Env, s0: State, from: nat, lines: seq<Line>, to: nat)
    requires Proper(env, s0, from) && Chain(env.file, from, lines, to)
    ensures AllStand(env, Latest(env, s0.base, lines), to)
    ensures var s := Run(env, s0, lines); !s.failed ==> s.values == ValuesOf(env, Latest(env, s0.base, lines))
    ensures to > 0 ==> env.file[to - 1] == NEWLINE
    decreases |lines|
  {
    hide AllStand;
    hide ValuesOf;
    hide Accept;
    hide Note;
    if lines != [] {
      var init, line := lines[..|lines| - 1], lines[|lines| - 1];
      LatestStands(env, s0, from, init, line.byteStart);
      assert RecordAt(env.file, line);
      NoteStands(env, Latest(env, s0.base, init), line);
      NoteValues(env, Latest(env, s0.base, init), line);
      AcceptValues(env, Run(env, s0, init), line);
      AcceptFailed(env, Run(env, s0, init), line);
    }
  }

  lemma RecordField(env: Env, line: Line, field: Field)
    ensures RecordOf(env, line, field).field == field
  {
  }

  lemma AcceptValues(env: Env, s: State, line: Line)
    ensures !s.failed ==>
              Accept(env, s, line).values == s.values + (var e := env.format.decode(line.text); if e.None? then map[] else e.value.context)
  {
    hide Prepare;
    hide NoteContext;
    hide OpenNext;
    var decoded := env.format.decode(line.text);
    if !s.failed && decoded.Some? {
      var at := s.(lastEnd := Some(line.byteEnd));
      PrepareContext(env, at, line, decoded.value);
      NoteContextKeeps(env, at, line, decoded.value);
      OpenNextFlow(env, Prepare(env, at, line, decoded.value), line);
    }
  }

  // ------------------------------------------- the stretch before the boundary

  ghost predicate SameHistoryFrom(s: State, r: State, offset: nat) {
    forall field: Field, later: nat :: later >= offset ==>
      Lookup(s.base, s.seen, field, later) == Lookup(r.base, r.seen, field, later)
  }

  /** `r` resumed at `offset`, the pending start of `s` or later: it has no turn
      open yet and knows everything else `s` knows from there on. */
  ghost predicate Mid(s: State, r: State, offset: nat) {
    && !s.failed && !r.failed && r.turn.None? && r.turns == []
    && r.values == s.values && r.next == s.next + 1 && (r.marker ==> s.marker) && SameHistoryFrom(s, r, offset)
  }

  lemma HistoryStep(env: Env, s: State, r: State, s': State, r': State, line: Line, offset: nat)
    requires line.byteStart < line.byteEnd && SameHistoryFrom(s, r, offset)
    requires s'.base == s.base && r'.base == r.base
    requires var more := (var e := env.format.decode(line.text); if e.None? then [] else LineRecords(env, line, e.value));
             s'.seen == s.seen + more && r'.seen == r.seen + more
    ensures SameHistoryFrom(s', r', offset)
  {
    hide LastOf;
    hide LineRecords;
    hide RecordOf;
    var entry := env.format.decode(line.text);
    if entry.None? {
      assert s.seen + [] == s.seen && r.seen + [] == r.seen;
    } else {
      forall field: Field, later: nat | later >= offset
        ensures Lookup(s'.base, s'.seen, field, later) == Lookup(r'.base, r'.seen, field, later)
      {
        LineRecordsLast(env, line, entry.value, s.seen, field, later);
        LineRecordsLast(env, line, entry.value, r.seen, field, later);
        assert Lookup(s.base, s.seen, field, later) == Lookup(r.base, r.seen, field, later);
      }
    }
  }

  /** With no turn open, a record only moves the start when it starts. */
  lemma PrepareStart(env: Env, s: State, r: State, line: Line, entry: Entry)
    requires r.turn.None?
    requires var t := Prepare(env, s, line, entry);
             t.start.Some? && (t.start == s.start ==> r.start == s.start)
    ensures Prepare(env, r, line, entry).start == Prepare(env, s, line, entry).start
  {
    hide NoteContext;
  }

  /** While a start stays pending in `s` no boundary and no content arrives, so
      the resumed parse keeps waiting too. */
  lemma MidStep(env: Env, s: State, r: State, line: Line, offset: nat)
    requires line.byteStart < line.byteEnd && Mid(s, r, offset) && s.turn.Some?
    requires var t := Accept(env, s, line); t.start.Some? && !t.failed && (t.start == s.start ==> r.start == s.start)
    ensures var t, u := Accept(env, s, line), Accept(env, r, line);
            && Mid(t, u, offset) && u.start == t.start
            && t.turn.Some? && t.turns == s.turns && t.next == s.next
  {
    hide Prepare;
    hide NoteContext;
    hide OpenNext;
    hide SameHistoryFrom;
    hide Fold;
    var t, u := Accept(env, s, line), Accept(env, r, line);
    AcceptHistory(env, s, line);
    AcceptHistory(env, r, line);
    AcceptValues(env, s, line);
    AcceptValues(env, r, line);
    HistoryStep(env, s, r, t, u, line, offset);
    MidStepFlow(env, s, r, line);
  }

  predicate EntryMarker(env: Env, line: Line) {
    var entry := env.format.decode(line.text);
    entry.Some? && entry.value.marker
  }

  lemma PrepareMarker(env: Env, s: State, line: Line, entry: Entry)
    ensures Prepare(env, s, line, entry).marker == (s.marker || entry.marker)
  {
    hide NoteContext;
    hide Flow;
  }

  lemma MidStepFlow(env: Env, s: State, r: State, line: Line)
    requires !s.failed && !r.failed && s.turn.Some? && r.turn.None?
    requires var t := Accept(env, s, line); t.start.Some? && !t.failed && (t.start == s.start ==> r.start == s.start)
    ensures var t, u := Accept(env, s, line), Accept(env, r, line);
            && t.turn.Some? && t.turns == s.turns && t.next == s.next
            && !u.failed && u.turn.None? && u.turns == r.turns && u.next == r.next && u.start == t.start
            && (t.marker <==> s.marker || EntryMarker(env, line)) && (u.marker <==> r.marker || EntryMarker(env, line))
  {
    hide Prepare;
    hide NoteContext;
    hide OpenNext;
    var decoded := env.format.decode(line.text);
    if decoded.Some? {
      var entry := decoded.value;
      var s', r' := s.(lastEnd := Some(line.byteEnd)), r.(lastEnd := Some(line.byteEnd));
      PrepareMarker(env, s', line, entry);
      PrepareMarker(env, r', line, entry);
      PrepareFlow(env, s', line, entry);
      PrepareContext(env, s', line, entry);
      NoteContextKeeps(env, s', line, entry);
      PrepareFlow(env, r', line, entry);
      PrepareContext(env, r', line, entry);
      NoteContextKeeps(env, r', line, entry);
      OpenNextFlow(env, Prepare(env, s', line, entry), line);
      if Classify(env.decided, entry.role) == Skip {
        PrepareStart(env, s', r', line, entry);
      }
    }
  }

  // ------------------------------------------------ from the boundary on

  /** The turns agree; only a marker seen before the resume point can be missing,
      and only from the first turn. */
  ghost predicate TurnLike(a: Turn, b: Turn, exact: bool) {
    b == a.(markerBefore := b.markerBefore) && (b.markerBefore ==> a.markerBefore) && (exact ==> a == b)
  }

  ghost predicate ParsedLike(a: ParsedTurn, b: ParsedTurn, exact: bool) {
    b == a.(turn := b.turn) && TurnLike(a.turn, b.turn, exact)
  }

  /** `b` are the same turns as `a`: every field equal, save the marker of the first. */
  ghost predicate SameTurns(a: seq<ParsedTurn>, b: seq<ParsedTurn>) {
    |a| == |b| && forall i | 0 <= i < |a| :: ParsedLike(a[i], b[i], i > 0)
  }

  ghost predicate Aligned(s: State, r: State) {
    && s.values == r.values && s.marker == r.marker && s.start == r.start && s.next == r.next && s.lastEnd == r.lastEnd
    && s.turn.Some? && r.turn.Some?
  }

  /** The full parse `s`, whose turns from `n` on are still to come, and the
      resumed parse `r` move together. */
  ghost predicate Together(s: State, r: State, offset: nat, n: nat) {
    && n <= |s.turns| && SameTurns(s.turns[n..], r.turns)
    && s.failed == r.failed
    && (!s.failed ==>
          && Aligned(s, r) && TurnLike(s.turn.value, r.turn.value, r.turns != [])
          && SameHistoryFrom(s, r, offset)
          && (s.start.Some? ==> s.start.value.byteStart >= offset))
  }

  /** `b` is `a` with another marker. */
  ghost predicate Marked(a: Option<Turn>, b: Option<Turn>, from: bool, to: bool) {
    a.Some? && b.Some? && a.value.markerBefore == from && b.value == a.value.(markerBefore := to)
  }

  lemma SignalMarker(a: Option<Turn>, b: Option<Turn>, from: bool, to: bool, start: Option<Start>, line: Line, entry: Entry)
    requires Marked(a, b, from, to)
    ensures var x, y := ApplySignal(a, start, line, entry), ApplySignal(b, start, line, entry);
            Marked(x.0, y.0, from, to) && x.1 == y.1
  {
  }

  lemma LatchMarker(a: Option<Turn>, b: Option<Turn>, from: bool, to: bool, start: Option<Start>, class_: LineClass)
    requires Marked(a, b, from, to)
    ensures var x, y := LatchRetry(a, start, class_), LatchRetry(b, start, class_);
            Marked(x.0, y.0, from, to) && x.1 == y.1
  {
  }

  /** The marker of the open turn is carried along and read by nothing. */
  lemma FlowMarker(env: Env, a: Option<Turn>, b: Option<Turn>, from: bool, to: bool, start: Option<Start>, line: Line, entry: Entry)
    requires Marked(a, b, from, to)
    ensures var x, y := Flow(env, a, start, line, entry), Flow(env, b, start, line, entry);
            Marked(x.0, y.0, from, to) && x.1 == y.1
  {
    hide ApplySignal;
    hide LatchRetry;
    hide Classify;
    var a1, b1 := NoteTurn(a, entry), NoteTurn(b, entry);
    SignalMarker(a1, b1, from, to, start, line, entry);
    var x, y := ApplySignal(a1, start, line, entry), ApplySignal(b1, start, line, entry);
    LatchMarker(x.0, y.0, from, to, x.1, Classify(env.decided, entry.role));
  }

  /** What preparing a record gives depends only on what the two share. */
  lemma PrepareTogether(env: Env, s: State, r: State, line: Line, entry: Entry, exact: bool)
    requires s.values == r.values && s.marker == r.marker && s.start == r.start
    requires s.turn.Some? && r.turn.Some? && TurnLike(s.turn.value, r.turn.value, exact)
    ensures var t, u := Prepare(env, s, line, entry), Prepare(env, r, line, entry);
            && t.marker == u.marker && t.start == u.start && t.turn.Some? && u.turn.Some?
            && TurnLike(t.turn.value, u.turn.value, exact)
  {
    hide NoteContext;
    hide Flow;
    FlowMarker(env, s.turn, r.turn, s.turn.value.markerBefore, r.turn.value.markerBefore, s.start, line, entry);
  }

  lemma SameTurnsSnoc(a: seq<ParsedTurn>, b: seq<ParsedTurn>, p: ParsedTurn, q: ParsedTurn)
    requires SameTurns(a, b) && ParsedLike(p, q, b != [])
    ensures SameTurns(a + [p], b + [q])
  {
  }

  lemma CommitTogether(s: State, r: State, from: nat, offset: nat)
    requires Agrees(s, offset) && Agrees(r, offset) && SameHistoryFrom(s, r, from) && from <= offset
    ensures Commit(s.committed, s.pending, offset) == Commit(r.committed, r.pending, offset)
  {
    hide Commit;
    hide LastOf;
    var c, d := Commit(s.committed, s.pending, offset), Commit(r.committed, r.pending, offset);
    forall field: Field ensures (if field in c then Some(c[field]) else None) == (if field in d then Some(d[field]) else None) {
      CommitIs(s.committed, s.pending, offset, field);
      CommitIs(r.committed, r.pending, offset, field);
      assert Lookup(s.committed, s.pending, field, offset) == Lookup(s.base, s.seen, field, offset);
      assert Lookup(r.committed, r.pending, field, offset) == Lookup(r.base, r.seen, field, offset);
    }
    assert forall field: Field :: field in c <==> field in d;
  }

  lemma EmitTogether(env: Env, s: State, r: State, a: Turn, b: Turn, offset: nat, dropped: Option<Drop>, provisional: bool, n: nat)
    requires s.next == r.next && n <= |s.turns| && SameTurns(s.turns[n..], r.turns)
    requires TurnLike(a, b, r.turns != []) && Commit(s.committed, s.pending, offset) == Commit(r.committed, r.pending, offset)
    ensures var t, u := Emit(env, s, a, offset, dropped, provisional), Emit(env, r, b, offset, dropped, provisional);
            && t.failed == u.failed && t.next == u.next && n <= |t.turns| && SameTurns(t.turns[n..], u.turns)
            && (!t.failed ==> u.turns != [])
  {
    hide Commit;
    hide EndingAfter;
    hide Fingerprint;
    hide SameTurns;
    var t, u := Emit(env, s, a, offset, dropped, provisional), Emit(env, r, b, offset, dropped, provisional);
    if !t.failed {
      var p, q := t.turns[|s.turns|], u.turns[|r.turns|];
      SameTurnsSnoc(s.turns[n..], r.turns, p, q);
      assert t.turns[n..] == s.turns[n..] + [p];
    }
  }

  /** Both parses close the same turn, or neither does, and open the same next one. */
  lemma OpenNextTogether(env: Env, s: State, r: State, line: Line, n: nat)
    requires Aligned(s, r) && n <= |s.turns| && SameTurns(s.turns[n..], r.turns) && s.failed == r.failed
    requires TurnLike(s.turn.value, r.turn.value, r.turns != [])
    requires var offset := CloseOffset(s.start, line);
             Commit(s.committed, s.pending, offset) == Commit(r.committed, r.pending, offset)
    ensures var t, u := OpenNext(env, s, line), OpenNext(env, r, line);
            && t.failed == u.failed && n <= |t.turns| && SameTurns(t.turns[n..], u.turns)
            && Aligned(t, u) && t.turn == u.turn && t.start.None?
  {
    hide Emit;
    hide SameTurns;
    hide Commit;
    OpenNextFlow(env, s, line);
    OpenNextFlow(env, r, line);
    if Emits(env, s.turn) {
      var offset, dropped := CloseOffset(s.start, line), CloseDrop(env, s.turn.value);
      EmitTogether(env, s, r, s.turn.value, r.turn.value, offset, dropped, false, n);
      EmitShape(env, s, s.turn.value, offset, dropped, false);
      EmitShape(env, r, r.turn.value, offset, dropped, false);
    }
  }

  lemma ActTogether(env: Env, s: State, r: State, line: Line, entry: Entry, n: nat)
    requires Aligned(s, r) && n <= |s.turns| && SameTurns(s.turns[n..], r.turns) && !s.failed && !r.failed
    requires TurnLike(s.turn.value, r.turn.value, r.turns != [])
    requires Classify(env.decided, entry.role) == Boundary ==>
               var offset := CloseOffset(s.start, line);
               Commit(s.committed, s.pending, offset) == Commit(r.committed, r.pending, offset)
    ensures var t, u := Act(env, s, line, entry), Act(env, r, line, entry);
            && t.failed == u.failed && n <= |t.turns| && SameTurns(t.turns[n..], u.turns)
            && (!t.failed ==> Aligned(t, u) && TurnLike(t.turn.value, u.turn.value, u.turns != []))
            && (t.start == s.start || t.start.None?)
  {
    hide OpenNext;
    hide SameTurns;
    hide Commit;
    if Classify(env.decided, entry.role) == Boundary {
      OpenNextTogether(env, s, r, line, n);
    }
  }

  lemma PreparedTogether(env: Env, s: State, r: State, line: Line, entry: Entry, offset: nat, n: nat)
    requires Together(s, r, offset, n) && !s.failed
    requires env.format.decode(line.text) == Some(entry) && Harmless(env.decided, entry)
    requires offset <= line.byteStart < line.byteEnd
    requires Faithful(s, line.byteStart) && Faithful(r, line.byteStart)
    ensures var t, u := Prepare(env, s, line, entry), Prepare(env, r, line, entry);
            && Together(t, u, offset, n) && !t.failed
            && (Classify(env.decided, entry.role) == Boundary ==>
                  var at := CloseOffset(t.start, line);
                  Commit(t.committed, t.pending, at) == Commit(u.committed, u.pending, at))
  {
    hide Prepare;
    hide SameTurns;
    hide SameHistoryFrom;
    hide Agrees;
    hide NoteContext;
    hide LineRecords;
    hide Commit;
    hide TurnLike;
    var t, u := Prepare(env, s, line, entry), Prepare(env, r, line, entry);
    PrepareTogether(env, s, r, line, entry, r.turns != []);
    PrepareContext(env, s, line, entry);
    PrepareContext(env, r, line, entry);
    NoteContextKeeps(env, s, line, entry);
    NoteContextKeeps(env, r, line, entry);
    HistoryStep(env, s, r, t, u, line, offset);
    PrepareFlow(env, s, line, entry);
    if Classify(env.decided, entry.role) == Boundary {
      PrepareFaithful(env, s, line, entry);
      PrepareFaithful(env, r, line, entry);
      CommitTogether(t, u, offset, CloseOffset(t.start, line));
    }
  }

  /** One more record keeps both parses together. */
  lemma TogetherStep(env: Env, s: State, r: State, line: Line, offset: nat, n: nat)
    requires Together(s, r, offset, n) && HarmlessLine(env, line)
    requires offset <= line.byteStart < line.byteEnd
    requires Faithful(s, line.byteStart) && Faithful(r, line.byteStart)
    ensures Together(Accept(env, s, line), Accept(env, r, line), offset, n)
  {
    hide Prepare;
    hide Act;
    hide SameTurns;
    hide SameHistoryFrom;
    hide Faithful;
    hide TurnLike;
    hide LineRecords;
    var decoded := env.format.decode(line.text);
    if !s.failed {
      var t, u := Accept(env, s, line), Accept(env, r, line);
      AcceptHistory(env, s, line);
      AcceptHistory(env, r, line);
      HistoryStep(env, s, r, t, u, line, offset);
      if decoded.Some? {
        var s', r' := s.(lastEnd := Some(line.byteEnd)), r.(lastEnd := Some(line.byteEnd));
        SameContextFaithful(s, s', line.byteStart);
        SameContextFaithful(r, r', line.byteStart);
        HistoryUnmoved(s, r, s', r', offset);
        PreparedTogether(env, s', r', line, decoded.value, offset, n);
        ActTogether(env, Prepare(env, s', line, decoded.value), Prepare(env, r', line, decoded.value), line, decoded.value, n);
      }
    }
  }

  lemma HistoryUnmoved(s: State, r: State, s': State, r': State, offset: nat)
    requires SameHistoryFrom(s, r, offset)
    requires s'.base == s.base && s'.seen == s.seen && r'.base == r.base && r'.seen == r.seen
    ensures SameHistoryFrom(s', r', offset)
  {
  }

  // -------------------------------------------------------- finding the resume point

  /** The state a parse resumed at `offset` begins in. */
  ghost function Resumed(env: Env, s: State, offset: nat): State {
    Begin(s.next + 1, ContextAt(s, offset), ValuesOf(env, ContextAt(s, offset)))
  }

  /** Records that end after an offset leave the context there alone. */
  lemma ContextAtEarlier(env: Env, s: State, line: Line, offset: nat)
    requires offset <= line.byteStart < line.byteEnd
    ensures ContextAt(Accept(env, s, line), offset) == ContextAt(s, offset)
  {
    hide Accept;
    hide LastOf;
    hide LineRecords;
    AcceptHistory(env, s, line);
    AcceptFailed(env, s, line);
    var t, entry := Accept(env, s, line), env.format.decode(line.text);
    forall field: Field ensures Lookup(t.base, t.seen, field, offset) == Lookup(s.base, s.seen, field, offset) {
      if !s.failed {
        if entry.Some? {
          LineRecordsLast(env, line, entry.value, s.seen, field, offset);
        } else {
          assert s.seen + [] == s.seen;
        }
      }
    }
  }

  /** Standing at a line start, the context there is what the lines before derive. */
  lemma ContextHere(env: Env, s0: State, from: nat, lines: seq<Line>, to: nat)
    requires Proper(env, s0, from) && Chain(env.file, from, lines, to) && AllHarmless(env, lines)
    requires !Run(env, s0, lines).failed
    ensures var s := Run(env, s0, lines);
            && ContextAt(s, to) == Latest(env, s0.base, lines)
            && Mid(s, Resumed(env, s, to), to) && AllStand(env, ContextAt(s, to), to)
  {
    hide LastOf;
    hide Latest;
    hide Records;
    hide Accept;
    hide AllStand;
    hide ValueOf;
    var s, latest := Run(env, s0, lines), Latest(env, s0.base, lines);
    RunContexts(env, s0, from, lines, to);
    LatestStands(env, s0, from, lines, to);
    forall field: Field, later: nat | later >= to
      ensures Lookup(s.base, s.seen, field, later) == if field in latest then Some(latest[field]) else None
    {
      LookupAll(env, s0.base, from, lines, to, field, later);
    }
    assert ContextAt(s, to) == latest;
    BareLookup(s, Resumed(env, s, to), latest, to);
  }

  lemma BareLookup(s: State, r: State, latest: Context, to: nat)
    requires r.base == latest && r.seen == []
    requires forall field: Field, later: nat | later >= to ::
               Lookup(s.base, s.seen, field, later) == if field in latest then Some(latest[field]) else None
    ensures SameHistoryFrom(s, r, to)
  {
  }

  /** A start left pending means no boundary was acted on. */
  lemma StartPending(env: Env, s: State, line: Line)
    ensures var t := Accept(env, s, line);
            t.start.Some? && !t.failed ==> !s.failed && (t.turn.Some? <==> s.turn.Some?) && t.next == s.next && t.turns == s.turns
  {
    hide Prepare;
    hide NoteContext;
    hide OpenNext;
    var decoded := env.format.decode(line.text);
    if !s.failed && decoded.Some? {
      var at := s.(lastEnd := Some(line.byteEnd));
      PrepareFlow(env, at, line, decoded.value);
      PrepareContext(env, at, line, decoded.value);
      NoteContextKeeps(env, at, line, decoded.value);
      OpenNextFlow(env, Prepare(env, at, line, decoded.value), line);
    }
  }

  /** What a chain gives about its last record and the ones before it. */
  lemma InitFacts(env: Env, from: nat, lines: seq<Line>, to: nat)
    requires Chain(env.file, from, lines, to) && AllHarmless(env, lines) && lines != []
    ensures var init, line := lines[..|lines| - 1], lines[|lines| - 1];
            && Chain(env.file, from, init, line.byteStart) && AllHarmless(env, init)
            && line.byteStart < line.byteEnd == to && HarmlessLine(env, line)
  {
    hide HarmlessLine;
    assert RecordAt(env.file, lines[|lines| - 1]);
  }

  /** While a start is pending in an open turn, a parse resumed at it is waiting
      with the same start. */
  lemma {:induction false} ResumePoint(env: Env, s0: State, from: nat, lines: seq<Line>, to: nat) returns (j: nat)
    requires Proper(env, s0, from) && Chain(env.file, from, lines, to) && AllHarmless(env, lines)
    requires var s := Run(env, s0, lines); !s.failed && s.turn.Some? && s.start.Some?
    ensures var s := Run(env, s0, lines);
            var offset := s.start.value.byteStart;
            && j < |lines| && lines[j].byteStart == offset
            && var r := Run(env, Resumed(env, s, offset), lines[j..]);
            Mid(s, r, offset) && r.start == s.start
    ensures var s := Run(env, s0, lines);
            AllStand(env, ContextAt(s, s.start.value.byteStart), s.start.value.byteStart)
    decreases |lines|
  {
    hide Accept;
    hide Mid;
    hide AllStand;
    hide ContextAt;
    hide Chain;
    hide AllHarmless;
    hide ValuesOf;
    hide LineStart;
    var init, line := lines[..|lines| - 1], lines[|lines| - 1];
    var s, t := Run(env, s0, init), Run(env, s0, lines);
    var offset := t.start.value.byteStart;
    InitFacts(env, from, lines, to);
    StartPending(env, s, line);
    AcceptStart(env, s, line);
    RunNumbered(env, s0, from, init, line.byteStart);
    ContextAtEarlier(env, s, line, offset);
    if t.start == s.start {
      j := ResumePoint(env, s0, from, init, line.byteStart);
      MidStep(env, s, Run(env, Resumed(env, s, offset), init[j..]), line, offset);
      assert lines[j..][..|lines[j..]| - 1] == init[j..];
    } else {
      j := |lines| - 1;
      ContextHere(env, s0, from, init, line.byteStart);
      MidStep(env, s, Resumed(env, s, offset), line, offset);
      assert lines[j..] == [line] && lines[j..][..0] == [];
      assert Run(env, Resumed(env, s, offset), []) == Resumed(env, s, offset);
    }
  }

  // ---------------------------------------------------------------- the theorem

  /** The boundary that closes a turn of `s` opens, in both parses, the same turn. */
  lemma Meet(env: Env, s: State, r: State, line: Line, offset: nat)
    requires Mid(s, r, offset) && s.turn.Some? && line.byteStart < line.byteEnd
    requires |Accept(env, s, line).turns| == |s.turns| + 1
    requires var t := Accept(env, s, line); t.turns[|s.turns|].cursor.byteOffset == offset && Low(s, line.byteStart) <= offset
    requires offset < line.byteStart ==> r.start == s.start
    requires offset == line.byteStart ==> r.start.None?
    requires s.start.Some? ==> s.start.value.byteStart < line.byteStart
    ensures Together(Accept(env, s, line), Accept(env, r, line), offset, |s.turns| + 1)
  {
    hide Prepare;
    hide Act;
    hide SameHistoryFrom;
    hide LineRecords;
    var t, u := Accept(env, s, line), Accept(env, r, line);
    AcceptHistory(env, s, line);
    AcceptHistory(env, r, line);
    AcceptIssues(env, s, line);
    HistoryStep(env, s, r, t, u, line, offset);
    var entry := env.format.decode(line.text).value;
    var s', r' := s.(lastEnd := Some(line.byteEnd)), r.(lastEnd := Some(line.byteEnd));
    MeetPrepared(env, s', r', line, entry, offset);
    MeetAct(env, Prepare(env, s', line, entry), Prepare(env, r', line, entry), line, entry);
  }

  lemma MeetPrepared(env: Env, s: State, r: State, line: Line, entry: Entry, offset: nat)
    requires !s.failed && !r.failed && s.turn.Some? && r.turn.None? && r.turns == []
    requires s.values == r.values && r.next == s.next + 1 && (r.marker ==> s.marker) && s.lastEnd == r.lastEnd
    requires CloseOffset(Prepare(env, s, line, entry).start, line) == offset
    requires |Act(env, Prepare(env, s, line, entry), line, entry).turns| > |s.turns|
    requires offset < line.byteStart ==> r.start == s.start
    requires offset == line.byteStart ==> r.start.None?
    requires s.start.Some? ==> s.start.value.byteStart < line.byteStart
    ensures var t, u := Prepare(env, s, line, entry), Prepare(env, r, line, entry);
            && Classify(env.decided, entry.role) == Boundary
            && t.start == u.start && t.turn.Some? && u.turn.None? && !t.failed && !u.failed && u.turns == []
            && t.values == u.values && u.next == t.next + 1 && (u.marker ==> t.marker) && t.lastEnd == u.lastEnd
            && t.turns == s.turns
  {
    hide NoteContext;
    hide Prepare;
    hide OpenNext;
    PrepareContext(env, s, line, entry);
    PrepareContext(env, r, line, entry);
    NoteContextKeeps(env, s, line, entry);
    NoteContextKeeps(env, r, line, entry);
    PrepareFlow(env, s, line, entry);
    PrepareFlow(env, r, line, entry);
    PrepareMarker(env, s, line, entry);
    PrepareMarker(env, r, line, entry);
    var t := Prepare(env, s, line, entry);
    if t.start.Some? {
      PrepareStart(env, s, r, line, entry);
    } else {
      NoStart(env, s, r, line, entry);
    }
  }

  /** A boundary that leaves no start pending did not start one, so it starts
      none for a parse that had none either. */
  lemma NoStart(env: Env, s: State, r: State, line: Line, entry: Entry)
    requires Classify(env.decided, entry.role) == Boundary && Prepare(env, s, line, entry).start.None?
    requires r.turn.None? && r.start.None?
    ensures Prepare(env, r, line, entry).start.None?
  {
    hide NoteContext;
  }

  lemma MeetAct(env: Env, s: State, r: State, line: Line, entry: Entry)
    requires Classify(env.decided, entry.role) == Boundary
    requires s.start == r.start && s.turn.Some? && r.turn.None? && !s.failed && !r.failed && r.turns == []
    requires s.values == r.values && r.next == s.next + 1 && (r.marker ==> s.marker) && s.lastEnd == r.lastEnd
    requires |Act(env, s, line, entry).turns| == |s.turns| + 1
    ensures var t, u := Act(env, s, line, entry), Act(env, r, line, entry);
            && !t.failed && !u.failed && Aligned(t, u) && t.start.None? && u.turns == []
            && TurnLike(t.turn.value, u.turn.value, false)
  {
    hide Emit;
    if Emits(env, s.turn) {
      EmitShape(env, s, s.turn.value, CloseOffset(s.start, line), CloseDrop(env, s.turn.value), false);
    }
  }

  lemma ChainMiddle(file: Bytes, from: nat, lines: seq<Line>, to: nat, j: nat, m: nat)
    requires Chain(file, from, lines, to) && j < m < |lines|
    ensures Chain(file, lines[j].byteStart, lines[j..m], lines[m].byteStart)
    ensures lines[j].byteStart < lines[m].byteStart < lines[m].byteEnd
  {
    ChainStarts(file, from, lines, to, j, m);
    assert RecordAt(file, lines[j]) && RecordAt(file, lines[m]);
  }

  /** One step of both runs, past the meeting point. */
  lemma TogetherAt(env: Env, s0: State, from: nat, lines: seq<Line>, to: nat, j: nat, r0: State, m: nat, n: nat)
    requires s0 == Begin(s0.next, s0.base, s0.values) && Chain(env.file, from, lines, to) && AllHarmless(env, lines)
    requires j < m < |lines| && r0 == Begin(r0.next, r0.base, r0.values)
    requires Together(Run(env, s0, lines[..m]), Run(env, r0, lines[j..m]), lines[j].byteStart, n)
    ensures Together(Run(env, s0, lines[..m + 1]), Run(env, r0, lines[j..m + 1]), lines[j].byteStart, n)
  {
    hide Accept;
    hide Together;
    hide Chain;
    hide RecordAt;
    hide Faithful;
    hide HarmlessLine;
    hide Records;
    hide Latest;
    hide ContextsDerived;
    hide Run;
    var line, done, since := lines[m], lines[..m], lines[j..m];
    ChainPrefix(env.file, from, lines, to, m);
    ChainMiddle(env.file, from, lines, to, j, m);
    RunContexts(env, s0, from, done, line.byteStart);
    RunContexts(env, r0, lines[j].byteStart, since, line.byteStart);
    TogetherStep(env, Run(env, s0, done), Run(env, r0, since), line, lines[j].byteStart, n);
    RunSnoc(env, s0, done, line);
    RunSnoc(env, r0, since, line);
    assert lines[..m + 1] == done + [line] && lines[j..m + 1] == since + [line];
  }

  /** Once together, the parses stay together to the end of the records. */
  lemma {:induction false} RunTogether(env: Env, s0: State, from: nat, lines: seq<Line>, to: nat, j: nat, r0: State, m: nat, n: nat)
    requires s0 == Begin(s0.next, s0.base, s0.values) && Chain(env.file, from, lines, to) && AllHarmless(env, lines)
    requires j < m <= |lines| && r0 == Begin(r0.next, r0.base, r0.values)
    requires Together(Run(env, s0, lines[..m]), Run(env, r0, lines[j..m]), lines[j].byteStart, n)
    ensures Together(Run(env, s0, lines), Run(env, r0, lines[j..]), lines[j].byteStart, n)
    decreases |lines| - m
  {
    hide Run;
    hide Together;
    if m == |lines| {
      assert lines[..m] == lines && lines[j..m] == lines[j..];
    } else {
      TogetherAt(env, s0, from, lines, to, j, r0, m, n);
      RunTogether(env, s0, from, lines, to, j, r0, m + 1, n);
    }
  }

  /** The record at which turn `i` is emitted. */
  lemma {:induction false} EmittedWhere(env: Env, s0: State, lines: seq<Line>, i: nat) returns (k: nat)
    requires s0.turns == [] && i < |Run(env, s0, lines).turns|
    ensures k < |lines|
    ensures |Run(env, s0, lines[..k]).turns| == i
    ensures var t := Run(env, s0, lines[..k + 1]);
            |t.turns| == i + 1 && t.turns <= Run(env, s0, lines).turns && t == Accept(env, Run(env, s0, lines[..k]), lines[k])
    decreases |lines|
  {
    hide Accept;
    var init, line := lines[..|lines| - 1], lines[|lines| - 1];
    var s := Run(env, s0, init);
    AcceptIssues(env, s, line);
    AcceptFailed(env, s, line);
    assert s.turns <= Run(env, s0, lines).turns;
    if i < |s.turns| {
      k := EmittedWhere(env, s0, init, i);
      assert init[..k] == lines[..k] && init[..k + 1] == lines[..k + 1];
    } else {
      k := |lines| - 1;
      assert lines[..k] == init && lines[..k + 1] == lines;
    }
  }

  /** What a caller resumes with: the cursor's index, the issued context, and the
      values read back from it. */
  function ResumeAt(env: Env, p: ParsedTurn): State {
    Begin(p.cursor.nextTurnIndex, p.context.records, ValuesOf(env, p.context.records))
  }

  /** The resumed parse reaches the boundary that closed turn `i` in step with
      the full one. */
  lemma MeetingPoint(env: Env, s0: State, from: nat, lines: seq<Line>, to: nat, i: nat) returns (j: nat, k: nat)
    requires Proper(env, s0, from) && Chain(env.file, from, lines, to) && AllHarmless(env, lines)
    requires i < |Run(env, s0, lines).turns|
    ensures j <= k < |lines|
    ensures var p := Run(env, s0, lines).turns[i];
            && lines[j].byteStart == p.cursor.byteOffset && AllStand(env, p.context.records, p.cursor.byteOffset)
            && Together(Run(env, s0, lines[..k + 1]), Run(env, ResumeAt(env, p), lines[j..k + 1]), lines[j].byteStart, i + 1)
  {
    hide Accept;
    hide Together;
    hide Mid;
    hide Faithful;
    hide AllStand;
    hide ValuesOf;
    hide ContextAt;
    k := EmittedWhere(env, s0, lines, i);
    var done, line := lines[..k], lines[k];
    var s, t := Run(env, s0, done), Run(env, s0, lines[..k + 1]);
    var p := t.turns[i];
    assert Run(env, s0, lines).turns[i] == p;
    BeforeBoundary(env, s0, from, lines, to, k);
    var offset := p.cursor.byteOffset;
    assert p.context.records == ContextAt(s, offset) && p.cursor.nextTurnIndex == s.next + 1;
    assert ResumeAt(env, p) == Resumed(env, s, offset);
    if offset == line.byteStart {
      j := k;
      ContextHere(env, s0, from, done, offset);
      Meet(env, s, Resumed(env, s, offset), line, offset);
      assert lines[j..k + 1] == [line];
      RunOne(env, Resumed(env, s, offset), line);
    } else {
      j := ResumePoint(env, s0, from, done, line.byteStart);
      var r := Run(env, Resumed(env, s, offset), done[j..]);
      Meet(env, s, r, line, offset);
      assert lines[j..k + 1] == done[j..] + [line];
      RunSnoc(env, Resumed(env, s, offset), done[j..], line);
    }
  }

  lemma RunOne(env: Env, s: State, line: Line)
    ensures Run(env, s, [line]) == Accept(env, s, line)
  {
    hide Accept;
    assert [line][..0] == [];
  }

  /** Facts about the state just before a record that emits a turn. */
  lemma BeforeBoundary(env: Env, s0: State, from: nat, lines: seq<Line>, to: nat, k: nat)
    requires s0 == Begin(s0.next, s0.base, s0.values) && Chain(env.file, from, lines, to) && AllHarmless(env, lines)
    requires k < |lines|
    requires var s, t := Run(env, s0, lines[..k]), Run(env, s0, lines[..k + 1]); |t.turns| == |s.turns| + 1
    requires Run(env, s0, lines[..k + 1]) == Accept(env, Run(env, s0, lines[..k]), lines[k])
    ensures var s, t := Run(env, s0, lines[..k]), Run(env, s0, lines[..k + 1]);
            var p := t.turns[|s.turns|];
            && !s.failed && s.turn.Some? && Chain(env.file, from, lines[..k], lines[k].byteStart) && AllHarmless(env, lines[..k])
            && lines[k].byteStart < lines[k].byteEnd
            && (s.start.Some? ==> s.start.value.byteStart < lines[k].byteStart)
            && p.context.records == ContextAt(s, p.cursor.byteOffset) && p.cursor.nextTurnIndex == s.next + 1
            && Low(s, lines[k].byteStart) <= p.cursor.byteOffset <= lines[k].byteStart
            && (p.cursor.byteOffset == lines[k].byteStart || (s.start.Some? && p.cursor.byteOffset == s.start.value.byteStart))
  {
    hide Accept;
    hide Prepare;
    hide ContextAt;
    hide Faithful;
    hide Latest;
    hide Records;
    hide CloseAt;
    var done, line := lines[..k], lines[k];
    var s, t := Run(env, s0, done), Run(env, s0, lines[..k + 1]);
    ChainPrefix(env.file, from, lines, to, k);
    assert RecordAt(env.file, line) && HarmlessLine(env, line);
    RunContexts(env, s0, from, done, line.byteStart);
    RunNumbered(env, s0, from, done, line.byteStart);
    AcceptFaithful(env, s, line);
    AcceptIssues(env, s, line);
    CloseAtIs(env, s, line);
    ContextAtEarlier(env, s, line, CloseAt(env, s, line));
    EmitsOpen(env, s, line);
  }

  lemma EmitsOpen(env: Env, s: State, line: Line)
    requires |Accept(env, s, line).turns| > |s.turns|
    ensures !s.failed && s.turn.Some?
  {
    hide Emit;
    hide NoteContext;
    hide Prepare;
    var entry := env.format.decode(line.text).value;
    var at := s.(lastEnd := Some(line.byteEnd));
    PrepareContext(env, at, line, entry);
    NoteContextKeeps(env, at, line, entry);
    PrepareFlow(env, at, line, entry);
  }

  lemma {:induction false} RunLastEnd(env: Env, s0: State, lines: seq<Line>)
    requires lines != [] && !Run(env, s0, lines).failed
    ensures Run(env, s0, lines).lastEnd == Some(lines[|lines| - 1].byteEnd)
  {
    hide Prepare;
    hide NoteContext;
    hide OpenNext;
    var s, line := Run(env, s0, lines[..|lines| - 1]), lines[|lines| - 1];
    AcceptFailed(env, s, line);
    var decoded := env.format.decode(line.text);
    if decoded.Some? {
      var at := s.(lastEnd := Some(line.byteEnd));
      PrepareContext(env, at, line, decoded.value);
      NoteContextKeeps(env, at, line, decoded.value);
      OpenNextFlow(env, Prepare(env, at, line, decoded.value), line);
    }
  }

  lemma FinishTogether(env: Env, s: State, r: State, offset: nat, n: nat, to: nat, closeTrailingOnIdle: bool)
    requires Together(s, r, offset, n) && Faithful(s, to) && Faithful(r, to) && offset <= to
    requires !s.failed ==> s.lastEnd == Some(to)
    ensures var t, u := Finish(env, s, closeTrailingOnIdle), Finish(env, r, closeTrailingOnIdle);
            t.failed == u.failed && n <= |t.turns| && SameTurns(t.turns[n..], u.turns)
  {
    hide Emit;
    hide SameTurns;
    hide SameHistoryFrom;
    hide Agrees;
    hide Commit;
    if closeTrailingOnIdle && ClosesIdle(env, s) {
      CommitTogether(s, r, offset, to);
      EmitTogether(env, s, r, s.turn.value, r.turn.value, to, IdleDrop(env, s.turn.value), !s.turn.value.life.started, n);
    }
  }

  /** The whole of `full`'s turns from `n` on, before and after an idle close, are
      `resumed`'s. */
  ghost predicate Continues(env: Env, full: State, resumed: State, n: nat, closeTrailingOnIdle: bool) {
    var whole, rest := Finish(env, full, closeTrailingOnIdle), Finish(env, resumed, closeTrailingOnIdle);
    && n <= |full.turns| && SameTurns(full.turns[n..], resumed.turns) && full.failed == resumed.failed
    && n <= |whole.turns| && SameTurns(whole.turns[n..], rest.turns) && whole.failed == rest.failed
  }

  lemma ResumeLines(env: Env, s0: State, from: nat, lines: seq<Line>, to: nat, i: nat, closeTrailingOnIdle: bool) returns (j: nat)
    requires Proper(env, s0, from) && Chain(env.file, from, lines, to) && AllHarmless(env, lines)
    requires i < |Run(env, s0, lines).turns|
    ensures j < |lines|
    ensures var full := Run(env, s0, lines);
            var p := full.turns[i];
            && p.cursor.byteOffset == lines[j].byteStart && AllStand(env, p.context.records, p.cursor.byteOffset)
            && Continues(env, full, Run(env, ResumeAt(env, p), lines[j..]), i + 1, closeTrailingOnIdle)
  {
    hide Run;
    hide Finish;
    hide AllStand;
    hide ValuesOf;
    hide Faithful;
    hide Latest;
    hide Records;
    hide SameTurns;
    var full := Run(env, s0, lines);
    var p, k := full.turns[i], 0;
    j, k := MeetingPoint(env, s0, from, lines, to, i);
    RunTogether(env, s0, from, lines, to, j, ResumeAt(env, p), k + 1, i + 1);
    FrameOffset(env.file, from, lines, to, j);
    RunContexts(env, s0, from, lines, to);
    RunContexts(env, ResumeAt(env, p), lines[j].byteStart, lines[j..], to);
    if !full.failed {
      RunLastEnd(env, s0, lines);
    }
    FinishTogether(env, full, Run(env, ResumeAt(env, p), lines[j..]), lines[j].byteStart, i + 1, to, closeTrailingOnIdle);
  }

  /** Resuming equals not stopping. Take any parse of file[from..end) and any turn
      a boundary closed in it. The context issued with that turn reads back from
      the file, and a parse started with it at the turn's cursor emits exactly
      the remaining turns, idle close included; it fails exactly if the full
      parse does. Nothing differs but a resume marker seen before the cursor,
      which the first remaining turn may lack. */
  lemma ResumingEqualsNotStopping(env: Env, s0: State, from: nat, end: nat, i: nat, closeTrailingOnIdle: bool)
    requires Proper(env, s0, from) && from <= end <= |env.file|
    requires AllHarmless(env, Frame(env.file, from, end).lines)
    requires i < |Run(env, s0, Frame(env.file, from, end).lines).turns|
    ensures var full := Run(env, s0, Frame(env.file, from, end).lines);
            var p := full.turns[i];
            var offset := p.cursor.byteOffset;
            && from <= offset <= end
            && ReadBack(env, p.context.records, offset).Some? && Proper(env, ResumeAt(env, p), offset)
            && Continues(env, full, Run(env, ResumeAt(env, p), Frame(env.file, offset, end).lines), i + 1, closeTrailingOnIdle)
  {
    hide Frame;
    hide Latest;
    hide AllStand;
    hide Run;
    hide Continues;
    hide ValuesOf;
    var f := Frame(env.file, from, end);
    FramePartitions(env.file, from, end);
    var j := ResumeLines(env, s0, from, f.lines, f.end.from, i, closeTrailingOnIdle);
    FrameSplit(env.file, from, end, j);
    FrameOffset(env.file, from, f.lines, f.end.from, j);
  }

  lemma FrameOffset(file: Bytes, from: nat, lines: seq<Line>, to: nat, j: nat)
    requires Chain(file, from, lines, to) && j < |lines|
    ensures from <= lines[j].byteStart <= to && Chain(file, lines[j].byteStart, lines[j..], to)
    ensures lines[j].byteStart == if j == 0 then from else lines[j - 1].byteEnd
    ensures lines[j].byteStart > from ==> file[lines[j].byteStart - 1] == NEWLINE
  {
    ChainBound(file, from, lines, to, MAX_TRANSCRIPT_RECORD_BYTES);
    if j > 0 {
      assert RecordAt(file, lines[j - 1]);
    }
  }
}

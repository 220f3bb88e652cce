/** What holds after every prefix of a parse: where turns may close, how they are
    numbered, and that each carries the context a fresh reading of everything
    before its cursor would derive. */
module TurnRuns {
  import opened Framing
  import opened Reading
  import opened Turns
  import opened TurnContext

  /** The last record to set each field, reading `lines` in order: the context
      `deriveResumeContext` reconstructs. */
  function Latest(env: Env, base: Context, lines: seq<Line>): Context {
    if lines == [] then base
    else Note(env, Latest(env, base, lines[..|lines| - 1]), lines[|lines| - 1])
  }

  function Note(env: Env, latest: Context, line: Line): Context {
    var entry := env.format.decode(line.text);
    if entry.None? then latest else latest + map field: Field | field in entry.value.context :: RecordOf(env, line, field)
  }

  /** The context records of `lines`, in file order. */
  function Records(env: Env, lines: seq<Line>): seq<ContextRecord> {
    if lines == [] then []
    else
      var init, last := Records(env, lines[..|lines| - 1]), lines[|lines| - 1];
      var entry := env.format.decode(last.text);
      if entry.None? then init else init + LineRecords(env, last, entry.value)
  }

  lemma RunSnoc(env: Env, s: State, lines: seq<Line>, line: Line)
    ensures Run(env, s, lines + [line]) == Accept(env, Run(env, s, lines), line)
    ensures Records(env, lines + [line])
         == Records(env, lines) + (var e := env.format.decode(line.text); if e.None? then [] else LineRecords(env, line, e.value))
    ensures forall base :: Latest(env, base, lines + [line]) == Note(env, Latest(env, base, lines), line)
  {
    assert (lines + [line])[..|lines|] == lines;
  }

  lemma LineRecordsLast(env: Env, line: Line, entry: Entry, records: seq<ContextRecord>, field: Field, offset: nat)
    requires line.byteStart < line.byteEnd
    ensures LastOf(records + LineRecords(env, line, entry), field, offset)
         == if field in entry.context && line.byteEnd <= offset then Some(RecordOf(env, line, field))
            else LastOf(records, field, offset)
  {
    hide LastOf;
    var a := if Cwd in entry.context then [RecordOf(env, line, Cwd)] else [];
    var b := if Surface in entry.context then [RecordOf(env, line, Surface)] else [];
    var c := if Branch in entry.context then [RecordOf(env, line, Branch)] else [];
    assert records + LineRecords(env, line, entry) == records + a + b + c;
    OptionalLast(records, a, field, offset);
    OptionalLast(records + a, b, field, offset);
    OptionalLast(records + a + b, c, field, offset);
  }

  lemma OptionalLast(records: seq<ContextRecord>, more: seq<ContextRecord>, field: Field, offset: nat)
    requires |more| <= 1
    ensures LastOf(records + more, field, offset)
         == if more != [] && more[0].field == field && more[0].End() <= offset then Some(more[0]) else LastOf(records, field, offset)
  {
    if more == [] {
      assert records + more == records;
    } else {
      assert more == [more[0]];
      LastOfSnoc(records, more[0], field, offset);
    }
  }

  /** Looking up past the last line gives the last record of every field. */
  lemma {:induction false} LookupAll(env: Env, base: Context, from: nat, lines: seq<Line>, to: nat, field: Field, offset: nat)
    requires Chain(env.file, from, lines, to) && to <= offset
    ensures var latest := Latest(env, base, lines);
            Lookup(base, Records(env, lines), field, offset) == if field in latest then Some(latest[field]) else None
    decreases |lines|
  {
    hide LastOf;
    if lines != [] {
      var init, line := lines[..|lines| - 1], lines[|lines| - 1];
      var entry := env.format.decode(line.text);
      LookupAll(env, base, from, init, line.byteStart, field, offset);
      if entry.Some? {
        LineRecordsLast(env, line, entry.value, Records(env, init), field, offset);
      }
    }
  }

  /** Lines that end after an offset do not answer for it. */
  lemma {:induction false} LookupPrefix(env: Env, base: Context, from: nat, lines: seq<Line>, to: nat, j: nat, field: Field)
    requires Chain(env.file, from, lines, to) && j < |lines|
    ensures Lookup(base, Records(env, lines), field, lines[j].byteStart)
         == Lookup(base, Records(env, lines[..j]), field, lines[j].byteStart)
    decreases |lines|
  {
    hide LastOf;
    hide RecordOf;
    hide LineRecords;
    hide Chain;
    var k := |lines| - 1;
    var init, line, offset := lines[..k], lines[k], lines[j].byteStart;
    var entry := env.format.decode(line.text);
    StartsBeforeEnd(env.file, from, lines, to, j, k);
    if entry.Some? {
      LineRecordsLast(env, line, entry.value, Records(env, init), field, offset);
    }
    if j < k {
      ChainPrefix(env.file, from, lines, to, k);
      LookupPrefix(env, base, from, init, line.byteStart, j, field);
      assert lines[..j] == init[..j];
    }
  }

  lemma StartsBeforeEnd(file: Bytes, from: nat, lines: seq<Line>, to: nat, j: nat, k: nat)
    requires Chain(file, from, lines, to) && j <= k < |lines|
    ensures lines[j].byteStart <= lines[k].byteStart < lines[k].byteEnd
  {
    assert RecordAt(file, lines[k]);
    if j < k {
      ChainStarts(file, from, lines, to, j, k);
    }
  }

  lemma ChainPrefix(file: Bytes, from: nat, lines: seq<Line>, to: nat, j: nat)
    requires Chain(file, from, lines, to) && j < |lines|
    ensures Chain(file, from, lines[..j], lines[j].byteStart)
  {
  }

  lemma ChainStarts(file: Bytes, from: nat, lines: seq<Line>, to: nat, j: nat, k: nat)
    requires Chain(file, from, lines, to) && j < k < |lines|
    ensures lines[j].byteEnd <= lines[k].byteStart
    decreases k
  {
    if j < k - 1 {
      ChainStarts(file, from, lines, to, j, k - 1);
      assert RecordAt(file, lines[k - 1]);
    }
  }

  // --------------------------------------------------------------- run invariant

  /** Where the next boundary can close at the earliest. */
  function Low(s: State, at: nat): nat {
    if s.start.Some? then s.start.value.byteStart else at
  }

  ghost predicate LineStart(lines: seq<Line>, offset: nat) {
    exists j :: 0 <= j < |lines| && lines[j].byteStart == offset
  }

  /** Turns are numbered on from `first`, their cursors are line starts and
      strictly increase, and stay below every offset still to come. */
  ghost predicate Numbered(s: State, first: nat, lines: seq<Line>, at: nat) {
    && (!s.failed ==> s.next == first + |s.turns|)
    && (forall i | 0 <= i < |s.turns| ::
          var t := s.turns[i];
          && t.index == first + i && t.cursor.nextTurnIndex == t.index + 1
          && LineStart(lines, t.cursor.byteOffset) && t.cursor.byteOffset < Low(s, at))
    && (forall i | 0 < i < |s.turns| :: s.turns[i - 1].cursor.byteOffset < s.turns[i].cursor.byteOffset)
    && (s.start.Some? ==> LineStart(lines, s.start.value.byteStart) && s.start.value.byteStart < at)
  }

  lemma CloseAtIs(env: Env, s: State, line: Line)
    requires s.start.Some? ==> s.start.value.byteStart <= line.byteStart
    ensures CloseAt(env, s, line) == line.byteStart || (s.start.Some? && CloseAt(env, s, line) == s.start.value.byteStart)
    ensures Low(s, line.byteStart) <= CloseAt(env, s, line) <= line.byteStart
  {
    var decoded := env.format.decode(line.text);
    if decoded.Some? {
      PrepareFlow(env, s.(lastEnd := Some(line.byteEnd)), line, decoded.value);
    }
  }

  /** After a record the pending start is the old one, this record, or none. */
  lemma AcceptStart(env: Env, s: State, line: Line)
    ensures var t := Accept(env, s, line);
            && (t.start == s.start || t.start.None? || t.start.value.byteStart == line.byteStart)
            && (t.turns != s.turns ==> t.start.None?)
  {
    hide Prepare;
    hide NoteContext;
    hide OpenNext;
    var decoded := env.format.decode(line.text);
    if !s.failed && decoded.Some? {
      var at := s.(lastEnd := Some(line.byteEnd));
      PrepareFlow(env, at, line, decoded.value);
      PrepareContext(env, at, line, decoded.value);
      NoteContextKeeps(env, at, line, decoded.value);
      OpenNextFlow(env, Prepare(env, at, line, decoded.value), line);
    }
  }

  lemma NumberedStep(env: Env, s: State, first: nat, from: nat, lines: seq<Line>, line: Line)
    requires Chain(env.file, from, lines + [line], line.byteEnd)
    requires Numbered(s, first, lines, line.byteStart)
    ensures Numbered(Accept(env, s, line), first, lines + [line], line.byteEnd)
  {
    hide Accept;
    hide CloseAt;
    var t, all, offset := Accept(env, s, line), lines + [line], CloseAt(env, s, line);
    assert RecordAt(env.file, all[|lines|]);
    assert LineStart(all, line.byteStart) by { assert all[|lines|] == line; }
    forall o | LineStart(lines, o) ensures LineStart(all, o) {
      var j :| 0 <= j < |lines| && lines[j].byteStart == o;
      assert all[j] == lines[j];
    }
    AcceptStart(env, s, line);
    AcceptIssues(env, s, line);
    AcceptFailed(env, s, line);
    CloseAtIs(env, s, line);
    assert |t.turns| > |s.turns| ==> t.turns == s.turns + [t.turns[|s.turns|]];
  }

  lemma AcceptFailed(env: Env, s: State, line: Line)
    ensures s.failed ==> Accept(env, s, line) == s
  {
  }

  lemma {:induction false} RunNumbered(env: Env, s0: State, from: nat, lines: seq<Line>, to: nat)
    requires s0 == Begin(s0.next, s0.base, s0.values) && Chain(env.file, from, lines, to)
    ensures Numbered(Run(env, s0, lines), s0.next, lines, to)
    decreases |lines|
  {
    hide Accept;
    if lines != [] {
      var init, line := lines[..|lines| - 1], lines[|lines| - 1];
      RunNumbered(env, s0, from, init, line.byteStart);
      assert lines == init + [line];
      NumberedStep(env, Run(env, s0, init), s0.next, from, init, line);
    }
  }

  /** Cutting a chain at the start of one of its records frames the records before. */
  lemma FrameBefore(file: Bytes, from: nat, lines: seq<Line>, to: nat, j: nat)
    requires Chain(file, from, lines, to) && j < |lines|
    ensures from <= lines[j].byteStart <= |file|
    ensures Frame(file, from, lines[j].byteStart) == Framed(lines[..j], Rest(lines[j].byteStart))
  {
    var offset := lines[j].byteStart;
    ChainPrefix(file, from, lines, to, j);
    assert RecordAt(file, lines[j]);
    ChainFrame(file, from, lines[..j], offset, offset);
    FrameEnd(file, Rest(offset), offset);
    assert lines[..j] + [] == lines[..j];
  }

  /** The context a cursor at `offset` should carry: what reading the source
      again up to it derives. */
  ghost function Derived(env: Env, base: Context, from: nat, offset: nat): Context {
    if from <= offset <= |env.file| then Latest(env, base, Frame(env.file, from, offset).lines) else base
  }

  lemma HistoryIsDerived(env: Env, s: State, from: nat, lines: seq<Line>, to: nat, offset: nat)
    requires Chain(env.file, from, lines, to) && LineStart(lines, offset) && s.seen == Records(env, lines)
    ensures ContextAt(s, offset) == Derived(env, s.base, from, offset)
  {
    hide LastOf;
    hide Records;
    hide Latest;
    var j :| 0 <= j < |lines| && lines[j].byteStart == offset;
    FrameBefore(env.file, from, lines, to, j);
    ChainPrefix(env.file, from, lines, to, j);
    forall field: Field
      ensures var latest := Latest(env, s.base, lines[..j]);
              Lookup(s.base, s.seen, field, offset) == if field in latest then Some(latest[field]) else None
    {
      LookupPrefix(env, s.base, from, lines, to, j, field);
      LookupAll(env, s.base, from, lines[..j], offset, field, offset);
    }
  }

  lemma AcceptHistory(env: Env, s: State, line: Line)
    ensures var t := Accept(env, s, line);
            && t.base == s.base
            && (!s.failed ==>
                  t.seen == s.seen
                            + (var e := env.format.decode(line.text); if e.None? then [] else LineRecords(env, line, e.value)))
  {
    hide Prepare;
    hide NoteContext;
    hide OpenNext;
    hide LineRecords;
    var decoded := env.format.decode(line.text);
    if !s.failed && decoded.Some? {
      var at := s.(lastEnd := Some(line.byteEnd));
      PrepareContext(env, at, line, decoded.value);
      NoteContextKeeps(env, at, line, decoded.value);
      OpenNextFlow(env, Prepare(env, at, line, decoded.value), line);
    }
  }

  ghost predicate ContextsDerived(env: Env, s: State, from: nat) {
    forall i | 0 <= i < |s.turns| :: s.turns[i].context.records == Derived(env, s.base, from, s.turns[i].cursor.byteOffset)
  }

  /** What a run from a fresh beginning keeps, record by record. */
  ghost predicate Kept(env: Env, s: State, base: Context, from: nat, lines: seq<Line>, at: nat) {
    && s.base == base && (!s.failed ==> s.seen == Records(env, lines))
    && Faithful(s, at) && ContextsDerived(env, s, from)
  }

  lemma KeptStep(env: Env, s: State, base: Context, from: nat, lines: seq<Line>, line: Line, first: nat)
    requires Kept(env, s, base, from, lines, line.byteStart)
    requires Chain(env.file, from, lines + [line], line.byteEnd) && HarmlessLine(env, line)
    requires Numbered(Accept(env, s, line), first, lines + [line], line.byteEnd)
    ensures Kept(env, Accept(env, s, line), base, from, lines + [line], line.byteEnd)
  {
    hide Accept;
    hide Faithful;
    hide Derived;
    hide CloseAt;
    hide LineRecords;
    var t, all := Accept(env, s, line), lines + [line];
    assert RecordAt(env.file, all[|lines|]);
    RunSnoc(env, s, lines, line);
    AcceptFaithful(env, s, line);
    AcceptIssues(env, s, line);
    AcceptHistory(env, s, line);
    AcceptFailed(env, s, line);
    if |t.turns| > |s.turns| {
      HistoryIsDerived(env, t, from, all, line.byteEnd, t.turns[|s.turns|].cursor.byteOffset);
    }
    assert |t.turns| > |s.turns| ==> t.turns == s.turns + [t.turns[|s.turns|]];
  }

  lemma {:induction false} RunContexts(env: Env, s0: State, from: nat, lines: seq<Line>, to: nat)
    requires s0 == Begin(s0.next, s0.base, s0.values) && Chain(env.file, from, lines, to) && AllHarmless(env, lines)
    ensures Kept(env, Run(env, s0, lines), s0.base, from, lines, to)
    decreases |lines|
  {
    hide Accept;
    hide Faithful;
    if lines == [] {
      BeginFaithful(s0.next, s0.base, s0.values, to);
    } else {
      var init, line := lines[..|lines| - 1], lines[|lines| - 1];
      assert lines == init + [line];
      RunContexts(env, s0, from, init, line.byteStart);
      RunNumbered(env, s0, from, lines, to);
      KeptStep(env, Run(env, s0, init), s0.base, from, init, line, s0.next);
    }
  }

  /** Pruning loses nothing: every cursor of a parse from the start of the file
      carries, per field, the last record ending at or before it. */
  lemma PruningLosesNothing(env: Env, end: nat)
    requires end <= |env.file| && AllHarmless(env, Frame(env.file, 0, end).lines)
    ensures var turns := Run(env, Begin(0, map[], map[]), Frame(env.file, 0, end).lines).turns;
            forall i | 0 <= i < |turns| ::
              turns[i].context.records == Derived(env, map[], 0, turns[i].cursor.byteOffset)
  {
    FramePartitions(env.file, 0, end);
    var f := Frame(env.file, 0, end);
    RunContexts(env, Begin(0, map[], map[]), 0, f.lines, f.end.from);
  }
}

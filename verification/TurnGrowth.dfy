/** Two limits of turn assembly: a turn that closed stays closed when the file
    grows, and pruning is exact for an adapter only if no record of it both sets
    context and moves the offset a boundary closes at. */
module TurnGrowth {
  import opened Framing
  import opened Reading
  import opened Turns
  import opened TurnContext
  import opened TurnRuns

  function Grown(env: Env, more: Bytes): Env {
    env.(file := env.file + more)
  }

  lemma AcceptGrows(env: Env, more: Bytes, s: State, line: Line)
    requires line.byteStart <= |env.file| && (s.start.Some? ==> s.start.value.byteStart <= line.byteStart)
    ensures Accept(Grown(env, more), s, line) == Accept(env, s, line)
  {
    hide NoteContext;
    hide Flow;
    hide Emit;
    hide Prepare;
    hide Fold;
    var decoded := env.format.decode(line.text);
    if !s.failed && decoded.Some? {
      var at, grown := s.(lastEnd := Some(line.byteEnd)), Grown(env, more);
      PrepareGrows(env, more, at, line, decoded.value);
      var ready := Prepare(env, at, line, decoded.value);
      PrepareFlow(env, at, line, decoded.value);
      if Emits(env, ready.turn) {
        EmitGrows(env, more, ready, ready.turn.value, CloseOffset(ready.start, line), CloseDrop(env, ready.turn.value));
      }
    }
  }

  lemma EmitGrows(env: Env, more: Bytes, s: State, turn: Turn, offset: nat, dropped: Option<Drop>)
    requires offset <= |env.file|
    ensures Emit(Grown(env, more), s, turn, offset, dropped, false) == Emit(env, s, turn, offset, dropped, false)
  {
    hide Commit;
    hide EndingAfter;
    hide Fingerprint;
    FingerprintGrows(env.format.hash, env.file, more, offset);
  }

  lemma PrepareGrows(env: Env, more: Bytes, s: State, line: Line, entry: Entry)
    ensures Prepare(Grown(env, more), s, line, entry) == Prepare(env, s, line, entry)
  {
    hide NoteContext;
    hide ApplySignal;
    hide LatchRetry;
    hide NoteTurn;
    NoteContextGrows(env, more, s, line, entry);
  }

  lemma NoteContextGrows(env: Env, more: Bytes, s: State, line: Line, entry: Entry)
    ensures NoteContext(Grown(env, more), s, line, entry) == NoteContext(env, s, line, entry)
  {
    hide NoteField;
    forall t: State, field: Field ensures NoteField(Grown(env, more), t, line, entry, field) == NoteField(env, t, line, entry, field) {
      NoteFieldGrows(env, more, t, line, entry, field);
    }
  }

  lemma NoteFieldGrows(env: Env, more: Bytes, s: State, line: Line, entry: Entry, field: Field)
    ensures NoteField(Grown(env, more), s, line, entry, field) == NoteField(env, s, line, entry, field)
  {
    hide Retain;
  }

  lemma {:induction false} RunGrows(env: Env, more: Bytes, s0: State, from: nat, lines: seq<Line>, to: nat)
    requires s0 == Begin(s0.next, s0.base, s0.values) && Chain(env.file, from, lines, to)
    ensures Run(Grown(env, more), s0, lines) == Run(env, s0, lines)
    decreases |lines|
  {
    hide Accept;
    if lines != [] {
      var init, line := lines[..|lines| - 1], lines[|lines| - 1];
      RunGrows(env, more, s0, from, init, line.byteStart);
      RunNumbered(env, s0, from, init, line.byteStart);
      assert RecordAt(env.file, line);
      AcceptGrows(env, more, Run(env, s0, init), line);
    }
  }

  lemma {:induction false} TurnsGrow(env: Env, s0: State, lines: seq<Line>, k: nat)
    requires k <= |lines|
    ensures Run(env, s0, lines[..k]).turns <= Run(env, s0, lines).turns
    ensures Run(env, s0, lines[..k]).failed ==> Run(env, s0, lines) == Run(env, s0, lines[..k])
    decreases |lines|
  {
    hide Accept;
    if k == |lines| {
      assert lines[..k] == lines;
    } else {
      var init, line := lines[..|lines| - 1], lines[|lines| - 1];
      TurnsGrow(env, s0, init, k);
      assert init[..k] == lines[..k];
      AcceptIssues(env, Run(env, s0, init), line);
      AcceptFailed(env, Run(env, s0, init), line);
    }
  }

  /** Closed turns are stable: with the decision fixed and no idle close, the
      turns of file[..end), cursors included, come first among those of the file
      grown by any bytes and read to any later end. A parse refused in the
      shorter file is refused at the same point in the longer one. */
  lemma ClosedTurnsStayClosed(env: Env, more: Bytes, s0: State, from: nat, end: nat, end': nat)
    requires s0 == Begin(s0.next, s0.base, s0.values)
    requires from <= end <= |env.file| && end <= end' <= |env.file + more|
    ensures var short := Run(env, s0, Frame(env.file, from, end).lines);
            var long := Run(Grown(env, more), s0, Frame(env.file + more, from, end').lines);
            short.turns <= long.turns && (short.failed ==> long == short)
  {
    hide Run;
    var f, g := Frame(env.file, from, end), Frame(env.file + more, from, end');
    FrameGrows(env.file, more, from, end, end');
    FramePartitions(env.file, from, end);
    RunGrows(env, more, s0, from, f.lines, f.end.from);
    TurnsGrow(Grown(env, more), s0, g.lines, |f.lines|);
    assert g.lines[..|f.lines|] == f.lines;
  }

  // ------------------------------------------------------- when pruning does lose

  const QUIET := Verdict(false, false, false, false, None, false, false)

  function Plain(role: Role, signal: Option<Signal>, context: map<Field, string>): Entry {
    Entry(context, false, false, None, None, signal, role, [])
  }

  /** Four shapes of record: a prompt, a start, a bare context record, and `x`. */
  function Sample(id: Option<string>, field: Field, x: Entry): Format {
    Format((text: Bytes) =>
             if text == [1] then Some(Plain(Prompt, None, map[]))
             else if text == [2] then Some(Plain(Other, Some(Signal(Started, id)), map[]))
             else if text == [3] then Some(Plain(Other, None, map[field := "v"]))
             else if text == [4] then Some(x) else None,
           _ => QUIET, _ => "", false)
  }

  const SAMPLE: Bytes := [1, 10, 2, 10, 3, 10, 4, 10, 1, 10]

  const SAMPLE_LINES: seq<Line> := [Line([1], 0, 2), Line([2], 2, 4), Line([3], 4, 6), Line([4], 6, 8), Line([1], 8, 10)]

  lemma SampleRecord(k: nat)
    requires k < 5
    ensures RecordAt(SAMPLE, SAMPLE_LINES[k])
    ensures SAMPLE_LINES[k].byteStart == 2 * k && SAMPLE_LINES[k].byteEnd == 2 * k + 2
  {
    assert SAMPLE[2 * k] == SAMPLE_LINES[k].text[0] && SAMPLE[2 * k + 1] == 10;
    assert SAMPLE[2 * k..2 * k + 1] == [SAMPLE[2 * k]];
  }

  lemma SampleFrames()
    ensures Chain(SAMPLE, 0, SAMPLE_LINES, 10)
    ensures Frame(SAMPLE, 0, 10).lines == SAMPLE_LINES
  {
    hide RecordAt;
    hide Clear;
    forall k | 0 <= k < 5 ensures RecordAt(SAMPLE, SAMPLE_LINES[k]) {
      SampleRecord(k);
    }
    ChainFrame(SAMPLE, 0, SAMPLE_LINES, 10, 10);
    SampleEnd();
    assert SAMPLE_LINES + [] == SAMPLE_LINES;
  }

  lemma SampleEnd()
    ensures Frame(SAMPLE, 10, 10) == Framed([], Rest(10))
  {
    FrameEnd(SAMPLE, Rest(10), 10);
  }

  lemma RetainDrops(pending: seq<ContextRecord>, cutoff: nat, r: ContextRecord, field: Field, offset: nat)
    requires LastOf(pending, r.field, cutoff).None? && r.End() > offset
    ensures LastOf(Retain(pending, cutoff, r), field, offset)
         == if field == r.field then None else LastOf(pending, field, offset)
  {
    WithoutIs(pending, r.field, field, offset);
    assert Without(pending, r.field) + [] + [r] == Without(pending, r.field) + [r];
    LastOfSnoc(Without(pending, r.field), r, field, offset);
  }

  /** What a record pending since before the start loses when `line` notes the
      same field again: nothing ending at or before `line` answers any more. */
  ghost predicate Bare(s: State, field: Field, offset: nat) {
    field !in s.committed && LastOf(s.pending, field, offset).None?
  }

  lemma NoteFieldLoses(env: Env, s: State, line: Line, x: Entry, other: Field, field: Field)
    requires s.start.Some? && s.start.value.byteStart <= line.byteStart < line.byteEnd
    requires forall f: Field :: LastOf(s.pending, f, s.start.value.byteStart).None?
    ensures var t := NoteField(env, s, line, x, other);
            && (forall f: Field :: LastOf(t.pending, f, s.start.value.byteStart).None?)
            && t.start == s.start && t.committed == s.committed
            && (Bare(s, field, line.byteStart) || (other == field && field in x.context && field !in s.committed)
                ==> Bare(t, field, line.byteStart))
  {
    hide Retain;
    hide LastOf;
    if other in x.context {
      var r := RecordOf(env, line, other);
      forall f: Field ensures LastOf(Retain(s.pending, s.start.value.byteStart, r), f, s.start.value.byteStart).None? {
        RetainDrops(s.pending, s.start.value.byteStart, r, f, s.start.value.byteStart);
      }
      RetainDrops(s.pending, s.start.value.byteStart, r, field, line.byteStart);
    }
  }

  lemma NoteContextLoses(env: Env, s: State, line: Line, x: Entry, field: Field)
    requires s.start.Some? && s.start.value.byteStart <= line.byteStart < line.byteEnd
    requires (forall f: Field :: LastOf(s.pending, f, s.start.value.byteStart).None?) && field !in s.committed
    requires field in x.context
    ensures Bare(NoteContext(env, s, line, x), field, line.byteStart)
  {
    hide NoteField;
    hide LastOf;
    var s1 := NoteField(env, s, line, x, Cwd);
    var s2 := NoteField(env, s1, line, x, Surface);
    NoteFieldLoses(env, s, line, x, Cwd, field);
    NoteFieldLoses(env, s1, line, x, Surface, field);
    NoteFieldLoses(env, s2, line, x, Branch, field);
  }

  lemma EmitLoses(env: Env, s: State, turn: Turn, offset: nat, dropped: Option<Drop>, field: Field)
    requires Bare(s, field, offset) && !env.format.judge(turn.body).uncovered
    ensures var t := Emit(env, s, turn, offset, dropped, false);
            && |t.turns| == |s.turns| + 1 && t.turns[..|s.turns|] == s.turns
            && t.turns[|s.turns|].cursor.byteOffset == offset && field !in t.turns[|s.turns|].context.records
  {
    hide Commit;
    hide EndingAfter;
    hide LastOf;
    hide Fingerprint;
    CommitIs(s.committed, s.pending, offset, field);
  }

  lemma ActLoses(env: Env, s: State, line: Line, entry: Entry, offset: nat, field: Field)
    requires Classify(env.decided, entry.role) == Boundary && CloseOffset(s.start, line) == offset
    requires s.turn.Some? && s.turns == [] && Bare(s, field, offset) && env.format.judge(s.turn.value.body) == QUIET
    ensures var t := Act(env, s, line, entry);
            |t.turns| == 1 && t.turns[0].cursor.byteOffset == offset && field !in t.turns[0].context.records
  {
    hide Emit;
    hide Bare;
    EmitLoses(env, s, s.turn.value, offset, CloseDrop(env, s.turn.value), field);
  }

  /** A turn open, nothing emitted or committed, `records` pending. */
  ghost predicate Waiting(s: State, start: Option<Start>, records: seq<ContextRecord>) {
    && !s.failed && s.turn.Some? && s.turns == [] && s.start == start
    && s.committed == map[] && s.base == map[] && s.pending == s.seen == records
  }

  lemma SampleOpens(env: Env, id: Option<string>, field: Field, x: Entry)
    requires env.format == Sample(id, field, x)
    ensures Waiting(Run(env, Begin(0, map[], map[]), SAMPLE_LINES[..1]), None, [])
  {
    RunOneMore(env, Begin(0, map[], map[]), 0);
  }

  lemma SampleStarts(env: Env, id: Option<string>, field: Field, x: Entry)
    requires env.format == Sample(id, field, x)
    ensures Waiting(Run(env, Begin(0, map[], map[]), SAMPLE_LINES[..2]), Some(Start(id, 2)), [])
  {
    hide OpenNext;
    SampleOpens(env, id, field, x);
    RunOneMore(env, Begin(0, map[], map[]), 1);
  }

  /** After a prompt, a start and a context record of `field`. */
  lemma SamplePrimed(env: Env, id: Option<string>, field: Field, x: Entry)
    requires env.format == Sample(id, field, x)
    ensures Waiting(Run(env, Begin(0, map[], map[]), SAMPLE_LINES[..3]), Some(Start(id, 2)), [ContextRecord(field, 4, 2, "")])
  {
    hide Prepare;
    hide NoteContext;
    hide Retain;
    SampleStarts(env, id, field, x);
    RunOneMore(env, Begin(0, map[], map[]), 2);
    var s, line, entry := Run(env, Begin(0, map[], map[]), SAMPLE_LINES[..2]), SAMPLE_LINES[2], Plain(Other, None, map[field := "v"]);
    var at := s.(lastEnd := Some(line.byteEnd));
    PrepareContext(env, at, line, entry);
    PrepareFlow(env, at, line, entry);
    NoteContextKeeps(env, at, line, entry);
    NoteOnly(env, at, line, entry, field);
    RetainFirst(2, ContextRecord(field, 4, 2, ""));
  }

  lemma NoteOnly(env: Env, s: State, line: Line, entry: Entry, field: Field)
    requires entry.context.Keys == {field} && s.start.Some?
    ensures NoteContext(env, s, line, entry).pending == Retain(s.pending, s.start.value.byteStart, RecordOf(env, line, field))
    ensures LineRecords(env, line, entry) == [RecordOf(env, line, field)]
  {
    hide Retain;
    hide RecordOf;
  }

  lemma RunOneMore(env: Env, s: State, k: nat)
    requires k < 5
    ensures Run(env, s, SAMPLE_LINES[..k + 1]) == Accept(env, Run(env, s, SAMPLE_LINES[..k]), SAMPLE_LINES[k])
  {
    hide Accept;
    assert SAMPLE_LINES[..k + 1][..k] == SAMPLE_LINES[..k];
  }

  lemma RetainFirst(cutoff: nat, r: ContextRecord)
    ensures Retain([], cutoff, r) == [r]
  {
  }

  /** What `x` leaves when it is not itself a boundary: a start at its own offset,
      and nothing of `field` that answers there. */
  lemma HarmfulStart(env: Env, s: State, x: Entry, field: Field)
    requires s.turn.Some? && s.start.Some? && s.start.value.byteStart == 2 && !s.failed && s.turns == []
    requires env.format.decode([4]) == Some(x) && x.signal.Some? && x.signal.value.phase == Started
    requires Classify(env.decided, x.role) == Skip
    requires Bare(Prepare(env, s.(lastEnd := Some(8)), SAMPLE_LINES[3], x), field, 6)
    ensures var t := Accept(env, s, SAMPLE_LINES[3]);
            && !t.failed && t.turn.Some? && t.turns == [] && t.start.Some? && t.start.value.byteStart == 6 && Bare(t, field, 6)
  {
    hide NoteContext;
    hide Bare;
    hide Prepare;
    var s' := s.(lastEnd := Some(8));
    PrepareContext(env, s', SAMPLE_LINES[3], x);
    NoteContextKeeps(env, s', SAMPLE_LINES[3], x);
    StartedIs(env, s', SAMPLE_LINES[3], x);
  }

  lemma StartedIs(env: Env, s: State, line: Line, x: Entry)
    requires s.turn.Some? && x.signal.Some? && Classify(env.decided, x.role) != Content
    ensures var t := Prepare(env, s, line, x).start;
            && (x.signal.value.phase == Started ==> t == Some(Start(x.signal.value.id, line.byteStart)))
            && (x.signal.value.phase != Started && s.start.Some? && s.start.value.id == x.signal.value.id ==> t.None?)
            && Prepare(env, s, line, x).turn.Some?
  {
    hide NoteContext;
  }

  /** The closing prompt after such a start. */
  lemma PromptLoses(env: Env, s: State, field: Field)
    requires !s.failed && s.turn.Some? && s.turns == [] && s.start.Some? && s.start.value.byteStart == 6 && Bare(s, field, 6)
    requires env.format.decode([1]) == Some(Plain(Prompt, None, map[])) && forall body :: env.format.judge(body) == QUIET
    ensures var t := Accept(env, s, SAMPLE_LINES[4]);
            |t.turns| == 1 && t.turns[0].cursor.byteOffset == 6 && field !in t.turns[0].context.records
  {
    hide NoteContext;
    hide Act;
    hide LastOf;
    var s', line, entry := s.(lastEnd := Some(10)), SAMPLE_LINES[4], Plain(Prompt, None, map[]);
    NoNotes(env, s', line, entry);
    PrepareContext(env, s', line, entry);
    PrepareFlow(env, s', line, entry);
    ActLoses(env, Prepare(env, s', line, entry), line, entry, 6, field);
  }

  lemma SampleLoses(env: Env, s: State, id: Option<string>, field: Field, x: Entry)
    requires env.format == Sample(id, field, x) && !Harmless(env.decided, x)
    requires field in x.context && id == x.signal.value.id
    requires Waiting(s, Some(Start(id, 2)), [ContextRecord(field, 4, 2, "")])
    ensures var u := Accept(env, Accept(env, s, SAMPLE_LINES[3]), SAMPLE_LINES[4]);
            u.turns != [] && u.turns[0].cursor.byteOffset == 6 && field !in u.turns[0].context.records
  {
    hide NoteContext;
    hide Prepare;
    hide Act;
    hide Bare;
    var s', line := s.(lastEnd := Some(8)), SAMPLE_LINES[3];
    var t := Accept(env, s, line);
    NoteContextLoses(env, s', line, x, field);
    PrepareContext(env, s', line, x);
    NoteContextKeeps(env, s', line, x);
    BareSame(NoteContext(env, s', line, x), Prepare(env, s', line, x), field, 6);
    StartedIs(env, s', line, x);
    if Classify(env.decided, x.role) == Boundary {
      ActLoses(env, Prepare(env, s', line, x), line, x, 6, field);
      AcceptIssues(env, t, SAMPLE_LINES[4]);
    } else {
      HarmfulStart(env, s, x, field);
      PromptLoses(env, t, field);
    }
  }

  lemma BareSame(s: State, t: State, field: Field, offset: nat)
    requires Bare(s, field, offset) && t.committed == s.committed && t.pending == s.pending
    ensures Bare(t, field, offset)
  {
  }

  lemma SampleDerived(env: Env, id: Option<string>, field: Field, x: Entry)
    requires env.format == Sample(id, field, x) && env.file == SAMPLE
    ensures field in Derived(env, map[], 0, 6)
  {
    hide Frame;
    hide Chain;
    hide Latest;
    SampleFrames();
    FrameBefore(SAMPLE, 0, SAMPLE_LINES, 10, 3);
    SampleLatest(env, id, field, x);
  }

  lemma SampleLatest(env: Env, id: Option<string>, field: Field, x: Entry)
    requires env.format == Sample(id, field, x)
    ensures field in Latest(env, map[], SAMPLE_LINES[..3])
  {
    hide RecordOf;
    assert SAMPLE_LINES[..3][..2] == SAMPLE_LINES[..2];
  }

  lemma SampleHarmless(env: Env, id: Option<string>, field: Field, x: Entry, k: nat)
    requires env.format == Sample(id, field, x) && k < 5
    ensures HarmlessLine(env, SAMPLE_LINES[k]) || env.format.decode(SAMPLE_LINES[k].text) == Some(x)
  {
  }

  /** For every harmful record `x` there is a transcript of harmless records and
      `x` in which pruning loses a record: the first closed turn's cursor does not
      carry the context derived for it. */
  lemma HarmfulLoses(decided: Option<UserBoundary>, x: Entry) returns (env: Env)
    requires !Harmless(decided, x)
    ensures env.decided == decided && Frame(env.file, 0, |env.file|).lines == SAMPLE_LINES
    ensures forall k | 0 <= k < 5 :: HarmlessLine(env, SAMPLE_LINES[k]) || env.format.decode(SAMPLE_LINES[k].text) == Some(x)
    ensures var turns := Run(env, Begin(0, map[], map[]), SAMPLE_LINES).turns;
            turns != [] && turns[0].context.records != Derived(env, map[], 0, turns[0].cursor.byteOffset)
  {
    hide Accept;
    hide Run;
    hide Derived;
    hide Frame;
    hide Chain;
    hide Classify;
    var field :| field in x.context;
    var id := x.signal.value.id;
    env := Env(Sample(id, field, x), SAMPLE, decided, None);
    SampleFrames();
    SamplePrimed(env, id, field, x);
    var s0 := Begin(0, map[], map[]);
    SampleLoses(env, Run(env, s0, SAMPLE_LINES[..3]), id, field, x);
    RunOneMore(env, s0, 3);
    RunOneMore(env, s0, 4);
    assert SAMPLE_LINES[..5] == SAMPLE_LINES;
    SampleDerived(env, id, field, x);
    forall k | 0 <= k < 5
      ensures HarmlessLine(env, SAMPLE_LINES[k]) || env.format.decode(SAMPLE_LINES[k].text) == Some(x)
    {
      SampleHarmless(env, id, field, x, k);
    }
  }
}

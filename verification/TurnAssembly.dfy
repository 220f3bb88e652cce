/** `parseTurns` itself: the mutable locals of a parse, moved record by record,
    and the reading loop around them. */
module TurnAssembly {
  import opened Framing
  import opened Reading
  import opened Turns
  import opened TurnContext
  import opened TurnRuns
  import opened TurnResume
  import opened Derivation
  import opened TurnGrowth

  class Assembly {
    const env: Env

    var committedContext: Context
    var pendingContext: seq<ContextRecord>
    var currentValues: map<Field, string>
    var pendingResumeMarker: bool
    var currentTurn: Option<Turn>
    var pendingLifecycleStart: Option<Start>
    var nextTurnIndex: nat
    var lastCompleteLineEnd: Option<nat>
    var turns: seq<ParsedTurn>
    // Elepha MCP coverage was refused: the parse has thrown.
    var refused: bool

    // History: what the parse began with and every context record since.
    ghost var base: Context
    ghost var seen: seq<ContextRecord>

    ghost function View(): State
      reads this
    {
      State(base, seen, committedContext, pendingContext, currentValues, pendingResumeMarker, currentTurn,
            pendingLifecycleStart, nextTurnIndex, lastCompleteLineEnd, turns, refused)
    }

    constructor (env: Env, startTurnIndex: nat, records: Context, values: map<Field, string>)
      ensures this.env == env && View() == Begin(startTurnIndex, records, values)
    {
      this.env := env;
      committedContext, pendingContext, currentValues := records, [], values;
      pendingResumeMarker, currentTurn, pendingLifecycleStart := false, None, None;
      nextTurnIndex, lastCompleteLineEnd, turns, refused := startTurnIndex, None, [], false;
      base, seen := records, [];
    }

    /** Notes one context field, pruning what no cursor can need any more. */
    method NoteContextField(line: Line, entry: Entry, field: Field)
      modifies this`pendingContext, this`seen
      ensures View() == NoteField(env, old(View()), line, entry, field)
    {
      hide Retain;
      if field in entry.context {
        var record := RecordOf(env, line, field);
        var cutoff := if pendingLifecycleStart.Some? then pendingLifecycleStart.value.byteStart else line.byteStart;
        pendingContext := Retain(pendingContext, cutoff, record);
        seen := seen + [record];
      }
    }

    /** `contextAt`: moves every pending record ending at or before `endOffset` into
        the committed context. */
    method ContextUpTo(endOffset: nat)
      modifies this`committedContext, this`pendingContext
      ensures committedContext == Commit(old(committedContext), old(pendingContext), endOffset)
      ensures pendingContext == EndingAfter(old(pendingContext), endOffset)
    {
      var k, kept := 0, [];
      while k < |pendingContext|
        invariant k <= |pendingContext| && pendingContext == old(pendingContext)
        invariant committedContext == Commit(old(committedContext), pendingContext[..k], endOffset)
        invariant kept == EndingAfter(pendingContext[..k], endOffset)
      {
        assert pendingContext[..k + 1][..k] == pendingContext[..k];
        if pendingContext[k].End() <= endOffset {
          committedContext := committedContext[pendingContext[k].field := pendingContext[k]];
        } else {
          kept := kept + [pendingContext[k]];
        }
        k := k + 1;
      }
      assert pendingContext[..k] == pendingContext;
      pendingContext := kept;
    }

    /** `parsedTurn` and the yield that follows it. The cursor fingerprint comes from
        the bytes just read when they cover its window, else from a charged read. */
    method EmitTurn(turn: Turn, endOffset: nat, dropped: Option<Drop>, provisional: bool,
                    recent: RecentBytes, budget: SourceReadBudget) returns (paid: bool)
      requires recent.Held().Of(env.file) && endOffset <= |env.file|
      modifies this`committedContext, this`pendingContext, this`nextTurnIndex, this`turns, this`refused, budget
      ensures paid ==> View() == Emit(env, old(View()), turn, endOffset, dropped, provisional)
      ensures !paid ==> turns == old(turns)
      ensures old(budget.remaining).Unlimited? ==> paid && budget.remaining.Unlimited?
      ensures !paid ==> budget.remaining.Short()
    {
      hide Fingerprint;
      hide Emit;
      hide Allowance.Short;
      var fingerprint := FingerprintOf(endOffset, recent, budget);
      paid := fingerprint.Some?;
      if paid {
        Deliver(turn, endOffset, fingerprint.value, dropped, provisional);
      } else {
        nextTurnIndex := nextTurnIndex + 1;
      }
    }

    method Deliver(turn: Turn, endOffset: nat, fingerprint: string, dropped: Option<Drop>, provisional: bool)
      requires fingerprint == Fingerprint(env.format.hash, env.file, endOffset)
      modifies this`committedContext, this`pendingContext, this`nextTurnIndex, this`turns, this`refused
      ensures View() == Emit(env, old(View()), turn, endOffset, dropped, provisional)
    {
      hide Fingerprint;
      hide Commit;
      hide EndingAfter;
      var index := nextTurnIndex;
      nextTurnIndex := nextTurnIndex + 1;
      var cursor := Cursor(endOffset, index + 1, fingerprint);
      ContextUpTo(endOffset);
      var verdict := env.format.judge(turn.body);
      refused := verdict.uncovered && !verdict.guarded;
      if !refused {
        turns := turns + [ParsedTurn(index, turn, cursor, ResumeContext(committedContext, env.decided), dropped, provisional)];
      }
    }

    /** The fingerprint at `endOffset`, from the held bytes when they cover its window. */
    method FingerprintOf(endOffset: nat, recent: RecentBytes, budget: SourceReadBudget) returns (fingerprint: Option<string>)
      requires recent.Held().Of(env.file) && endOffset <= |env.file|
      modifies budget
      ensures fingerprint.Some? ==> fingerprint.value == Fingerprint(env.format.hash, env.file, endOffset)
      ensures recent.Held().Covers(endOffset) ==> fingerprint.Some? && budget.remaining == old(budget.remaining)
      ensures !recent.Held().Covers(endOffset) ==>
                && (fingerprint.Some? <==> old(budget.remaining).Covers(WindowBytes(endOffset)))
                && budget.remaining
                == if fingerprint.Some? then old(budget.remaining).Less(WindowBytes(endOffset)) else old(budget.remaining)
      ensures fingerprint.None? ==> budget.remaining.Short()
    {
      hide Fingerprint;
      fingerprint := recent.FingerprintAt(env.format.hash, endOffset, env.file);
      if fingerprint.None? {
        var paid := budget.ChargeRead(WindowBytes(endOffset));
        fingerprint := if paid then Some(Fingerprint(env.format.hash, env.file, endOffset)) else None;
      }
    }

    method NoteContextOf(line: Line, entry: Entry)
      modifies this`pendingContext, this`seen, this`currentValues
      ensures View() == NoteContext(env, old(View()), line, entry)
    {
      hide NoteField;
      NoteContextField(line, entry, Cwd);
      NoteContextField(line, entry, Surface);
      NoteContextField(line, entry, Branch);
      currentValues := currentValues + entry.context;
    }

    /** Lifecycle, external content, title and marker of one record. */
    method Observe(line: Line, entry: Entry)
      modifies this`currentTurn, this`pendingLifecycleStart, this`pendingResumeMarker
      ensures var s := old(View());
              var (turn, start) := Flow(env, s.turn, s.start, line, entry);
              View() == s.(turn := turn, start := start, marker := s.marker || entry.marker)
    {
      hide ApplySignal;
      hide LatchRetry;
      currentTurn := NoteTurn(currentTurn, entry);
      if entry.marker {
        pendingResumeMarker := true;
      }
      var signalled := ApplySignal(currentTurn, pendingLifecycleStart, line, entry);
      currentTurn, pendingLifecycleStart := signalled.0, signalled.1;
      var latched := LatchRetry(currentTurn, pendingLifecycleStart, Classify(env.decided, entry.role));
      currentTurn, pendingLifecycleStart := latched.0, latched.1;
      if currentTurn.Some? {
        currentTurn := Some(currentTurn.value.(body := currentTurn.value.body + [Observed(entry)]));
      }
    }

    method FoldIn(entry: Entry)
      modifies this`currentTurn
      ensures View() == Fold(old(View()), entry)
    {
      if currentTurn.Some? {
        var t := currentTurn.value.(context := currentValues);
        if entry.timestamp.Some? {
          t := t.(startedAt := if t.startedAt.None? then entry.timestamp else t.startedAt, endedAt := entry.timestamp);
        }
        currentTurn := Some(t.(body := t.body + [Folded(entry, currentValues)]));
      }
    }

    /** A boundary opens the next turn and emits the one it closes. */
    method OpenTurn(line: Line, recent: RecentBytes, budget: SourceReadBudget) returns (paid: bool)
      requires recent.Held().Of(env.file) && CloseOffset(pendingLifecycleStart, line) <= |env.file|
      modifies this, budget
      ensures paid ==> View() == OpenNext(env, old(View()), line)
      ensures !paid ==> turns == old(turns)
      ensures old(budget.remaining).Unlimited? ==> paid && budget.remaining.Unlimited?
      ensures !paid ==> budget.remaining.Short()
    {
      hide Emit;
      hide Window.Of;
      var closed, closeOffset := currentTurn, CloseOffset(pendingLifecycleStart, line);
      var life := if pendingLifecycleStart.Some? then Life(true, pendingLifecycleStart.value.id, false, false, None)
                  else Life(false, None, false, false, None);
      var next := Turn([], map[], None, None, env.sessionTitle, false, pendingResumeMarker, life);
      paid := true;
      if Emits(env, closed) {
        paid := EmitTurn(closed.value, closeOffset, CloseDrop(env, closed.value), false, recent, budget);
      }
      currentTurn, pendingLifecycleStart, pendingResumeMarker := Some(next), None, false;
    }

    /** One complete record, in the order the parse acts on it. */
    method AcceptLine(line: Line, recent: RecentBytes, budget: SourceReadBudget) returns (paid: bool)
      requires recent.Held().Of(env.file) && line.byteStart <= |env.file|
      requires pendingLifecycleStart.Some? ==> pendingLifecycleStart.value.byteStart <= |env.file|
      modifies this, budget
      ensures paid ==> View() == Accept(env, old(View()), line)
      ensures !paid ==> turns == old(turns)
      ensures old(budget.remaining).Unlimited? ==> paid && budget.remaining.Unlimited?
      ensures !paid ==> budget.remaining.Short()
    {
      hide NoteContext;
      hide Flow;
      hide OpenNext;
      hide Fold;
      hide Window.Of;
      paid := true;
      if refused {
        return;
      }
      lastCompleteLineEnd := Some(line.byteEnd);
      var decoded := env.format.decode(line.text);
      if decoded.None? {
        return;
      }
      var entry := decoded.value;
      ghost var at := View();
      NoteContextOf(line, entry);
      Observe(line, entry);
      assert View() == Prepare(env, at, line, entry);
      PrepareFlow(env, at, line, entry);
      match Classify(env.decided, entry.role) {
        case Skip =>
        case Content => FoldIn(entry);
        case Boundary =>
          paid := OpenTurn(line, recent, budget);
          if paid && !refused {
            FoldIn(entry);
          }
      }
    }

    /** Quiet time may close the trailing turn. */
    method FinishParse(closeTrailingOnIdle: bool, recent: RecentBytes, budget: SourceReadBudget) returns (paid: bool)
      requires recent.Held().Of(env.file) && (lastCompleteLineEnd.Some? ==> lastCompleteLineEnd.value <= |env.file|)
      modifies this, budget
      ensures paid ==> View() == Finish(env, old(View()), closeTrailingOnIdle)
      ensures !paid ==> turns == old(turns)
      ensures old(budget.remaining).Unlimited? ==> paid
      ensures !paid ==> budget.remaining.Short()
    {
      hide Emit;
      paid := true;
      if closeTrailingOnIdle && !refused && currentTurn.Some? && lastCompleteLineEnd.Some?
         && (!currentTurn.value.life.started || currentTurn.value.life.finished)
         && (currentTurn.value.life.aborted || env.format.judge(currentTurn.value.body).ready) {
        var turn := currentTurn.value;
        paid := EmitTurn(turn, lastCompleteLineEnd.value, IdleDrop(env, turn), !turn.life.started, recent, budget);
      }
    }
  }

  /** How a parse ended: read to its end, stopped early, or not begun. */
  datatype ParseOutcome =
    | ReadAll
    | Interrupted
    | OutOfBudget
    | Oversize
    | CoverageRefused
    | NothingNew
    | Desync
    | ContextRequired

  /** Everything delivered is a beginning of the whole parse's turns. */
  ghost predicate Delivers(env: Env, s0: State, start: nat, readEnd: nat, turns: seq<ParsedTurn>) {
    start <= readEnd <= |env.file| && turns <= Run(env, s0, Frame(env.file, start, readEnd).lines).turns
  }

  lemma DeliversSoFar(env: Env, s0: State, start: nat, readEnd: nat, lines: seq<Line>, to: nat)
    requires Chain(env.file, start, lines, to) && to <= readEnd <= |env.file|
    ensures Delivers(env, s0, start, readEnd, Run(env, s0, lines).turns)
    ensures Run(env, s0, lines).failed ==> Run(env, s0, Frame(env.file, start, readEnd).lines) == Run(env, s0, lines)
  {
    hide Run;
    ChainFrame(env.file, start, lines, to, readEnd);
    var all := Frame(env.file, start, readEnd).lines;
    assert all[..|lines|] == lines;
    TurnsGrow(env, s0, all, |lines|);
  }

  /** The records of one chunk, in order, until one ends the parse. */
  method AcceptChunk(asm: Assembly, ghost s0: State, ghost start: nat, ghost lines: seq<Line>, records: seq<Line>, ghost to: nat,
                     recent: RecentBytes, budget: SourceReadBudget, abortable: bool)
    returns (stop: Option<ParseOutcome>, ghost all: seq<Line>)
    requires s0 == Begin(s0.next, s0.base, s0.values) && asm.View() == Run(asm.env, s0, lines) && !asm.refused
    requires Chain(asm.env.file, start, lines + records, to) && recent.Held().Of(asm.env.file)
    modifies asm, budget
    ensures lines <= all <= lines + records
    ensures asm.turns == Run(asm.env, s0, all).turns
    ensures stop.None? ==> all == lines + records && asm.View() == Run(asm.env, s0, all) && !asm.refused
    ensures stop.Some? ==> stop.value == Interrupted || stop.value == OutOfBudget || stop.value == CoverageRefused
    ensures stop == Some(CoverageRefused) ==> Run(asm.env, s0, all).failed
    ensures stop == Some(Interrupted) ==> abortable
    ensures stop == Some(OutOfBudget) ==> budget.remaining.Short()
    ensures old(budget.remaining).Unlimited? ==> budget.remaining.Unlimited?
  {
    hide Run;
    hide Accept;
    hide Window.Of;
    hide Chain;
    all := lines;
    var k := 0;
    while k < |records|
      invariant k <= |records| && all == lines + records[..k]
      invariant asm.View() == Run(asm.env, s0, all) && !asm.refused
      invariant old(budget.remaining).Unlimited? ==> budget.remaining.Unlimited?
    {
      var aborted: bool := *;
      if abortable && aborted {
        return Some(Interrupted), all;
      }
      ghost var next := all + [records[k]];
      NextLine(asm.env, s0, start, lines, records, to, k);
      var paid := asm.AcceptLine(records[k], recent, budget);
      if !paid {
        return Some(OutOfBudget), all;
      }
      RunSnoc(asm.env, s0, all, records[k]);
      assert records[..k + 1] == records[..k] + [records[k]];
      assert lines + records[..k + 1] == next;
      all := next;
      if asm.refused {
        return Some(CoverageRefused), all;
      }
      k := k + 1;
    }
    assert lines + records[..k] == lines + records;
    stop := None;
  }

  lemma NextLine(env: Env, s0: State, start: nat, lines: seq<Line>, records: seq<Line>, to: nat, k: nat)
    requires s0 == Begin(s0.next, s0.base, s0.values) && Chain(env.file, start, lines + records, to) && k < |records|
    ensures records[k].byteStart <= |env.file|
    ensures var s := Run(env, s0, lines + records[..k]); s.start.Some? ==> s.start.value.byteStart <= |env.file|
  {
    hide Run;
    var whole, j := lines + records, |lines| + k;
    assert RecordAt(env.file, whole[j]) && whole[j] == records[k];
    ChainPrefix(env.file, start, whole, to, j);
    assert whole[..j] == lines + records[..k];
    RunNumbered(env, s0, start, lines + records[..k], records[k].byteStart);
  }

  /** What an ended parse has delivered, by how it ended. */
  ghost predicate Ended(asm: Assembly, s0: State, start: nat, readEnd: nat, outcome: ParseOutcome, abortable: bool)
    requires start <= readEnd <= |asm.env.file|
    reads asm
  {
    var f := Frame(asm.env.file, start, readEnd);
    var whole := Run(asm.env, s0, f.lines);
    && asm.turns <= whole.turns
    && (match outcome
        case ReadAll => asm.View() == whole && !whole.failed && f.end.Rest?
        case Oversize => asm.turns == whole.turns && f.end.Oversized?
        case CoverageRefused => asm.turns == whole.turns && whole.failed
        case Interrupted => abortable
        case OutOfBudget => true
        case _ => false)
  }

  /** One chunk: read, charged, split and accepted. */
  method TakeChunk(asm: Assembly, ghost s0: State, ghost start: nat, readEnd: nat, ghost lines: seq<Line>,
                   pending: Bytes, pendingOffset: nat, readOffset: nat, recent: RecentBytes, budget: SourceReadBudget, abortable: bool)
    returns (stop: Option<ParseOutcome>, ghost all: seq<Line>, rest: Bytes, restOffset: nat, readTo: nat)
    requires s0 == Begin(s0.next, s0.base, s0.values) && asm.View() == Run(asm.env, s0, lines) && !asm.refused
    requires start <= readOffset < readEnd <= |asm.env.file| && !budget.remaining.Spent()
    requires Pending(asm.env.file, pending, pendingOffset, readOffset, MAX_TRANSCRIPT_RECORD_BYTES)
    requires Chain(asm.env.file, start, lines, pendingOffset)
    requires recent.Held().Of(asm.env.file) && recent.capacity == RECENT_BYTES_CAPACITY
    modifies asm, budget, recent
    ensures recent.Held().Of(asm.env.file) && (old(budget.remaining).Unlimited? ==> budget.remaining.Unlimited?)
    ensures stop.Some? ==> Ended(asm, s0, start, readEnd, stop.value, abortable)
    ensures stop == Some(OutOfBudget) ==> budget.remaining.Short()
    ensures stop.None? ==>
              && asm.View() == Run(asm.env, s0, all) && !asm.refused && readOffset < readTo <= readEnd
              && Pending(asm.env.file, rest, restOffset, readTo, MAX_TRANSCRIPT_RECORD_BYTES)
              && Chain(asm.env.file, start, all, restOffset)
  {
    hide Run;
    hide Window.Of;
    hide Clear;
    hide Chain;
    hide Frame;
    hide Outgrown;
    var file := asm.env.file;
    var length := budget.remaining.Cap(Min(TRANSCRIPT_READ_CHUNK_BYTES, readEnd - readOffset));
    var _ := budget.ChargeRead(length);
    var bytesRead := ReadAt(file, readOffset, length);
    readTo := readOffset + bytesRead;
    var data := file[readOffset..readTo];
    AppendOf(recent.Held(), file, readOffset, data, RECENT_BYTES_CAPACITY);
    recent.Append(readOffset, data);
    var records, tooLong;
    records, rest, restOffset, tooLong := SplitChunk(file, pending, pendingOffset, readOffset, data, MAX_TRANSCRIPT_RECORD_BYTES);
    ChainJoin(file, start, lines, pendingOffset, records, restOffset, MAX_TRANSCRIPT_RECORD_BYTES);
    stop, all := AcceptChunk(asm, s0, start, lines, records, restOffset, recent, budget, abortable);
    if tooLong {
      OutgrownWithin(file, restOffset, readTo, readEnd);
    }
    StoppedWithin(asm.env, s0, start, readEnd, lines + records, all, restOffset);
    if stop.None? && tooLong {
      WholeParse(asm.env, start, readEnd, all, Oversized(restOffset));
      stop := Some(Oversize);
    }
  }

  /** The reading loop: chunks until the end, the allowance, a deadline, a refused
      turn or a record over the ceiling. */
  method ReadTurns(asm: Assembly, ghost s0: State, start: nat, readEnd: nat, recent: RecentBytes, budget: SourceReadBudget, abortable: bool)
    returns (outcome: ParseOutcome)
    requires s0 == Begin(s0.next, s0.base, s0.values) && asm.View() == s0
    requires start <= readEnd <= |asm.env.file|
    requires recent.Held().Of(asm.env.file) && recent.capacity == RECENT_BYTES_CAPACITY
    modifies asm, budget, recent
    ensures recent.Held().Of(asm.env.file) && (old(budget.remaining).Unlimited? ==> budget.remaining.Unlimited?)
    ensures Ended(asm, s0, start, readEnd, outcome, abortable)
    ensures outcome == OutOfBudget ==> budget.remaining.Short()
  {
    hide Run;
    hide Window.Of;
    hide Clear;
    hide Chain;
    hide Frame;
    var file, readOffset, pendingOffset, pending: Bytes := asm.env.file, start, start, [];
    ghost var lines: seq<Line> := [];
    RunNone(asm.env, s0);
    NothingRead(file, start);
    while readOffset < readEnd
      invariant start <= readOffset <= readEnd && file == asm.env.file
      invariant Pending(file, pending, pendingOffset, readOffset, MAX_TRANSCRIPT_RECORD_BYTES)
      invariant Chain(file, start, lines, pendingOffset) && recent.Held().Of(file)
      invariant asm.View() == Run(asm.env, s0, lines) && !asm.refused
      invariant old(budget.remaining).Unlimited? ==> budget.remaining.Unlimited?
      decreases readEnd - readOffset
    {
      DeliversSoFar(asm.env, s0, start, readEnd, lines, pendingOffset);
      var aborted: bool := *;
      if abortable && aborted {
        return Interrupted;
      }
      if budget.remaining.Spent() {
        return OutOfBudget;
      }
      var stop;
      stop, lines, pending, pendingOffset, readOffset :=
        TakeChunk(asm, s0, start, readEnd, lines, pending, pendingOffset, readOffset, recent, budget, abortable);
      if stop.Some? {
        return stop.value;
      }
    }
    DeliversSoFar(asm.env, s0, start, readEnd, lines, pendingOffset);
    WholeParse(asm.env, start, readEnd, lines, Rest(pendingOffset));
    outcome := ReadAll;
  }

  lemma RunNone(env: Env, s: State)
    ensures Run(env, s, []) == s
  {
  }

  lemma NothingRead(file: Bytes, at: nat)
    requires at <= |file|
    ensures Pending(file, [], at, at, MAX_TRANSCRIPT_RECORD_BYTES) && Chain(file, at, [], at)
  {
  }

  lemma OutgrownWithin(file: Bytes, from: nat, end: nat, later: nat)
    requires Outgrown(file, from, end) && end <= later
    ensures Outgrown(file, from, later) && from <= later
  {
  }

  /** Stopping among the records of a chunk. */
  lemma StoppedWithin(env: Env, s0: State, start: nat, readEnd: nat, lines: seq<Line>, all: seq<Line>, to: nat)
    requires Chain(env.file, start, lines, to) && to <= readEnd <= |env.file| && all <= lines
    ensures Delivers(env, s0, start, readEnd, Run(env, s0, all).turns)
    ensures Run(env, s0, all).failed ==> Run(env, s0, Frame(env.file, start, readEnd).lines) == Run(env, s0, all)
  {
    hide Run;
    if |all| < |lines| {
      ChainPrefix(env.file, start, lines, to, |all|);
      ChainBound(env.file, start, lines, to, MAX_TRANSCRIPT_RECORD_BYTES);
      assert lines[..|all|] == all;
      DeliversSoFar(env, s0, start, readEnd, all, lines[|all|].byteStart);
    } else {
      assert all == lines;
      DeliversSoFar(env, s0, start, readEnd, all, to);
    }
  }

  lemma WholeParse(env: Env, start: nat, readEnd: nat, lines: seq<Line>, e: End)
    requires readEnd <= |env.file| && e.from <= readEnd && Chain(env.file, start, lines, e.from)
    requires e.Rest? ==> readEnd - e.from <= MAX_TRANSCRIPT_RECORD_BYTES && Clear(env.file, e.from, readEnd)
    requires e.Oversized? ==> Outgrown(env.file, e.from, readEnd)
    ensures start <= readEnd && Frame(env.file, start, readEnd) == Framed(lines, e)
  {
    ChainFrame(env.file, start, lines, e.from, readEnd);
    FrameEnd(env.file, e, readEnd);
    assert lines + [] == lines;
  }

  /** `readResumeContext`: re-reads each record, charging every read, in any order.
      The values come from the source bytes. */
  method ReadResumeContext(env: Env, records: Context, beforeOffset: nat, budget: SourceReadBudget)
    returns (values: Option<map<Field, string>>, paid: bool)
    modifies budget
    ensures paid && values.Some? ==> AllStand(env, records, beforeOffset) && values == ReadBack(env, records, beforeOffset)
    ensures paid && values.None? ==> !AllStand(env, records, beforeOffset)
    ensures old(budget.remaining).Unlimited? ==> paid && budget.remaining.Unlimited?
    ensures !paid ==> budget.remaining.Short()
  {
    hide Stands;
    hide ValueOf;
    var todo, read: map<Field, string> := records.Keys, map[];
    while todo != {}
      invariant todo <= records.Keys && read.Keys == records.Keys - todo
      invariant forall f | f in read ::
                  records[f].field == f && Stands(env, records[f], beforeOffset) && read[f] == ValueOf(env, records[f])
      invariant old(budget.remaining).Unlimited? ==> budget.remaining.Unlimited?
      decreases todo
    {
      var field :| field in todo;
      var record := records[field];
      if record.End() > beforeOffset || record.length > MAX_TRANSCRIPT_RECORD_BYTES + 1 {
        TooFar(env, record, beforeOffset);
        return None, true;
      }
      paid := budget.ChargeRead(if record.offset > 0 then record.length + 1 else record.length);
      if !paid {
        return None, paid;
      }
      if record.field != field || !Stands(env, record, beforeOffset) {
        return None, true;
      }
      read, todo := read[field := ValueOf(env, record)], todo - {field};
    }
    assert read == ValuesOf(env, records);
    return Some(read), true;
  }

  lemma TooFar(env: Env, record: ContextRecord, beforeOffset: nat)
    requires record.End() > beforeOffset || record.length > MAX_TRANSCRIPT_RECORD_BYTES + 1
    ensures !Stands(env, record, beforeOffset)
  {
  }

  /** The decision a parse uses: the one recorded with a resumed cursor, else the
      one the file's own records give. */
  function DecisionFor(format: Format, file: Bytes, since: Cursor, context: Option<ResumeContext>): Option<UserBoundary> {
    if format.decides && since.byteOffset > 0 && context.Some? && context.value.decided.Some? then context.value.decided
    else Decision(format, Frame(file, 0, |file|).lines)
  }

  /** Must the file be read for its decision? */
  predicate Prescans(format: Format, since: Cursor, context: Option<ResumeContext>) {
    format.decides && !(since.byteOffset > 0 && context.Some? && context.value.decided.Some?)
  }

  /** The records a parse begins with: those issued with its cursor. */
  function RecordsFor(since: Cursor, context: Option<ResumeContext>): Context {
    if since.byteOffset > 0 && context.Some? then context.value.records else map[]
  }

  /** Does the file still hold what the cursor and its context were issued over? */
  predicate Trusted(env: Env, since: Cursor, context: Option<ResumeContext>) {
    && since.byteOffset <= |env.file|
    && (since.fingerprint != "" ==> Fingerprint(env.format.hash, env.file, since.byteOffset) == since.fingerprint)
    && AllStand(env, RecordsFor(since, context), since.byteOffset)
  }

  // ------------------------------------------------------- what authentication means

  /** The bytes from `lo` to `hi` are in `now` what they were in `was`. */
  predicate Unchanged(was: Bytes, now: Bytes, lo: nat, hi: nat) {
    lo <= hi <= |was| && hi <= |now| && was[lo..hi] == now[lo..hi]
  }

  /** The digest tells the two texts apart if they differ. */
  predicate Tells(hash: Hash, a: Bytes, b: Bytes) {
    hash(a) == hash(b) ==> a == b
  }

  /** A context record issued over a file stands in another exactly when its own bytes
      are unchanged there, still begin a line, and end before the cursor. */
  lemma RecordStandsWhenUnchanged(env: Env, now: Env, line: Line, entry: Entry, field: Field, beforeOffset: nat)
    requires now.format == env.format && RecordAt(env.file, line) && env.format.decode(line.text) == Some(entry) && field in entry.context
    requires Tells(env.format.hash, line.text, TextOf(now.file, RecordOf(env, line, field)))
    ensures Stands(now, RecordOf(env, line, field), beforeOffset) <==>
              && line.byteEnd <= beforeOffset && Unchanged(env.file, now.file, line.byteStart, line.byteEnd)
              && (line.byteStart > 0 ==> now.file[line.byteStart - 1] == NEWLINE)
    ensures Stands(now, RecordOf(env, line, field), beforeOffset) ==> ValueOf(now, RecordOf(env, line, field)) == entry.context[field]
  {
    var record, lo, hi := RecordOf(env, line, field), line.byteStart, line.byteEnd;
    if hi <= |now.file| {
      var were, are, n := env.file[lo..hi], now.file[lo..hi], hi - 1 - lo;
      assert were == env.file[lo..hi - 1] + [env.file[hi - 1]] && are == now.file[lo..hi - 1] + [now.file[hi - 1]];
      assert were[..n] == env.file[lo..hi - 1] && are[..n] == now.file[lo..hi - 1];
      assert were[n] == env.file[hi - 1] && are[n] == now.file[hi - 1];
      assert TextOf(now.file, record) == now.file[lo..hi - 1];
    }
  }

  /** A fingerprint issued over a file is met by another exactly when the bytes of its
      window are unchanged there. */
  lemma FingerprintMetWhenUnchanged(hash: Hash, was: Bytes, now: Bytes, offset: nat)
    requires 0 < offset <= |was| && offset <= |now| && Tells(hash, was[WindowStart(offset)..offset], now[WindowStart(offset)..offset])
    ensures Fingerprint(hash, now, offset) == Fingerprint(hash, was, offset) <==> Unchanged(was, now, WindowStart(offset), offset)
  {
  }

  /** So is a reconstruction's progress. */
  lemma ProgressMetWhenUnchanged(env: Env, was: Bytes, p: Progress)
    requires 0 < p.offset <= |was| && p.offset <= |env.file| && p.fingerprint == Fingerprint(env.format.hash, was, p.offset)
    requires Tells(env.format.hash, was[WindowStart(p.offset)..p.offset], env.file[WindowStart(p.offset)..p.offset])
    ensures StillMatches(env, p) <==> Unchanged(was, env.file, WindowStart(p.offset), p.offset)
  {
  }

  /** Whatever stands sets its field: the value read back is never made up. */
  lemma StandingSetsItsField(env: Env, record: ContextRecord, beforeOffset: nat)
    requires Stands(env, record, beforeOffset)
    ensures record.End() <= beforeOffset && record.End() <= |env.file|
    ensures var entry := env.format.decode(env.file[record.offset..record.End() - 1]);
            entry.Some? && record.field in entry.value.context && ValueOf(env, record) == entry.value.context[record.field]
  {
  }

  /** Authentication of the cursor and its context, and the decision in force.
      `carry` holds what to begin with when there is something to read. */
  method BeginParse(format: Format, file: Bytes, title: Option<string>, since: Cursor, context: Option<ResumeContext>,
                    recent: RecentBytes, budget: SourceReadBudget, abortable: bool)
    returns (stop: Option<ParseOutcome>, env: Env, values: map<Field, string>)
    requires recent.Held() == Window(0, []) && recent.capacity == RECENT_BYTES_CAPACITY
    modifies recent, budget
    ensures env.format == format && env.file == file && env.sessionTitle == title && recent.Held().Of(file)
    ensures stop.None? ==>
              && Trusted(env, since, context) && since.byteOffset < |file| && (since.byteOffset > 0 ==> context.Some?)
              && env.decided == DecisionFor(format, file, since, context)
              && values == ValuesOf(env, RecordsFor(since, context))
    ensures stop == Some(Desync) ==> !Trusted(env, since, context)
    ensures stop == Some(NothingNew) <==> since.byteOffset == |file|
    ensures stop == Some(ContextRequired) ==> since.byteOffset > 0 && context.None?
    ensures stop == Some(Interrupted) ==> abortable
    ensures stop == Some(OutOfBudget) ==> budget.remaining.Short()
    ensures stop == Some(Oversize) ==> Prescans(format, since, context) && Frame(file, 0, |file|).end.Oversized?
    ensures stop.Some? ==> !stop.value.ReadAll? && !stop.value.CoverageRefused?
    ensures old(budget.remaining).Unlimited? ==> budget.remaining.Unlimited?
  {
    hide Frame;
    hide AllStand;
    hide ValuesOf;
    hide Decision;
    hide Fingerprint;
    hide Window.Of;
    env, values := Env(format, file, None, title), map[];
    EmptyHeld(file, env);
    var start := since.byteOffset;
    if |file| < start {
      return Some(Desync), env, values;
    }
    if |file| == start {
      return Some(NothingNew), env, values;
    }
    stop := CheckFingerprint(env, since, recent, budget);
    if stop.Some? {
      return;
    }
    if start > 0 {
      if context.None? {
        return Some(ContextRequired), env, values;
      }
      var read, paid := ReadResumeContext(env, context.value.records, start, budget);
      if !paid {
        return Some(OutOfBudget), env, values;
      }
      if read.None? {
        return Some(Desync), env, values;
      }
      values := read.value;
    }
    var undecided := env;
    stop, env := Decide(undecided, since, context, budget, abortable);
    DecisionIgnored(undecided, env.decided, RecordsFor(since, context), start);
  }

  lemma EmptyHeld(file: Bytes, env: Env)
    ensures Window(0, []).Of(file) && AllStand(env, map[], 0) && ValuesOf(env, map[]) == map[]
  {
  }

  /** Authentication does not depend on which record opens a turn. */
  lemma DecisionIgnored(env: Env, decided: Option<UserBoundary>, records: Context, before: nat)
    ensures AllStand(env.(decided := decided), records, before) == AllStand(env, records, before)
    ensures ValuesOf(env.(decided := decided), records) == ValuesOf(env, records)
  {
    forall r: ContextRecord
      ensures Stands(env.(decided := decided), r, before) == Stands(env, r, before)
      ensures ValueOf(env.(decided := decided), r) == ValueOf(env, r)
    {
    }
  }

  /** Re-reads the bytes before the cursor; the same bytes fingerprint the first
      turns after it. */
  method CheckFingerprint(env: Env, since: Cursor, recent: RecentBytes, budget: SourceReadBudget) returns (stop: Option<ParseOutcome>)
    requires recent.Held() == Window(0, []) && recent.capacity == RECENT_BYTES_CAPACITY && since.byteOffset <= |env.file|
    modifies recent, budget
    ensures recent.Held().Of(env.file) && (old(budget.remaining).Unlimited? ==> budget.remaining.Unlimited?)
    ensures stop.None? ==> since.fingerprint != "" ==> Fingerprint(env.format.hash, env.file, since.byteOffset) == since.fingerprint
    ensures stop == Some(Desync) ==>
              since.fingerprint != "" && Fingerprint(env.format.hash, env.file, since.byteOffset) != since.fingerprint
    ensures stop.Some? ==> stop.value.Desync? || (stop.value.OutOfBudget? && budget.remaining.Short())
  {
    stop := None;
    if since.fingerprint != "" {
      var windowStart := WindowStart(since.byteOffset);
      var window := env.file[windowStart..since.byteOffset];
      var paid := budget.ChargeRead(|window|);
      if !paid {
        return Some(OutOfBudget);
      }
      AppendOf(recent.Held(), env.file, windowStart, window, RECENT_BYTES_CAPACITY);
      recent.Append(windowStart, window);
      if (if |window| == 0 then "" else env.format.hash(window)) != since.fingerprint {
        stop := Some(Desync);
      }
    }
  }

  method Decide(undecided: Env, since: Cursor, context: Option<ResumeContext>, budget: SourceReadBudget, abortable: bool)
    returns (stop: Option<ParseOutcome>, env: Env)
    requires undecided.decided.None?
    modifies budget
    ensures env == undecided.(decided := env.decided)
    ensures stop.None? ==> env.decided == DecisionFor(env.format, env.file, since, context)
    ensures stop == Some(Interrupted) ==> abortable
    ensures stop == Some(OutOfBudget) ==> budget.remaining.Short()
    ensures stop == Some(Oversize) ==> Prescans(env.format, since, context) && Frame(env.file, 0, |env.file|).end.Oversized?
    ensures stop.Some? ==> stop.value.Interrupted? || stop.value.OutOfBudget? || stop.value.Oversize?
    ensures old(budget.remaining).Unlimited? ==> budget.remaining.Unlimited?
  {
    stop, env := None, undecided;
    if env.format.decides {
      if since.byteOffset > 0 && context.Some? && context.value.decided.Some? {
        env := env.(decided := context.value.decided);
      } else {
        var decided, outcome := PrescanDecisions(env.format, env.file, budget, abortable);
        match outcome {
          case Finished => env := env.(decided := decided);
          case Deadline => stop := Some(Interrupted);
          case BudgetReached => stop := Some(OutOfBudget);
          case RecordTooLong => stop := Some(Oversize);
        }
      }
    }
  }

  /** `parseTurns` over a stable file. Whatever the schedule of short reads, the
      allowance and the deadline, the turns delivered are a beginning of the turns
      the records from the cursor on give, and all of them when it reads to the
      end. */
  method ParseTurns(format: Format, file: Bytes, title: Option<string>, since: Cursor, context: Option<ResumeContext>,
                    readEnd: nat, closeTrailingOnIdle: bool, budget: SourceReadBudget, abortable: bool)
    returns (turns: seq<ParsedTurn>, outcome: ParseOutcome, ghost env: Env)
    requires since.byteOffset <= readEnd <= |file| || |file| < since.byteOffset
    modifies budget
    ensures env == Env(format, file, env.decided, title)
    ensures outcome == Desync ==> !Trusted(env, since, context)
    ensures outcome == NothingNew <==> since.byteOffset == |file|
    ensures outcome == ContextRequired ==> since.byteOffset > 0 && context.None?
    ensures outcome == Interrupted ==> abortable
    ensures outcome == OutOfBudget ==> budget.remaining.Short()
    ensures outcome == Oversize ==>
              || Frame(file, 0, |file|).end.Oversized?
              || (since.byteOffset <= readEnd <= |file| && Frame(file, since.byteOffset, readEnd).end.Oversized?)
    ensures turns != [] || outcome.ReadAll? ==>
              && env.decided == DecisionFor(format, file, since, context) && Trusted(env, since, context)
              && since.byteOffset <= readEnd <= |file|
    ensures var s0 := Begin(since.nextTurnIndex, RecordsFor(since, context), ValuesOf(env, RecordsFor(since, context)));
            since.byteOffset <= readEnd <= |file| ==>
              var whole := Run(env, s0, Frame(file, since.byteOffset, readEnd).lines);
              && turns <= Finish(env, whole, closeTrailingOnIdle).turns
              && (outcome == Oversize && !Prescans(format, since, context) ==> turns == whole.turns)
              && (outcome == ReadAll || outcome == CoverageRefused ==>
                    && turns == Finish(env, whole, closeTrailingOnIdle).turns
                    && (outcome == CoverageRefused <==> Finish(env, whole, closeTrailingOnIdle).failed))
    ensures outcome == CoverageRefused ==> since.byteOffset <= readEnd <= |file|
  {
    hide Run;
    hide Frame;
    hide Finish;
    hide AllStand;
    hide ValuesOf;
    hide Window.Of;
    turns, env := [], Env(format, file, None, title);
    var recent := new RecentBytes(RECENT_BYTES_CAPACITY);
    var stop, begun, values := BeginParse(format, file, title, since, context, recent, budget, abortable);
    env := begun;
    if stop.Some? {
      return turns, stop.value, env;
    }
    var asm := new Assembly(begun, since.nextTurnIndex, RecordsFor(since, context), values);
    ghost var s0 := asm.View();
    outcome := ReadTurns(asm, s0, since.byteOffset, readEnd, recent, budget, abortable);
    ghost var whole := Run(env, s0, Frame(file, since.byteOffset, readEnd).lines);
    FinishKeeps(env, whole, closeTrailingOnIdle);
    if outcome == ReadAll {
      LastEndWithin(env, s0, since.byteOffset, readEnd);
      var paid := asm.FinishParse(closeTrailingOnIdle, recent, budget);
      outcome := if !paid then OutOfBudget else if asm.refused then CoverageRefused else ReadAll;
    }
    turns := asm.turns;
  }

  lemma FinishKeeps(env: Env, s: State, closeTrailingOnIdle: bool)
    ensures s.turns <= Finish(env, s, closeTrailingOnIdle).turns
    ensures s.failed ==> Finish(env, s, closeTrailingOnIdle) == s
  {
    hide Fingerprint;
    hide Commit;
  }

  lemma LastEndWithin(env: Env, s0: State, start: nat, readEnd: nat)
    requires start <= readEnd <= |env.file| && s0.lastEnd.None?
    ensures var s := Run(env, s0, Frame(env.file, start, readEnd).lines);
            !s.failed && s.lastEnd.Some? ==> s.lastEnd.value <= |env.file|
  {
    hide Accept;
    var f := Frame(env.file, start, readEnd);
    FramePartitions(env.file, start, readEnd);
    if f.lines != [] && !Run(env, s0, f.lines).failed {
      RunLastEnd(env, s0, f.lines);
      assert RecordAt(env.file, f.lines[|f.lines| - 1]);
    }
  }
}

/** `chargedLines` of src/adapters/base.ts: complete records between two
    offsets, pulled one at a time, every read charged. */
module ChargedReading {
  import opened Framing
  import opened Reading

  /** What a pull gives: the next record; none because the range is finished, a
      deadline fired or the allowance ran out; or a record over the ceiling. */
  datatype Pull = Record(line: Line) | Exhausted | Stopped | BudgetSpent | TooLong

  /** Bytes of the first record of file[start..end), newline included, and of
      the whole range when it holds no complete record. */
  function FirstRecordEnd(file: Bytes, start: nat, end: nat): nat
    requires start <= end <= |file|
  {
    var n := NextNewline(file, start, end);
    if n == end then end else n + 1
  }

  /** Progress of the reader: bytes read, the record they leave open, the records
      the last chunk completed and not pulled yet, and whether the chunk ended
      inside a record over the ceiling. */
  datatype Scan = Scan(readOffset: nat, pendingOffset: nat, pending: Bytes, ready: seq<Line>, outgrown: bool) {

    ghost predicate Of(file: Bytes, end: nat) {
      && readOffset <= end <= |file|
      && Chain(file, Position(), ready, pendingOffset) && pendingOffset <= readOffset
      && (outgrown ==> Outgrown(file, pendingOffset, readOffset))
      && (!outgrown ==> Pending(file, pending, pendingOffset, readOffset, MAX_TRANSCRIPT_RECORD_BYTES))
    }

    /** Where the next record to pull starts. */
    function Position(): nat {
      if ready == [] then pendingOffset else ready[0].byteStart
    }

    predicate Reading() { ready == [] && !outgrown }
  }

  /** Where the reads stand against the allowance `granted`: within it, except
      that from `exhaustedAt` on they only finish the first record, passing its
      end by less than one small read. */
  ghost predicate Accounted(file: Bytes, start: nat, end: nat, granted: Allowance, left: Allowance,
                            readOffset: nat, exhaustedAt: Option<nat>)
    requires start <= end <= |file|
  {
    && granted.Limited? == left.Limited?
    && (exhaustedAt.None? && granted.Limited? ==> readOffset - start + left.left <= granted.left)
    && (exhaustedAt.Some? ==>
          && left.Spent() && start <= exhaustedAt.value < FirstRecordEnd(file, start, end)
          && exhaustedAt.value - start <= granted.left
          && readOffset < FirstRecordEnd(file, start, end) + RECORD_OVERRUN_READ_BYTES)
  }

  /** The next chunk, split. */
  method Extend(file: Bytes, scan: Scan, bytesRead: nat, ghost end: nat) returns (next: Scan)
    requires scan.Of(file, end) && scan.Reading()
    requires scan.readOffset + bytesRead <= end
    ensures next.Of(file, end) && next.Position() == scan.Position()
    ensures next.readOffset == scan.readOffset + bytesRead
  {
    var data := file[scan.readOffset..scan.readOffset + bytesRead];
    var records, rest, restOffset, tooLong :=
      SplitChunk(file, scan.pending, scan.pendingOffset, scan.readOffset, data, MAX_TRANSCRIPT_RECORD_BYTES);
    next := Scan(scan.readOffset + bytesRead, restOffset, rest, records, tooLong);
  }

  /** No newline read yet means the first record ends past what was read. */
  lemma FirstRecordAhead(file: Bytes, start: nat, end: nat, scan: Scan)
    requires start <= end && scan.Of(file, end) && scan.Reading()
    requires scan.pendingOffset == start && scan.readOffset < end
    ensures scan.readOffset < FirstRecordEnd(file, start, end)
  {
    assert NextNewline(file, start, end) >= scan.readOffset;
  }

  class ChargedLines {
    const file: Bytes
    const start: nat
    const end: nat
    const firstRecordOverrun: bool
    const chunkBytes: nat
    const abortable: bool
    const budget: SourceReadBudget
    const recent: RecentBytes

    var scan: Scan
    var yielded: bool

    ghost var exhaustedAt: Option<nat>
    ghost const granted: Allowance

    ghost predicate Valid()
      reads this, budget, recent
    {
      && start <= scan.Position() && start <= scan.readOffset && start <= end <= |file| && 0 < chunkBytes
      && scan.Of(file, end) && (!yielded ==> scan.Position() == start)
      && recent.Held().Of(file) && recent.capacity == RECENT_BYTES_CAPACITY
      && Accounted(file, start, end, granted, budget.remaining, scan.readOffset, exhaustedAt)
    }

    constructor (file: Bytes, start: nat, end: nat, firstRecordOverrun: bool, chunkBytes: nat, abortable: bool,
                 budget: SourceReadBudget, recent: RecentBytes)
      requires start <= end <= |file| && chunkBytes > 0
      requires recent.Held().Of(file) && recent.capacity == RECENT_BYTES_CAPACITY
      ensures this.file == file && this.start == start && this.end == end && this.firstRecordOverrun == firstRecordOverrun
      ensures this.abortable == abortable && this.budget == budget && this.recent == recent
      ensures granted == budget.remaining && exhaustedAt == None
      ensures Valid() && !yielded && scan.Position() == start
    {
      this.file, this.start, this.end := file, start, end;
      this.firstRecordOverrun, this.chunkBytes, this.abortable := firstRecordOverrun, chunkBytes, abortable;
      this.budget, this.recent := budget, recent;
      scan, yielded := Scan(start, start, [], [], false), false;
      granted, exhaustedAt := budget.remaining, None;
    }

    /** What the next read asks for. */
    function Wanted(): nat
      reads this
    {
      var pending := if |scan.pending| <= MAX_TRANSCRIPT_RECORD_BYTES then |scan.pending| else MAX_TRANSCRIPT_RECORD_BYTES;
      var range := if scan.readOffset <= end then end - scan.readOffset else 0;
      Min(Min(chunkBytes, range), MAX_TRANSCRIPT_RECORD_BYTES - pending + 1)
    }

    /** How much to read next, already charged. Never past the byte that proves
        the pending record oversized; with the allowance gone, only small reads
        that finish the first record. */
    method Request() returns (length: nat)
      requires Valid() && scan.readOffset < end && scan.Reading()
      modifies this`exhaustedAt, budget
      ensures Valid() && scan.readOffset + length <= end
      ensures Accounted(file, start, end, granted, budget.remaining, scan.readOffset + length, exhaustedAt)
      ensures length == 0 ==> budget.remaining.Spent() && (firstRecordOverrun ==> yielded)
      ensures length == if !old(budget.remaining).Spent() then old(budget.remaining).Cap(Wanted())
                        else if firstRecordOverrun && !yielded then Min(Wanted(), RECORD_OVERRUN_READ_BYTES) else 0
      ensures budget.remaining == if old(budget.remaining).Spent() then old(budget.remaining) else old(budget.remaining).Less(length)
    {
      var before := budget.remaining;
      var wanted := Wanted();
      length := before.Cap(wanted);
      if length > 0 {
        var _ := budget.ChargeRead(length);
        ChargeAccounted(file, start, end, granted, before, scan.readOffset, exhaustedAt, length, length);
        ChargeAccounted(file, start, end, granted, before, scan.readOffset, exhaustedAt, length, 0);
      } else if firstRecordOverrun && !yielded {
        length := Min(wanted, RECORD_OVERRUN_READ_BYTES);
        FirstRecordAhead(file, start, end, scan);
        OverrunAccounted(file, start, end, granted, before, scan.readOffset, exhaustedAt, length);
        OverrunAccounted(file, start, end, granted, before, scan.readOffset, exhaustedAt, 0);
        exhaustedAt := if exhaustedAt.None? then Some(scan.readOffset) else exhaustedAt;
      }
    }

    /** One charged read, or the reason for none. */
    method ReadMore() returns (stop: Option<Pull>)
      requires Valid() && scan.readOffset < end && scan.Reading()
      modifies this`scan, this`exhaustedAt, budget, recent
      ensures Valid() && scan.Position() == old(scan.Position())
      ensures stop.None? ==> scan.readOffset > old(scan.readOffset)
      ensures stop.Some? ==> scan == old(scan) && (stop.value == Stopped || stop.value == BudgetSpent)
      ensures stop.Some? ==> budget.remaining == old(budget.remaining)
      ensures stop.None? ==>
                budget.remaining == if old(budget.remaining).Spent() then old(budget.remaining)
                                    else old(budget.remaining).Less(old(budget.remaining).Cap(old(Wanted())))
      ensures stop == Some(Stopped) ==> abortable
      ensures stop == Some(BudgetSpent) ==> budget.remaining.Spent() && (firstRecordOverrun ==> yielded)
    {
      var aborted: bool := *;
      if abortable && aborted {
        return Some(Stopped);
      }
      var length := Request();
      if length == 0 {
        return Some(BudgetSpent);
      }
      var at := scan.readOffset;
      var bytesRead := ReadAt(file, at, length);
      AppendOf(recent.Held(), file, at, file[at..at + bytesRead], RECENT_BYTES_CAPACITY);
      recent.Append(at, file[at..at + bytesRead]);
      scan := Extend(file, scan, bytesRead, end);
      stop := None;
    }

    /** One more record, in order, or the reason there is none. */
    method Next() returns (p: Pull)
      requires Valid()
      modifies this, budget, recent
      ensures Valid()
      ensures p.Record? ==>
                && yielded && RecordAt(file, p.line) && p.line.byteEnd <= end
                && p.line.byteStart == old(scan.Position()) && p.line.byteEnd == scan.Position()
      ensures !p.Record? ==> yielded == old(yielded) && scan.Position() == old(scan.Position())
      ensures p == Exhausted ==> end - scan.Position() <= MAX_TRANSCRIPT_RECORD_BYTES && Clear(file, scan.Position(), end)
      ensures p == TooLong ==> Outgrown(file, scan.Position(), end)
      ensures p == Stopped ==> abortable
      ensures p == BudgetSpent ==> budget.remaining.Spent() && (firstRecordOverrun ==> yielded)
    {
      while scan.readOffset < end && scan.Reading()
        invariant Valid() && yielded == old(yielded) && scan.Position() == old(scan.Position())
        decreases end - scan.readOffset
      {
        var stop := ReadMore();
        if stop.Some? {
          return stop.value;
        }
      }
      if scan.ready != [] {
        p := Record(scan.ready[0]);
        ChainTail(file, scan.Position(), scan.ready, scan.pendingOffset, MAX_TRANSCRIPT_RECORD_BYTES);
        ChainBound(file, scan.Position(), scan.ready, scan.pendingOffset, MAX_TRANSCRIPT_RECORD_BYTES);
        scan, yielded := scan.(ready := scan.ready[1..]), true;
      } else if scan.outgrown {
        p := TooLong;
      } else {
        p := Exhausted;
      }
    }
  }

  lemma ChargeAccounted(file: Bytes, start: nat, end: nat, granted: Allowance, left: Allowance,
                        readOffset: nat, exhaustedAt: Option<nat>, length: nat, bytesRead: nat)
    requires start <= readOffset && start <= end <= |file|
    requires Accounted(file, start, end, granted, left, readOffset, exhaustedAt)
    requires 0 < length && left.Covers(length) && bytesRead <= length
    ensures Accounted(file, start, end, granted, left.Less(length), readOffset + bytesRead, exhaustedAt)
  {
  }

  lemma OverrunAccounted(file: Bytes, start: nat, end: nat, granted: Allowance, left: Allowance,
                         readOffset: nat, exhaustedAt: Option<nat>, bytesRead: nat)
    requires start <= end <= |file| && start <= readOffset < FirstRecordEnd(file, start, end)
    requires Accounted(file, start, end, granted, left, readOffset, exhaustedAt)
    requires left.Spent() && bytesRead <= RECORD_OVERRUN_READ_BYTES
    ensures Accounted(file, start, end, granted, left, readOffset + bytesRead,
                      if exhaustedAt.None? then Some(readOffset) else exhaustedAt)
  {
  }

  /** The generator pulled to its end: the framed records of the range in order, all
      of them when it is exhausted or meets the first record over the ceiling, which
      are the only two ends an unlimited, uninterrupted read has. */
  method DrainLines(reader: ChargedLines) returns (records: seq<Line>, last: Pull)
    requires reader.Valid() && !reader.yielded && reader.scan.Position() == reader.start
    modifies reader, reader.budget, reader.recent
    ensures !last.Record? && records <= Frame(reader.file, reader.start, reader.end).lines
    ensures last.Exhausted? || last.TooLong? ==>
              && records == Frame(reader.file, reader.start, reader.end).lines
              && (last.TooLong? <==> Frame(reader.file, reader.start, reader.end).end.Oversized?)
    ensures reader.granted.Unlimited? && !reader.abortable ==> last.Exhausted? || last.TooLong?
  {
    hide Frame;
    records := [];
    ghost var at := reader.start;
    last := reader.Next();
    while last.Record?
      invariant reader.Valid() && Chain(reader.file, reader.start, records, at) && at <= reader.end
      invariant last.Record? ==> RecordAt(reader.file, last.line) && last.line.byteStart == at < last.line.byteEnd <= reader.end
                                 && reader.scan.Position() == last.line.byteEnd
      invariant !last.Record? ==> EndsAt(reader.file, last, at, reader.end) && (last.Stopped? ==> reader.abortable)
                                  && (last.BudgetSpent? ==> reader.budget.remaining.Limited?)
      decreases reader.end - at
    {
      ChainSnoc(reader.file, reader.start, records, last.line, MAX_TRANSCRIPT_RECORD_BYTES);
      records, at := records + [last.line], last.line.byteEnd;
      last := reader.Next();
    }
    ChainFrame(reader.file, reader.start, records, at, reader.end);
    if last.Exhausted? {
      FrameEnd(reader.file, Rest(at), reader.end);
    } else if last.TooLong? {
      FrameEnd(reader.file, Oversized(at), reader.end);
    }
  }

  /** Where a reader that ended stands. */
  ghost predicate EndsAt(file: Bytes, last: Pull, at: nat, end: nat) {
    && (last.Exhausted? ==> at <= end <= |file| && end - at <= MAX_TRANSCRIPT_RECORD_BYTES && Clear(file, at, end))
    && (last.TooLong? ==> Outgrown(file, at, end))
  }
}

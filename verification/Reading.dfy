/** The reading loops of src/adapters/base.ts over a stable file. A read may
    return any non-empty part of what was asked for, and a deadline may fire at
    any check; both are nondeterministic here, so each contract holds for every
    schedule of short reads. */
module Reading {
  import opened Framing

  const FINGERPRINT_WINDOW_BYTES: nat := 4096
  const RECENT_BYTES_CAPACITY: nat := FINGERPRINT_WINDOW_BYTES + 2 * TRANSCRIPT_READ_CHUNK_BYTES

  datatype Option<+T> = None | Some(value: T)

  function Min(a: nat, b: nat): (m: nat)
    ensures m <= a && m <= b && (m == a || m == b)
  {
    if a <= b then a else b
  }

  /** A byte allowance: none given, or so many bytes left. */
  datatype Allowance = Unlimited | Limited(left: nat) {
    predicate Spent() { Limited? && left == 0 }

    /** Too little is left for the longest single read, a record over the ceiling by its
        newline and the byte before it. */
    predicate Short() { Limited? && left < MAX_TRANSCRIPT_RECORD_BYTES + 2 }

    function Cap(length: nat): (n: nat)
      ensures n <= length && (length > 0 && !Spent() ==> n > 0)
    {
      if Unlimited? then length else Min(length, left)
    }

    /** What is left once `used` bytes have been read. */
    function After(used: nat): Allowance {
      if Unlimited? then this else Limited(if used <= left then left - used else 0)
    }

    predicate Covers(length: nat) { Unlimited? || length <= left }

    function Less(length: nat): Allowance
      requires Covers(length)
    {
      if Unlimited? then this else Limited(left - length)
    }
  }

  /** One allowance shared by every read of a parse. */
  class SourceReadBudget {
    var remaining: Allowance

    constructor (allowance: Allowance)
      ensures remaining == allowance
    {
      remaining := allowance;
    }

    /** Charged before the read it pays for; refused when it does not cover it. */
    method ChargeRead(length: nat) returns (ok: bool)
      modifies this
      ensures ok == old(remaining).Covers(length)
      ensures remaining == if ok then old(remaining).Less(length) else old(remaining)
    {
      ok := remaining.Covers(length);
      if ok {
        remaining := remaining.Less(length);
      }
    }
  }

  /** `handle.read`: any non-empty prefix of the requested range, nothing only
      at or past the end of the file. */
  method ReadAt(file: Bytes, offset: nat, length: nat) returns (bytesRead: nat)
    ensures bytesRead <= length
    ensures bytesRead > 0 ==> offset + bytesRead <= |file|
    ensures bytesRead == 0 <==> length == 0 || offset >= |file|
  {
    if length == 0 || offset >= |file| {
      bytesRead := 0;
    } else {
      assert 1 <= 1 <= length && offset + 1 <= |file|;
      bytesRead :| 1 <= bytesRead <= length && offset + bytesRead <= |file|;
    }
  }

  /** `pending` holds file[from..to), a record whose newline is not read yet. */
  ghost predicate Pending(file: Bytes, pending: Bytes, from: nat, to: nat, max: nat) {
    from <= to <= |file| && pending == file[from..to] && |pending| <= max && Clear(file, from, to)
  }

  lemma SubSlice(s: Bytes, lo: nat, hi: nat, from: nat, to: nat)
    requires lo <= from <= to <= hi <= |s|
    ensures s[lo..hi][from - lo..to - lo] == s[from..to]
  {
    var whole, part := s[lo..hi], s[from..to];
    assert forall i | 0 <= i < to - from :: whole[from - lo..to - lo][i] == whole[from - lo + i] == part[i];
  }

  /** Scanning `data`, the file's bytes at `chunkOffset`, from `lineStart` up to
      its next newline extends the pending bytes by the file's own bytes. */
  lemma ScanExtends(file: Bytes, pending: Bytes, from: nat, chunkOffset: nat, data: Bytes, lineStart: nat, newline: nat, max: nat)
    requires lineStart <= newline <= |data| && Pending(file, pending, from, chunkOffset + lineStart, max)
    requires chunkOffset + |data| <= |file| && data == file[chunkOffset..chunkOffset + |data|]
    requires Clear(data, lineStart, newline)
    ensures pending + data[lineStart..newline] == file[from..chunkOffset + newline]
    ensures Clear(file, from, chunkOffset + newline)
    ensures newline < |data| ==> file[chunkOffset + newline] == data[newline]
  {
    assert forall i | lineStart <= i < newline :: file[chunkOffset + i] == data[i];
    forall i | chunkOffset + lineStart <= i < chunkOffset + newline ensures file[i] != NEWLINE {
      assert data[i - chunkOffset] != NEWLINE;
    }
  }

  /** The inner loop every reader runs on a chunk that continues `pending`: the
      records the chunk completes, then the new pending bytes or a record that
      has outgrown the ceiling. */
  method SplitChunk(file: Bytes, pending: Bytes, pendingOffset: nat, chunkOffset: nat, data: Bytes, max: nat)
    returns (records: seq<Line>, rest: Bytes, restOffset: nat, tooLong: bool)
    requires Pending(file, pending, pendingOffset, chunkOffset, max)
    requires chunkOffset + |data| <= |file| && data == file[chunkOffset..chunkOffset + |data|]
    ensures Chain(file, pendingOffset, records, restOffset, max)
    ensures !tooLong ==> Pending(file, rest, restOffset, chunkOffset + |data|, max)
    ensures tooLong ==> Outgrown(file, restOffset, chunkOffset + |data|, max)
  {
    records, rest, restOffset, tooLong := [], pending, pendingOffset, false;
    var lineStart := 0;
    while true
      invariant lineStart <= |data|
      invariant Pending(file, rest, restOffset, chunkOffset + lineStart, max)
      invariant Chain(file, pendingOffset, records, restOffset, max)
      decreases |data| - lineStart
    {
      var newline := NextNewline(data, lineStart, |data|);
      var record := rest + data[lineStart..newline];
      ScanExtends(file, rest, restOffset, chunkOffset, data, lineStart, newline, max);
      if |record| > max {
        tooLong := true;
        return;
      }
      if newline == |data| {
        rest := record;
        return;
      }
      lineStart := newline + 1;
      var line := Line(record, restOffset, chunkOffset + lineStart);
      ChainSnoc(file, pendingOffset, records, line, max);
      records, rest, restOffset := records + [line], [], line.byteEnd;
    }
  }

  datatype ReadOutcome = Finished | BudgetReached | Deadline | RecordTooLong

  /** What a whole-file read owes: never anything but the framed records in
      order; all of them and the tail when it finishes; all of them when it stops
      at the first record over the ceiling. */
  ghost predicate ReadAsFramed(whole: Framed, file: Bytes, records: seq<Line>, tail: Bytes, outcome: ReadOutcome) {
    && records <= whole.lines
    && (outcome == Finished ==>
          && whole.end.Rest? && whole.end.from <= |file|
          && records == whole.lines && tail == file[whole.end.from..])
    && (outcome == RecordTooLong ==> records == whole.lines && whole.end.Oversized?)
    && (outcome != Finished ==> tail == [])
  }

  /** `readBoundedLines`: every complete record (its byteLength is its byte
      range), then the unterminated `tail` when it is not empty. */
  method ReadBoundedLines(file: Bytes, start: nat, maxRecordBytes: nat, maxReadBytes: Allowance,
                          budget: SourceReadBudget, abortable: bool)
    returns (records: seq<Line>, tail: Bytes, outcome: ReadOutcome, ghost bytes: nat)
    requires start <= |file|
    modifies budget
    ensures ReadAsFramed(Frame(file, start, |file|, maxRecordBytes), file, records, tail, outcome)
    ensures outcome != RecordTooLong && bytes <= |file| - start ==> records == Frame(file, start, start + bytes, maxRecordBytes).lines
    ensures outcome == Deadline ==> abortable
    ensures bytes <= |file| - start && budget.remaining == old(budget.remaining).After(bytes)
    ensures old(budget.remaining).Covers(bytes) && maxReadBytes.Covers(bytes)
    ensures outcome == Finished ==> bytes == |file| - start
    ensures outcome == BudgetReached ==> maxReadBytes.After(bytes).Spent() || budget.remaining.Spent()
  {
    hide Frame;
    hide Chain;
    ghost var at;
    records, tail, at, outcome, bytes := ReadLoop(file, start, maxRecordBytes, maxReadBytes, budget, abortable);
    ChainFrame(file, start, records, at, |file|, maxRecordBytes);
    if outcome != RecordTooLong {
      ChainFrame(file, start, records, at, start + bytes, maxRecordBytes);
      FrameEnd(file, Rest(at), start + bytes, maxRecordBytes);
      assert records + [] == records;
    }
    if outcome == Finished {
      FrameEnd(file, Rest(at), |file|, maxRecordBytes);
    } else if outcome == RecordTooLong {
      FrameEnd(file, Oversized(at), |file|, maxRecordBytes);
    }
  }

  lemma NothingReadYet(file: Bytes, at: nat, max: nat)
    requires at <= |file|
    ensures Pending(file, [], at, at, max) && Chain(file, at, [], at, max)
  {
  }

  /** One read within both allowances, charged for what it read. */
  method ReadCharged(file: Bytes, offset: nat, wanted: nat, own: Allowance, budget: SourceReadBudget) returns (bytesRead: nat)
    requires wanted > 0 && !own.Spent() && !budget.remaining.Spent() && offset <= |file|
    modifies budget
    ensures own.Covers(bytesRead) && old(budget.remaining).Covers(bytesRead) && bytesRead <= wanted
    ensures budget.remaining == old(budget.remaining).Less(bytesRead)
    ensures offset + bytesRead <= |file| && (bytesRead == 0 <==> offset == |file|)
  {
    bytesRead := ReadAt(file, offset, budget.remaining.Cap(own.Cap(wanted)));
    if bytesRead > 0 {
      var _ := budget.ChargeRead(bytesRead);
    }
  }

  method AddChunk(file: Bytes, ghost start: nat, done: seq<Line>, pending: Bytes, pendingOffset: nat,
                  readOffset: nat, bytesRead: nat, max: nat)
    returns (records: seq<Line>, rest: Bytes, restOffset: nat, tooLong: bool)
    requires Pending(file, pending, pendingOffset, readOffset, max) && readOffset + bytesRead <= |file|
    requires Chain(file, start, done, pendingOffset, max)
    ensures Chain(file, start, records, restOffset, max)
    ensures !tooLong ==> Pending(file, rest, restOffset, readOffset + bytesRead, max)
    ensures tooLong ==> Outgrown(file, restOffset, |file|, max)
  {
    var data := file[readOffset..readOffset + bytesRead];
    records, rest, restOffset, tooLong := SplitChunk(file, pending, pendingOffset, readOffset, data, max);
    ChainJoin(file, start, done, pendingOffset, records, restOffset, max);
    records := done + records;
  }

  method ReadLoop(file: Bytes, start: nat, maxRecordBytes: nat, maxReadBytes: Allowance,
                  budget: SourceReadBudget, abortable: bool)
    returns (records: seq<Line>, tail: Bytes, ghost at: nat, outcome: ReadOutcome, ghost bytes: nat)
    requires start <= |file|
    modifies budget
    ensures Chain(file, start, records, at, maxRecordBytes) && at <= |file|
    ensures outcome == Finished ==> Pending(file, tail, at, |file|, maxRecordBytes)
    ensures outcome != RecordTooLong ==>
              at <= start + bytes <= |file| && Clear(file, at, start + bytes) && start + bytes - at <= maxRecordBytes
    ensures outcome == RecordTooLong ==> Outgrown(file, at, |file|, maxRecordBytes)
    ensures outcome != Finished ==> tail == []
    ensures outcome == Deadline ==> abortable
    ensures bytes <= |file| - start && budget.remaining == old(budget.remaining).After(bytes)
    ensures old(budget.remaining).Covers(bytes) && maxReadBytes.Covers(bytes)
    ensures outcome == Finished ==> bytes == |file| - start
    ensures outcome == BudgetReached ==> maxReadBytes.After(bytes).Spent() || budget.remaining.Spent()
  {
    hide Chain;
    hide Clear;
    records, tail, bytes := [], [], 0;
    NothingReadYet(file, start, maxRecordBytes);
    var readOffset, pendingOffset, pending: Bytes := start, start, [];
    while true
      invariant start <= readOffset && tail == []
      invariant Pending(file, pending, pendingOffset, readOffset, maxRecordBytes)
      invariant Chain(file, start, records, pendingOffset, maxRecordBytes)
      invariant bytes == readOffset - start && budget.remaining == old(budget.remaining).After(bytes)
      invariant old(budget.remaining).Covers(bytes) && maxReadBytes.Covers(bytes)
      decreases |file| - readOffset
    {
      at := pendingOffset;
      var aborted: bool := *;
      if abortable && aborted {
        outcome := Deadline;
        return;
      }
      var own := maxReadBytes.After(readOffset - start);
      if own.Spent() || budget.remaining.Spent() {
        outcome := BudgetReached;
        return;
      }
      var bytesRead := ReadCharged(file, readOffset, Min(TRANSCRIPT_READ_CHUNK_BYTES, maxRecordBytes - |pending| + 1), own, budget);
      if bytesRead == 0 {
        tail, outcome := pending, Finished;
        return;
      }
      bytes := bytes + bytesRead;
      var tooLong;
      records, pending, pendingOffset, tooLong :=
        AddChunk(file, start, records, pending, pendingOffset, readOffset, bytesRead, maxRecordBytes);
      if tooLong {
        at, outcome := pendingOffset, RecordTooLong;
        return;
      }
      readOffset := readOffset + bytesRead;
    }
  }

  // ----------------------------------------------------------------- RecentBytes

  /** A record digest or window digest, over an arbitrary hash function. */
  type Hash = Bytes -> string

  function WindowStart(endOffset: nat): nat {
    if endOffset <= FINGERPRINT_WINDOW_BYTES then 0 else endOffset - FINGERPRINT_WINDOW_BYTES
  }

  /** The fingerprint a cursor at `endOffset` of `file` carries. */
  function Fingerprint(hash: Hash, file: Bytes, endOffset: nat): string {
    if endOffset == 0 || endOffset > |file| then "" else hash(file[WindowStart(endOffset)..endOffset])
  }

  lemma FingerprintGrows(hash: Hash, file: Bytes, more: Bytes, endOffset: nat)
    requires endOffset <= |file|
    ensures Fingerprint(hash, file + more, endOffset) == Fingerprint(hash, file, endOffset)
  {
    assert (file + more)[WindowStart(endOffset)..endOffset] == file[WindowStart(endOffset)..endOffset];
  }

  /** The bytes held, and the file offset of the first of them. */
  datatype Window = Window(start: nat, bytes: Bytes) {
    function End(): nat { start + |bytes| }

    ghost predicate Of(file: Bytes) {
      End() <= |file| && bytes == file[start..End()]
    }

    /** The last `capacity` bytes of what a contiguous append leaves, or of the
        appended bytes alone when they do not follow on. */
    function Append(offset: nat, data: Bytes, capacity: nat): Window {
      var joined := if |bytes| > 0 && offset == End() then Window(start, bytes + data) else Window(offset, data);
      var drop := if |joined.bytes| > capacity then |joined.bytes| - capacity else 0;
      Window(joined.start + drop, joined.bytes[drop..])
    }

    predicate Covers(endOffset: nat) {
      endOffset == 0 || (start <= WindowStart(endOffset) && endOffset <= End())
    }
  }

  class RecentBytes {
    const capacity: nat
    var start: nat
    var bytes: Bytes

    constructor (capacity: nat)
      ensures Held() == Window(0, []) && this.capacity == capacity
    {
      this.capacity := capacity;
      start, bytes := 0, [];
    }

    ghost function Held(): Window
      reads this
    {
      Window(start, bytes)
    }

    method Append(offset: nat, data: Bytes)
      modifies this
      ensures Held() == old(Held()).Append(offset, data, capacity)
    {
      var held, at := bytes, start;
      if |held| > 0 && offset == at + |held| {
        held := held + data;
      } else {
        held, at := data, offset;
      }
      if |held| > capacity {
        var drop := |held| - capacity;
        held, at := held[drop..], at + drop;
      } else {
        assert held[0..] == held;
      }
      bytes, start := held, at;
    }

    /** Defined exactly when the held bytes cover the window, and then the
        digest of the file's own window. */
    method FingerprintAt(hash: Hash, endOffset: nat, ghost file: Bytes) returns (digest: Option<string>)
      requires Held().Of(file) && endOffset <= |file|
      ensures digest.Some? <==> Held().Covers(endOffset)
      ensures digest.Some? ==> digest.value == Fingerprint(hash, file, endOffset)
    {
      var from := WindowStart(endOffset);
      if endOffset <= from {
        return Some("");
      }
      if from < start || endOffset > start + |bytes| {
        return None;
      }
      assert Held().Of(file) && bytes == file[start..start + |bytes|];
      SubSlice(file, start, start + |bytes|, from, endOffset);
      return Some(hash(bytes[from - start..endOffset - start]));
    }
  }

  /** Appending true file slices keeps the held bytes a true file slice. */
  lemma AppendOf(w: Window, file: Bytes, offset: nat, data: Bytes, capacity: nat)
    requires w.Of(file)
    requires offset + |data| <= |file| && data == file[offset..offset + |data|]
    ensures w.Append(offset, data, capacity).Of(file)
  {
  }

  /** Where contiguous reads beginning at `from` have got to. */
  function Reached(from: nat, cuts: seq<nat>): nat {
    if cuts == [] then from else cuts[|cuts| - 1]
  }

  /** Non-empty contiguous reads starting at `from`, each ending at a cut. */
  ghost predicate Cuts(from: nat, cuts: seq<nat>, size: nat) {
    if cuts == [] then from <= size
    else
      var init := cuts[..|cuts| - 1];
      Cuts(from, init, size) && from <= Reached(from, init) < Reached(from, cuts) <= size
  }

  /** The window after appending file[from..cuts[0]), file[cuts[0]..cuts[1]), ... */
  ghost function AppendAll(file: Bytes, from: nat, cuts: seq<nat>, capacity: nat): Window
    requires Cuts(from, cuts, |file|)
  {
    if cuts == [] then Window(from, [])
    else
      var init := cuts[..|cuts| - 1];
      var at, to := Reached(from, init), Reached(from, cuts);
      AppendAll(file, from, init, capacity).Append(at, file[at..to], capacity)
  }

  /** After contiguous appends exactly the last `capacity` bytes read are held. */
  lemma {:induction false} ContiguousWindow(file: Bytes, from: nat, cuts: seq<nat>, capacity: nat)
    requires capacity > 0 && Cuts(from, cuts, |file|)
    ensures var at := Reached(from, cuts);
            var lo := if at > from + capacity then at - capacity else from;
            from <= at <= |file| && AppendAll(file, from, cuts, capacity) == Window(lo, file[lo..at])
  {
    hide Window.Append;
    if cuts != [] {
      var init := cuts[..|cuts| - 1];
      ContiguousWindow(file, from, init, capacity);
      var at, to := Reached(from, init), Reached(from, cuts);
      var lo := if at > from + capacity then at - capacity else from;
      AppendSlice(file, lo, at, to, capacity);
    }
  }

  lemma AppendSlice(file: Bytes, lo: nat, at: nat, to: nat, capacity: nat)
    requires lo <= at < to <= |file| && at - lo <= capacity && capacity > 0
    ensures var lo' := if to > lo + capacity then to - capacity else lo;
            Window(lo, file[lo..at]).Append(at, file[at..to], capacity) == Window(lo', file[lo'..to])
  {
    if lo < at {
      assert file[lo..at] + file[at..to] == file[lo..to];
    }
    var lo' := if to > lo + capacity then to - capacity else lo;
    SubSlice(file, lo, to, lo', to);
  }

  /** So every end within the last two chunks whose own window was appended can
      be fingerprinted without reading the file again. */
  lemma RecentTwoChunks(file: Bytes, from: nat, cuts: seq<nat>, endOffset: nat)
    requires Cuts(from, cuts, |file|)
    requires endOffset <= Reached(from, cuts) <= endOffset + 2 * TRANSCRIPT_READ_CHUNK_BYTES
    requires from <= WindowStart(endOffset)
    ensures AppendAll(file, from, cuts, RECENT_BYTES_CAPACITY).Of(file)
    ensures AppendAll(file, from, cuts, RECENT_BYTES_CAPACITY).Covers(endOffset)
  {
    ContiguousWindow(file, from, cuts, RECENT_BYTES_CAPACITY);
  }
}

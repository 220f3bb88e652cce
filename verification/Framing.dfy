/** Byte-level framing of a transcript: newline-terminated records with their
    absolute byte ranges, and the record ceiling. Every reading loop of
    src/adapters/base.ts is proved against `Frame`. */
module Framing {

  newtype byte = x: int | 0 <= x < 256

  const NEWLINE: byte := 0x0a
  const MAX_TRANSCRIPT_RECORD_BYTES: nat := 67108864
  const TRANSCRIPT_READ_CHUNK_BYTES: nat := 65536
  const RECORD_OVERRUN_READ_BYTES: nat := 4096

  type Bytes = seq<byte>

  /** One complete record: its text, the offset of its first byte and the
      offset just past its newline. */
  datatype Line = Line(text: Bytes, byteStart: nat, byteEnd: nat)

  /** What stops the complete records: an unterminated rest, or a record that
      cannot fit the ceiling. Both name the offset where they begin. */
  datatype End = Rest(from: nat) | Oversized(from: nat)

  datatype Framed = Framed(lines: seq<Line>, end: End)

  /** The first newline at or after `pos`, or `end` when there is none before it. */
  function NextNewline(file: Bytes, pos: nat, end: nat): (n: nat)
    requires pos <= end <= |file|
    ensures pos <= n <= end
    ensures n < end ==> file[n] == NEWLINE
    ensures Clear(file, pos, n)
    decreases end - pos
  {
    if pos == end || file[pos] == NEWLINE then pos else NextNewline(file, pos + 1, end)
  }

  /** No newline in file[from..to). */
  ghost predicate Clear(file: Bytes, from: nat, to: nat) {
    to <= |file| && forall i | from <= i < to :: file[i] != NEWLINE
  }

  lemma NextNewlineIs(file: Bytes, pos: nat, end: nat, n: nat)
    requires pos <= n <= end <= |file|
    requires Clear(file, pos, n)
    requires n == end || file[n] == NEWLINE
    ensures NextNewline(file, pos, end) == n
  {
  }

  /** The records of file[pos..end). */
  function Frame(file: Bytes, pos: nat, end: nat, max: nat := MAX_TRANSCRIPT_RECORD_BYTES): (f: Framed)
    requires pos <= end <= |file|
    decreases end - pos
  {
    var n := NextNewline(file, pos, end);
    if n - pos > max then Framed([], Oversized(pos))
    else if n == end then Framed([], Rest(pos))
    else
      var rest := Frame(file, n + 1, end, max);
      Framed([Line(file[pos..n], pos, n + 1)] + rest.lines, rest.end)
  }

  /** `line` is exactly the record stored at its own byte range. */
  ghost predicate RecordAt(file: Bytes, line: Line, max: nat := MAX_TRANSCRIPT_RECORD_BYTES) {
    && line.byteStart < line.byteEnd <= |file|
    && line.byteEnd - 1 - line.byteStart <= max
    && line.text == file[line.byteStart..line.byteEnd - 1]
    && file[line.byteEnd - 1] == NEWLINE
    && Clear(file, line.byteStart, line.byteEnd - 1)
  }

  /** Adjacent true records covering exactly file[from..to). */
  ghost predicate Chain(file: Bytes, from: nat, lines: seq<Line>, to: nat, max: nat := MAX_TRANSCRIPT_RECORD_BYTES) {
    && (forall k | 0 <= k < |lines| :: RecordAt(file, lines[k], max))
    && (forall k | 0 < k < |lines| :: lines[k].byteStart == lines[k - 1].byteEnd)
    && (if lines == [] then from == to else lines[0].byteStart == from && lines[|lines| - 1].byteEnd == to)
  }

  /** More bytes than the ceiling from `from` on without a newline. */
  ghost predicate Outgrown(file: Bytes, from: nat, end: nat, max: nat := MAX_TRANSCRIPT_RECORD_BYTES) {
    from + max < end && Clear(file, from, from + max + 1)
  }

  /** Independent statement of framing: adjacent true records, then either a
      short unterminated rest or a run over the ceiling. */
  ghost predicate Partitions(file: Bytes, pos: nat, end: nat, f: Framed, max: nat := MAX_TRANSCRIPT_RECORD_BYTES) {
    && f.end.from <= end <= |file|
    && Chain(file, pos, f.lines, f.end.from, max)
    && (f.end.Rest? ==> end - f.end.from <= max && Clear(file, f.end.from, end))
    && (f.end.Oversized? ==> Outgrown(file, f.end.from, end, max))
  }

  lemma {:induction false} FramePartitions(file: Bytes, pos: nat, end: nat, max: nat := MAX_TRANSCRIPT_RECORD_BYTES)
    requires pos <= end <= |file|
    ensures Partitions(file, pos, end, Frame(file, pos, end, max), max)
    decreases end - pos
  {
    var n := NextNewline(file, pos, end);
    if n - pos > max {
    } else if n < end {
      FramePartitions(file, n + 1, end, max);
      var rest := Frame(file, n + 1, end, max);
      ChainCons(file, Line(file[pos..n], pos, n + 1), rest.lines, rest.end.from, max);
    }
  }

  lemma ChainCons(file: Bytes, line: Line, lines: seq<Line>, to: nat, max: nat)
    requires RecordAt(file, line, max) && Chain(file, line.byteEnd, lines, to, max)
    ensures Chain(file, line.byteStart, [line] + lines, to, max)
  {
  }

  lemma ChainSnoc(file: Bytes, from: nat, lines: seq<Line>, line: Line, max: nat)
    requires Chain(file, from, lines, line.byteStart, max) && RecordAt(file, line, max)
    ensures Chain(file, from, lines + [line], line.byteEnd, max)
  {
  }

  lemma ChainJoin(file: Bytes, from: nat, lines: seq<Line>, mid: nat, more: seq<Line>, to: nat, max: nat)
    requires Chain(file, from, lines, mid, max) && Chain(file, mid, more, to, max)
    ensures Chain(file, from, lines + more, to, max)
  {
    if more == [] {
      assert lines + more == lines;
    } else if lines == [] {
      assert lines + more == more;
    }
  }

  lemma ChainTail(file: Bytes, from: nat, lines: seq<Line>, to: nat, max: nat)
    requires Chain(file, from, lines, to, max) && lines != []
    ensures Chain(file, lines[0].byteEnd, lines[1..], to, max)
  {
  }

  lemma ChainBound(file: Bytes, from: nat, lines: seq<Line>, to: nat, max: nat)
    requires Chain(file, from, lines, to, max)
    ensures from <= to
    ensures forall k | 0 <= k < |lines| :: from <= lines[k].byteStart && lines[k].byteEnd <= to
  {
    if lines != [] {
      var init := lines[..|lines| - 1];
      ChainBound(file, from, init, lines[|lines| - 1].byteStart, max);
      assert forall k | 0 <= k < |init| :: lines[k] == init[k];
    }
  }

  /** A framing that begins with the records `done` and goes on like `f`. */
  function After(done: seq<Line>, f: Framed): Framed {
    Framed(done + f.lines, f.end)
  }

  lemma AfterAfter(a: seq<Line>, b: seq<Line>, f: Framed)
    ensures After(a, After(b, f)) == After(a + b, f)
  {
    assert a + (b + f.lines) == a + b + f.lines;
  }

  /** Framing from `from` goes through every chain of records that starts there. */
  lemma {:induction false} ChainFrame(file: Bytes, from: nat, lines: seq<Line>, to: nat, end: nat, max: nat := MAX_TRANSCRIPT_RECORD_BYTES)
    requires Chain(file, from, lines, to, max) && to <= end <= |file|
    ensures from <= to && Frame(file, from, end, max) == After(lines, Frame(file, to, end, max))
    decreases |lines|
  {
    ChainBound(file, from, lines, to, max);
    if lines == [] {
      assert [] + Frame(file, to, end, max).lines == Frame(file, to, end, max).lines;
    } else {
      var line, tail := lines[0], lines[1..];
      ChainTail(file, from, lines, to, max);
      ChainFrame(file, line.byteEnd, tail, to, end, max);
      FrameRecord(file, line, end, max);
      AfterAfter([line], tail, Frame(file, to, end, max));
      assert lines == [line] + tail;
    }
  }

  /** Nothing else partitions the input: the framing is fully determined. */
  lemma PartitionUnique(file: Bytes, pos: nat, end: nat, f: Framed, max: nat := MAX_TRANSCRIPT_RECORD_BYTES)
    requires Partitions(file, pos, end, f, max)
    ensures pos <= end && f == Frame(file, pos, end, max)
  {
    ChainFrame(file, pos, f.lines, f.end.from, end, max);
    FrameEnd(file, f.end, end, max);
    assert f.lines + [] == f.lines;
  }

  // The cases of `Frame`, stated for what a scan has seen.

  lemma FrameRecord(file: Bytes, line: Line, end: nat, max: nat := MAX_TRANSCRIPT_RECORD_BYTES)
    requires RecordAt(file, line, max) && line.byteEnd <= end <= |file|
    ensures Frame(file, line.byteStart, end, max) == After([line], Frame(file, line.byteEnd, end, max))
  {
    NextNewlineIs(file, line.byteStart, end, line.byteEnd - 1);
  }

  lemma FrameEnd(file: Bytes, e: End, end: nat, max: nat := MAX_TRANSCRIPT_RECORD_BYTES)
    requires e.from <= end <= |file|
    requires e.Rest? ==> end - e.from <= max && Clear(file, e.from, end)
    requires e.Oversized? ==> Outgrown(file, e.from, end, max)
    ensures Frame(file, e.from, end, max) == Framed([], e)
  {
    if e.Rest? {
      NextNewlineIs(file, e.from, end, end);
    }
  }

  /** Framing can be split at any record it yields. */
  lemma FrameSplit(file: Bytes, pos: nat, end: nat, k: nat, max: nat := MAX_TRANSCRIPT_RECORD_BYTES)
    requires pos <= end <= |file|
    requires k <= |Frame(file, pos, end, max).lines|
    ensures var f := Frame(file, pos, end, max);
            var at := if k == 0 then pos else f.lines[k - 1].byteEnd;
            && pos <= at <= end
            && Chain(file, pos, f.lines[..k], at, max)
            && Frame(file, at, end, max) == Framed(f.lines[k..], f.end)
  {
    var f := Frame(file, pos, end, max);
    FramePartitions(file, pos, end, max);
    var at := if k == 0 then pos else f.lines[k - 1].byteEnd;
    ChainBound(file, pos, f.lines, f.end.from, max);
    assert Chain(file, pos, f.lines[..k], at, max);
    ChainFrame(file, pos, f.lines[..k], at, end, max);
    assert f.lines == f.lines[..k] + f.lines[k..];
  }

  /** Appending bytes keeps every record already framed, and a record already
      too long stays too long. */
  lemma FrameGrows(file: Bytes, more: Bytes, pos: nat, end: nat, end': nat, max: nat := MAX_TRANSCRIPT_RECORD_BYTES)
    requires pos <= end <= |file| && end <= end' <= |file + more|
    ensures var f, g := Frame(file, pos, end, max), Frame(file + more, pos, end', max);
            && f.lines <= g.lines
            && (f.end.Oversized? ==> g == f)
  {
    var f := Frame(file, pos, end, max);
    FramePartitions(file, pos, end, max);
    ChainGrows(file, more, pos, f.lines, f.end.from, max);
    ChainFrame(file + more, pos, f.lines, f.end.from, end', max);
    if f.end.Oversized? {
      FrameEnd(file + more, f.end, end', max);
      assert f.lines + [] == f.lines;
    }
  }

  lemma ChainGrows(file: Bytes, more: Bytes, from: nat, lines: seq<Line>, to: nat, max: nat)
    requires Chain(file, from, lines, to, max)
    ensures Chain(file + more, from, lines, to, max)
  {
    forall k | 0 <= k < |lines| ensures RecordAt(file + more, lines[k], max) {
      var line := lines[k];
      assert RecordAt(file, line, max);
      assert (file + more)[line.byteStart..line.byteEnd - 1] == file[line.byteStart..line.byteEnd - 1];
    }
  }
}

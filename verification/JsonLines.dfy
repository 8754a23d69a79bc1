/** The JSONL session parsers of the Claude Code and Codex adapters: one byte loop, resumable from
    the offset after the last record. */
module JsonLines {
  import opened Octets
  import opened Wrappers

  /** A record is represented by the line it was parsed from. */
  datatype Parsed = Parsed(line: Bytes, offset: nat, length: nat)

  /** The lines that decode, trim and parse as JSON; blank and malformed lines do not. */
  type Reader = Bytes -> bool

  // ----- The loop -----

  /** Index of the next newline at or after `from`, or the end. */
  function BreakAt(buf: Bytes, from: nat): (e: nat)
    requires from <= |buf|
    ensures from <= e <= |buf| && (e < |buf| ==> buf[e] == NEWLINE)
    decreases |buf| - from
  {
    if from == |buf| || buf[from] == NEWLINE then from else BreakAt(buf, from + 1)
  }

  lemma {:induction false} NoBreakBefore(buf: Bytes, from: nat, k: nat)
    requires from <= k < |buf| && k < BreakAt(buf, from)
    ensures buf[k] != NEWLINE && BreakAt(buf, k) == BreakAt(buf, from)
    decreases |buf| - from
  {
    if from < k { NoBreakBefore(buf, from + 1, k); }
  }

  /** The line starting at `from`, newline excluded, with the extent its record would have. */
  function LineAt(buf: Bytes, from: nat): (line: Parsed)
    requires from <= |buf|
    ensures line.offset == from && line.offset + line.length <= |buf|
  {
    var e := BreakAt(buf, from);
    Parsed(buf[from..e], from, e - from + (if e < |buf| then 1 else 0))
  }

  /** A line in front of the records after it. */
  function Keep(line: Parsed, read: Reader, rest: seq<Parsed>): seq<Parsed> {
    if read(line.line) then [line] + rest else rest
  }

  lemma KeepAppends(line: Parsed, read: Reader, a: seq<Parsed>, b: seq<Parsed>)
    ensures Keep(line, read, a) + b == Keep(line, read, a + b)
  {
  }

  /** The records of the lines starting at `from`. */
  function Lines(buf: Bytes, read: Reader, from: nat): seq<Parsed>
    decreases |buf| + 1 - from
  {
    if from > |buf| then [] else Keep(LineAt(buf, from), read, Lines(buf, read, BreakAt(buf, from) + 1))
  }

  /** The first line start at or after `start`. */
  function Align(buf: Bytes, start: nat): (offset: nat)
    ensures offset >= start
    decreases |buf| - start
  {
    if start == 0 || start >= |buf| || buf[start - 1] == NEWLINE then start else Align(buf, start + 1)
  }

  function ParseFrom(buf: Bytes, read: Reader, start: nat): seq<Parsed> {
    Lines(buf, read, Align(buf, start))
  }

  /** `endOffset`. */
  function EndOffset(records: seq<Parsed>, fallback: nat): nat {
    if records == [] then fallback else records[|records| - 1].offset + records[|records| - 1].length
  }

  function Kept(records: seq<Parsed>, line: Parsed, read: Reader): seq<Parsed> {
    if read(line.line) then records + [line] else records
  }

  /** The first loop of `parseBuffer`: skip to a line start. */
  method SkipToLine(buf: Bytes, startOffset: nat) returns (offset: nat)
    ensures offset == Align(buf, startOffset)
  {
    offset := startOffset;
    if startOffset > 0 {
      while offset < |buf| && buf[offset - 1] != NEWLINE
        invariant offset >= startOffset && Align(buf, startOffset) == Align(buf, offset)
        decreases |buf| - offset
      {
        offset := offset + 1;
      }
    }
  }

  /** `parseBuffer`. */
  method ParseBuffer(buf: Bytes, read: Reader, startOffset: nat) returns (records: seq<Parsed>)
    ensures records == ParseFrom(buf, read, startOffset)
  {
    records := [];
    var offset := SkipToLine(buf, startOffset);
    var lineStart: nat := offset;
    var i: nat := offset;
    while i <= |buf|
      invariant i <= |buf| ==> lineStart <= i && BreakAt(buf, lineStart) == BreakAt(buf, i)
      invariant i > |buf| ==> lineStart > |buf|
      invariant records + Lines(buf, read, lineStart) == ParseFrom(buf, read, startOffset)
      decreases |buf| + 1 - i
    {
      if i == |buf| || buf[i] == NEWLINE {
        var line := buf[lineStart..i];
        var parsed := Parsed(line, lineStart, i - lineStart + (if i < |buf| then 1 else 0));
        assert parsed == LineAt(buf, lineStart);
        if read(line) {
          records := records + [parsed];
        }
        lineStart := i + 1;
      }
      i := i + 1;
    }
    assert records + [] == records;
  }

  // ----- Lines written and read back -----

  /** Lines, each with its newline. */
  function Written(lines: seq<Bytes>): Bytes {
    if lines == [] then [] else lines[0] + [NEWLINE] + Written(lines[1..])
  }

  /** The records of written lines: the readable ones, each with the extent it was written at. */
  function RecordsOf(lines: seq<Bytes>, read: Reader, at: nat): seq<Parsed> {
    if lines == [] then []
    else
      var length := |lines[0]| + 1;
      (if read(lines[0]) then [Parsed(lines[0], at, length)] else []) + RecordsOf(lines[1..], read, at + length)
  }

  predicate NoBreak(line: Bytes) {
    NEWLINE !in line
  }

  lemma {:induction false} BreakAfter(before: Bytes, line: Bytes, after: Bytes, k: nat)
    requires NoBreak(line) && k <= |line| && (after == [] || after[0] == NEWLINE)
    ensures BreakAt(before + line + after, |before| + k) == |before| + |line|
    decreases |line| - k
  {
    var buf := before + line + after;
    if k < |line| {
      assert buf[|before| + k] == line[k] && line[k] in line;
      BreakAfter(before, line, after, k + 1);
    } else {
      assert after != [] ==> buf[|before| + k] == after[0];
    }
  }

  /** One line, and what follows its newline. */
  lemma OneLine(before: Bytes, line: Bytes, after: Bytes, read: Reader)
    requires NoBreak(line) && (after == [] || after[0] == NEWLINE)
    ensures var buf, length := before + line + after, |line| + (if after == [] then 0 else 1);
            Lines(buf, read, |before|) ==
              (if read(line) then [Parsed(line, |before|, length)] else [])
              + (if after == [] then [] else Lines(buf, read, |before| + |line| + 1))
  {
    hide BreakAt;
    var buf := before + line + after;
    BreakAfter(before, line, after, 0);
    assert buf[|before|..|before| + |line|] == line;
    assert LineAt(buf, |before|) == Parsed(line, |before|, |line| + (if after == [] then 0 else 1));
    if after == [] {
      assert |before| + |line| + 1 > |buf|;
    }
  }

  /** Reading what was written, with a last line still open: every readable line, in order, where it
      was written. */
  lemma {:induction false} WrittenFrom(before: Bytes, lines: seq<Bytes>, tail: Bytes, read: Reader)
    requires NoBreak(tail) && forall k | 0 <= k < |lines| :: NoBreak(lines[k])
    ensures Lines(before + Written(lines) + tail, read, |before|) ==
            RecordsOf(lines, read, |before|)
            + (if read(tail) then [Parsed(tail, |before| + |Written(lines)|, |tail|)] else [])
    decreases |lines|
  {
    hide *;
    if lines == [] {
      NothingWritten(before, tail, read);
      OneLine(before, tail, [], read);
    } else {
      var line, rest := lines[0], Written(lines[1..]);
      var next := before + line + [NEWLINE];
      WrittenFrom(next, lines[1..], tail, read);
      OneLine(before, line, [NEWLINE] + rest + tail, read);
      WrittenCons(lines, read, |before|);
      Regrouped(before, line, rest, tail);
      Assoc(if read(line) then [Parsed(line, |before|, |line| + 1)] else [], RecordsOf(lines[1..], read, |next|),
            if read(tail) then [Parsed(tail, |next| + |rest|, |tail|)] else []);
    }
  }

  lemma NothingWritten(before: Bytes, tail: Bytes, read: Reader)
    ensures Written([]) == [] && RecordsOf([], read, |before|) == []
    ensures before + [] + tail == before + tail + []
  {
  }

  lemma Regrouped(before: Bytes, line: Bytes, rest: Bytes, tail: Bytes)
    ensures before + (line + [NEWLINE] + rest) + tail == (before + line + [NEWLINE]) + rest + tail
    ensures before + (line + [NEWLINE] + rest) + tail == before + line + ([NEWLINE] + rest + tail)
  {
  }

  lemma WrittenCons(lines: seq<Bytes>, read: Reader, at: nat)
    requires lines != []
    ensures Written(lines) == lines[0] + [NEWLINE] + Written(lines[1..])
    ensures RecordsOf(lines, read, at) ==
            (if read(lines[0]) then [Parsed(lines[0], at, |lines[0]| + 1)] else [])
            + RecordsOf(lines[1..], read, at + |lines[0]| + 1)
  {
  }

  /** A file of lines parses back to its readable lines, whatever the reader takes for readable. */
  lemma WrittenIsRead(lines: seq<Bytes>, tail: Bytes, read: Reader)
    requires NoBreak(tail) && forall k | 0 <= k < |lines| :: NoBreak(lines[k])
    ensures ParseFrom(Written(lines) + tail, read, 0) ==
            RecordsOf(lines, read, 0) + (if read(tail) then [Parsed(tail, |Written(lines)|, |tail|)] else [])
  {
    WrittenFrom([], lines, tail, read);
    assert [] + Written(lines) == Written(lines);
  }

  /** The start is moved past the line it lies in. */
  lemma {:induction false} AlignedPast(buf: Bytes, start: nat, end: nat)
    requires 0 < start <= end + 1 && end < |buf| && buf[end] == NEWLINE
    requires forall b | start - 1 <= b < end :: buf[b] != NEWLINE
    ensures Align(buf, start) == end + 1
    decreases end + 1 - start
  {
    if start <= end { AlignedPast(buf, start + 1, end); }
  }

  /** Reading from within a line drops that line and gives the lines after it as they were written. */
  lemma StartInsideLine(head: Bytes, line: Bytes, lines: seq<Bytes>, tail: Bytes, read: Reader, start: nat)
    requires NoBreak(line) && NoBreak(tail) && forall k | 0 <= k < |lines| :: NoBreak(lines[k])
    requires |head| < start <= |head| + |line|
    ensures var before := head + line + [NEWLINE];
            ParseFrom(before + Written(lines) + tail, read, start) ==
              RecordsOf(lines, read, |before|)
              + (if read(tail) then [Parsed(tail, |before| + |Written(lines)|, |tail|)] else [])
  {
    hide Written, RecordsOf, Lines;
    var before, end := head + line + [NEWLINE], |head| + |line|;
    var buf := before + Written(lines) + tail;
    assert forall b | start - 1 <= b < end :: buf[b] == line[b - |head|];
    AlignedPast(buf, start, end);
    WrittenFrom(before, lines, tail, read);
  }

  // ----- Extents -----

  /** Record extents lie in the buffer, ascend without overlapping, and hold no newline but a last one. */
  ghost predicate Extents(buf: Bytes, from: nat, rs: seq<Parsed>) {
    && (forall k | 0 <= k < |rs| :: from <= rs[k].offset && rs[k].offset + rs[k].length <= |buf|)
    && (forall j, k | 0 <= j < k < |rs| :: rs[j].offset + rs[j].length <= rs[k].offset)
    && (forall k, b | 0 <= k < |rs| && rs[k].offset <= b < rs[k].offset + rs[k].length - 1 :: buf[b] != NEWLINE)
  }

  lemma {:induction false} ExtentsAscend(buf: Bytes, read: Reader, from: nat)
    ensures Extents(buf, from, Lines(buf, read, from))
    decreases |buf| + 1 - from
  {
    if from <= |buf| {
      var next := BreakAt(buf, from) + 1;
      ExtentsAscend(buf, read, next);
      var rest := Lines(buf, read, next);
      var line := LineAt(buf, from);
      assert rest != [] ==> line.offset + line.length == next || next > |buf|;
      forall b | from <= b < from + line.length - 1 ensures buf[b] != NEWLINE {
        NoBreakBefore(buf, from, b);
      }
      OneMoreExtent(buf, line, rest, next);
      assert Extents(buf, from, rest);
    }
  }

  lemma OneMoreExtent(buf: Bytes, line: Parsed, rest: seq<Parsed>, next: nat)
    requires Extents(buf, next, rest)
    requires line.offset + line.length <= next && line.offset + line.length <= |buf|
    requires forall b | line.offset <= b < line.offset + line.length - 1 :: buf[b] != NEWLINE
    ensures Extents(buf, line.offset, [line] + rest)
  {
  }

  // ----- Resuming -----

  /** Start of the last line: just past the last newline. */
  function TailStart(p: Bytes): (t: nat)
    ensures t <= |p|
  {
    LastBreak(p, |p|)
  }

  function LastBreak(p: Bytes, to: nat): (t: nat)
    requires to <= |p|
    ensures t <= to && (t > 0 ==> p[t - 1] == NEWLINE)
    ensures forall k | t <= k < to :: p[k] != NEWLINE
  {
    if to == 0 || p[to - 1] == NEWLINE then to else LastBreak(p, to - 1)
  }

  predicate LineStart(buf: Bytes, at: nat) {
    at <= |buf| && (at > 0 ==> buf[at - 1] == NEWLINE)
  }

  /** Records of the whole lines between two line starts. */
  function LinesTo(buf: Bytes, read: Reader, from: nat, to: nat): seq<Parsed>
    requires to <= |buf|
    decreases |buf| + 1 - from
  {
    if from >= to then [] else Keep(LineAt(buf, from), read, LinesTo(buf, read, BreakAt(buf, from) + 1, to))
  }

  lemma {:induction false} SplitAt(buf: Bytes, read: Reader, from: nat, to: nat)
    requires from <= to && LineStart(buf, to)
    ensures Lines(buf, read, from) == LinesTo(buf, read, from, to) + Lines(buf, read, to)
    decreases |buf| + 1 - from
  {
    hide LineAt, BreakAt, Keep;
    if from < to {
      BreakBefore(buf, from, to);
      var next := BreakAt(buf, from) + 1;
      SplitAt(buf, read, next, to);
      var line, whole, rest := LineAt(buf, from), LinesTo(buf, read, next, to), Lines(buf, read, to);
      assert Lines(buf, read, from) == Keep(line, read, whole + rest);
      KeepAppends(line, read, whole, rest);
    } else {
      assert [] + Lines(buf, read, to) == Lines(buf, read, to);
    }
  }

  lemma BreakBefore(buf: Bytes, from: nat, to: nat)
    requires from < to && LineStart(buf, to)
    ensures BreakAt(buf, from) < to
  {
    if BreakAt(buf, from) >= to { NoBreakBefore(buf, from, to - 1); }
  }

  lemma {:induction false} BreakKeeps(p: Bytes, q: Bytes, from: nat)
    requires p <= q && from <= |p|
    requires BreakAt(p, from) < |p| || (|p| < |q| && q[|p|] == NEWLINE)
    ensures BreakAt(q, from) == BreakAt(p, from)
    decreases |p| - from
  {
    if from < |p| && p[from] != NEWLINE { BreakKeeps(p, q, from + 1); }
  }

  lemma LineKeeps(p: Bytes, q: Bytes, from: nat)
    requires p <= q && from <= |p| && BreakAt(p, from) < |p|
    ensures BreakAt(q, from) == BreakAt(p, from) && LineAt(q, from) == LineAt(p, from)
  {
    BreakKeeps(p, q, from);
    assert q[from..BreakAt(p, from)] == p[from..BreakAt(p, from)];
  }

  /** Whole lines read the same however the buffer goes on. */
  lemma {:induction false} WholeLinesKeep(p: Bytes, q: Bytes, read: Reader, from: nat, to: nat)
    requires p <= q && from <= to <= |p| && LineStart(p, to)
    ensures LinesTo(q, read, from, to) == LinesTo(p, read, from, to)
    decreases |p| + 1 - from
  {
    hide LineAt, BreakAt;
    if from < to {
      BreakBefore(p, from, to);
      var next := BreakAt(p, from) + 1;
      LineKeeps(p, q, from);
      WholeLinesKeep(p, q, read, next, to);
      assert LinesTo(q, read, from, to) == Keep(LineAt(q, from), read, LinesTo(q, read, next, to));
    }
  }

  lemma EndOffsetKeeps(line: Parsed, read: Reader, rest: seq<Parsed>, fallback: nat)
    ensures EndOffset(Keep(line, read, rest), fallback) ==
            EndOffset(rest, if read(line.line) then line.offset + line.length else fallback)
  {
  }

  /** Nothing after the last record parses: resuming there finds no whole line again. */
  lemma {:induction false} AfterLastRecord(buf: Bytes, read: Reader, from: nat, to: nat)
    requires LineStart(buf, from) && LineStart(buf, to) && from <= to
    ensures var e := EndOffset(LinesTo(buf, read, from, to), from);
            LineStart(buf, e) && e <= to && LinesTo(buf, read, e, to) == []
    decreases |buf| + 1 - from
  {
    if from < to {
      BreakBefore(buf, from, to);
      var next := BreakAt(buf, from) + 1;
      AfterLastRecord(buf, read, next, to);
      EndOffsetKeeps(LineAt(buf, from), read, LinesTo(buf, read, next, to), from);
    }
  }

  predicate TailParses(p: Bytes, read: Reader) {
    read(p[TailStart(p)..])
  }

  lemma {:induction false} TailUnbroken(p: Bytes, from: nat)
    requires TailStart(p) <= from <= |p|
    ensures BreakAt(p, from) == |p|
    decreases |p| - from
  {
  }

  lemma TailRecord(p: Bytes, read: Reader)
    ensures Lines(p, read, TailStart(p)) ==
            if TailParses(p, read) then [Parsed(p[TailStart(p)..], TailStart(p), |p| - TailStart(p))] else []
  {
    LineFrom(p, read, TailStart(p));
  }

  lemma LineFrom(p: Bytes, read: Reader, t: nat)
    requires TailStart(p) <= t <= |p|
    ensures Lines(p, read, t) == if read(p[t..]) then [Parsed(p[t..], t, |p| - t)] else []
  {
    TailUnbroken(p, t);
    WholeTail(p, t);
    LastLine(p, read, t);
  }

  lemma WholeTail(p: Bytes, t: nat)
    requires t <= |p| && BreakAt(p, t) == |p|
    ensures LineAt(p, t) == Parsed(p[t..], t, |p| - t)
  {
    assert p[t..|p|] == p[t..];
  }

  lemma LastLine(buf: Bytes, read: Reader, from: nat)
    requires from <= |buf| && BreakAt(buf, from) == |buf|
    ensures Lines(buf, read, from) == if read(LineAt(buf, from).line) then [LineAt(buf, from)] else []
  {
  }

  /** Resuming a grown file at the end of the last record gives the rest of the records. */
  ghost predicate Resumes(p: Bytes, q: Bytes, read: Reader) {
    ParseFrom(q, read, 0) == ParseFrom(p, read, 0) + ParseFrom(q, read, EndOffset(ParseFrom(p, read, 0), 0))
  }

  /** A whole parse is the whole lines before the tail of a prefix, then the rest. */
  lemma SplitWhole(p: Bytes, q: Bytes, read: Reader)
    requires p <= q
    ensures ParseFrom(q, read, 0) == LinesTo(p, read, 0, TailStart(p)) + Lines(q, read, TailStart(p))
  {
    var t := TailStart(p);
    assert LineStart(q, t);
    SplitAt(q, read, 0, t);
    WholeLinesKeep(p, q, read, 0, t);
  }

  lemma ResumesWhenTailOpen(p: Bytes, q: Bytes, read: Reader)
    requires p <= q && !read([]) && !TailParses(p, read)
    ensures Resumes(p, q, read)
  {
    hide Lines, LinesTo, LastBreak;
    var t := TailStart(p);
    var whole := LinesTo(p, read, 0, t);
    SplitWhole(p, p, read);
    SplitWhole(p, q, read);
    TailRecord(p, read);
    assert whole + [] == whole;
    AfterLastRecord(p, read, 0, t);
    var e := EndOffset(whole, 0);
    WholeLinesKeep(p, q, read, e, t);
    assert LineStart(q, t);
    SplitAt(q, read, e, t);
    assert [] + Lines(q, read, t) == Lines(q, read, t);
    assert ParseFrom(q, read, 0) == whole + Lines(q, read, t);
    assert Align(q, e) == e;
  }

  /** A prefix that ends in a line which already parses does not resume once that line is closed:
      the record was counted one byte short. */
  lemma ClosedTailDoesNotResume(p: Bytes, read: Reader)
    requires !read([]) && TailParses(p, read)
    ensures !Resumes(p, p + [NEWLINE], read)
  {
    hide LinesTo, LastBreak;
    var t := TailStart(p);
    var q := p + [NEWLINE];
    var whole := LinesTo(p, read, 0, t);
    SplitWhole(p, p, read);
    SplitWhole(p, q, read);
    TailRecord(p, read);
    ClosedTail(p, q, read);
    assert ParseFrom(p, read, 0)[|whole|].length == |p| - t;
    assert ParseFrom(q, read, 0)[|whole|] == Lines(q, read, t)[0];
  }

  lemma ClosedTail(p: Bytes, q: Bytes, read: Reader)
    requires TailParses(p, read) && q == p + [NEWLINE]
    ensures var t := TailStart(p);
            && Lines(q, read, t) != []
            && Lines(q, read, t)[0] == LineAt(q, t)
            && LineAt(q, t) == Parsed(p[t..], t, |p| - t + 1)
  {
    var t := TailStart(p);
    TailUnbroken(p, t);
    BreakKeeps(p, q, t);
    assert q[t..|p|] == p[t..];
  }

  /** The lines of the records, extents aside. */
  function TextOf(records: seq<Parsed>): (lines: seq<Bytes>)
    ensures |lines| == |records| && forall i | 0 <= i < |records| :: lines[i] == records[i].line
  {
    seq(|records|, i requires 0 <= i < |records| => records[i].line)
  }

  /** Resuming a grown file gives the lines of a whole parse. */
  ghost predicate ResumesText(p: Bytes, q: Bytes, read: Reader) {
    TextOf(ParseFrom(q, read, 0)) ==
      TextOf(ParseFrom(p, read, 0) + ParseFrom(q, read, EndOffset(ParseFrom(p, read, 0), 0)))
  }

  lemma OpenTailExtended(p: Bytes, b: Byte)
    requires b != NEWLINE
    ensures TailStart(p + [b]) == TailStart(p) && (p + [b])[TailStart(p)..] == p[TailStart(p)..] + [b]
  {
    LastBreakKeeps(p, b, |p|);
  }

  lemma {:induction false} LastBreakKeeps(p: Bytes, b: Byte, to: nat)
    requires to <= |p|
    ensures LastBreak(p + [b], to) == LastBreak(p, to)
  {
    if to != 0 && p[to - 1] != NEWLINE {
      LastBreakKeeps(p, b, to - 1);
    }
  }

  /** Where resuming after a tail that parsed starts once the line goes on: past the whole line. */
  lemma ResumedPastTail(p: Bytes, b: Byte, read: Reader)
    requires !read([]) && TailParses(p, read) && b != NEWLINE
    ensures EndOffset(ParseFrom(p, read, 0), 0) == |p| && ParseFrom(p + [b], read, |p|) == []
  {
    var q := p + [b];
    SplitWhole(p, p, read);
    TailRecord(p, read);
    assert p[TailStart(p)..] != [];
    assert q[|p| - 1] == p[|p| - 1] != NEWLINE;
    assert Align(q, |p|) == Align(q, |p| + 1) == |q|;
    OpenTailExtended(p, b);
    LineFrom(q, read, |q|);
    assert q[|q|..] == [];
  }

  /** A prefix that ends in a line which already parses loses the record that line grows into: the
      short one is kept, and the rest of the line is skipped. */
  lemma ExtendedTailDoesNotResume(p: Bytes, b: Byte, read: Reader)
    requires !read([]) && TailParses(p, read) && b != NEWLINE
    ensures !ResumesText(p, p + [b], read)
  {
    hide Lines, LinesTo, LastBreak;
    var t := TailStart(p);
    var q := p + [b];
    var whole := LinesTo(p, read, 0, t);
    SplitWhole(p, p, read);
    SplitWhole(p, q, read);
    TailRecord(p, read);
    OpenTailExtended(p, b);
    TailRecord(q, read);
    ResumedPastTail(p, b, read);
    assert ParseFrom(p, read, 0) + [] == ParseFrom(p, read, 0);
    assert TextOf(ParseFrom(p, read, 0))[|whole|] == p[t..];
    assert |ParseFrom(q, read, 0)| > |whole| ==> TextOf(ParseFrom(q, read, 0))[|whole|] == p[t..] + [b];
  }

  /** Incremental parsing equals whole-file parsing for every continuation, in extents or only in
      lines, exactly when the prefix ends at a line end or in a line that does not parse yet. */
  lemma IncrementalEqualsWhole(p: Bytes, read: Reader)
    requires !read([])
    ensures (forall s: Bytes :: Resumes(p, p + s, read)) <==> !TailParses(p, read)
    ensures (forall s: Bytes :: ResumesText(p, p + s, read)) <==> !TailParses(p, read)
  {
    if TailParses(p, read) {
      ClosedTailDoesNotResume(p, read);
      var b: Byte := 0;
      ExtendedTailDoesNotResume(p, b, read);
    } else {
      forall s: Bytes ensures Resumes(p, p + s, read) && ResumesText(p, p + s, read) {
        ResumesWhenTailOpen(p, p + s, read);
      }
    }
  }
}

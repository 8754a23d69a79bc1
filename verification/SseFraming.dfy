/** Server-sent event framing of the proxy (`parseSseStream`); the format is that of section
    9.2.6 of the WHATWG HTML Living Standard, of which `event` and `data` fields are kept. */
module SseFraming {
  import opened Wrappers

  datatype SseEvent = SseEvent(name: Option<string>, raw: string, offset: nat)
  datatype Block = Block(text: string, offset: nat)

  // ----- White space -----

  /** The characters `String.prototype.trim` removes. */
  predicate IsSpace(ch: char) {
    var c := ch as int;
    9 <= c <= 13 || c == 0x20 || c == 0xA0 || c == 0x1680 || 0x2000 <= c <= 0x200A
    || c == 0x2028 || c == 0x2029 || c == 0x202F || c == 0x205F || c == 0x3000 || c == 0xFEFF
  }

  function TrimStart(s: string): string {
    if s != "" && IsSpace(s[0]) then TrimStart(s[1..]) else s
  }

  function TrimEnd(s: string): string {
    if s != "" && IsSpace(s[|s| - 1]) then TrimEnd(s[..|s| - 1]) else s
  }

  function Trim(s: string): string {
    TrimEnd(TrimStart(s))
  }

  // ----- Separators -----

  /** Length of the match of `\r?\n` at `i`, or 0. */
  function Newline(s: string, i: nat): (n: nat) {
    if i < |s| && s[i] == '\n' then 1
    else if i + 1 < |s| && s[i] == '\r' && s[i + 1] == '\n' then 2
    else 0
  }

  /** Length of the match of `\r?\n\r?\n` at `i`, or 0. */
  function Blank(s: string, i: nat): (n: nat) {
    var a := Newline(s, i);
    var b := Newline(s, i + a);
    if a == 0 || b == 0 then 0 else a + b
  }

  /** A separator expression: the length of its match at an index, or 0. */
  type Separator = (string, nat) -> nat

  ghost predicate Sound(sep: Separator, s: string) {
    forall i: nat :: sep(s, i) == 0 || i + sep(s, i) <= |s|
  }

  lemma SeparatorsAreSound(s: string)
    ensures Sound(Newline, s) && Sound(Blank, s)
  {
  }

  /** Index of the first match at or after `from`, or the end. */
  function NextCut(s: string, from: nat, sep: Separator): (m: nat)
    requires from <= |s|
    ensures from <= m <= |s| && (m < |s| ==> sep(s, m) > 0)
    decreases |s| - from
  {
    if from == |s| || sep(s, from) > 0 then from else NextCut(s, from + 1, sep)
  }

  /** `s[from..]` cut at every match. */
  function Pieces(s: string, from: nat, sep: Separator): seq<Block>
    requires from <= |s| && Sound(sep, s)
    decreases |s| - from
  {
    var m := NextCut(s, from, sep);
    if m == |s| then [Block(s[from..], from)]
    else [Block(s[from..m], from)] + Pieces(s, m + sep(s, m), sep)
  }

  lemma NextPiece(s: string, from: nat, m: nat, sep: Separator)
    requires from <= |s| && Sound(sep, s) && NextCut(s, from, sep) == m
    ensures m < |s| ==> Pieces(s, from, sep) == [Block(s[from..m], from)] + Pieces(s, m + sep(s, m), sep)
    ensures m == |s| ==> Pieces(s, from, sep) == [Block(s[from..], from)]
  {
  }

  function Texts(pieces: seq<Block>): seq<string> {
    if pieces == [] then [] else [pieces[0].text] + Texts(pieces[1..])
  }

  function Blocks(text: string): seq<Block> {
    SeparatorsAreSound(text);
    Pieces(text, 0, Blank)
  }

  /** `split(/\r?\n/)`. */
  function Lines(text: string): seq<string> {
    SeparatorsAreSound(text);
    Texts(Pieces(text, 0, Newline))
  }

  // ----- Fields -----

  datatype Fields = Fields(name: Option<string>, data: seq<string>)

  function Field(f: Fields, line: string): Fields {
    if "event:" <= line then f.(name := Some(Trim(line[6..])))
    else if "data:" <= line then f.(data := f.data + [Trim(line[5..])])
    else f
  }

  function FieldsOf(lines: seq<string>): Fields {
    if lines == [] then Fields(None, []) else Field(FieldsOf(lines[..|lines| - 1]), lines[|lines| - 1])
  }

  function Join(data: seq<string>): string {
    if data == [] then "" else if |data| == 1 then data[0] else data[0] + "\n" + Join(data[1..])
  }

  /** The event of a block, if it has data. */
  function EventOf(b: Block): seq<SseEvent> {
    var f := FieldsOf(Lines(b.text));
    if Trim(b.text) == "" || f.data == [] then [] else [SseEvent(f.name, Join(f.data), b.offset)]
  }

  function EventsOf(blocks: seq<Block>): seq<SseEvent> {
    if blocks == [] then [] else EventOf(blocks[0]) + EventsOf(blocks[1..])
  }

  function Parsed(text: string): seq<SseEvent> {
    EventsOf(Blocks(text))
  }

  // ----- The parser -----

  lemma TakePiece(blocks: seq<Block>, s: string, from: nat, m: nat, sep: Separator)
    requires from <= |s| && Sound(sep, s) && NextCut(s, from, sep) == m < |s|
    ensures blocks + [Block(s[from..m], from)] + Pieces(s, m + sep(s, m), sep) == blocks + Pieces(s, from, sep)
  {
    NextPiece(s, from, m, sep);
    Assoc(blocks, [Block(s[from..m], from)], Pieces(s, m + sep(s, m), sep));
  }

  /** The first loop of `parseSseStream`, for its separator expression. */
  method CutBlocks(text: string, sep: Separator) returns (blocks: seq<Block>)
    requires Sound(sep, text)
    ensures blocks == Pieces(text, 0, sep)
  {
    blocks := [];
    var blockStart := 0;
    var index := NextCut(text, 0, sep);
    while index < |text|
      invariant blockStart <= |text| && index == NextCut(text, blockStart, sep)
      invariant blocks + Pieces(text, blockStart, sep) == Pieces(text, 0, sep)
      decreases |text| - blockStart
    {
      TakePiece(blocks, text, blockStart, index, sep);
      blocks := blocks + [Block(text[blockStart..index], blockStart)];
      blockStart := index + sep(text, index);
      index := NextCut(text, blockStart, sep);
    }
    NextPiece(text, blockStart, index, sep);
    blocks := blocks + [Block(text[blockStart..], blockStart)];
  }

  method ReadFields(lines: seq<string>) returns (eventName: Option<string>, dataLines: seq<string>)
    ensures Fields(eventName, dataLines) == FieldsOf(lines)
  {
    eventName, dataLines := None, [];
    for i := 0 to |lines|
      invariant Fields(eventName, dataLines) == FieldsOf(lines[..i])
    {
      assert lines[..i + 1][..i] == lines[..i];
      var line := lines[i];
      if "event:" <= line {
        eventName := Some(Trim(line[6..]));
      } else if "data:" <= line {
        dataLines := dataLines + [Trim(line[5..])];
      }
    }
    assert lines[..|lines|] == lines;
  }

  /** One turn of the second loop of `parseSseStream`. */
  method ReadBlock(block: Block) returns (event: Option<SseEvent>)
    ensures (if event.Some? then [event.value] else []) == EventOf(block)
  {
    if Trim(block.text) == "" { return None; }
    var eventName, dataLines := ReadFields(Lines(block.text));
    if |dataLines| == 0 { return None; }
    return Some(SseEvent(eventName, Join(dataLines), block.offset));
  }

  lemma {:induction false} EventsOfSnoc(blocks: seq<Block>, last: Block)
    ensures EventsOf(blocks + [last]) == EventsOf(blocks) + EventOf(last)
  {
    if blocks == [] {
      assert EventOf(last) + EventsOf([]) == EventOf(last);
    } else {
      assert (blocks + [last])[1..] == blocks[1..] + [last];
      EventsOfSnoc(blocks[1..], last);
    }
  }

  /** The second loop of `parseSseStream`. */
  method ReadBlocks(blocks: seq<Block>) returns (events: seq<SseEvent>)
    ensures events == EventsOf(blocks)
  {
    events := [];
    for i := 0 to |blocks|
      invariant events == EventsOf(blocks[..i])
    {
      assert blocks[..i + 1] == blocks[..i] + [blocks[i]];
      EventsOfSnoc(blocks[..i], blocks[i]);
      var event := ReadBlock(blocks[i]);
      if event.Some? { events := events + [event.value]; }
    }
    assert blocks[..|blocks|] == blocks;
  }

  /** `parseSseStream`. */
  method ParseSseStream(text: string) returns (events: seq<SseEvent>)
    ensures events == Parsed(text)
  {
    SeparatorsAreSound(text);
    var blocks := CutBlocks(text, Blank);
    events := ReadBlocks(blocks);
  }

  // ----- Offsets -----

  /** Blocks start in ascending order whatever the text. */
  lemma {:induction false} PiecesAscend(s: string, from: nat, sep: Separator)
    requires from <= |s| && Sound(sep, s)
    ensures Ascend(Pieces(s, from, sep), from)
    decreases |s| - from
  {
    var m := NextCut(s, from, sep);
    NextPiece(s, from, m, sep);
    if m < |s| {
      var next := m + sep(s, m);
      PiecesAscend(s, next, sep);
      AscendAfter(Block(s[from..m], from), Pieces(s, next, sep), next);
    }
  }

  /** Block offsets ascend, from `from` on. */
  predicate Ascend(blocks: seq<Block>, from: nat) {
    blocks == [] || (from <= blocks[0].offset && Ascend(blocks[1..], blocks[0].offset + 1))
  }

  lemma {:induction false} AscendEarlier(blocks: seq<Block>, from: nat, early: nat)
    requires Ascend(blocks, from) && early <= from
    ensures Ascend(blocks, early)
  {
  }

  lemma AscendAfter(b: Block, rest: seq<Block>, next: nat)
    requires Ascend(rest, next) && b.offset < next
    ensures Ascend([b] + rest, b.offset)
  {
    AscendEarlier(rest, next, b.offset + 1);
    assert ([b] + rest)[1..] == rest;
  }

  ghost predicate Climb(events: seq<SseEvent>, from: nat) {
    && (forall e | e in events :: from <= e.offset)
    && (forall j, k | 0 <= j < k < |events| :: events[j].offset < events[k].offset)
  }

  lemma {:induction false} EventsAscend(blocks: seq<Block>, from: nat)
    requires Ascend(blocks, from)
    ensures Climb(EventsOf(blocks), from)
  {
    if blocks != [] {
      EventsAscend(blocks[1..], blocks[0].offset + 1);
    }
  }

  /** Event offsets are strictly increasing for every text. */
  lemma OffsetsIncrease(text: string)
    ensures forall j, k | 0 <= j < k < |Parsed(text)| :: Parsed(text)[j].offset < Parsed(text)[k].offset
  {
    SeparatorsAreSound(text);
    PiecesAscend(text, 0, Blank);
    EventsAscend(Blocks(text), 0);
  }

  // ----- Printing -----

  /** An event to send: an optional name and one or more data lines, each line ended by LF or by CRLF. */
  datatype Message = Message(name: Option<string>, data: seq<string>, crlf: bool) {
    function Eol(): string {
      if crlf then "\r\n" else "\n"
    }

    function Printed(): seq<string> {
      (if name.Some? then ["event: " + name.value] else []) + DataLines(data)
    }
  }

  function DataLines(data: seq<string>): seq<string> {
    if data == [] then [] else ["data: " + data[0]] + DataLines(data[1..])
  }

  /** One line, and nothing for `trim` to remove. */
  predicate Clean(s: string) {
    && '\r' !in s && '\n' !in s
    && (s != "" ==> !IsSpace(s[0]) && !IsSpace(s[|s| - 1]))
  }

  predicate Legal(m: Message) {
    m.data != [] && (forall d | d in m.data :: Clean(d)) && (m.name.Some? ==> Clean(m.name.value))
  }

  function Terminated(lines: seq<string>, eol: string): string {
    if lines == [] then "" else lines[0] + eol + Terminated(lines[1..], eol)
  }

  function Separated(lines: seq<string>, eol: string): string {
    if lines == [] then "" else if |lines| == 1 then lines[0] else lines[0] + eol + Separated(lines[1..], eol)
  }

  function PrintOne(m: Message): string {
    Terminated(m.Printed(), m.Eol()) + m.Eol()
  }

  function Print(ms: seq<Message>): string {
    if ms == [] then "" else PrintOne(ms[0]) + Print(ms[1..])
  }

  /** What a reader should see: names, payloads, and the offset of each printed block. */
  function Expected(ms: seq<Message>, offset: nat): seq<SseEvent> {
    if ms == [] then []
    else [SseEvent(ms[0].name, Join(ms[0].data), offset)] + Expected(ms[1..], offset + |PrintOne(ms[0])|)
  }

  // ----- Scanning printed text -----

  predicate OneLine(s: string) {
    '\r' !in s && '\n' !in s
  }

  predicate IsEol(eol: string) {
    eol == "\n" || eol == "\r\n"
  }

  /** `a` stands in `s` at `from`. */
  predicate Has(s: string, from: nat, a: string) {
    from + |a| <= |s| && s[from..from + |a|] == a
  }

  predicate PlainAt(s: string, at: nat) {
    at < |s| && s[at] != '\r' && s[at] != '\n'
  }

  lemma HasSplit(s: string, from: nat, a: string, b: string)
    requires Has(s, from, a + b)
    ensures Has(s, from, a) && Has(s, from + |a|, b)
  {
    assert s[from..from + |a|] == (a + b)[..|a|];
    assert s[from + |a|..from + |a| + |b|] == (a + b)[|a|..];
  }

  lemma HasAt(s: string, from: nat, a: string, i: nat)
    requires Has(s, from, a) && i < |a|
    ensures s[from + i] == a[i]
  {
    assert s[from..from + |a|][i] == s[from + i];
  }

  lemma {:induction false} SkipTo(s: string, from: nat, to: nat, sep: Separator)
    requires from <= to <= |s| && forall i | from <= i < to :: sep(s, i) == 0
    ensures NextCut(s, from, sep) == NextCut(s, to, sep)
    decreases |s| - from
  {
    if from < to { SkipTo(s, from + 1, to, sep); }
  }

  lemma NoCutIn(s: string, from: nat, line: string)
    requires OneLine(line) && Has(s, from, line)
    ensures forall i | from <= i < from + |line| :: Newline(s, i) == 0 && Blank(s, i) == 0
  {
    forall i | from <= i < from + |line| ensures Newline(s, i) == 0 {
      HasAt(s, from, line, i - from);
      assert line[i - from] in line;
    }
  }

  lemma SkipText(s: string, from: nat, line: string)
    requires OneLine(line) && Has(s, from, line)
    ensures NextCut(s, from, Blank) == NextCut(s, from + |line|, Blank)
    ensures NextCut(s, from, Newline) == NextCut(s, from + |line|, Newline)
  {
    NoCutIn(s, from, line);
    SkipTo(s, from, from + |line|, Blank);
    SkipTo(s, from, from + |line|, Newline);
  }

  lemma EolAt(s: string, at: nat, eol: string)
    requires IsEol(eol) && Has(s, at, eol)
    ensures Newline(s, at) == |eol| && (eol == "\r\n" ==> Newline(s, at + 1) == 1)
  {
    HasAt(s, at, eol, 0);
    if eol == "\r\n" { HasAt(s, at, eol, 1); }
  }

  /** A line end before more text is no blank line. */
  lemma SkipEol(s: string, at: nat, eol: string)
    requires IsEol(eol) && Has(s, at, eol) && PlainAt(s, at + |eol|)
    ensures NextCut(s, at, Blank) == NextCut(s, at + |eol|, Blank)
  {
    EolAt(s, at, eol);
    forall i | at <= i < at + |eol| ensures Blank(s, i) == 0 {
      assert Newline(s, at + |eol|) == 0;
    }
    SkipTo(s, at, at + |eol|, Blank);
  }

  lemma StopAtBlank(s: string, at: nat, eol: string)
    requires IsEol(eol) && Has(s, at, eol) && Has(s, at + |eol|, eol)
    ensures NextCut(s, at, Blank) == at && Blank(s, at) == |eol| + |eol|
  {
    EolAt(s, at, eol);
    EolAt(s, at + |eol|, eol);
  }

  ghost predicate PrintedLines(lines: seq<string>) {
    lines != [] && forall l | l in lines :: OneLine(l) && l != ""
  }

  lemma TerminatedIs(lines: seq<string>, eol: string)
    requires lines != []
    ensures Terminated(lines, eol) == Separated(lines, eol) + eol
  {
    if |lines| == 1 {
      assert Terminated(lines[1..], eol) == "";
    } else {
      TerminatedIs(lines[1..], eol);
      assert lines[0] + eol + (Separated(lines[1..], eol) + eol) == (lines[0] + eol + Separated(lines[1..], eol)) + eol;
    }
  }

  lemma FirstLine(s: string, from: nat, lines: seq<string>, eol: string)
    requires PrintedLines(lines) && |lines| > 1 && Has(s, from, Separated(lines, eol))
    ensures var next := from + |lines[0]| + |eol|;
            && Has(s, from, lines[0]) && Has(s, from + |lines[0]|, eol) && Has(s, next, Separated(lines[1..], eol))
            && PlainAt(s, next) && PrintedLines(lines[1..])
            && next + |Separated(lines[1..], eol)| == from + |Separated(lines, eol)|
  {
    var rest := Separated(lines[1..], eol);
    HasSplit(s, from, lines[0] + eol, rest);
    HasSplit(s, from, lines[0], eol);
    var l := lines[1..][0];
    assert l in lines && l[0] in l && rest[0] == l[0];
    HasAt(s, from + |lines[0] + eol|, rest, 0);
  }

  /** Scanning printed lines reaches the line end that a blank line follows. */
  lemma {:induction false} FindBlank(s: string, from: nat, lines: seq<string>, eol: string, end: nat)
    requires PrintedLines(lines) && IsEol(eol) && Has(s, from, Separated(lines, eol))
    requires end == from + |Separated(lines, eol)|
    ensures NextCut(s, from, Blank) == NextCut(s, end, Blank)
    decreases lines
  {
    if |lines| == 1 {
      assert lines[0] in lines;
      SkipText(s, from, lines[0]);
    } else {
      var next := SkipFirst(s, from, lines, eol);
      FindBlank(s, next, lines[1..], eol, end);
    }
  }

  lemma SkipFirst(s: string, from: nat, lines: seq<string>, eol: string) returns (next: nat)
    requires PrintedLines(lines) && IsEol(eol) && |lines| > 1 && Has(s, from, Separated(lines, eol))
    ensures PrintedLines(lines[1..]) && Has(s, next, Separated(lines[1..], eol))
    ensures next + |Separated(lines[1..], eol)| == from + |Separated(lines, eol)|
    ensures NextCut(s, from, Blank) == NextCut(s, next, Blank)
  {
    assert lines[0] in lines;
    FirstLine(s, from, lines, eol);
    SkipLine(s, from, lines[0], eol);
    next := from + |lines[0]| + |eol|;
  }

  lemma SkipLine(s: string, from: nat, line: string, eol: string)
    requires OneLine(line) && IsEol(eol) && Has(s, from, line) && Has(s, from + |line|, eol)
    requires PlainAt(s, from + |line| + |eol|)
    ensures NextCut(s, from, Blank) == NextCut(s, from + |line| + |eol|, Blank)
  {
    SkipText(s, from, line);
    SkipEol(s, from + |line|, eol);
  }

  /** The piece of `s` at `from` is `text`, and the next starts at `next`. */
  ghost predicate Stops(s: string, from: nat, text: string, next: nat, sep: Separator) {
    var m := from + |text|;
    Has(s, from, text) && m < |s| && NextCut(s, from, sep) == m && m + sep(s, m) == next <= |s|
  }

  /** The cuts of `s` from `from` on give exactly `pieces`. */
  ghost predicate CutsInto(s: string, from: nat, pieces: seq<Block>, sep: Separator)
    decreases pieces
  {
    && pieces != [] && pieces[0].offset == from
    && (if |pieces| == 1 then
          Has(s, from, pieces[0].text) && from + |pieces[0].text| == |s| && NextCut(s, from, sep) == |s|
        else
          Stops(s, from, pieces[0].text, pieces[1].offset, sep) && CutsInto(s, pieces[1].offset, pieces[1..], sep))
  }

  lemma {:induction false} CutsArePieces(s: string, from: nat, pieces: seq<Block>, sep: Separator)
    requires Sound(sep, s) && CutsInto(s, from, pieces, sep)
    ensures from <= |s| && Pieces(s, from, sep) == pieces
    decreases pieces
  {
    if |pieces| == 1 {
      NextPiece(s, from, |s|, sep);
      assert s[from..] == s[from..|s|] && pieces == [pieces[0]];
    } else {
      NextPiece(s, from, from + |pieces[0].text|, sep);
      CutsArePieces(s, pieces[1].offset, pieces[1..], sep);
      assert pieces == [pieces[0]] + pieces[1..];
    }
  }

  lemma CutBefore(s: string, from: nat, text: string, next: nat, rest: seq<Block>, sep: Separator)
    requires Stops(s, from, text, next, sep) && CutsInto(s, next, rest, sep)
    ensures CutsInto(s, from, [Block(text, from)] + rest, sep)
  {
    assert ([Block(text, from)] + rest)[1..] == rest;
  }

  /** The lines of a printed block as pieces. */
  function LinePieces(lines: seq<string>, eol: string, from: nat): seq<Block> {
    if lines == [] then [] else [Block(lines[0], from)] + LinePieces(lines[1..], eol, from + |lines[0]| + |eol|)
  }

  lemma {:induction false} TextsOfLines(lines: seq<string>, eol: string, from: nat)
    ensures Texts(LinePieces(lines, eol, from)) == lines
  {
    if lines != [] {
      var rest := LinePieces(lines[1..], eol, from + |lines[0]| + |eol|);
      TextsOfLines(lines[1..], eol, from + |lines[0]| + |eol|);
      assert LinePieces(lines, eol, from)[1..] == rest;
    }
  }

  lemma LineStops(s: string, from: nat, lines: seq<string>, eol: string)
    requires PrintedLines(lines) && |lines| > 1 && IsEol(eol) && Has(s, from, Separated(lines, eol))
    ensures var next := from + |lines[0]| + |eol|;
            && PrintedLines(lines[1..]) && Has(s, next, Separated(lines[1..], eol))
            && next + |Separated(lines[1..], eol)| == from + |Separated(lines, eol)|
            && Stops(s, from, lines[0], next, Newline)
  {
    assert lines[0] in lines;
    FirstLine(s, from, lines, eol);
    SkipText(s, from, lines[0]);
    EolAt(s, from + |lines[0]|, eol);
  }

  lemma LastLine(s: string, from: nat, lines: seq<string>)
    requires PrintedLines(lines) && Has(s, from, lines[0]) && from + |lines[0]| == |s|
    ensures CutsInto(s, from, [Block(lines[0], from)], Newline)
  {
    assert lines[0] in lines;
    SkipText(s, from, lines[0]);
  }

  lemma {:induction false} LinesCut(s: string, from: nat, lines: seq<string>, eol: string)
    requires PrintedLines(lines) && IsEol(eol)
    requires Has(s, from, Separated(lines, eol)) && from + |Separated(lines, eol)| == |s|
    ensures CutsInto(s, from, LinePieces(lines, eol, from), Newline)
    decreases lines
  {
    var next := from + |lines[0]| + |eol|;
    var rest := LinePieces(lines[1..], eol, next);
    assert LinePieces(lines, eol, from) == [Block(lines[0], from)] + rest;
    if |lines| == 1 {
      LastLine(s, from, lines);
    } else {
      LineStops(s, from, lines, eol);
      LinesCut(s, next, lines[1..], eol);
      CutBefore(s, from, lines[0], next, rest, Newline);
    }
  }

  /** Splitting a printed block gives its lines back. */
  lemma SplitLines(lines: seq<string>, eol: string)
    requires PrintedLines(lines) && IsEol(eol)
    ensures Lines(Separated(lines, eol)) == lines
  {
    var s := Separated(lines, eol);
    assert s[0..|s|] == s;
    SeparatorsAreSound(s);
    LinesCut(s, 0, lines, eol);
    CutsArePieces(s, 0, LinePieces(lines, eol, 0), Newline);
    TextsOfLines(lines, eol, 0);
  }

  // ----- Reading printed fields -----

  lemma TrimClean(x: string)
    requires Clean(x)
    ensures Trim(" " + x) == x
  {
    assert (" " + x)[1..] == x;
    assert TrimStart(" " + x) == TrimStart(x);
  }

  lemma FieldsOfSnoc(lines: seq<string>, line: string)
    ensures FieldsOf(lines + [line]) == Field(FieldsOf(lines), line)
  {
    assert (lines + [line])[..|lines|] == lines;
  }

  lemma ReadDatum(f: Fields, d: string)
    requires Clean(d)
    ensures Field(f, "data: " + d) == f.(data := f.data + [d])
  {
    var line := "data: " + d;
    assert line[5..] == " " + d && line[0] == 'd';
    TrimClean(d);
  }

  lemma {:induction false} ReadData(head: seq<string>, data: seq<string>)
    requires forall d | d in data :: Clean(d)
    ensures FieldsOf(head + DataLines(data)) == FieldsOf(head).(data := FieldsOf(head).data + data)
    decreases data
  {
    if data == [] {
      assert head + DataLines(data) == head;
    } else {
      var line := "data: " + data[0];
      FieldsOfSnoc(head, line);
      ReadDatum(FieldsOf(head), data[0]);
      ReadData(head + [line], data[1..]);
      Assoc(head, [line], DataLines(data[1..]));
      Assoc(FieldsOf(head).data, [data[0]], data[1..]);
      assert data == [data[0]] + data[1..];
    }
  }

  lemma ReadPrinted(m: Message)
    requires Legal(m)
    ensures FieldsOf(m.Printed()) == Fields(m.name, m.data)
  {
    if m.name.Some? {
      var line := "event: " + m.name.value;
      assert line[6..] == " " + m.name.value;
      TrimClean(m.name.value);
      assert [line][..0] == [];
      assert FieldsOf([line]) == Fields(m.name, []);
      ReadData([line], m.data);
    } else {
      assert [] + DataLines(m.data) == DataLines(m.data);
      ReadData([], m.data);
    }
  }

  lemma {:induction false} DataLinesPlain(data: seq<string>)
    requires forall d | d in data :: Clean(d)
    ensures |DataLines(data)| == |data| && forall l | l in DataLines(data) :: OneLine(l) && l != "" && l[0] == 'd'
  {
    if data != [] {
      DataLinesPlain(data[1..]);
      var line := "data: " + data[0];
      assert data[0] in data && OneLine(data[0]) && OneLine("data: ");
      assert OneLine(line) && line[0] == 'd';
    }
  }

  lemma PrintedPlain(m: Message)
    requires Legal(m)
    ensures m.Printed() != [] && forall l | l in m.Printed() :: OneLine(l) && l != "" && !IsSpace(l[0])
  {
    DataLinesPlain(m.data);
  }

  // ----- Round trip -----

  lemma {:induction false} TrimKeeps(s: string)
    requires s != "" && !IsSpace(s[0])
    ensures Trim(s) != ""
  {
    TrimEndKeeps(s);
  }

  lemma {:induction false} TrimEndKeeps(s: string)
    requires s != "" && !IsSpace(s[0])
    ensures TrimEnd(s) != ""
  {
    if IsSpace(s[|s| - 1]) { TrimEndKeeps(s[..|s| - 1]); }
  }

  lemma ReadBlockBack(m: Message, offset: nat)
    requires Legal(m)
    ensures EventOf(Block(Separated(m.Printed(), m.Eol()), offset)) == [SseEvent(m.name, Join(m.data), offset)]
  {
    var text := Separated(m.Printed(), m.Eol());
    PrintedPlain(m);
    SplitLines(m.Printed(), m.Eol());
    ReadPrinted(m);
    assert m.Printed()[0] in m.Printed();
    assert text[0] == m.Printed()[0][0];
    TrimKeeps(text);
  }

  function BlockText(m: Message): string {
    Separated(m.Printed(), m.Eol())
  }

  /** A printed block: its text, all that was printed for it, and what should be read. */
  datatype Frame = Frame(text: string, whole: string, name: Option<string>, raw: string)

  function Frames(ms: seq<Message>): seq<Frame> {
    if ms == [] then [] else [FrameOf(ms[0])] + Frames(ms[1..])
  }

  function FrameOf(m: Message): Frame {
    Frame(BlockText(m), PrintOne(m), m.name, Join(m.data))
  }

  function FrameEvents(frames: seq<Frame>, from: nat): seq<SseEvent> {
    if frames == [] then []
    else [SseEvent(frames[0].name, frames[0].raw, from)] + FrameEvents(frames[1..], from + |frames[0].whole|)
  }

  ghost predicate ReadsAs(f: Frame) {
    forall at :: EventOf(Block(f.text, at)) == [SseEvent(f.name, f.raw, at)]
  }

  function Whole(frames: seq<Frame>): string {
    if frames == [] then "" else frames[0].whole + Whole(frames[1..])
  }

  /** The blocks of the frames; after the last there is an empty one. */
  function FrameBlocks(frames: seq<Frame>, from: nat): seq<Block> {
    if frames == [] then [Block("", from)]
    else [Block(frames[0].text, from)] + FrameBlocks(frames[1..], from + |frames[0].whole|)
  }

  /** Wherever the frame stands, the scan stops at the end of its text and takes the rest of it as separator. */
  ghost predicate IsFrame(f: Frame) {
    forall s, at | Has(s, at, f.whole) :: FrameAt(s, at, f)
  }

  ghost predicate FrameAt(s: string, at: nat, f: Frame)
    requires Has(s, at, f.whole)
  {
    && Has(s, at, f.text) && |f.text| < |f.whole|
    && NextCut(s, at, Blank) == at + |f.text| && |f.text| + Blank(s, at + |f.text|) == |f.whole|
  }

  lemma MessageIsFrame(m: Message)
    requires Legal(m)
    ensures IsFrame(FrameOf(m)) && ReadsAs(FrameOf(m))
  {
    var text, eol := BlockText(m), m.Eol();
    PrintedPlain(m);
    TerminatedIs(m.Printed(), eol);
    assert PrintOne(m) == text + eol + eol;
    forall s, at | Has(s, at, PrintOne(m)) ensures FrameAt(s, at, FrameOf(m)) {
      TextThenBlank(s, at, m.Printed(), eol, text);
    }
    forall at ensures EventOf(Block(text, at)) == [SseEvent(m.name, Join(m.data), at)] {
      ReadBlockBack(m, at);
    }
  }

  lemma TextThenBlank(s: string, at: nat, lines: seq<string>, eol: string, text: string)
    requires PrintedLines(lines) && IsEol(eol) && text == Separated(lines, eol) && Has(s, at, text + eol + eol)
    ensures Has(s, at, text) && NextCut(s, at, Blank) == at + |text| && Blank(s, at + |text|) == |eol| + |eol|
  {
    HasSplit(s, at, text + eol, eol);
    HasSplit(s, at, text, eol);
    FindBlank(s, at, lines, eol, at + |text|);
    StopAtBlank(s, at + |text|, eol);
  }

  lemma FrameStops(s: string, from: nat, f: Frame, tail: string)
    requires IsFrame(f) && Has(s, from, f.whole + tail)
    ensures Has(s, from + |f.whole|, tail) && Stops(s, from, f.text, from + |f.whole|, Blank)
  {
    HasSplit(s, from, f.whole, tail);
    assert FrameAt(s, from, f);
  }

  lemma EmptyLast(s: string)
    ensures CutsInto(s, |s|, [Block("", |s|)], Blank)
  {
  }

  lemma {:induction false} FramesCut(s: string, from: nat, frames: seq<Frame>)
    requires (forall f | f in frames :: IsFrame(f)) && Has(s, from, Whole(frames)) && from + |Whole(frames)| == |s|
    ensures CutsInto(s, from, FrameBlocks(frames, from), Blank)
    decreases frames
  {
    if frames != [] {
      var next := from + |frames[0].whole|;
      FrameStops(s, from, frames[0], Whole(frames[1..]));
      FramesCut(s, next, frames[1..]);
      CutBefore(s, from, frames[0].text, next, FrameBlocks(frames[1..], next), Blank);
    } else {
      EmptyLast(s);
    }
  }

  lemma {:induction false} PrintIsFrames(ms: seq<Message>)
    requires forall m | m in ms :: Legal(m)
    ensures Print(ms) == Whole(Frames(ms)) && forall f | f in Frames(ms) :: IsFrame(f) && ReadsAs(f)
  {
    if ms != [] {
      PrintIsFrames(ms[1..]);
      MessageIsFrame(ms[0]);
      assert Frames(ms)[1..] == Frames(ms[1..]);
    }
  }

  lemma {:induction false} BlocksReadBack(frames: seq<Frame>, from: nat)
    requires forall f | f in frames :: ReadsAs(f)
    ensures EventsOf(FrameBlocks(frames, from)) == FrameEvents(frames, from)
    decreases frames
  {
    if frames == [] {
      FirstEvent(Block("", from), []);
    } else {
      var next := from + |frames[0].whole|;
      BlocksReadBack(frames[1..], next);
      assert ReadsAs(frames[0]);
      FirstEvent(Block(frames[0].text, from), FrameBlocks(frames[1..], next));
    }
  }

  lemma {:induction false} ExpectedIsFrames(ms: seq<Message>, from: nat)
    ensures Expected(ms, from) == FrameEvents(Frames(ms), from)
    decreases ms
  {
    if ms != [] {
      ExpectedIsFrames(ms[1..], from + |PrintOne(ms[0])|);
      assert Frames(ms)[1..] == Frames(ms[1..]);
    }
  }

  lemma FirstEvent(b: Block, rest: seq<Block>)
    ensures EventsOf([b] + rest) == EventOf(b) + EventsOf(rest)
  {
    assert ([b] + rest)[1..] == rest;
  }

  /** Parsing printed messages gives back their names and payloads, each at the offset of its block. */
  lemma RoundTrip(ms: seq<Message>)
    requires forall m | m in ms :: Legal(m)
    ensures Parsed(Print(ms)) == Expected(ms, 0)
  {
    var s := Print(ms);
    assert s[0..|s|] == s;
    SeparatorsAreSound(s);
    PrintIsFrames(ms);
    FramesCut(s, 0, Frames(ms));
    CutsArePieces(s, 0, FrameBlocks(Frames(ms), 0), Blank);
    BlocksReadBack(Frames(ms), 0);
    ExpectedIsFrames(ms, 0);
  }
}

/** However a host cuts and interleaves the deltas of an OpenAI stream, the same response is rebuilt. */
module StreamRecuts {
  import opened Wrappers
  import opened StreamReassembly

  // ----- One edit of a stream -----

  /** Tool calls cut between two fragments, or inside the arguments of one. */
  predicate CallsCut(whole: seq<Fragment>, x: seq<Fragment>, y: seq<Fragment>) {
    || whole == x + y
    || (&& x != [] && y != [] && y[0] == Fragment(x[|x| - 1].index, "", "", y[0].arguments)
        && whole == x[..|x| - 1] + [Joined(x, y)] + y[1..])
  }

  function Joined(x: seq<Fragment>, y: seq<Fragment>): Fragment
    requires x != [] && y != []
  {
    x[|x| - 1].(arguments := x[|x| - 1].arguments + y[0].arguments)
  }

  /** A chunk cut in two: its text and its tool calls are divided, the second part may repeat the
      model, and the finish reason and usage come with it. */
  predicate CutInTwo(c: Chunk, x: Chunk, y: Chunk) {
    && c.Chunk? && x.Chunk? && y.Chunk?
    && c.content == x.content + y.content && c.reasoning == x.reasoning + y.reasoning
    && CallsCut(c.toolCalls, x.toolCalls, y.toolCalls)
    && x.model == c.model && (y.model == "" || y.model == c.model)
    && x.finishReason == "" && y.finishReason == c.finishReason
    && x.usage == "" && y.usage == c.usage
  }

  predicate OneSilent(s: string, t: string) {
    s == "" || t == "" || s == t
  }

  /** Chunks about different things: no call in common, and at most one of them carries content, and
      at most one reasoning. */
  predicate Independent(x: Chunk, y: Chunk) {
    && x.Chunk? && y.Chunk?
    && (x.content == "" || y.content == "") && (x.reasoning == "" || y.reasoning == "")
    && OneSilent(x.model, y.model) && OneSilent(x.finishReason, y.finishReason) && OneSilent(x.usage, y.usage)
    && forall f, g | f in x.toolCalls && g in y.toolCalls :: f.index != g.index
  }

  predicate Silent(c: Chunk) {
    c.Skipped? || c == Chunk("", "", "", [], "", "")
  }

  datatype Edit =
    | Cut(at: nat, first: ChunkEvent, second: ChunkEvent)
    | Swap(at: nat)
    | Pad(at: nat, silent: ChunkEvent)

  /** `b` is `a` with one chunk cut in two, two independent neighbours swapped, or a chunk that says
      nothing added. */
  predicate Edited(a: seq<ChunkEvent>, edit: Edit, b: seq<ChunkEvent>) {
    match edit
    case Cut(at, first, second) =>
      at < |a| && CutInTwo(a[at].chunk, first.chunk, second.chunk) && b == a[..at] + [first, second] + a[at + 1..]
    case Swap(at) =>
      at + 1 < |a| && Independent(a[at].chunk, a[at + 1].chunk) && b == a[..at] + [a[at + 1], a[at]] + a[at + 2..]
    case Pad(at, silent) =>
      at <= |a| && Silent(silent.chunk) && b == a[..at] + [silent] + a[at..]
  }

  // ----- Parts of a stream around an edit -----

  lemma {:induction false} GatherConcat<T>(x: seq<ChunkEvent>, y: seq<ChunkEvent>, part: Chunk -> seq<T>, n: nat)
    requires n <= |y|
    ensures Gather(x + y, part, |x| + n) == Gather(x, part, |x|) + Gather(y, part, n)
  {
    hide Gather;
    if n == 0 {
      GatherPrefix(x, y, part, |x|);
      GatherNone(y, part);
    } else {
      GatherConcat(x, y, part, n - 1);
      GatherStep(x + y, part, |x| + n - 1);
      GatherStep(y, part, n - 1);
      assert (x + y)[|x| + n - 1] == y[n - 1];
      Assoc(Gather(x, part, |x|), Gather(y, part, n - 1), part(y[n - 1].chunk));
    }
  }

  lemma GatherNone<T>(y: seq<ChunkEvent>, part: Chunk -> seq<T>)
    ensures Gather(y, part, 0) == []
  {
  }

  lemma {:induction false} GatherPrefix<T>(x: seq<ChunkEvent>, y: seq<ChunkEvent>, part: Chunk -> seq<T>, n: nat)
    requires n <= |x|
    ensures Gather(x + y, part, n) == Gather(x, part, n)
  {
    if n != 0 {
      GatherPrefix(x, y, part, n - 1);
    }
  }

  function PartsConcat(p: Parts, q: Parts): Parts {
    Parts(p.models + q.models, p.text + q.text, p.reasoning + q.reasoning, p.fragments + q.fragments,
          p.finishes + q.finishes, p.usages + q.usages)
  }

  lemma PartsOfConcat(x: seq<ChunkEvent>, y: seq<ChunkEvent>)
    ensures PartsOf(x + y) == PartsConcat(PartsOf(x), PartsOf(y))
  {
    hide Gather;
    GatherConcat(x, y, ModelIn, |y|);
    GatherConcat(x, y, ContentIn, |y|);
    GatherConcat(x, y, ReasoningIn, |y|);
    GatherConcat(x, y, FragmentsIn, |y|);
    GatherConcat(x, y, FinishIn, |y|);
    GatherConcat(x, y, UsageIn, |y|);
  }

  function PartsIn(c: Chunk): Parts {
    Parts(ModelIn(c), ContentIn(c), ReasoningIn(c), FragmentsIn(c), FinishIn(c), UsageIn(c))
  }

  lemma GatherOne<T>(e: ChunkEvent, part: Chunk -> seq<T>)
    ensures Gather([e], part, 1) == part(e.chunk)
  {
    GatherStep([e], part, 0);
  }

  lemma PartsOfOne(e: ChunkEvent)
    ensures PartsOf([e]) == PartsIn(e.chunk)
  {
    GatherOne(e, ModelIn);
    GatherOne(e, ContentIn);
    GatherOne(e, ReasoningIn);
    GatherOne(e, FragmentsIn);
    GatherOne(e, FinishIn);
    GatherOne(e, UsageIn);
  }

  lemma PartsOfTwo(x: ChunkEvent, y: ChunkEvent)
    ensures PartsOf([x, y]) == PartsConcat(PartsIn(x.chunk), PartsIn(y.chunk))
  {
    assert [x, y] == [x] + [y];
    PartsOfConcat([x], [y]);
    PartsOfOne(x);
    PartsOfOne(y);
  }

  lemma {:induction false} ConcatConcat(x: seq<string>, y: seq<string>)
    ensures Concat(x + y) == Concat(x) + Concat(y)
    decreases |y|
  {
    if y == [] {
      assert x + y == x;
    } else {
      var front, last := y[..|y| - 1], y[|y| - 1];
      assert x + y == x + front + [last];
      ConcatConcat(x, front);
      ConcatSnoc(x + front, last);
    }
  }

  lemma ConcatSnoc(x: seq<string>, s: string)
    ensures Concat(x + [s]) == Concat(x) + s
  {
    assert (x + [s])[..|x|] == x;
  }

  lemma ConcatSome(s: string)
    ensures Concat(Some1(s)) == s
  {
    assert s != "" ==> Some1(s)[..0] == [];
  }

  /** Replacing a middle part by one of the same text keeps the text of the whole. */
  lemma SameTextAround(before: Parts, p: Parts, q: Parts, after: Parts)
    requires SameText(p, q)
    ensures SameText(PartsConcat(PartsConcat(before, p), after), PartsConcat(PartsConcat(before, q), after))
  {
    hide Concat, FirstOf, LastOf;
    TextAround(before.text, p.text, q.text, after.text);
    TextAround(before.reasoning, p.reasoning, q.reasoning, after.reasoning);
    EndsAround(before.models, p.models, q.models, after.models);
    EndsAround(before.finishes, p.finishes, q.finishes, after.finishes);
    EndsAround(before.usages, p.usages, q.usages, after.usages);
  }

  lemma EndsAround(before: seq<string>, x: seq<string>, y: seq<string>, after: seq<string>)
    ensures FirstOf(x) == FirstOf(y) ==> FirstOf(before + x + after) == FirstOf(before + y + after)
    ensures LastOf(x) == LastOf(y) ==> LastOf(before + x + after) == LastOf(before + y + after)
  {
  }

  lemma TextAround(before: seq<string>, x: seq<string>, y: seq<string>, after: seq<string>)
    requires Concat(x) == Concat(y)
    ensures Concat(before + x + after) == Concat(before + y + after)
  {
    ConcatConcat(before + x, after);
    ConcatConcat(before, x);
    ConcatConcat(before + y, after);
    ConcatConcat(before, y);
  }

  /** Two middle parts that may replace each other in any stream. */
  ghost predicate Interchangeable(p: Parts, q: Parts) {
    SameText(p, q) && forall before, after, i: nat :: SameCallAround(before, p.fragments, q.fragments, after, i)
  }

  ghost predicate SameCallAround(before: seq<Fragment>, f: seq<Fragment>, g: seq<Fragment>, after: seq<Fragment>,
                                 i: nat) {
    SameCall(before + f + after, before + g + after, i)
  }

  lemma Replaced(before: seq<ChunkEvent>, m: seq<ChunkEvent>, n: seq<ChunkEvent>, after: seq<ChunkEvent>)
    requires Interchangeable(PartsOf(m), PartsOf(n))
    ensures ResponseOf(before + m + after) == ResponseOf(before + n + after)
  {
    PartsOfConcat(before + m, after);
    PartsOfConcat(before, m);
    PartsOfConcat(before + n, after);
    PartsOfConcat(before, n);
    SameTextAround(PartsOf(before), PartsOf(m), PartsOf(n), PartsOf(after));
    var p, q := PartsOf(before + m + after), PartsOf(before + n + after);
    forall i: nat ensures SameCall(p.fragments, q.fragments, i) {
      assert SameCallAround(PartsOf(before).fragments, PartsOf(m).fragments, PartsOf(n).fragments,
                            PartsOf(after).fragments, i);
    }
    SayingTheSameIsEnough(before + m + after, before + n + after);
  }

  // ----- The three edits -----

  lemma CutText(c: Chunk, x: Chunk, y: Chunk)
    requires CutInTwo(c, x, y)
    ensures SameText(PartsIn(c), PartsConcat(PartsIn(x), PartsIn(y)))
  {
    hide Concat, CallsCut;
    CutString(c.content, x.content, y.content);
    CutString(c.reasoning, x.reasoning, y.reasoning);
  }

  lemma CutString(whole: string, a: string, b: string)
    requires whole == a + b
    ensures Concat(Some1(whole)) == Concat(Some1(a) + Some1(b))
  {
    ConcatSome(whole);
    ConcatSome(a);
    ConcatSome(b);
    ConcatConcat(Some1(a), Some1(b));
  }

  lemma CutCalls(before: seq<Fragment>, whole: seq<Fragment>, x: seq<Fragment>, y: seq<Fragment>, after: seq<Fragment>,
                 i: nat)
    requires CallsCut(whole, x, y)
    ensures SameCallAround(before, whole, x + y, after, i)
  {
    if whole != x + y {
      var front, f, back := x[..|x| - 1], Joined(x, y), y[1..];
      CutKeepsCalls(before + front, f, x[|x| - 1].arguments, y[0].arguments, back + after, i);
      assert before + whole + after == (before + front) + [f] + (back + after);
      assert before + (x + y) + after == (before + front) + [x[|x| - 1], y[0]] + (back + after);
    }
  }

  lemma SwapText(x: Chunk, y: Chunk)
    requires Independent(x, y)
    ensures SameText(PartsConcat(PartsIn(x), PartsIn(y)), PartsConcat(PartsIn(y), PartsIn(x)))
  {
    assert ContentIn(x) + ContentIn(y) == ContentIn(y) + ContentIn(x);
    assert ReasoningIn(x) + ReasoningIn(y) == ReasoningIn(y) + ReasoningIn(x);
    assert ModelIn(x) + ModelIn(y) == ModelIn(y) + ModelIn(x);
    assert FinishIn(x) + FinishIn(y) == FinishIn(y) + FinishIn(x);
    assert UsageIn(x) + UsageIn(y) == UsageIn(y) + UsageIn(x);
  }

  lemma EditKeepsResponse(a: seq<ChunkEvent>, edit: Edit, b: seq<ChunkEvent>)
    requires Edited(a, edit, b)
    ensures ResponseOf(a) == ResponseOf(b)
  {
    hide ResponseOf, Interchangeable, PartsOf, CutInTwo, Independent, Silent;
    match edit
    case Cut(at, first, second) =>
      CutInterchanges(a[at], first, second);
      assert a == a[..at] + [a[at]] + a[at + 1..];
      Replaced(a[..at], [a[at]], [first, second], a[at + 1..]);
    case Swap(at) =>
      SwapInterchanges(a[at], a[at + 1]);
      assert a == a[..at] + [a[at], a[at + 1]] + a[at + 2..];
      Replaced(a[..at], [a[at], a[at + 1]], [a[at + 1], a[at]], a[at + 2..]);
    case Pad(at, silent) =>
      PadInterchanges(silent);
      assert a == a[..at] + [] + a[at..];
      Replaced(a[..at], [], [silent], a[at..]);
  }

  lemma CutInterchanges(e: ChunkEvent, first: ChunkEvent, second: ChunkEvent)
    requires CutInTwo(e.chunk, first.chunk, second.chunk)
    ensures Interchangeable(PartsOf([e]), PartsOf([first, second]))
  {
    PartsOfOne(e);
    PartsOfTwo(first, second);
    CutText(e.chunk, first.chunk, second.chunk);
    forall before, after, i: nat
      ensures SameCallAround(before, PartsOf([e]).fragments, PartsOf([first, second]).fragments, after, i)
    {
      CutCalls(before, e.chunk.toolCalls, first.chunk.toolCalls, second.chunk.toolCalls, after, i);
    }
  }

  lemma SwapInterchanges(x: ChunkEvent, y: ChunkEvent)
    requires Independent(x.chunk, y.chunk)
    ensures Interchangeable(PartsOf([x, y]), PartsOf([y, x]))
  {
    PartsOfTwo(x, y);
    PartsOfTwo(y, x);
    SwapText(x.chunk, y.chunk);
    forall before, after, i: nat
      ensures SameCallAround(before, PartsOf([x, y]).fragments, PartsOf([y, x]).fragments, after, i)
    {
      SwapKeepsCalls(before, x.chunk.toolCalls, y.chunk.toolCalls, after, i);
    }
  }

  lemma PadInterchanges(silent: ChunkEvent)
    requires Silent(silent.chunk)
    ensures Interchangeable(PartsOf([]), PartsOf([silent]))
  {
    PartsOfOne(silent);
    assert PartsOf([]) == PartsOf([silent]);
  }

  // ----- Any number of edits -----

  /** One edit apart, whichever of the two came first. */
  ghost predicate OneEditApart(a: seq<ChunkEvent>, b: seq<ChunkEvent>) {
    exists edit :: Edited(a, edit, b) || Edited(b, edit, a)
  }

  /** Streams any number of cuts, joins, swaps and paddings apart are rebuilt into the same response. */
  lemma {:induction false} CutsAndInterleavingDoNotMatter(streams: seq<seq<ChunkEvent>>, n: nat)
    requires n < |streams| && forall k | 0 <= k < |streams| - 1 :: OneEditApart(streams[k], streams[k + 1])
    ensures ResponseOf(streams[0]) == ResponseOf(streams[n])
  {
    if n != 0 {
      CutsAndInterleavingDoNotMatter(streams, n - 1);
      assert OneEditApart(streams[n - 1], streams[n - 1 + 1]);
      var edit :| Edited(streams[n - 1], edit, streams[n]) || Edited(streams[n], edit, streams[n - 1]);
      if Edited(streams[n - 1], edit, streams[n]) {
        EditKeepsResponse(streams[n - 1], edit, streams[n]);
      } else {
        EditKeepsResponse(streams[n], edit, streams[n - 1]);
      }
    }
  }

  // ----- A response streamed and rebuilt -----

  /** The tool calls of a response as fragments, one each. */
  function Fragmented(calls: seq<ToolCall>): (fragments: seq<Fragment>)
    ensures |fragments| == |calls|
    ensures forall i | 0 <= i < |calls| :: fragments[i] == Fragment(i, calls[i].id, calls[i].name, calls[i].arguments)
  {
    seq(|calls|, i requires 0 <= i < |calls| => Fragment(i, calls[i].id, calls[i].name, calls[i].arguments))
  }

  /** A response said in one chunk. */
  function Whole(r: Response): Chunk {
    Chunk(r.model, r.content, r.reasoning, Fragmented(r.toolCalls), r.finishReason, r.usage)
  }

  lemma {:induction false} FragmentsOfOneCall(calls: seq<ToolCall>, n: nat, i: nat)
    requires n <= |calls|
    ensures Of(Fragmented(calls)[..n], i) == if i < n then [Fragmented(calls)[i]] else []
  {
    if n > 0 {
      FragmentsOfOneCall(calls, n - 1, i);
      assert Fragmented(calls)[..n][..n - 1] == Fragmented(calls)[..n - 1];
    }
  }

  lemma OneCallComesBack(calls: seq<ToolCall>, i: nat)
    requires i < |calls|
    ensures Rebuilt(Of(Fragmented(calls), i)) == calls[i]
  {
    hide Of;
    FragmentsOfOneCall(calls, |calls|, i);
    assert Fragmented(calls)[..|calls|] == Fragmented(calls);
    var f := Fragmented(calls)[i];
    assert [f][..0] == [];
  }

  lemma {:induction false} CallsAre(fragments: seq<Fragment>, indices: seq<nat>)
    ensures |Calls(fragments, indices)| == |indices|
    ensures forall k | 0 <= k < |indices| :: Calls(fragments, indices)[k] == Rebuilt(Of(fragments, indices[k]))
  {
    hide Of, Rebuilt;
    if indices != [] {
      CallsAre(fragments, indices[..|indices| - 1]);
    }
  }

  lemma CallsComeBack(calls: seq<ToolCall>)
    ensures Calls(Fragmented(calls), seq(|calls|, i => i)) == calls
  {
    hide Calls, Of, Rebuilt;
    CallsAre(Fragmented(calls), seq(|calls|, i => i));
    forall i | 0 <= i < |calls| ensures Rebuilt(Of(Fragmented(calls), i)) == calls[i] {
      OneCallComesBack(calls, i);
    }
  }

  lemma IndicesCountUp(calls: seq<ToolCall>)
    ensures Indices(Fragmented(calls)) == seq(|calls|, i => i)
  {
    var counted: seq<nat> := seq(|calls|, i => i);
    assert Fragmented(calls)[..|calls|] == Fragmented(calls);
    forall i: nat ensures i in counted <==> i in Indices(Fragmented(calls)) {
      FragmentsOfOneCall(calls, |calls|, i);
      assert i < |calls| ==> counted[i] == i;
    }
    SameIndices(Indices(Fragmented(calls)), counted);
  }

  /** A response said in one chunk is rebuilt as it was: its text, reasoning and tool calls each in
      their own place. Without a model it is "unknown", and one that says nothing is none. */
  lemma WholeRoundTrips(r: Response, offset: nat)
    ensures ResponseOf([ChunkEvent(Whole(r), offset)]) ==
            if r.model == "" && r.content == "" && r.reasoning == "" && r.toolCalls == [] then None
            else Some(r.(model := if r.model == "" then "unknown" else r.model))
  {
    hide Calls, Indices, Gather;
    PartsOfOne(ChunkEvent(Whole(r), offset));
    IndicesCountUp(r.toolCalls);
    CallsComeBack(r.toolCalls);
    ConcatSome(r.content);
    ConcatSome(r.reasoning);
  }

  /** However a response is cut and interleaved on the way, it is rebuilt as it was. */
  lemma ResponseComesBack(r: Response, offset: nat, streams: seq<seq<ChunkEvent>>, n: nat)
    requires r.model != "" && n < |streams| && streams[0] == [ChunkEvent(Whole(r), offset)]
    requires forall k | 0 <= k < |streams| - 1 :: OneEditApart(streams[k], streams[k + 1])
    ensures ResponseOf(streams[n]) == Some(r)
  {
    WholeRoundTrips(r, offset);
    CutsAndInterleavingDoNotMatter(streams, n);
  }
}

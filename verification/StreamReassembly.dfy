/** Rebuilding a streamed response: `reassembleOpenAIResponse` and `reassembleAnthropicMessage`. */
module StreamReassembly {
  import opened Wrappers
  import ChunkTimes

  // ----- OpenAI chunks -----

  /** A tool-call fragment; an absent field is the empty string, an absent index is 0. */
  datatype Fragment = Fragment(index: nat, id: string, name: string, arguments: string)

  /** The model, the first choice and the usage of a chunk; absent strings are empty. Events whose data
      is no object are `Skipped`. */
  datatype Chunk =
    | Skipped
    | Chunk(model: string, content: string, reasoning: string, toolCalls: seq<Fragment>, finishReason: string,
            usage: string)

  datatype ChunkEvent = ChunkEvent(chunk: Chunk, offset: nat)

  datatype ToolCall = ToolCall(id: string, name: string, arguments: string)
  datatype Response = Response(model: string, content: string, reasoning: string, toolCalls: seq<ToolCall>,
                               finishReason: string, usage: string)

  // ----- What a stream says, part by part -----

  function Some1(s: string): seq<string> {
    if s == "" then [] else [s]
  }

  function ContentIn(c: Chunk): seq<string> {
    if c.Chunk? then Some1(c.content) else []
  }

  function ReasoningIn(c: Chunk): seq<string> {
    if c.Chunk? then Some1(c.reasoning) else []
  }

  function ModelIn(c: Chunk): seq<string> {
    if c.Chunk? then Some1(c.model) else []
  }

  function FinishIn(c: Chunk): seq<string> {
    if c.Chunk? then Some1(c.finishReason) else []
  }

  function UsageIn(c: Chunk): seq<string> {
    if c.Chunk? then Some1(c.usage) else []
  }

  function FragmentsIn(c: Chunk): seq<Fragment> {
    if c.Chunk? then c.toolCalls else []
  }

  /** The parts of one kind in the first `n` events. */
  function Gather<T>(events: seq<ChunkEvent>, part: Chunk -> seq<T>, n: nat): seq<T>
    requires n <= |events|
  {
    if n == 0 then [] else Gather(events, part, n - 1) + part(events[n - 1].chunk)
  }

  lemma GatherStep<T>(events: seq<ChunkEvent>, part: Chunk -> seq<T>, i: nat)
    requires i < |events|
    ensures Gather(events, part, i + 1) == Gather(events, part, i) + part(events[i].chunk)
    ensures part(events[i].chunk) == [] ==> Gather(events, part, i + 1) == Gather(events, part, i)
  {
  }

  function Concat(parts: seq<string>): string {
    if parts == [] then "" else Concat(parts[..|parts| - 1]) + parts[|parts| - 1]
  }

  /** The fragments of one call. */
  function Of(fragments: seq<Fragment>, index: nat): seq<Fragment> {
    if fragments == [] then []
    else
      var last := fragments[|fragments| - 1];
      Of(fragments[..|fragments| - 1], index) + (if last.index == index then [last] else [])
  }

  /** A fragment added to a call: a new id or name replaces the old, arguments append. */
  function Extended(call: ToolCall, f: Fragment): ToolCall {
    ToolCall(if f.id != "" then f.id else call.id, if f.name != "" then f.name else call.name,
             call.arguments + f.arguments)
  }

  /** A call rebuilt from its own fragments. */
  function Rebuilt(own: seq<Fragment>): ToolCall {
    if own == [] then ToolCall("", "", "") else Extended(Rebuilt(own[..|own| - 1]), own[|own| - 1])
  }

  /** Its arguments are those of its fragments, in order. */
  function ArgumentsOf(own: seq<Fragment>): seq<string> {
    if own == [] then [] else ArgumentsOf(own[..|own| - 1]) + [own[|own| - 1].arguments]
  }

  lemma {:induction false} ArgumentsAreConcatenated(own: seq<Fragment>)
    ensures Rebuilt(own).arguments == Concat(ArgumentsOf(own))
  {
    if own != [] {
      ArgumentsAreConcatenated(own[..|own| - 1]);
      var args := ArgumentsOf(own);
      assert args[..|args| - 1] == ArgumentsOf(own[..|own| - 1]);
    }
  }

  // ----- Indices in order -----

  ghost predicate Increasing(indices: seq<nat>) {
    forall j, k | 0 <= j < k < |indices| :: indices[j] < indices[k]
  }

  lemma Prepended(index: nat, indices: seq<nat>)
    requires Increasing(indices) && forall i | i in indices :: index < i
    ensures Increasing([index] + indices)
  {
    var all := [index] + indices;
    forall j, k | 0 <= j < k < |all| ensures all[j] < all[k] {
      assert all[k] == indices[k - 1] && indices[k - 1] in indices;
      if j > 0 { assert all[j] == indices[j - 1]; }
    }
  }

  function Insert(indices: seq<nat>, index: nat): (sorted: seq<nat>)
    requires Increasing(indices)
    ensures Increasing(sorted) && forall i :: i in sorted <==> i == index || i in indices
  {
    if indices == [] || indices[0] > index then [index] + indices
    else if indices[0] == index then indices
    else
      assert forall i | i in indices[1..] :: indices[0] < i;
      assert indices == [indices[0]] + indices[1..];
      Prepended(indices[0], Insert(indices[1..], index));
      [indices[0]] + Insert(indices[1..], index)
  }

  /** The indices in use, ascending. */
  function Indices(fragments: seq<Fragment>): (sorted: seq<nat>)
    ensures Increasing(sorted) && forall i :: i in sorted <==> Of(fragments, i) != []
  {
    if fragments == [] then [] else Insert(Indices(fragments[..|fragments| - 1]), fragments[|fragments| - 1].index)
  }

  lemma TailMembers(a: seq<nat>)
    requires Increasing(a) && a != []
    ensures a[0] in a && forall i :: i in a[1..] <==> i in a && i != a[0]
    ensures forall i | i in a :: a[0] <= i
  {
  }

  lemma {:induction false} SameIndices(a: seq<nat>, b: seq<nat>)
    requires Increasing(a) && Increasing(b) && forall i :: i in a <==> i in b
    ensures a == b
  {
    assert |a| == 0 || a[0] in a;
    assert |b| == 0 || b[0] in b;
    if a != [] && b != [] {
      TailMembers(a);
      TailMembers(b);
      SameIndices(a[1..], b[1..]);
      assert a == [a[0]] + a[1..] && b == [b[0]] + b[1..];
    }
  }

  function Calls(fragments: seq<Fragment>, indices: seq<nat>): seq<ToolCall> {
    if indices == [] then []
    else Calls(fragments, indices[..|indices| - 1]) + [Rebuilt(Of(fragments, indices[|indices| - 1]))]
  }

  function FirstOf(parts: seq<string>): Option<string> {
    if parts == [] then None else Some(parts[0])
  }

  function LastOf(parts: seq<string>): Option<string> {
    if parts == [] then None else Some(parts[|parts| - 1])
  }

  /** The parts of a stream. */
  datatype Parts = Parts(models: seq<string>, text: seq<string>, reasoning: seq<string>, fragments: seq<Fragment>,
                         finishes: seq<string>, usages: seq<string>)

  function PartsOf(events: seq<ChunkEvent>): Parts {
    var n := |events|;
    Parts(Gather(events, ModelIn, n), Gather(events, ContentIn, n), Gather(events, ReasoningIn, n),
          Gather(events, FragmentsIn, n), Gather(events, FinishIn, n), Gather(events, UsageIn, n))
  }

  /** The response a stream stands for; none when nothing of it arrived. */
  function ResponseOf(events: seq<ChunkEvent>): Option<Response> {
    Answer(PartsOf(events))
  }

  function Answer(p: Parts): Option<Response> {
    Respond(p.models, p.text, p.reasoning, p.fragments == [], Calls(p.fragments, Indices(p.fragments)), p.finishes,
            p.usages)
  }

  function Respond(models: seq<string>, text: seq<string>, reasoning: seq<string>, callless: bool, calls: seq<ToolCall>,
                   finishes: seq<string>, usages: seq<string>): Option<Response> {
    if models == [] && text == [] && callless && reasoning == [] then None
    else Some(Response(if models == [] then "unknown" else models[0], Concat(text), Concat(reasoning), calls,
                       LastOf(finishes).GetOr(""), LastOf(usages).GetOr("")))
  }

  // ----- The loop -----

  /** The calls in the map, and its keys, are those of the fragments so far. */
  ghost predicate Collected(keys: seq<nat>, calls: map<nat, ToolCall>, fragments: seq<Fragment>) {
    && (forall i :: i in keys <==> i in calls)
    && (forall i: nat :: CollectedAt(calls, fragments, i))
  }

  ghost predicate CollectedAt(calls: map<nat, ToolCall>, fragments: seq<Fragment>, i: nat) {
    (i in calls <==> Of(fragments, i) != []) && (i in calls ==> calls[i] == Rebuilt(Of(fragments, i)))
  }

  function At(calls: map<nat, ToolCall>, i: nat): ToolCall {
    if i in calls then calls[i] else ToolCall("", "", "")
  }

  lemma OneMoreFragment(calls: map<nat, ToolCall>, fragments: seq<Fragment>, f: Fragment, i: nat)
    requires CollectedAt(calls, fragments, i)
    ensures CollectedAt(calls[f.index := Extended(At(calls, f.index), f)], fragments + [f], i)
  {
    var all := fragments + [f];
    assert all[..|fragments|] == fragments && all[|fragments|] == f;
    var own := Of(fragments, i);
    assert Of(all, i) == own + (if f.index == i then [f] else []);
    if f.index == i {
      assert (own + [f])[..|own|] == own && (own + [f])[|own|] == f;
    } else {
      assert own + [] == own;
    }
  }

  /** The inner loop over the tool-call fragments of one chunk. */
  method AddFragments(known: seq<nat>, before: map<nat, ToolCall>, chunk: seq<Fragment>, ghost fragments: seq<Fragment>)
    returns (keys: seq<nat>, calls: map<nat, ToolCall>)
    requires Collected(known, before, fragments)
    ensures Collected(keys, calls, fragments + chunk)
  {
    keys, calls := known, before;
    assert fragments + chunk[..0] == fragments;
    for k := 0 to |chunk|
      invariant Collected(keys, calls, fragments + chunk[..k])
    {
      var tc := chunk[k];
      ghost var was, sofar := calls, fragments + chunk[..k + 1];
      assert sofar == fragments + chunk[..k] + [tc];
      if tc.index !in calls { keys := keys + [tc.index]; }
      calls := calls[tc.index := Extended(At(calls, tc.index), tc)];
      forall i: nat ensures CollectedAt(calls, sofar, i) {
        OneMoreFragment(was, fragments + chunk[..k], tc, i);
      }
    }
    assert chunk[..|chunk|] == chunk;
  }

  /** The entries sorted by index. */
  method SortCalls(keys: seq<nat>, calls: map<nat, ToolCall>, ghost fragments: seq<Fragment>)
    returns (sorted: seq<ToolCall>)
    requires Collected(keys, calls, fragments)
    ensures sorted == Calls(fragments, Indices(fragments))
  {
    var indices := SortKeys(keys);
    forall i ensures i in indices <==> i in Indices(fragments) {
      assert CollectedAt(calls, fragments, i);
    }
    SameIndices(indices, Indices(fragments));
    sorted := ListCalls(indices, calls, fragments);
  }

  method ListCalls(indices: seq<nat>, calls: map<nat, ToolCall>, ghost fragments: seq<Fragment>)
    returns (sorted: seq<ToolCall>)
    requires forall i: nat :: CollectedAt(calls, fragments, i)
    requires forall i | i in indices :: i in calls
    ensures sorted == Calls(fragments, indices)
  {
    sorted := [];
    for k := 0 to |indices|
      invariant sorted == Calls(fragments, indices[..k])
    {
      assert indices[k] in indices && CollectedAt(calls, fragments, indices[k]);
      assert indices[..k + 1][..k] == indices[..k];
      sorted := sorted + [calls[indices[k]]];
    }
    assert indices[..|indices|] == indices;
  }

  method SortKeys(keys: seq<nat>) returns (indices: seq<nat>)
    ensures Increasing(indices) && forall i :: i in indices <==> i in keys
  {
    indices := [];
    for k := 0 to |keys|
      invariant Increasing(indices) && forall i :: i in indices <==> i in keys[..k]
    {
      assert keys[..k + 1] == keys[..k] + [keys[k]];
      indices := Insert(indices, keys[k]);
    }
    assert keys[..|keys|] == keys;
  }

  predicate Visible(c: Chunk) {
    c.Chunk? && (c.content != "" || c.toolCalls != [])
  }

  predicate AnyDelta(c: Chunk) {
    Visible(c) || (c.Chunk? && c.reasoning != "")
  }

  /** The offset of the first of the first `n` events that counts. */
  function FirstOffset(events: seq<ChunkEvent>, counts: Chunk -> bool, n: nat): Option<nat>
    requires n <= |events|
  {
    if n == 0 then None
    else if FirstOffset(events, counts, n - 1).Some? then FirstOffset(events, counts, n - 1)
    else if counts(events[n - 1].chunk) then Some(events[n - 1].offset) else None
  }

  predicate FirstIs(model: string, models: seq<string>) {
    if models == [] then model == "" else model == models[0] && model != ""
  }

  predicate LastIs(finish: string, finishes: seq<string>) {
    finish == LastOf(finishes).GetOr("")
  }

  /** The text, model, finish reason and usage of one chunk. */
  method ReadText(chunk: Chunk, text0: seq<string>, reasoning0: seq<string>, model0: string, finish0: string,
                  usage0: string, ghost models: seq<string>, ghost finishes: seq<string>, ghost usages: seq<string>)
    returns (text: seq<string>, reasoning: seq<string>, model: string, finishReason: string, usage: string)
    requires chunk.Chunk? && FirstIs(model0, models) && LastIs(finish0, finishes) && LastIs(usage0, usages)
    ensures text == text0 + ContentIn(chunk) && reasoning == reasoning0 + ReasoningIn(chunk)
    ensures FirstIs(model, models + ModelIn(chunk)) && LastIs(finishReason, finishes + FinishIn(chunk))
    ensures LastIs(usage, usages + UsageIn(chunk))
  {
    text, reasoning, model, finishReason, usage := text0, reasoning0, model0, finish0, usage0;
    if chunk.model != "" && model == "" { model := chunk.model; }
    if chunk.reasoning != "" { reasoning := reasoning + [chunk.reasoning]; }
    if chunk.content != "" { text := text + [chunk.content]; }
    if chunk.finishReason != "" { finishReason := chunk.finishReason; }
    if chunk.usage != "" { usage := chunk.usage; }
  }

  /** Notes where the first delta and the first visible delta are. */
  method NoteOffsets(e: ChunkEvent, delta0: Option<nat>, visible0: Option<nat>)
    returns (firstDeltaOffset: Option<nat>, firstVisibleOffset: Option<nat>)
    requires e.chunk.Chunk?
    ensures firstDeltaOffset == if delta0.None? && AnyDelta(e.chunk) then Some(e.offset) else delta0
    ensures firstVisibleOffset == if visible0.None? && Visible(e.chunk) then Some(e.offset) else visible0
  {
    firstDeltaOffset, firstVisibleOffset := delta0, visible0;
    var hasVisible := e.chunk.content != "" || e.chunk.toolCalls != [];
    var hasAny := hasVisible || e.chunk.reasoning != "";
    if hasAny && firstDeltaOffset.None? { firstDeltaOffset := Some(e.offset); }
    if hasVisible && firstVisibleOffset.None? { firstVisibleOffset := Some(e.offset); }
  }

  ghost predicate TextSoFar(events: seq<ChunkEvent>, i: nat, text: seq<string>, reasoning: seq<string>, model: string,
                            finish: string,
                             usage: string)
    requires i <= |events|
  {
    && text == Gather(events, ContentIn, i) && reasoning == Gather(events, ReasoningIn, i)
    && FirstIs(model, Gather(events, ModelIn, i)) && LastIs(finish, Gather(events, FinishIn, i))
    && LastIs(usage, Gather(events, UsageIn, i))
  }

  /** `reassembleOpenAIResponse`. */
  method ReassembleOpenAIResponse(events: seq<ChunkEvent>)
    returns (response: Option<Response>, firstDeltaOffset: Option<nat>, firstVisibleOffset: Option<nat>)
    ensures response == ResponseOf(events)
    ensures firstDeltaOffset == FirstOffset(events, AnyDelta, |events|)
    ensures firstVisibleOffset == FirstOffset(events, Visible, |events|)
  {
    firstDeltaOffset, firstVisibleOffset := None, None;
    var text: seq<string>, reasoning: seq<string>, model, finishReason, usage := [], [], "", "", "";
    var keys: seq<nat>, toolCalls: map<nat, ToolCall> := [], map[];
    for i := 0 to |events|
      invariant TextSoFar(events, i, text, reasoning, model, finishReason, usage)
      invariant Collected(keys, toolCalls, Gather(events, FragmentsIn, i))
      invariant firstDeltaOffset == FirstOffset(events, AnyDelta, i)
                && firstVisibleOffset == FirstOffset(events, Visible, i)
    {
      GatherStep(events, FragmentsIn, i);
      if events[i].chunk.Skipped? { continue; }
      text, reasoning, model, finishReason, usage := ReadText(events[i].chunk, text, reasoning, model, finishReason,
                                                              usage,
        Gather(events, ModelIn, i), Gather(events, FinishIn, i), Gather(events, UsageIn, i));
      firstDeltaOffset, firstVisibleOffset := NoteOffsets(events[i], firstDeltaOffset, firstVisibleOffset);
      keys, toolCalls := AddFragments(keys, toolCalls, events[i].chunk.toolCalls, Gather(events, FragmentsIn, i));
    }
    response := Finish(text, reasoning, model, finishReason, usage, keys, toolCalls, Gather(events, ModelIn, |events|),
      Gather(events, FinishIn, |events|), Gather(events, UsageIn, |events|), Gather(events, FragmentsIn, |events|));
  }

  /** The result after the loop. */
  method Finish(text: seq<string>, reasoning: seq<string>, model: string, finishReason: string, usage: string,
                keys: seq<nat>, toolCalls: map<nat, ToolCall>, ghost models: seq<string>, ghost finishes: seq<string>,
                ghost usages: seq<string>, ghost fragments: seq<Fragment>)
    returns (response: Option<Response>)
    requires FirstIs(model, models) && LastIs(finishReason, finishes) && LastIs(usage, usages)
             && Collected(keys, toolCalls, fragments)
    ensures response ==
              Respond(models, text, reasoning, fragments == [], Calls(fragments, Indices(fragments)), finishes, usages)
  {
    NoCalls(keys, toolCalls, fragments);
    if model == "" && text == [] && keys == [] && reasoning == [] {
      return None;
    }
    var calls := SortCalls(keys, toolCalls, fragments);
    response := Some(Response(if model == "" then "unknown" else model, Concat(text), Concat(reasoning), calls,
                              finishReason, usage));
  }

  lemma NoCalls(keys: seq<nat>, calls: map<nat, ToolCall>, fragments: seq<Fragment>)
    requires Collected(keys, calls, fragments)
    ensures keys == [] <==> fragments == []
  {
    if fragments != [] {
      assert CollectedAt(calls, fragments, fragments[|fragments| - 1].index);
    }
    if keys != [] {
      assert keys[0] in keys && CollectedAt(calls, fragments, keys[0]);
    }
  }

  // ----- However the deltas are cut and interleaved -----

  /** Two streams carry the same text, the same first model, and the same last finish reason and usage. */
  predicate SameText(p: Parts, q: Parts) {
    && Concat(p.text) == Concat(q.text) && Concat(p.reasoning) == Concat(q.reasoning)
    && FirstOf(p.models) == FirstOf(q.models) && LastOf(p.finishes) == LastOf(q.finishes)
       && LastOf(p.usages) == LastOf(q.usages)
  }

  /** Two streams say the same of every call, and the same text. */
  ghost predicate SayTheSame(p: Parts, q: Parts) {
    SameText(p, q) && forall i: nat :: SameCall(p.fragments, q.fragments, i)
  }

  ghost predicate SameCall(f: seq<Fragment>, g: seq<Fragment>, i: nat) {
    (Of(f, i) == [] <==> Of(g, i) == []) && Rebuilt(Of(f, i)) == Rebuilt(Of(g, i))
  }

  lemma {:induction false} SameCalls(f: seq<Fragment>, g: seq<Fragment>, indices: seq<nat>)
    requires forall i: nat :: SameCall(f, g, i)
    ensures Calls(f, indices) == Calls(g, indices)
  {
    if indices != [] {
      SameCalls(f, g, indices[..|indices| - 1]);
      assert SameCall(f, g, indices[|indices| - 1]);
    }
  }

  lemma {:induction false} ConcatEmpty(parts: seq<string>)
    requires forall s | s in parts :: s != ""
    ensures Concat(parts) == "" <==> parts == []
  {
    if parts != [] { assert parts[|parts| - 1] in parts; }
  }

  lemma {:induction false} GatheredNonEmpty(events: seq<ChunkEvent>, part: Chunk -> seq<string>, n: nat)
    requires n <= |events| && forall c, s | s in part(c) :: s != ""
    ensures forall s | s in Gather(events, part, n) :: s != ""
  {
    if n > 0 { GatheredNonEmpty(events, part, n - 1); }
  }

  /** Streams that say the same are rebuilt alike. */
  lemma SayingTheSameIsEnough(a: seq<ChunkEvent>, b: seq<ChunkEvent>)
    requires SayTheSame(PartsOf(a), PartsOf(b))
    ensures ResponseOf(a) == ResponseOf(b)
  {
    PartsNonEmpty(a);
    PartsNonEmpty(b);
    PartsDecide(PartsOf(a), PartsOf(b));
  }

  ghost predicate NonEmptyTexts(p: Parts) {
    (forall s | s in p.text :: s != "") && (forall s | s in p.reasoning :: s != "")
  }

  lemma PartsNonEmpty(events: seq<ChunkEvent>)
    ensures NonEmptyTexts(PartsOf(events))
  {
    GatheredNonEmpty(events, ContentIn, |events|);
    GatheredNonEmpty(events, ReasoningIn, |events|);
  }

  lemma PartsDecide(p: Parts, q: Parts)
    requires NonEmptyTexts(p) && NonEmptyTexts(q) && SayTheSame(p, q)
    ensures Answer(p) == Answer(q)
  {
    CallsAlike(p.fragments, q.fragments);
    ConcatEmpty(p.text);
    ConcatEmpty(q.text);
    ConcatEmpty(p.reasoning);
    ConcatEmpty(q.reasoning);
    RespondAlike(p, q, p.fragments == [], Calls(p.fragments, Indices(p.fragments)));
  }

  lemma RespondAlike(p: Parts, q: Parts, callless: bool, calls: seq<ToolCall>)
    requires SameText(p, q) && (p.text == [] <==> q.text == []) && (p.reasoning == [] <==> q.reasoning == [])
    ensures Respond(p.models, p.text, p.reasoning, callless, calls, p.finishes, p.usages)
         == Respond(q.models, q.text, q.reasoning, callless, calls, q.finishes, q.usages)
  {
  }

  lemma CallsAlike(f: seq<Fragment>, g: seq<Fragment>)
    requires forall i: nat :: SameCall(f, g, i)
    ensures Calls(f, Indices(f)) == Calls(g, Indices(g)) && (f == [] <==> g == [])
  {
    forall i: nat ensures i in Indices(f) <==> i in Indices(g) { assert SameCall(f, g, i); }
    SameIndices(Indices(f), Indices(g));
    SameCalls(f, g, Indices(f));
    NoFragments(f, g);
  }

  lemma NoFragments(f: seq<Fragment>, g: seq<Fragment>)
    requires forall i: nat :: SameCall(f, g, i)
    ensures f == [] <==> g == []
  {
    assert f != [] ==> SameCall(f, g, f[|f| - 1].index);
    assert g != [] ==> SameCall(f, g, g[|g| - 1].index);
  }

  lemma {:induction false} OfConcat(f: seq<Fragment>, g: seq<Fragment>, i: nat)
    ensures Of(f + g, i) == Of(f, i) + Of(g, i)
  {
    if g == [] {
      assert f + g == f;
    } else {
      var front, last := g[..|g| - 1], g[|g| - 1];
      OfConcat(f, front, i);
      assert (f + g)[..|f + g| - 1] == f + front;
    }
  }

  lemma RebuiltSnoc(own: seq<Fragment>, f: Fragment)
    ensures Rebuilt(own + [f]) == Extended(Rebuilt(own), f)
  {
    assert (own + [f])[..|own|] == own;
  }

  lemma {:induction false} RebuiltCut(before: seq<Fragment>, f: Fragment, x: string, y: string, after: seq<Fragment>)
    requires f.arguments == x + y
    ensures Rebuilt(before + [f] + after) ==
              Rebuilt(before + [f.(arguments := x), Fragment(f.index, "", "", y)] + after)
  {
    var first, second := f.(arguments := x), Fragment(f.index, "", "", y);
    var cut := [first, second];
    if after == [] {
      assert before + [f] + after == before + [f] && before + cut + after == before + [first] + [second];
      RebuiltSnoc(before, f);
      RebuiltSnoc(before, first);
      RebuiltSnoc(before + [first], second);
      assert Rebuilt(before).arguments + (x + y) == Rebuilt(before).arguments + x + y;
    } else {
      var front, last := after[..|after| - 1], after[|after| - 1];
      RebuiltCut(before, f, x, y, front);
      assert before + [f] + after == before + [f] + front + [last]
             && before + cut + after == before + cut + front + [last];
      RebuiltSnoc(before + [f] + front, last);
      RebuiltSnoc(before + cut + front, last);
    }
  }

  /** Cutting the arguments of any fragment in two changes no call. */
  lemma CutKeepsCalls(before: seq<Fragment>, f: Fragment, x: string, y: string, after: seq<Fragment>, i: nat)
    requires f.arguments == x + y
    ensures SameCall(before + [f] + after, before + [f.(arguments := x), Fragment(f.index, "", "", y)] + after, i)
  {
    var cut := [f.(arguments := x), Fragment(f.index, "", "", y)];
    OfConcat(before + [f], after, i);
    OfConcat(before, [f], i);
    OfConcat(before + cut, after, i);
    OfConcat(before, cut, i);
    assert cut == [cut[0]] + [cut[1]];
    OfConcat([cut[0]], [cut[1]], i);
    OfOne(f, i);
    OfOne(cut[0], i);
    OfOne(cut[1], i);
    if f.index == i { RebuiltCut(Of(before, i), f, x, y, Of(after, i)); }
  }

  lemma OfOne(f: Fragment, i: nat)
    ensures Of([f], i) == if f.index == i then [f] else []
  {
  }

  /** Swapping neighbouring runs of fragments that share no call changes no call. */
  lemma SwapKeepsCalls(before: seq<Fragment>, f: seq<Fragment>, g: seq<Fragment>, after: seq<Fragment>, i: nat)
    requires forall x, y | x in f && y in g :: x.index != y.index
    ensures Of(before + (f + g) + after, i) == Of(before + (g + f) + after, i)
  {
    OfConcat(before + (f + g), after, i);
    OfConcat(before, f + g, i);
    OfConcat(before + (g + f), after, i);
    OfConcat(before, g + f, i);
    OfConcat(f, g, i);
    OfConcat(g, f, i);
    OfMembers(f, i);
    OfMembers(g, i);
    assert Of(f, i) == [] || Of(g, i) == [];
    assert Of(f, i) + Of(g, i) == Of(g, i) + Of(f, i);
  }

  lemma {:induction false} OfMembers(f: seq<Fragment>, i: nat)
    ensures Of(f, i) != [] ==> exists x :: x in f && x.index == i
  {
    if f != [] {
      OfMembers(f[..|f| - 1], i);
      assert f[|f| - 1] in f;
    }
  }

  // ----- First delta and first visible delta -----

  lemma {:induction false} DeltaBeforeVisible(events: seq<ChunkEvent>, n: nat)
    requires n <= |events| && forall j, k | 0 <= j < k < |events| :: events[j].offset < events[k].offset
    requires FirstOffset(events, Visible, n).Some?
    ensures FirstOffset(events, AnyDelta, n).Some?
    ensures FirstOffset(events, AnyDelta, n).value <= FirstOffset(events, Visible, n).value
    ensures exists k | 0 <= k < n :: events[k].offset == FirstOffset(events, Visible, n).value
  {
    if FirstOffset(events, Visible, n - 1).Some? {
      DeltaBeforeVisible(events, n - 1);
    } else {
      FirstOffsetIsSeen(events, AnyDelta, n - 1);
    }
  }

  lemma {:induction false} FirstOffsetIsSeen(events: seq<ChunkEvent>, counts: Chunk -> bool, n: nat)
    requires n <= |events|
    ensures FirstOffset(events, counts, n).Some? ==>
              exists k | 0 <= k < n ::
                counts(events[k].chunk) && events[k].offset == FirstOffset(events, counts, n).value
    ensures FirstOffset(events, counts, n).None? <==> forall k | 0 <= k < n :: !counts(events[k].chunk)
  {
    if n > 0 { FirstOffsetIsSeen(events, counts, n - 1); }
  }

  /** A chunk that brings the user something: text or part of a tool call; reasoning alone does not. */
  predicate Shows(c: Chunk) {
    c.Chunk? && (c.content != "" || c.toolCalls != [])
  }

  /** The first visible offset is that of the first chunk that shows something, the first delta's that
      of the first chunk that shows or reasons; there is none exactly when no chunk does. */
  lemma {:induction false} FirstOffsetsAre(events: seq<ChunkEvent>, n: nat)
    requires n <= |events|
    ensures FirstOffset(events, Visible, n).None? <==> forall k | 0 <= k < n :: !Shows(events[k].chunk)
    ensures forall k | 0 <= k < n && Shows(events[k].chunk) && forall j | 0 <= j < k :: !Shows(events[j].chunk) ::
              FirstOffset(events, Visible, n) == Some(events[k].offset)
    ensures FirstOffset(events, AnyDelta, n).None? <==>
              forall k | 0 <= k < n :: !Shows(events[k].chunk) && !Reasons(events[k].chunk)
    ensures forall k | 0 <= k < n && (Shows(events[k].chunk) || Reasons(events[k].chunk))
                       && forall j | 0 <= j < k :: !Shows(events[j].chunk) && !Reasons(events[j].chunk) ::
              FirstOffset(events, AnyDelta, n) == Some(events[k].offset)
  {
    if n > 0 {
      FirstOffsetsAre(events, n - 1);
    }
  }

  predicate Reasons(c: Chunk) {
    c.Chunk? && c.reasoning != ""
  }

  /** With chunks in arrival order, a first visible time comes with a first delta time that is no later. */
  lemma FirstDeltaComesFirst(events: seq<ChunkEvent>, marks: seq<ChunkTimes.ChunkMark>)
    requires forall j, k | 0 <= j < k < |events| :: events[j].offset < events[k].offset
    requires ChunkTimes.Ordered(marks) && FirstOffset(events, Visible, |events|).Some?
    requires ChunkTimes.Arrival(marks, FirstOffset(events, Visible, |events|).value).Some?
    ensures var delta, visible := FirstOffset(events, AnyDelta, |events|), FirstOffset(events, Visible, |events|);
            && delta.Some? && ChunkTimes.Arrival(marks, delta.value).Some?
            && ChunkTimes.Arrival(marks, delta.value).value <= ChunkTimes.Arrival(marks, visible.value).value
  {
    DeltaBeforeVisible(events, |events|);
    ChunkTimes.ArrivalIsMonotone(marks, FirstOffset(events, AnyDelta, |events|).value,
                                 FirstOffset(events, Visible, |events|).value);
  }

  // ----- Anthropic events -----

  datatype Kind = TextBlock | ToolUse | OtherBlock

  /** The input of a block: as given, empty, or from the joined fragments (parsed, or kept as text when malformed). */
  datatype Input = Given | Empty | FromJson(text: string)

  datatype ContentBlock = ContentBlock(kind: Kind, text: Option<string>, input: Input)

  datatype Delta = TextDelta(text: string) | JsonDelta(partial: string) | OtherDelta

  datatype MessageEvent =
    | MessageStart
    | BlockStart(index: nat, kind: Kind, given: Option<string>)
    | BlockDelta(index: nat, delta: Delta)
    | BlockStop(index: nat)
    | OtherEvent

  /** What the loop keeps for one content index: its block and its partial JSON. */
  datatype Slot = Slot(block: Option<ContentBlock>, partial: string)

  const FREE := Slot(None, "")

  /** An event addressed to the slot. The partial JSON outlives the block. */
  function SlotAfter(s: Slot, e: MessageEvent): Slot {
    match e
    case BlockStart(_, kind, given) =>
      s.(block := Some(ContentBlock(kind, if kind == TextBlock then Some("") else given,
                                    if kind == ToolUse then Empty else Given)))
    case BlockDelta(_, delta) =>
      if s.block.None? then s else
      (match delta
       case TextDelta(t) => s.(block := Some(s.block.value.(text := Some(s.block.value.text.GetOr("") + t))))
       case JsonDelta(p) => s.(partial := s.partial + p)
       case OtherDelta => s)
    case BlockStop(_) =>
      if s.block.Some? && s.block.value.kind == ToolUse && s.partial != "" then
        s.(block := Some(s.block.value.(input := FromJson(s.partial))))
      else s
    case MessageStart => s.(block := None)
    case OtherEvent => s
  }

  /** The event concerns the content index: it starts the message over, or it names the index. */
  predicate Concerns(e: MessageEvent, index: nat) {
    match e
    case MessageStart => true
    case OtherEvent => false
    case _ => e.index == index
  }

  /** The slot of an index, from the events that concern it alone. Before the message starts nothing is kept. */
  function SlotOf(events: seq<MessageEvent>, index: nat): Slot {
    if events == [] then FREE
    else
      var front, last := events[..|events| - 1], events[|events| - 1];
      if Concerns(last, index) && (Started(front) || last.MessageStart?) then SlotAfter(SlotOf(front, index), last)
      else SlotOf(front, index)
  }

  predicate Started(events: seq<MessageEvent>) {
    exists e | e in events :: e == MessageStart
  }

  ghost predicate Holds(content: map<nat, ContentBlock>, partials: map<nat, string>, events: seq<MessageEvent>) {
    forall i: nat :: HoldsAt(content, partials, events, i)
  }

  ghost predicate HoldsAt(content: map<nat, ContentBlock>, partials: map<nat, string>, events: seq<MessageEvent>,
                          i: nat) {
    SlotOf(events, i) ==
      Slot(if i in content then Some(content[i]) else None, if i in partials then partials[i] else "")
  }

  /** One turn of the loop of `reassembleAnthropicMessage`, once the message has started. */
  method HandleEvent(content0: map<nat, ContentBlock>, partials0: map<nat, string>, e: MessageEvent,
                     ghost events: seq<MessageEvent>)
    returns (content: map<nat, ContentBlock>, partialJsonByIndex: map<nat, string>)
    requires Holds(content0, partials0, events) && (Started(events) || e.MessageStart?)
    ensures Holds(content, partialJsonByIndex, events + [e])
  {
    content, partialJsonByIndex := content0, partials0;
    match e {
      case MessageStart =>
        content := map[];
      case BlockStart(idx, kind, given) =>
        content := content[idx := ContentBlock(kind, if kind == TextBlock then Some("") else given,
                                               if kind == ToolUse then Empty else Given)];
      case BlockDelta(idx, delta) =>
        if idx in content {
          var block := content[idx];
          match delta {
            case TextDelta(t) =>
              content := content[idx := block.(text := Some(block.text.GetOr("") + t))];
            case JsonDelta(p) =>
              var gathered := if idx in partialJsonByIndex then partialJsonByIndex[idx] else "";
              partialJsonByIndex := partialJsonByIndex[idx := gathered + p];
            case OtherDelta =>
          }
        }
      case BlockStop(idx) =>
        if idx in content && content[idx].kind == ToolUse {
          var partial := if idx in partialJsonByIndex then partialJsonByIndex[idx] else "";
          if partial != "" {
            content := content[idx := content[idx].(input := FromJson(partial))];
          }
        }
      case OtherEvent =>
    }
    forall i: nat ensures HoldsAt(content, partialJsonByIndex, events + [e], i) {
      assert HoldsAt(content0, partials0, events, i);
      OneMoreEvent(events, e, i);
    }
  }

  lemma OneMoreEvent(events: seq<MessageEvent>, e: MessageEvent, i: nat)
    ensures SlotOf(events + [e], i) ==
            if Concerns(e, i) && (Started(events) || e.MessageStart?) then SlotAfter(SlotOf(events, i), e)
            else SlotOf(events, i)
    ensures Started(events + [e]) <==> Started(events) || e.MessageStart?
  {
    assert (events + [e])[..|events|] == events;
    assert e in events + [e];
    assert forall x :: x in events + [e] <==> x in events || x == e;
  }

  /** `reassembleAnthropicMessage`: every index holds what its own events make of it; no message without a start. */
  method ReassembleAnthropicMessage(events: seq<MessageEvent>)
    returns (message: Option<map<nat, ContentBlock>>)
    ensures message.Some? <==> Started(events)
    ensures message.Some? ==> forall i: nat ::
              (if i in message.value then Some(message.value[i]) else None) == SlotOf(events, i).block
  {
    var content: map<nat, ContentBlock>, partialJsonByIndex: map<nat, string>, started := map[], map[], false;
    for k := 0 to |events|
      invariant started == Started(events[..k]) && Holds(content, partialJsonByIndex, events[..k])
    {
      assert events[..k + 1] == events[..k] + [events[k]];
      forall i: nat ensures SlotOf(events[..k + 1], i) == SlotOf(events[..k] + [events[k]], i) {
        OneMoreEvent(events[..k], events[k], i);
      }
      OneMoreEvent(events[..k], events[k], 0);
      if started || events[k].MessageStart? {
        content, partialJsonByIndex := HandleEvent(content, partialJsonByIndex, events[k], events[..k]);
        started := true;
      } else {
        ghost var now := events[..k + 1];
        forall i: nat ensures HoldsAt(content, partialJsonByIndex, now, i) {
          assert HoldsAt(content, partialJsonByIndex, events[..k], i);
          OneMoreEvent(events[..k], events[k], i);
        }
      }
    }
    assert events[..|events|] == events;
    if !started { return None; }
    forall i: nat ensures (if i in content then Some(content[i]) else None) == SlotOf(events, i).block {
      assert HoldsAt(content, partialJsonByIndex, events, i);
    }
    return Some(content);
  }

  // ----- Each index apart -----

  /** The events that concern an index, in order. */
  function About(events: seq<MessageEvent>, index: nat): seq<MessageEvent> {
    if events == [] then []
    else
      About(events[..|events| - 1], index)
      + (if Concerns(events[|events| - 1], index) then [events[|events| - 1]] else [])
  }

  /** A block does not depend on how the events of other blocks are interleaved with its own. */
  lemma {:induction false} OwnEventsDecide(events: seq<MessageEvent>, index: nat)
    ensures SlotOf(events, index) == SlotOf(About(events, index), index)
    ensures Started(events) <==> Started(About(events, index))
  {
    if events != [] {
      var front, last := events[..|events| - 1], events[|events| - 1];
      assert events == front + [last];
      OwnEventsDecide(front, index);
      OneMoreEvent(front, last, index);
      if Concerns(last, index) {
        assert About(events, index) == About(front, index) + [last];
        OneMoreEvent(About(front, index), last, index);
      } else {
        assert About(events, index) == About(front, index);
      }
    }
  }

  function TextsIn(events: seq<MessageEvent>, index: nat): string {
    if events == [] then ""
    else
      var last := events[|events| - 1];
      TextsIn(events[..|events| - 1], index)
      + (if last.BlockDelta? && last.index == index && last.delta.TextDelta? then last.delta.text else "")
  }

  function JsonIn(events: seq<MessageEvent>, index: nat): string {
    if events == [] then ""
    else
      var last := events[|events| - 1];
      JsonIn(events[..|events| - 1], index)
      + (if last.BlockDelta? && last.index == index && last.delta.JsonDelta? then last.delta.partial else "")
  }

  /** The slot of a block of this kind with these fragments. */
  ghost predicate Filled(slot: Slot, kind: Kind, text: string, partial: string) {
    slot.block.Some? && slot.block.value.kind == kind && (kind == TextBlock ==> slot.block.value.text == Some(text))
    && slot.partial == partial
  }

  lemma FillOne(slot: Slot, kind: Kind, events: seq<MessageEvent>, e: MessageEvent, index: nat, had: string)
    requires Filled(slot, kind, TextsIn(events, index), had + JsonIn(events, index))
    requires !e.MessageStart? && !(e.BlockStart? && e.index == index)
    ensures Filled(if Concerns(e, index) then SlotAfter(slot, e) else slot, kind,
                   TextsIn(events + [e], index), had + JsonIn(events + [e], index))
  {
    assert (events + [e])[..|events|] == events;
    assert TextsIn(events, index) + "" == TextsIn(events, index) && JsonIn(events, index) + "" == JsonIn(events, index);
    if e.BlockDelta? && e.delta.JsonDelta? {
      assert had + JsonIn(events, index) + e.delta.partial == had + (JsonIn(events, index) + e.delta.partial);
    }
  }

  /** After a block starts, and until it or the message starts again, its text and partial JSON are the concatenation
      of its fragments in order. */
  lemma {:induction false} FragmentsAreConcatenated(before: seq<MessageEvent>, index: nat, kind: Kind,
                                                    given: Option<string>, after: seq<MessageEvent>)
    requires Started(before) && forall e | e in after :: !e.MessageStart? && !(e.BlockStart? && e.index == index)
    ensures Filled(SlotOf(before + [BlockStart(index, kind, given)] + after, index), kind,
                   TextsIn(after, index), SlotOf(before, index).partial + JsonIn(after, index))
  {
    hide SlotOf;
    var start := before + [BlockStart(index, kind, given)];
    OneMoreEvent(before, BlockStart(index, kind, given), index);
    if after == [] {
      assert start + after == start;
    } else {
      var front, last := after[..|after| - 1], after[|after| - 1];
      assert last in after && forall e | e in front :: e in after;
      FragmentsAreConcatenated(before, index, kind, given, front);
      assert start + after == (start + front) + [last] && after == front + [last];
      OneMoreEvent(start + front, last, index);
      StillStarted(before, start + front);
      FillOne(SlotOf(start + front, index), kind, front, last, index, SlotOf(before, index).partial);
    }
  }

  lemma StillStarted(before: seq<MessageEvent>, events: seq<MessageEvent>)
    requires Started(before) && before <= events
    ensures Started(events)
  {
    var e :| e in before && e == MessageStart;
    assert e in events;
  }

  /** When a tool block whose index carried no JSON before stops, its input is read from its joined fragments. */
  lemma StopReadsFragments(before: seq<MessageEvent>, index: nat, given: Option<string>, after: seq<MessageEvent>)
    requires Started(before) && SlotOf(before, index).partial == ""
    requires forall e | e in after :: !e.MessageStart? && !(e.BlockStart? && e.index == index)
    requires JsonIn(after, index) != ""
    ensures var slot := SlotOf(before + [BlockStart(index, ToolUse, given)] + after + [BlockStop(index)], index);
            slot.block.Some? && slot.block.value.input == FromJson(JsonIn(after, index))
  {
    FragmentsAreConcatenated(before, index, ToolUse, given, after);
    var all := before + [BlockStart(index, ToolUse, given)] + after;
    StillStarted(before, all);
    OneMoreEvent(all, BlockStop(index), index);
  }

  /** Event k starts the block of this index in the message that is being told at the end. */
  ghost predicate Opens(events: seq<MessageEvent>, k: nat, index: nat) {
    && k < |events| && events[k].BlockStart? && events[k].index == index && Started(events[..k])
    && MessageStart !in events[k..]
  }

  /** An index holds a block exactly when one was started there in the message told last; a tool block
      has an input of its own, every other the one it came with. */
  lemma {:induction false} BlockIsThereIff(events: seq<MessageEvent>, index: nat)
    ensures SlotOf(events, index).block.Some? <==> exists k: nat :: Opens(events, k, index)
    ensures var block := SlotOf(events, index).block;
            block.Some? ==> (block.value.input == Given <==> block.value.kind != ToolUse)
  {
    if events != [] {
      var n := |events| - 1;
      BlockIsThereIff(events[..n], index);
      OneMoreEvent(events[..n], events[n], index);
      assert events[..n] + [events[n]] == events;
      forall k: nat ensures Opens(events, k, index) <==>
          || (k == n && events[n].BlockStart? && events[n].index == index && Started(events[..n]))
          || (Opens(events[..n], k, index) && events[n] != MessageStart)
      {
        OpensOneMore(events, k, index);
      }
      hide Opens, SlotOf;
      assert Opens(events, n, index) <==> events[n].BlockStart? && events[n].index == index && Started(events[..n]);
      if k: nat :| Opens(events[..n], k, index) {
        assert Opens(events, k, index) <==> events[n] != MessageStart;
      }
    }
  }

  lemma OpensOneMore(events: seq<MessageEvent>, k: nat, index: nat)
    requires events != []
    ensures var n := |events| - 1;
            Opens(events, k, index) <==>
              || (k == n && events[n].BlockStart? && events[n].index == index && Started(events[..n]))
              || (Opens(events[..n], k, index) && events[n] != MessageStart)
  {
    var n := |events| - 1;
    if k < n {
      assert events[..n][..k] == events[..k] && events[k..] == events[..n][k..] + [events[n]];
    }
  }

  // ----- First delta and first visible delta of a message -----

  datatype TimedEvent = TimedEvent(event: MessageEvent, offset: nat)

  predicate IsVisible(e: MessageEvent) {
    e.BlockDelta? && !e.delta.OtherDelta?
  }

  /** The offset of the first delta, or first visible delta, after the message started among the first `n` events. */
  function FirstDelta(events: seq<TimedEvent>, visible: bool, n: nat): Option<nat>
    requires n <= |events|
  {
    if n == 0 then None
    else if FirstDelta(events, visible, n - 1).Some? then FirstDelta(events, visible, n - 1)
    else if StartedBy(events, n - 1) && events[n - 1].event.BlockDelta? && (visible ==> IsVisible(events[n - 1].event))
    then Some(events[n - 1].offset) else None
  }

  predicate StartedBy(events: seq<TimedEvent>, n: nat)
    requires n <= |events|
  {
    n > 0 && (events[n - 1].event.MessageStart? || StartedBy(events, n - 1))
  }

  /** Event k brings something after a message started: any delta or, to be visible, text or part of an input. */
  predicate Brings(events: seq<TimedEvent>, k: nat, visible: bool)
    requires k < |events|
  {
    && events[k].event.BlockDelta?
    && (visible ==> events[k].event.delta.TextDelta? || events[k].event.delta.JsonDelta?)
    && exists j :: 0 <= j < k && events[j].event.MessageStart?
  }

  /** The first offsets are those of the first events that bring something, and none exactly when none does. */
  lemma {:induction false} FirstMessageOffsetsAre(events: seq<TimedEvent>, visible: bool, n: nat)
    requires n <= |events|
    ensures FirstDelta(events, visible, n).None? <==> forall k | 0 <= k < n :: !Brings(events, k, visible)
    ensures forall k | 0 <= k < n && Brings(events, k, visible)
                       && forall j | 0 <= j < k :: !Brings(events, j, visible) ::
              FirstDelta(events, visible, n) == Some(events[k].offset)
  {
    if n > 0 {
      FirstMessageOffsetsAre(events, visible, n - 1);
      StartedByIff(events, n - 1);
      assert Brings(events, n - 1, visible) <==>
             && StartedBy(events, n - 1) && events[n - 1].event.BlockDelta?
             && (visible ==> IsVisible(events[n - 1].event));
    }
  }

  lemma {:induction false} StartedByIff(events: seq<TimedEvent>, n: nat)
    requires n <= |events|
    ensures StartedBy(events, n) <==> exists j :: 0 <= j < n && events[j].event.MessageStart?
  {
    if n > 0 { StartedByIff(events, n - 1); }
  }

  /** The part of the loop of `reassembleAnthropicMessage` that notes the first deltas. */
  method NoteDeltas(events: seq<TimedEvent>) returns (firstDeltaOffset: Option<nat>, firstVisibleOffset: Option<nat>)
    ensures firstDeltaOffset == FirstDelta(events, false, |events|)
            && firstVisibleOffset == FirstDelta(events, true, |events|)
  {
    firstDeltaOffset, firstVisibleOffset := None, None;
    var started := false;
    for i := 0 to |events|
      invariant started == StartedBy(events, i)
      invariant firstDeltaOffset == FirstDelta(events, false, i) && firstVisibleOffset == FirstDelta(events, true, i)
    {
      var e := events[i].event;
      if e.MessageStart? {
        started := true;
      } else if e.BlockDelta? && started {
        if firstDeltaOffset.None? { firstDeltaOffset := Some(events[i].offset); }
        if firstVisibleOffset.None? && !e.delta.OtherDelta? { firstVisibleOffset := Some(events[i].offset); }
      }
    }
  }

  lemma {:induction false} FirstDeltaFrom(events: seq<TimedEvent>, n: nat)
    requires n <= |events| && forall j, k | 0 <= j < k < |events| :: events[j].offset < events[k].offset
    ensures FirstDelta(events, false, n).Some? ==>
              exists k | 0 <= k < n :: events[k].offset == FirstDelta(events, false, n).value
    ensures FirstDelta(events, true, n).Some? ==>
              FirstDelta(events, false, n).Some?
              && FirstDelta(events, false, n).value <= FirstDelta(events, true, n).value
  {
    if n > 0 { FirstDeltaFrom(events, n - 1); }
  }

  /** The same ordering of first times for a streamed message. */
  lemma FirstMessageDeltaComesFirst(events: seq<TimedEvent>, marks: seq<ChunkTimes.ChunkMark>)
    requires forall j, k | 0 <= j < k < |events| :: events[j].offset < events[k].offset
    requires ChunkTimes.Ordered(marks) && FirstDelta(events, true, |events|).Some?
    requires ChunkTimes.Arrival(marks, FirstDelta(events, true, |events|).value).Some?
    ensures var delta, visible := FirstDelta(events, false, |events|), FirstDelta(events, true, |events|);
            && delta.Some? && ChunkTimes.Arrival(marks, delta.value).Some?
            && ChunkTimes.Arrival(marks, delta.value).value <= ChunkTimes.Arrival(marks, visible.value).value
  {
    FirstDeltaFrom(events, |events|);
    ChunkTimes.ArrivalIsMonotone(marks, FirstDelta(events, false, |events|).value,
                                 FirstDelta(events, true, |events|).value);
  }
}

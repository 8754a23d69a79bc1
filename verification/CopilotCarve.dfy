/** The Copilot carve loop: steps numbered and chained per run, tool starts paired with completions. */
module CopilotCarve {
  import opened Wrappers
  import StepTable

  type RunId = StepTable.RunId
  type StepId = StepTable.StepId

  datatype Kind = Message | Usage | Tool(callId: string) | Dispatch

  datatype Outcome = Pending | Settled(isError: bool)

  datatype Step = Step(id: StepId, parent: Option<StepId>, seqNo: nat, kind: Kind, outcome: Outcome)

  /** Build state of one run; `dispatch` is the step of another run that spawned it. */
  datatype Ctx = Ctx(run: RunId, steps: seq<Step>, seqNo: nat, prev: Option<StepId>, turnStep: Option<nat>,
                     dispatch: Option<(nat, nat)>)

  /** Entry of the pendingTools map, which keeps insertion order. */
  datatype PendingTool = PendingTool(run: RunId, callId: string, ctx: nat, step: nat)

  /** One event, already routed. `key` is the event's id key. */
  datatype Event =
    | UserMessage
    | AssistantMessage
    | TurnStart
    | TurnEnd(hasUsage: bool)
    | ToolStart(callId: Option<string>)
    | ToolComplete(completed: Option<string>, isError: bool)
    | SubagentStarted(dispatcher: nat, childRun: Option<RunId>)
    | SubagentCompleted(child: Option<nat>)
    | SessionShutdown(input: nat, cachedRead: nat, cacheWrite: nat)
    | Other

  /** The carve's whole state. */
  datatype Carving = Carving(ctxs: seq<Ctx>, pending: seq<PendingTool>)

  /** Steps are numbered 0, 1, 2, ... and each is chained to the one before it. */
  ghost predicate Chained(c: Ctx) {
    && c.seqNo == |c.steps|
    && c.prev == Before(c.steps, |c.steps|)
    && (forall i | 0 <= i < |c.steps| :: c.steps[i].seqNo == i)
    && (forall i | 0 <= i < |c.steps| :: c.steps[i].parent == Before(c.steps, i))
    && (c.turnStep.Some? ==> c.turnStep.value < |c.steps| && c.steps[c.turnStep.value].kind == Message)
  }

  /** The id of the step before index i. */
  function Before(steps: seq<Step>, i: nat): Option<StepId>
    requires i <= |steps|
  {
    if i == 0 then None else Some(steps[i - 1].id)
  }

  ghost predicate PointsAt(ctxs: seq<Ctx>, p: PendingTool) {
    && p.ctx < |ctxs| && p.step < |ctxs[p.ctx].steps|
    && ctxs[p.ctx].run == p.run
    && ctxs[p.ctx].steps[p.step].kind == Tool(p.callId)
    && ctxs[p.ctx].steps[p.step].outcome == Pending
  }

  ghost predicate DispatchOk(ctxs: seq<Ctx>, c: Ctx) {
    c.dispatch.Some? ==>
      var (parent, step) := c.dispatch.value;
      parent < |ctxs| && step < |ctxs[parent].steps| && ctxs[parent].steps[step].kind == Dispatch
  }

  ghost predicate RunsOk(ctxs: seq<Ctx>) {
    && ctxs != []
    && (forall i | 0 <= i < |ctxs| :: Chained(ctxs[i]) && DispatchOk(ctxs, ctxs[i]))
  }

  /** Different keys, and different tool steps. */
  predicate Apart(p: PendingTool, q: PendingTool) {
    !(p.run == q.run && p.callId == q.callId) && !(p.ctx == q.ctx && p.step == q.step)
  }

  ghost predicate PendingOk(ctxs: seq<Ctx>, pending: seq<PendingTool>) {
    && (forall k | 0 <= k < |pending| :: PointsAt(ctxs, pending[k]))
    && (forall j, k | 0 <= j < k < |pending| :: Apart(pending[j], pending[k]))
  }

  /** No step is dropped, renumbered or re-chained, and a settled tool outcome is never rewritten. */
  ghost predicate Grew(before: seq<Ctx>, after: seq<Ctx>) {
    && |before| <= |after|
    && forall i | 0 <= i < |before| ::
         && after[i].run == before[i].run && |before[i].steps| <= |after[i].steps|
         && forall s | 0 <= s < |before[i].steps| :: Kept(before[i].steps[s], after[i].steps[s])
  }

  ghost predicate Kept(before: Step, after: Step) {
    && after.(outcome := before.outcome) == before
    && (before.kind.Tool? && before.outcome != Pending ==> after.outcome == before.outcome)
  }

  /** The pending entry a completion resolves: the one its own run started under this call id, or
      else the oldest one its context started. */
  ghost predicate Resolves(ctxs: seq<Ctx>, pending: seq<PendingTool>, ctx: nat, callId: Option<string>, k: nat)
    requires ctx < |ctxs|
  {
    && k < |pending|
    && if callId.Some? && exists j :: 0 <= j < |pending| && Keyed(pending[j], ctxs[ctx].run, callId.value)
       then Keyed(pending[k], ctxs[ctx].run, callId.value)
       else pending[k].ctx == ctx && forall j | 0 <= j < k :: pending[j].ctx != ctx
  }

  predicate Keyed(p: PendingTool, run: RunId, callId: string) {
    p.run == run && p.callId == callId
  }

  class Carve {
    var ctxs: seq<Ctx>
    var pending: seq<PendingTool>

    constructor (run: RunId)
      ensures Valid() && ctxs == [Ctx(run, [], 0, None, None, None)] && pending == []
    {
      ctxs, pending := [Ctx(run, [], 0, None, None, None)], [];
    }

    ghost predicate Valid()
      reads this
    {
      RunsOk(ctxs) && PendingOk(ctxs, pending)
    }

    ghost function State(): Carving
      reads this
    {
      Carving(ctxs, pending)
    }

    /** `addStep`: append, chain, number. */
    method AddStep(ctx: nat, key: string, kind: Kind, outcome: Outcome) returns (index: nat)
      requires Valid() && ctx < |ctxs|
      modifies this`ctxs
      ensures Valid() && Grew(old(ctxs), ctxs) && ToolsUntouched(old(ctxs), ctxs)
      ensures index == |old(ctxs)[ctx].steps|
      ensures ctxs == old(ctxs)[ctx := Appended(old(ctxs)[ctx], key, kind, outcome)]
    {
      AppendKeeps(ctxs, ctx, key, kind, outcome);
      var c := ctxs[ctx];
      assert Chained(c);
      var id := StepTable.Deterministic(c.run, key);
      index := |c.steps|;
      ctxs := ctxs[ctx := c.(steps := c.steps + [Step(id, c.prev, c.seqNo, kind, outcome)],
                             prev := Some(id), seqNo := c.seqNo + 1)];
    }

    /** `tool.execution_start`: a pending step, registered under (run, call id); a repeated key keeps
        its place in the map and points at the newer step. */
    method StartTool(ctx: nat, key: string, callId: string)
      requires Valid() && ctx < |ctxs|
      modifies this
      ensures Valid() && Grew(old(ctxs), ctxs) && ToolsUntouched(old(ctxs), ctxs)
      ensures ctxs == old(ctxs)[ctx := Appended(old(ctxs)[ctx], key, Tool(callId), Pending)]
      ensures pending == WithEntry(old(pending), PendingTool(old(ctxs)[ctx].run, callId, ctx, |old(ctxs)[ctx].steps|))
    {
      ghost var before := ctxs;
      var index := AddStep(ctx, key, Tool(callId), Pending);
      var entry := PendingTool(ctxs[ctx].run, callId, ctx, index);
      EntryKeepsPending(before, ctxs, pending, entry);
      var at := FindKey(entry.run, callId);
      pending := if at < |pending| then pending[at := entry] else pending + [entry];
    }

    /** `tool.execution_complete`. */
    method CompleteTool(ctx: nat, callId: Option<string>, isError: bool) returns (hit: Option<nat>)
      requires Valid() && ctx < |ctxs|
      modifies this
      ensures Valid() && Grew(old(ctxs), ctxs)
      ensures hit.None? ==> ctxs == old(ctxs) && pending == old(pending)
      ensures hit.None? <==> forall k | 0 <= k < |old(pending)| :: !Resolves(old(ctxs), old(pending), ctx, callId, k)
      ensures hit.Some? ==>
                && Resolves(old(ctxs), old(pending), ctx, callId, hit.value)
                && PointsAt(old(ctxs), old(pending)[hit.value])
                && ctxs == Settle(old(ctxs), old(pending)[hit.value].ctx, old(pending)[hit.value].step, isError)
                && pending == old(pending)[..hit.value] + old(pending)[hit.value + 1..]
                && old(pending)[hit.value].run == old(ctxs)[ctx].run
      ensures Completes(old(State()), State(), ctx, callId, isError)
    {
      var k := FindPending(ctx, callId);
      if k == |pending| {
        return None;
      }
      var p := pending[k];
      assert PointsAt(ctxs, p) && Resolves(ctxs, pending, ctx, callId, k);
      SettleKeepsRuns(ctxs, p.ctx, p.step, isError);
      SettleKeepsPending(ctxs, pending, k, isError);
      ghost var before := State();
      ctxs := Settle(ctxs, p.ctx, p.step, isError);
      pending := pending[..k] + pending[k + 1..];
      assert CompletesAt(before, State(), ctx, callId, isError, k);
      return Some(k);
    }

    /** `subagent.started`: a dispatch step of the dispatching run and, when the event has an id to
        correlate by, a child run; without one the dispatch is settled at once. */
    method StartSubagent(dispatcher: nat, key: string, childRun: Option<RunId>)
      requires Valid() && dispatcher < |ctxs|
      modifies this`ctxs
      ensures Valid() && Grew(old(ctxs), ctxs) && ToolsUntouched(old(ctxs), ctxs)
      ensures ctxs == Dispatched(old(ctxs), dispatcher, key, childRun)
    {
      ghost var before := ctxs;
      var index := AddStep(dispatcher, key, Dispatch, Pending);
      if childRun.None? {
        SettleKeepsRuns(ctxs, dispatcher, index, false);
        SettleKeepsOthers(ctxs, pending, dispatcher, index, false);
        AppendThenSettle(before, dispatcher, key, Dispatch);
        ctxs := Settle(ctxs, dispatcher, index, false);
      } else {
        var child := Ctx(childRun.value, [], 0, None, None, Some((dispatcher, index)));
        SpawnKeeps(ctxs, pending, child);
        ctxs := ctxs + [child];
      }
    }

    /** `subagent.completed`: the dispatch step that spawned the child is settled. */
    method CompleteSubagent(child: nat)
      requires Valid() && child < |ctxs|
      modifies this`ctxs
      ensures Valid() && Grew(old(ctxs), ctxs) && ToolsUntouched(old(ctxs), ctxs)
      ensures ctxs == if old(ctxs)[child].dispatch.None? then old(ctxs)
                      else Settle(old(ctxs), old(ctxs)[child].dispatch.value.0, old(ctxs)[child].dispatch.value.1,
                                  false)
    {
      assert DispatchOk(ctxs, ctxs[child]);
      if ctxs[child].dispatch.Some? {
        var (parent, step) := ctxs[child].dispatch.value;
        SettleKeepsRuns(ctxs, parent, step, false);
        SettleKeepsOthers(ctxs, pending, parent, step, false);
        ctxs := Settle(ctxs, parent, step, false);
      }
    }

    method SetTurnStep(ctx: nat, turnStep: Option<nat>)
      requires Valid() && ctx < |ctxs|
      requires turnStep.Some? ==> turnStep.value < |ctxs[ctx].steps| && ctxs[ctx].steps[turnStep.value].kind == Message
      modifies this`ctxs
      ensures Valid() && Grew(old(ctxs), ctxs) && ToolsUntouched(old(ctxs), ctxs)
      ensures ctxs == old(ctxs)[ctx := old(ctxs)[ctx].(turnStep := turnStep)]
    {
      TurnStepKeeps(ctxs, pending, ctx, turnStep);
      ctxs := ctxs[ctx := ctxs[ctx].(turnStep := turnStep)];
    }

    /** One event, routed to context `ctx`. */
    method Handle(ctx: nat, key: string, e: Event)
      requires Valid() && ctx < |ctxs|
      modifies this
      ensures Valid() && Grew(old(ctxs), ctxs)
      ensures Transition(old(State()), State(), ctx, key, e)
      ensures OwnRunOnly(old(ctxs), ctxs, ctx, e)
    {
      hide OwnRunOnly, Completes, Grew;
      ghost var before := State();
      if e.ToolComplete? {
        var _ := CompleteTool(ctx, e.completed, e.isError);
        CompletesOwn(before, State(), ctx, e);
      } else {
        HandleOther(ctx, key, e);
        UntouchedIsOwn(before.ctxs, ctxs, ctx, e);
      }
    }

    /** Every event but a tool completion. */
    method HandleOther(ctx: nat, key: string, e: Event)
      requires Valid() && ctx < |ctxs| && !e.ToolComplete?
      modifies this
      ensures Valid() && Grew(old(ctxs), ctxs) && ToolsUntouched(old(ctxs), ctxs)
      ensures Transition(old(State()), State(), ctx, key, e)
    {
      match e
      case UserMessage =>
        var _ := AddStep(ctx, key, Message, Settled(false));
      case AssistantMessage =>
        AddMessage(ctx, key);
      case TurnStart =>
        SetTurnStep(ctx, None);
      case TurnEnd(hasUsage) =>
        if hasUsage {
          EndTurn(ctx, key);
        }
      case ToolStart(callId) =>
        StartTool(ctx, key, callId.GetOr(key));
      case SubagentStarted(dispatcher, childRun) =>
        StartSubagent(if dispatcher < |ctxs| then dispatcher else ctx, key, childRun);
      case SubagentCompleted(child) =>
        if child.Some? && child.value < |ctxs| {
          CompleteSubagent(child.value);
        }
      case SessionShutdown(input, cachedRead, cacheWrite) =>
        if input + cachedRead + cacheWrite > 0 {
          var _ := AddStep(ctx, key, Usage, Settled(false));
        }
      case Other =>
    }

    method AddMessage(ctx: nat, key: string)
      requires Valid() && ctx < |ctxs|
      modifies this`ctxs
      ensures Valid() && Grew(old(ctxs), ctxs) && ToolsUntouched(old(ctxs), ctxs)
      ensures ctxs ==
                old(ctxs)[ctx := Appended(old(ctxs)[ctx], key, Message,
                                          Settled(false)).(turnStep := Some(|old(ctxs)[ctx].steps|))]
    {
      var index := AddStep(ctx, key, Message, Settled(false));
      SetTurnStep(ctx, Some(index));
    }

    /** Usage lands on the turn's assistant step, or on a synthetic step when the turn had none. */
    method EndTurn(ctx: nat, key: string)
      requires Valid() && ctx < |ctxs|
      modifies this`ctxs
      ensures Valid() && Grew(old(ctxs), ctxs) && ToolsUntouched(old(ctxs), ctxs)
      ensures ctxs == old(ctxs)[ctx := (if old(ctxs)[ctx].turnStep.None?
                                        then Appended(old(ctxs)[ctx], "turn_" + key, Usage, Settled(false))
                                        else old(ctxs)[ctx]).(turnStep := None)]
    {
      if ctxs[ctx].turnStep.None? {
        var _ := AddStep(ctx, "turn_" + key, Usage, Settled(false));
      }
      SetTurnStep(ctx, None);
    }

    method FindKey(run: RunId, callId: string) returns (k: nat)
      ensures k == KeyIndex(pending, run, callId)
    {
      k := 0;
      while k < |pending| && !Keyed(pending[k], run, callId)
        invariant 0 <= k <= |pending|
        invariant forall j | 0 <= j < k :: !Keyed(pending[j], run, callId)
      {
        k := k + 1;
      }
    }

    /** Look the call up in the completion's own run, then fall back to the oldest pending step of its context. */
    method FindPending(ctx: nat, callId: Option<string>) returns (k: nat)
      requires PendingOk(ctxs, pending) && ctx < |ctxs|
      ensures k <= |pending|
      ensures k < |pending| ==> Resolves(ctxs, pending, ctx, callId, k)
      ensures k == |pending| ==> forall j | 0 <= j < |pending| :: !Resolves(ctxs, pending, ctx, callId, j)
    {
      if callId.Some? {
        k := FindKey(ctxs[ctx].run, callId.value);
        if k < |pending| {
          return;
        }
      }
      k := 0;
      while k < |pending|
        invariant 0 <= k <= |pending|
        invariant forall j | 0 <= j < k :: pending[j].ctx != ctx
      {
        assert PointsAt(ctxs, pending[k]);
        if pending[k].ctx == ctx && ctxs[pending[k].ctx].steps[pending[k].step].outcome == Pending {
          return;
        }
        k := k + 1;
      }
    }
  }

  /** Where a key sits in the map, or past the end. */
  function KeyIndex(pending: seq<PendingTool>, run: RunId, callId: string): (k: nat)
    ensures k <= |pending| && (k < |pending| ==> Keyed(pending[k], run, callId))
    ensures forall j | 0 <= j < k :: !Keyed(pending[j], run, callId)
  {
    if pending == [] || Keyed(pending[0], run, callId) then 0 else 1 + KeyIndex(pending[1..], run, callId)
  }

  /** Map.set: an existing key keeps its place, a new one goes last. */
  function WithEntry(pending: seq<PendingTool>, entry: PendingTool): seq<PendingTool> {
    var k := KeyIndex(pending, entry.run, entry.callId);
    if k < |pending| then pending[k := entry] else pending + [entry]
  }

  /** Registering a step appended just now keeps the pending map consistent. */
  lemma EntryKeepsPending(before: seq<Ctx>, after: seq<Ctx>, pending: seq<PendingTool>, entry: PendingTool)
    requires PendingOk(before, pending) && PendingOk(after, pending) && PointsAt(after, entry)
    requires entry.ctx < |before| && entry.step == |before[entry.ctx].steps|
    ensures PendingOk(after, WithEntry(pending, entry))
  {
  }

  function Appended(c: Ctx, key: string, kind: Kind, outcome: Outcome): Ctx {
    var id := StepTable.Deterministic(c.run, key);
    c.(steps := c.steps + [Step(id, Before(c.steps, |c.steps|), |c.steps|, kind, outcome)],
       prev := Some(id), seqNo := |c.steps| + 1)
  }

  /** The context lists a dispatch leaves; the child run knows the step that spawned it. */
  function Dispatched(ctxs: seq<Ctx>, dispatcher: nat, key: string, childRun: Option<RunId>): seq<Ctx>
    requires dispatcher < |ctxs|
  {
    var outcome := if childRun.None? then Settled(false) else Pending;
    ctxs[dispatcher := Appended(ctxs[dispatcher], key, Dispatch, outcome)]
    + (if childRun.None? then []
       else [Ctx(childRun.value, [], 0, None, None, Some((dispatcher, |ctxs[dispatcher].steps|)))])
  }

  lemma AppendThenSettle(ctxs: seq<Ctx>, ctx: nat, key: string, kind: Kind)
    requires ctx < |ctxs|
    ensures Settle(ctxs[ctx := Appended(ctxs[ctx], key, kind, Pending)], ctx, |ctxs[ctx].steps|, false)
         == ctxs[ctx := Appended(ctxs[ctx], key, kind, Settled(false))]
  {
    var c := ctxs[ctx];
    var pending, settled := Appended(c, key, kind, Pending), Appended(c, key, kind, Settled(false));
    assert pending.steps[|c.steps| := pending.steps[|c.steps|].(outcome := Settled(false))] == settled.steps;
  }

  /** What one event, routed to context `ctx`, makes of the carve. */
  ghost predicate Transition(before: Carving, after: Carving, ctx: nat, key: string, e: Event)
    requires ctx < |before.ctxs|
  {
    var c := before.ctxs[ctx];
    match e
    case UserMessage => after == before.(ctxs := before.ctxs[ctx := Appended(c, key, Message, Settled(false))])
    case AssistantMessage =>
      after ==
        before.(ctxs := before.ctxs[ctx := Appended(c, key, Message, Settled(false)).(turnStep := Some(|c.steps|))])
    case TurnStart => after == before.(ctxs := before.ctxs[ctx := c.(turnStep := None)])
    case TurnEnd(hasUsage) =>
      after == if !hasUsage then before
               else
                 var ended := if c.turnStep.None? then Appended(c, "turn_" + key, Usage, Settled(false)) else c;
                 before.(ctxs := before.ctxs[ctx := ended.(turnStep := None)])
    case ToolStart(callId) =>
      && after.ctxs == before.ctxs[ctx := Appended(c, key, Tool(callId.GetOr(key)), Pending)]
      && after.pending == WithEntry(before.pending, PendingTool(c.run, callId.GetOr(key), ctx, |c.steps|))
    case ToolComplete(callId, isError) => Completes(before, after, ctx, callId, isError)
    case SubagentStarted(dispatcher, childRun) =>
      after ==
        before.(ctxs := Dispatched(before.ctxs, if dispatcher < |before.ctxs| then dispatcher else ctx, key, childRun))
    case SubagentCompleted(child) =>
      if child.Some? && child.value < |before.ctxs| && before.ctxs[child.value].dispatch.Some? then
        var (parent, step) := before.ctxs[child.value].dispatch.value;
        parent < |before.ctxs| && step < |before.ctxs[parent].steps|
        && after == before.(ctxs := Settle(before.ctxs, parent, step, false))
      else after == before
    case SessionShutdown(input, cachedRead, cacheWrite) =>
      after == if input + cachedRead + cacheWrite == 0 then before
               else before.(ctxs := before.ctxs[ctx := Appended(c, key, Usage, Settled(false))])
    case Other => after == before
  }

  /** A completion settles the step of the one entry it resolves and drops that entry; when it
      resolves none, nothing happens. */
  ghost predicate Completes(before: Carving, after: Carving, ctx: nat, callId: Option<string>, isError: bool)
    requires ctx < |before.ctxs|
  {
    if exists k :: Resolves(before.ctxs, before.pending, ctx, callId, k) then
      exists k :: CompletesAt(before, after, ctx, callId, isError, k)
    else after == before
  }

  ghost predicate CompletesAt(before: Carving, after: Carving, ctx: nat, callId: Option<string>, isError: bool, k: nat)
    requires ctx < |before.ctxs|
  {
    && Resolves(before.ctxs, before.pending, ctx, callId, k)
    && PointsAt(before.ctxs, before.pending[k])
    && after.ctxs == Settle(before.ctxs, before.pending[k].ctx, before.pending[k].step, isError)
    && after.pending == before.pending[..k] + before.pending[k + 1..]
  }

  /** A completion resolves at most one entry, and a live call of its own run is the one. */
  lemma ResolvesOne(ctxs: seq<Ctx>, pending: seq<PendingTool>, ctx: nat, callId: Option<string>, j: nat, k: nat)
    requires PendingOk(ctxs, pending) && ctx < |ctxs|
    requires Resolves(ctxs, pending, ctx, callId, k)
    ensures Resolves(ctxs, pending, ctx, callId, j) ==> j == k
    ensures callId.Some? && j < |pending| && Keyed(pending[j], ctxs[ctx].run, callId.value) ==> j == k
  {
    if j < |pending| && j != k {
      assert Apart(pending[if j < k then j else k], pending[if j < k then k else j]);
    }
  }

  lemma AppendedChained(c: Ctx, key: string, kind: Kind, outcome: Outcome)
    requires Chained(c)
    ensures Chained(Appended(c, key, kind, outcome))
  {
  }

  lemma AppendKeeps(ctxs: seq<Ctx>, ctx: nat, key: string, kind: Kind, outcome: Outcome)
    requires RunsOk(ctxs) && ctx < |ctxs|
    ensures RunsOk(ctxs[ctx := Appended(ctxs[ctx], key, kind, outcome)])
    ensures Grew(ctxs, ctxs[ctx := Appended(ctxs[ctx], key, kind, outcome)])
    ensures forall p | PointsAt(ctxs, p) :: PointsAt(ctxs[ctx := Appended(ctxs[ctx], key, kind, outcome)], p)
  {
    var after := ctxs[ctx := Appended(ctxs[ctx], key, kind, outcome)];
    AppendedChained(ctxs[ctx], key, kind, outcome);
    assert Grew(ctxs, after);
    forall i | 0 <= i < |ctxs| ensures Chained(after[i]) && DispatchOk(after, after[i]) {
      assert Chained(ctxs[i]) && DispatchOk(ctxs, ctxs[i]);
      DispatchGrows(ctxs, after, ctxs[i]);
    }
  }

  predicate SameButOutcome(a: Step, b: Step) {
    a.id == b.id && a.seqNo == b.seqNo && a.parent == b.parent && a.kind == b.kind
  }

  /** Rewriting one outcome leaves numbering, chaining and kinds alone. */
  lemma OutcomeKeepsChained(c: Ctx, s: nat, outcome: Outcome)
    requires Chained(c) && s < |c.steps|
    ensures Chained(c.(steps := c.steps[s := c.steps[s].(outcome := outcome)]))
  {
    var changed := c.steps[s := c.steps[s].(outcome := outcome)];
    assert forall i | 0 <= i < |changed| :: SameButOutcome(changed[i], c.steps[i]);
    forall i | 0 <= i < |changed| ensures changed[i].seqNo == i && changed[i].parent == Before(changed, i) {
      assert i > 0 ==> SameButOutcome(changed[i - 1], c.steps[i - 1]);
      assert SameButOutcome(changed[i], c.steps[i]);
    }
    assert |changed| > 0 ==> SameButOutcome(changed[|changed| - 1], c.steps[|changed| - 1]);
  }

  function Settle(ctxs: seq<Ctx>, ctx: nat, step: nat, isError: bool): seq<Ctx>
    requires ctx < |ctxs| && step < |ctxs[ctx].steps|
  {
    ctxs[ctx := ctxs[ctx].(steps := ctxs[ctx].steps[step := ctxs[ctx].steps[step].(outcome := Settled(isError))])]
  }

  lemma SettleKeepsRuns(ctxs: seq<Ctx>, ctx: nat, step: nat, isError: bool)
    requires RunsOk(ctxs) && ctx < |ctxs| && step < |ctxs[ctx].steps|
    requires ctxs[ctx].steps[step].kind.Tool? ==> ctxs[ctx].steps[step].outcome == Pending
    ensures RunsOk(Settle(ctxs, ctx, step, isError)) && Grew(ctxs, Settle(ctxs, ctx, step, isError))
  {
    var after := Settle(ctxs, ctx, step, isError);
    OutcomeKeepsChained(ctxs[ctx], step, Settled(isError));
    assert Grew(ctxs, after);
    forall i | 0 <= i < |ctxs| ensures Chained(after[i]) && DispatchOk(after, after[i]) {
      assert Chained(ctxs[i]) && DispatchOk(ctxs, ctxs[i]);
      DispatchGrows(ctxs, after, ctxs[i]);
    }
  }

  lemma SettleKeepsPending(ctxs: seq<Ctx>, pending: seq<PendingTool>, k: nat, isError: bool)
    requires PendingOk(ctxs, pending) && k < |pending| && PointsAt(ctxs, pending[k])
    ensures PendingOk(Settle(ctxs, pending[k].ctx, pending[k].step, isError), pending[..k] + pending[k + 1..])
  {
  }

  lemma DispatchGrows(before: seq<Ctx>, after: seq<Ctx>, c: Ctx)
    requires Grew(before, after) && DispatchOk(before, c)
    ensures DispatchOk(after, c)
  {
    if c.dispatch.Some? {
      var (parent, step) := c.dispatch.value;
      assert Kept(before[parent].steps[step], after[parent].steps[step]);
    }
  }

  /** No tool step's outcome differs. */
  ghost predicate ToolsUntouched(before: seq<Ctx>, after: seq<Ctx>) {
    forall i, s | 0 <= i < |before| && 0 <= s < |before[i].steps| && before[i].steps[s].kind.Tool? ::
      i < |after| && s < |after[i].steps| && after[i].steps[s] == before[i].steps[s]
  }

  lemma SettleKeepsOthers(ctxs: seq<Ctx>, pending: seq<PendingTool>, ctx: nat, step: nat, isError: bool)
    requires PendingOk(ctxs, pending) && ctx < |ctxs| && step < |ctxs[ctx].steps| && !ctxs[ctx].steps[step].kind.Tool?
    ensures PendingOk(Settle(ctxs, ctx, step, isError), pending)
            && ToolsUntouched(ctxs, Settle(ctxs, ctx, step, isError))
  {
  }

  lemma SpawnKeeps(ctxs: seq<Ctx>, pending: seq<PendingTool>, child: Ctx)
    requires RunsOk(ctxs) && PendingOk(ctxs, pending) && Chained(child) && DispatchOk(ctxs, child)
    ensures RunsOk(ctxs + [child]) && PendingOk(ctxs + [child], pending)
    ensures Grew(ctxs, ctxs + [child]) && ToolsUntouched(ctxs, ctxs + [child])
  {
  }

  lemma TurnStepKeeps(ctxs: seq<Ctx>, pending: seq<PendingTool>, ctx: nat, turnStep: Option<nat>)
    requires RunsOk(ctxs) && PendingOk(ctxs, pending) && ctx < |ctxs|
    requires turnStep.Some? ==> turnStep.value < |ctxs[ctx].steps| && ctxs[ctx].steps[turnStep.value].kind == Message
    ensures var after := ctxs[ctx := ctxs[ctx].(turnStep := turnStep)];
            RunsOk(after) && PendingOk(after, pending) && Grew(ctxs, after) && ToolsUntouched(ctxs, after)
  {
    var after := ctxs[ctx := ctxs[ctx].(turnStep := turnStep)];
    assert Grew(ctxs, after);
    forall i | 0 <= i < |ctxs| ensures Chained(after[i]) && DispatchOk(after, after[i]) {
      assert Chained(ctxs[i]) && DispatchOk(ctxs, ctxs[i]);
      DispatchGrows(ctxs, after, ctxs[i]);
    }
    forall k | 0 <= k < |pending| ensures PointsAt(after, pending[k]) {
      assert PointsAt(ctxs, pending[k]);
    }
  }

  ghost predicate OutcomeChanged(before: seq<Ctx>, after: seq<Ctx>, i: nat, s: nat) {
    && i < |before| && s < |before[i].steps| && before[i].steps[s].kind.Tool?
    && !(i < |after| && s < |after[i].steps| && after[i].steps[s].outcome == before[i].steps[s].outcome)
  }

  /** Only a completion changes a tool outcome, at most one of them, of a step that was pending in
      a context of the run the completion was routed to. */
  ghost predicate OwnRunOnly(before: seq<Ctx>, after: seq<Ctx>, ctx: nat, e: Event)
    requires ctx < |before|
  {
    && (forall i: nat, s: nat | OutcomeChanged(before, after, i, s) ::
          e.ToolComplete? && before[i].run == before[ctx].run && before[i].steps[s].outcome == Pending)
    && (forall i: nat, s: nat, j: nat, t: nat
          | OutcomeChanged(before, after, i, s) && OutcomeChanged(before, after, j, t) :: i == j && s == t)
  }

  lemma UntouchedIsOwn(before: seq<Ctx>, after: seq<Ctx>, ctx: nat, e: Event)
    requires ctx < |before| && ToolsUntouched(before, after)
    ensures OwnRunOnly(before, after, ctx, e)
  {
  }

  lemma CompletesOwn(before: Carving, after: Carving, ctx: nat, e: Event)
    requires ctx < |before.ctxs| && PendingOk(before.ctxs, before.pending)
    requires e.ToolComplete? && Completes(before, after, ctx, e.completed, e.isError)
    ensures OwnRunOnly(before.ctxs, after.ctxs, ctx, e)
  {
    if k: nat :| Resolves(before.ctxs, before.pending, ctx, e.completed, k) {
      var at: nat :| CompletesAt(before, after, ctx, e.completed, e.isError, at);
      SettlesOne(before.ctxs, before.pending[at], ctx, e);
    } else {
      UntouchedIsOwn(before.ctxs, after.ctxs, ctx, e);
    }
  }

  lemma SettlesOne(before: seq<Ctx>, p: PendingTool, ctx: nat, e: Event)
    requires ctx < |before| && PointsAt(before, p) && p.run == before[ctx].run && e.ToolComplete?
    ensures OwnRunOnly(before, Settle(before, p.ctx, p.step, e.isError), ctx, e)
  {
    var after := Settle(before, p.ctx, p.step, e.isError);
    forall i: nat, s: nat | OutcomeChanged(before, after, i, s) ensures i == p.ctx && s == p.step {
    }
  }

  /** One routed event: the transition it stands for, out of and into a consistent carve. */
  ghost predicate EventOk(before: Carving, after: Carving, r: Routed) {
    && RunsOk(before.ctxs) && PendingOk(before.ctxs, before.pending)
    && RunsOk(after.ctxs) && PendingOk(after.ctxs, after.pending)
    && Grew(before.ctxs, after.ctxs)
    && Transition(before, after, Owner(before.ctxs, r.ctx), r.key, r.event)
    && OwnRunOnly(before.ctxs, after.ctxs, Owner(before.ctxs, r.ctx), r.event)
  }

  datatype Routed = Routed(ctx: nat, key: string, event: Event)

  /** The states a stream goes through, one event at a time. */
  ghost predicate Carves(run: RunId, events: seq<Routed>, history: seq<Carving>) {
    && |history| == |events| + 1 && history[0] == Carving([Ctx(run, [], 0, None, None, None)], [])
    && forall k | 0 <= k < |events| :: EventOk(history[k], history[k + 1], events[k])
  }

  /** Over any event stream, from one empty run: every event makes its transition, every run stays
      numbered and chained, and only completions of a run settle tool steps of that run. */
  method CarveStream(run: RunId, events: seq<Routed>) returns (ctxs: seq<Ctx>, ghost history: seq<Carving>)
    ensures Carves(run, events, history) && history[|events|].ctxs == ctxs && RunsOk(ctxs)
  {
    var carve := new Carve(run);
    history := [carve.State()];
    for k := 0 to |events|
      invariant fresh(carve) && carve.Valid()
      invariant |history| == k + 1 && history[k] == carve.State()
      invariant history[0] == Carving([Ctx(run, [], 0, None, None, None)], [])
      invariant forall m | 0 <= m < k :: EventOk(history[m], history[m + 1], events[m])
    {
      ghost var before := carve.State();
      carve.Handle(Owner(carve.ctxs, events[k].ctx), events[k].key, events[k].event);
      assert EventOk(before, carve.State(), events[k]);
      history := history + [carve.State()];
    }
    ctxs := carve.ctxs;
  }

  /** An event routed to no known child belongs to the parent run. */
  function Owner(ctxs: seq<Ctx>, ctx: nat): (owner: nat)
    ensures ctxs != [] ==> owner < |ctxs|
  {
    if ctx < |ctxs| then ctx else 0
  }

  /** Whatever a tool step's outcome is once settled, it is that ever after. */
  lemma {:induction false} OutcomeWrittenOnce(history: seq<Carving>, early: nat, late: nat, i: nat, s: nat)
    requires early <= late < |history|
    requires forall k | 0 <= k < |history| - 1 :: Grew(history[k].ctxs, history[k + 1].ctxs)
    requires i < |history[early].ctxs| && s < |history[early].ctxs[i].steps|
    requires history[early].ctxs[i].steps[s].kind.Tool? && history[early].ctxs[i].steps[s].outcome != Pending
    ensures i < |history[late].ctxs| && s < |history[late].ctxs[i].steps|
    ensures history[late].ctxs[i].steps[s] == history[early].ctxs[i].steps[s]
    decreases late
  {
    if early < late {
      OutcomeWrittenOnce(history, early, late - 1, i, s);
      assert Grew(history[late - 1].ctxs, history[late - 1 + 1].ctxs);
      assert Kept(history[late - 1].ctxs[i].steps[s], history[late].ctxs[i].steps[s]);
    }
  }
}

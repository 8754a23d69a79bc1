/** What a carve's steps are, read off the events: which event a step comes from, its id, kind and
    outcome, and that the carved ids are what the commit asks for. */
module CarvedSteps {
  import opened Wrappers
  import opened CopilotCarve
  import CopilotCommit
  import CopilotFleet
  import StepTable

  /** The key an event's step is named by; the synthetic usage step of a turn has one of its own. */
  function StepKey(r: Routed): string {
    if r.event.TurnEnd? then "turn_" + r.key else r.key
  }

  /** The context an event adds its step to: the dispatching one for a sub-agent, else its own. */
  function Target(ctxs: seq<Ctx>, r: Routed): nat {
    if r.event.SubagentStarted? && r.event.dispatcher < |ctxs| then r.event.dispatcher else Owner(ctxs, r.ctx)
  }

  /** An event leaves a step: a message, a tool call, a dispatch, the usage of a turn without an
      assistant step, or session totals. */
  predicate AddsStep(ctxs: seq<Ctx>, r: Routed) {
    match r.event
    case UserMessage => true
    case AssistantMessage => true
    case ToolStart(_) => true
    case SubagentStarted(_, _) => true
    case TurnEnd(hasUsage) => hasUsage && Owner(ctxs, r.ctx) < |ctxs| && ctxs[Owner(ctxs, r.ctx)].turnStep.None?
    case SessionShutdown(input, cachedRead, cacheWrite) => input > 0 || cachedRead > 0 || cacheWrite > 0
    case _ => false
  }

  ghost predicate IsNew(before: seq<Ctx>, after: seq<Ctx>, i: nat, s: nat) {
    i < |after| && s < |after[i].steps| && (i >= |before| || s >= |before[i].steps|)
  }

  /** The step an event leaves: the id of its run and key, its kind, and open only for a tool call
      or the dispatch of a child run. */
  ghost predicate Fits(step: Step, run: RunId, r: Routed) {
    && step.id == StepTable.Deterministic(run, StepKey(r))
    && (step.kind == Message <==> r.event.UserMessage? || r.event.AssistantMessage?)
    && (step.kind == Usage <==> r.event.TurnEnd? || r.event.SessionShutdown?)
    && (step.kind == Dispatch <==> r.event.SubagentStarted?)
    && (r.event.ToolStart? ==> step.kind == Tool(if r.event.callId.Some? then r.event.callId.value else r.key))
    && (step.outcome == Pending <==>
          r.event.ToolStart? || (r.event.SubagentStarted? && r.event.childRun.Some?))
    && (step.outcome != Pending ==> step.outcome == Settled(false))
  }

  /** An event adds one step, at the end of its target, exactly when it leaves one, and opens one
      context exactly when it starts a child run. */
  ghost predicate Adds(before: seq<Ctx>, after: seq<Ctx>, r: Routed) {
    var target := Target(before, r);
    && target < |before|
    && (forall i: nat, s: nat :: IsNew(before, after, i, s) <==>
          AddsStep(before, r) && i == target && s == |before[target].steps|)
    && (AddsStep(before, r) ==>
          target < |after| && |before[target].steps| < |after[target].steps|
          && Fits(after[target].steps[|before[target].steps|], before[target].run, r))
    && (|after| == |before| + 1 <==> r.event.SubagentStarted? && r.event.childRun.Some?)
    && |before| <= |after| <= |before| + 1
    && (|after| > |before| ==>
          after[|before|] == Ctx(r.event.childRun.value, [], 0, None, None, Some((target, |before[target].steps|))))
  }

  /** Every event adds just that. */
  lemma EventAdds(before: Carving, after: Carving, r: Routed)
    requires EventOk(before, after, r)
    ensures Adds(before.ctxs, after.ctxs, r)
  {
    hide Adds, Grew, OwnRunOnly, PendingOk, Chained, DispatchOk;
    var ctx := Owner(before.ctxs, r.ctx);
    if AddsStep(before.ctxs, r) {
      if r.event.SubagentStarted? {
        DispatchAdds(before.ctxs, after.ctxs, r);
      } else {
        LeavesStep(before, after, r);
      }
    } else if r.event.SubagentCompleted? {
      SettlesDispatch(before, after, r);
    } else if r.event.ToolComplete? {
      SettlesCall(before, after, r);
    } else {
      SameSteps(before.ctxs, after.ctxs, r);
    }
  }

  lemma LeavesStep(before: Carving, after: Carving, r: Routed)
    requires before.ctxs != [] && AddsStep(before.ctxs, r) && !r.event.SubagentStarted?
    requires Transition(before, after, Owner(before.ctxs, r.ctx), r.key, r.event)
    ensures Adds(before.ctxs, after.ctxs, r)
  {
    hide Adds;
    var ctxs, ctx := before.ctxs, Owner(before.ctxs, r.ctx);
    match r.event
    case UserMessage => AppendAdds(ctxs, after.ctxs, r, Message, Settled(false), ctxs[ctx].turnStep);
    case AssistantMessage => AppendAdds(ctxs, after.ctxs, r, Message, Settled(false), Some(|ctxs[ctx].steps|));
    case ToolStart(callId) => AppendAdds(ctxs, after.ctxs, r, Tool(callId.GetOr(r.key)), Pending, ctxs[ctx].turnStep);
    case TurnEnd(_) => AppendAdds(ctxs, after.ctxs, r, Usage, Settled(false), None);
    case SessionShutdown(_, _, _) => AppendAdds(ctxs, after.ctxs, r, Usage, Settled(false), ctxs[ctx].turnStep);
    case _ =>
  }

  /** One step appended to one context, with the turn's step as it is then. */
  lemma AppendAdds(before: seq<Ctx>, after: seq<Ctx>, r: Routed, kind: Kind, outcome: Outcome, turnStep: Option<nat>)
    requires before != [] && AddsStep(before, r) && !r.event.SubagentStarted?
    requires var c := before[Owner(before, r.ctx)];
             && Fits(Step(StepTable.Deterministic(c.run, StepKey(r)), Before(c.steps, |c.steps|), |c.steps|, kind,
                          outcome),
                     c.run, r)
             && after == before[Owner(before, r.ctx) := Appended(c, StepKey(r), kind, outcome).(turnStep := turnStep)]
    ensures Adds(before, after, r)
  {
    hide Fits;
  }

  lemma DispatchAdds(before: seq<Ctx>, after: seq<Ctx>, r: Routed)
    requires before != [] && r.event.SubagentStarted?
    requires after == Dispatched(before, Target(before, r), r.key, r.event.childRun)
    ensures Adds(before, after, r)
  {
  }

  lemma SameSteps(before: seq<Ctx>, after: seq<Ctx>, r: Routed)
    requires before != [] && !AddsStep(before, r) && |after| == |before|
    requires forall i | 0 <= i < |before| :: |after[i].steps| == |before[i].steps|
    ensures Adds(before, after, r)
  {
  }

  lemma SettlesDispatch(before: Carving, after: Carving, r: Routed)
    requires before.ctxs != [] && r.event.SubagentCompleted?
    requires Transition(before, after, Owner(before.ctxs, r.ctx), r.key, r.event)
    ensures Adds(before.ctxs, after.ctxs, r)
  {
    hide Adds;
    var child := r.event.child;
    if child.Some? && child.value < |before.ctxs| && before.ctxs[child.value].dispatch.Some? {
      var (parent, step) := before.ctxs[child.value].dispatch.value;
      assert after.ctxs == Settle(before.ctxs, parent, step, false);
    } else {
      assert after == before;
    }
    SameSteps(before.ctxs, after.ctxs, r);
  }

  lemma SettlesCall(before: Carving, after: Carving, r: Routed)
    requires before.ctxs != [] && r.event.ToolComplete?
    requires Completes(before, after, Owner(before.ctxs, r.ctx), r.event.completed, r.event.isError)
    ensures Adds(before.ctxs, after.ctxs, r)
  {
    hide Adds;
    if after != before {
      var k: nat :| CompletesAt(before, after, Owner(before.ctxs, r.ctx), r.event.completed, r.event.isError, k);
      assert after.ctxs == Settle(before.ctxs, before.pending[k].ctx, before.pending[k].step, r.event.isError);
    }
    SameSteps(before.ctxs, after.ctxs, r);
  }

  // ----- Outcomes -----

  /** A completion leaves its call settled with its own verdict, and no other tool step's outcome
      changes; a finished child run leaves the dispatch that started it settled well. */
  ghost predicate Settles(before: seq<Ctx>, after: seq<Ctx>, r: Routed) {
    && (forall i: nat, s: nat | OutcomeChanged(before, after, i, s) ::
          && r.event.ToolComplete? && i < |after| && s < |after[i].steps|
          && after[i].steps[s].outcome == Settled(r.event.isError))
    && (r.event.SubagentCompleted? && r.event.child.Some? && r.event.child.value < |before|
        && before[r.event.child.value].dispatch.Some? ==>
          var (parent, step) := before[r.event.child.value].dispatch.value;
          parent < |after| && step < |after[parent].steps| && after[parent].steps[step].outcome == Settled(false))
  }

  lemma EventSettles(before: Carving, after: Carving, r: Routed)
    requires EventOk(before, after, r)
    ensures Settles(before.ctxs, after.ctxs, r)
  {
    hide Chained, DispatchOk, PendingOk, Appended, Dispatched, WithEntry;
    if r.event.ToolComplete? && after != before {
      var k: nat :| CompletesAt(before, after, Owner(before.ctxs, r.ctx), r.event.completed, r.event.isError, k);
      assert after.ctxs == Settle(before.ctxs, before.pending[k].ctx, before.pending[k].step, r.event.isError);
    }
    if r.event.SubagentCompleted? && r.event.child.Some? && r.event.child.value < |before.ctxs|
       && before.ctxs[r.event.child.value].dispatch.Some? {
      var (parent, step) := before.ctxs[r.event.child.value].dispatch.value;
      assert after.ctxs == Settle(before.ctxs, parent, step, false);
    }
  }

  /** A call of its own run that is still open is the one a completion with its id settles. */
  lemma CompletionSettlesCall(before: Carving, after: Carving, r: Routed, k: nat)
    requires EventOk(before, after, r) && r.event.ToolComplete? && r.event.completed.Some? && k < |before.pending|
    requires Keyed(before.pending[k], before.ctxs[Owner(before.ctxs, r.ctx)].run, r.event.completed.value)
    ensures var p := before.pending[k];
            && p.ctx < |after.ctxs| && p.step < |after.ctxs[p.ctx].steps|
            && after.ctxs[p.ctx].steps[p.step].outcome == Settled(r.event.isError)
            && after.ctxs[p.ctx].steps[p.step].kind == Tool(r.event.completed.value)
  {
    hide Chained, DispatchOk, Grew, OwnRunOnly;
    var ctx := Owner(before.ctxs, r.ctx);
    assert Resolves(before.ctxs, before.pending, ctx, r.event.completed, k);
    var at: nat :| CompletesAt(before, after, ctx, r.event.completed, r.event.isError, at);
    ResolvesOne(before.ctxs, before.pending, ctx, r.event.completed, k, at);
  }

  // ----- Whole streams -----

  lemma CarvesAt(run: RunId, events: seq<Routed>, history: seq<Carving>, k: nat)
    requires Carves(run, events, history) && k < |events|
    ensures |history| == |events| + 1 && EventOk(history[k], history[k + 1], events[k])
    ensures Adds(history[k].ctxs, history[k + 1].ctxs, events[k]) && Grew(history[k].ctxs, history[k + 1].ctxs)
  {
    EventAdds(history[k], history[k + 1], events[k]);
  }

  /** Event j left this step. */
  ghost predicate Left(history: seq<Carving>, j: nat, i: nat, s: nat) {
    j + 1 < |history| && IsNew(history[j].ctxs, history[j + 1].ctxs, i, s)
  }

  /** Every step comes from one event, whose run and key name it. */
  lemma {:induction false} StepOrigin(run: RunId, events: seq<Routed>, history: seq<Carving>, k: nat, i: nat, s: nat)
    returns (j: nat)
    requires Carves(run, events, history) && k < |history|
    requires i < |history[k].ctxs| && s < |history[k].ctxs[i].steps|
    ensures j < k && Left(history, j, i, s)
    ensures history[k].ctxs[i].steps[s].id == StepTable.Deterministic(history[k].ctxs[i].run, StepKey(events[j]))
  {
    hide EventOk, AddsStep, Target, RunsOk;
    if k > 0 {
      CarvesAt(run, events, history, k - 1);
      var before, after := history[k - 1].ctxs, history[k].ctxs;
      if IsNew(before, after, i, s) {
        j := k - 1;
        assert Fits(after[i].steps[s], before[i].run, events[j]);
      } else {
        j := StepOrigin(run, events, history, k - 1, i, s);
        assert Kept(before[i].steps[s], after[i].steps[s]);
      }
    }
  }

  /** No event leaves two steps. */
  lemma OneStepAnEvent(run: RunId, events: seq<Routed>, history: seq<Carving>, j: nat, i: nat, s: nat, i': nat, s': nat)
    requires Carves(run, events, history) && Left(history, j, i, s) && Left(history, j, i', s')
    ensures i == i' && s == s'
  {
    hide EventOk, Grew, Fits;
    CarvesAt(run, events, history, j);
  }

  /** Two steps of the fleet have the same id exactly when they are of one run and the events they
      come from share a key. */
  lemma SameIdIff(run: RunId, events: seq<Routed>, history: seq<Carving>, i: nat, s: nat, i': nat, s': nat)
    returns (j: nat, j': nat)
    requires Carves(run, events, history) && (i != i' || s != s')
    requires var ctxs := history[|events|].ctxs;
             i < |ctxs| && s < |ctxs[i].steps| && i' < |ctxs| && s' < |ctxs[i'].steps|
    ensures j < |events| && j' < |events| && j != j' && Left(history, j, i, s) && Left(history, j', i', s')
    ensures var ctxs := history[|events|].ctxs;
            ctxs[i].steps[s].id == ctxs[i'].steps[s'].id <==>
              ctxs[i].run == ctxs[i'].run && StepKey(events[j]) == StepKey(events[j'])
  {
    hide EventOk, Left;
    j := StepOrigin(run, events, history, |events|, i, s);
    j' := StepOrigin(run, events, history, |events|, i', s');
    if j == j' {
      OneStepAnEvent(run, events, history, j, i, s, i', s');
    }
  }

  ghost predicate DistinctKeys(events: seq<Routed>) {
    forall j, k | 0 <= j < k < |events| :: StepKey(events[j]) != StepKey(events[k])
  }

  /** A fleet to commit: the carved contexts with their runs and step ids. */
  ghost predicate Carried(ctxs: seq<Ctx>, fleet: seq<CopilotCommit.Carved>) {
    && |fleet| == |ctxs|
    && forall i | 0 <= i < |ctxs| ::
         && fleet[i].run == ctxs[i].run && |fleet[i].steps| == |ctxs[i].steps|
         && forall s | 0 <= s < |ctxs[i].steps| :: fleet[i].steps[s].id == ctxs[i].steps[s].id
  }

  /** Events with distinct keys are carved into steps with distinct ids, over all runs of the fleet:
      no run repeats an id and no two runs share one, which is what the commit starts from. */
  lemma CarvedIdsAreDistinct(run: RunId, events: seq<Routed>, history: seq<Carving>, fleet: seq<CopilotCommit.Carved>)
    requires Carves(run, events, history) && DistinctKeys(events) && Carried(history[|events|].ctxs, fleet)
    ensures forall i | 0 <= i < |fleet| :: CopilotCommit.NoRepeats(fleet[i].steps)
    ensures forall i, j | 0 <= i < j < |fleet| ::
              CopilotCommit.Ids(fleet[i].steps) !! CopilotCommit.Ids(fleet[j].steps)
    ensures (forall i, j | 0 <= i < j < |fleet| :: fleet[i].run != fleet[j].run) ==> CopilotFleet.Apart(fleet)
  {
    forall i: nat, s: nat, i': nat, s': nat
      | i < |fleet| && i' < |fleet| && s < |fleet[i].steps| && s' < |fleet[i'].steps| && (i != i' || s != s')
      ensures fleet[i].steps[s].id != fleet[i'].steps[s'].id
    {
      var j, j' := SameIdIff(run, events, history, i, s, i', s');
      assert StepKey(events[if j < j' then j else j']) != StepKey(events[if j < j' then j' else j]);
    }
  }

  /** A key that comes twice in one run gives two steps one id. */
  lemma RepeatedKeySharesId(run: RunId, key: string, history: seq<Carving>)
    requires Carves(run, [Routed(0, key, UserMessage), Routed(0, key, AssistantMessage)], history)
    ensures |history[2].ctxs| == 1
    ensures var c := history[2].ctxs[0];
            |c.steps| == 2 && c.steps[0].id == c.steps[1].id && c.steps[1].parent == Some(c.steps[1].id)
  {
    var events := [Routed(0, key, UserMessage), Routed(0, key, AssistantMessage)];
    assert EventOk(history[0], history[1], events[0]) && EventOk(history[1], history[1 + 1], events[1]);
  }

  // ----- Calls and their completions -----

  function CallOf(r: Routed): string
    requires r.event.ToolStart?
  {
    if r.event.callId.Some? then r.event.callId.value else r.key
  }

  /** The event could take an open call of context i: a start or completion of the same call, or a
      completion routed to the context. */
  ghost predicate Meddles(ctxs: seq<Ctx>, r: Routed, i: nat, run: RunId, callId: string) {
    var ctx := Owner(ctxs, r.ctx);
    ctx < |ctxs| &&
    (|| (r.event.ToolStart? && ctxs[ctx].run == run && CallOf(r) == callId)
     || (r.event.ToolComplete? && (ctx == i || (ctxs[ctx].run == run && r.event.completed == Some(callId)))))
  }

  lemma StartOpensCall(before: Carving, after: Carving, r: Routed)
    requires EventOk(before, after, r) && r.event.ToolStart?
    ensures var ctx := Owner(before.ctxs, r.ctx);
            ctx < |before.ctxs| &&
            PendingTool(before.ctxs[ctx].run, CallOf(r), ctx, |before.ctxs[ctx].steps|) in after.pending
  {
    hide Chained, DispatchOk, PendingOk, Grew, OwnRunOnly, Appended;
    var ctx := Owner(before.ctxs, r.ctx);
    var entry := PendingTool(before.ctxs[ctx].run, CallOf(r), ctx, |before.ctxs[ctx].steps|);
    EntryIsThere(before.pending, entry);
  }

  lemma EntryIsThere(pending: seq<PendingTool>, entry: PendingTool)
    ensures entry in WithEntry(pending, entry)
    ensures forall p | p in pending && !Keyed(p, entry.run, entry.callId) :: p in WithEntry(pending, entry)
  {
    var k := KeyIndex(pending, entry.run, entry.callId);
    var all := WithEntry(pending, entry);
    assert all[k] == entry;
    forall p | p in pending && !Keyed(p, entry.run, entry.callId) ensures p in all {
      var j :| 0 <= j < |pending| && pending[j] == p;
      assert all[j] == p;
    }
  }

  /** An open call stays open through an event that does not meddle with it. */
  lemma StaysOpen(before: Carving, after: Carving, r: Routed, p: PendingTool)
    requires EventOk(before, after, r) && p in before.pending && !Meddles(before.ctxs, r, p.ctx, p.run, p.callId)
    ensures p in after.pending
  {
    hide Chained, DispatchOk, PendingOk, Grew, OwnRunOnly, Appended, Dispatched, Settle, WithEntry;
    var ctx := Owner(before.ctxs, r.ctx);
    if r.event.ToolStart? {
      EntryIsThere(before.pending, PendingTool(before.ctxs[ctx].run, CallOf(r), ctx, |before.ctxs[ctx].steps|));
    } else if r.event.ToolComplete? && after != before {
      var k: nat :| CompletesAt(before, after, ctx, r.event.completed, r.event.isError, k);
      var at :| 0 <= at < |before.pending| && before.pending[at] == p;
      assert at != k;
      assert after.pending[if at < k then at else at - 1] == p;
    }
  }

  lemma {:induction false} OpenUntil(run: RunId, events: seq<Routed>, history: seq<Carving>, j: nat, k: nat,
                                     p: PendingTool)
    requires Carves(run, events, history) && j < k <= |events| && p in history[j + 1].pending
    requires forall m | j < m < k :: !Meddles(history[m].ctxs, events[m], p.ctx, p.run, p.callId)
    ensures p in history[k].pending
    decreases k
  {
    hide EventOk, Meddles;
    if j + 1 < k {
      OpenUntil(run, events, history, j, k - 1, p);
      CarvesAt(run, events, history, k - 1);
      StaysOpen(history[k - 1], history[k], events[k - 1], p);
    }
  }

  /** A tool call is answered by the completion of its run that carries its id: the step its start
      left is settled with that completion's verdict, whatever other runs did meanwhile. */
  lemma CallIsAnswered(run: RunId, events: seq<Routed>, history: seq<Carving>, j: nat, k: nat)
    requires Carves(run, events, history) && j < k < |events|
    requires events[j].event.ToolStart? && events[k].event.ToolComplete?
    requires var ctx, now := Owner(history[j].ctxs, events[j].ctx), Owner(history[k].ctxs, events[k].ctx);
             && ctx < |history[j].ctxs| && now < |history[k].ctxs|
             && history[k].ctxs[now].run == history[j].ctxs[ctx].run
             && events[k].event.completed == Some(CallOf(events[j]))
             && forall m | j < m < k ::
                  !Meddles(history[m].ctxs, events[m], ctx, history[j].ctxs[ctx].run, CallOf(events[j]))
    ensures var ctx := Owner(history[j].ctxs, events[j].ctx);
            var s := |history[j].ctxs[ctx].steps|;
            && ctx < |history[k + 1].ctxs| && s < |history[k + 1].ctxs[ctx].steps|
            && history[k + 1].ctxs[ctx].steps[s].outcome == Settled(events[k].event.isError)
            && history[k + 1].ctxs[ctx].steps[s].kind == Tool(CallOf(events[j]))
  {
    hide EventOk, Meddles;
    var ctx := Owner(history[j].ctxs, events[j].ctx);
    var p := PendingTool(history[j].ctxs[ctx].run, CallOf(events[j]), ctx, |history[j].ctxs[ctx].steps|);
    CarvesAt(run, events, history, j);
    CarvesAt(run, events, history, k);
    StartOpensCall(history[j], history[j + 1], events[j]);
    OpenUntil(run, events, history, j, k, p);
    var at: nat :| at < |history[k].pending| && history[k].pending[at] == p;
    CompletionSettlesCall(history[k], history[k + 1], events[k], at);
  }

  // ----- Turns -----

  /** The event is an assistant message of context i. */
  predicate Speaks(ctxs: seq<Ctx>, r: Routed, i: nat) {
    r.event.AssistantMessage? && Owner(ctxs, r.ctx) == i
  }

  /** The event starts or, with usage, ends a turn of context i. */
  predicate Turns(ctxs: seq<Ctx>, r: Routed, i: nat) {
    (r.event.TurnStart? || (r.event.TurnEnd? && r.event.hasUsage)) && Owner(ctxs, r.ctx) == i
  }

  /** A context has an assistant step in its turn exactly when an assistant message came after the
      last event that started or ended a turn of it; then the usage lands on that message's step. */
  lemma {:induction false} TurnStepIff(run: RunId, events: seq<Routed>, history: seq<Carving>, k: nat, i: nat)
    requires Carves(run, events, history) && k < |history| && i < |history[k].ctxs|
    ensures history[k].ctxs[i].turnStep.Some? <==>
              exists j :: 0 <= j < k && Speaks(history[j].ctxs, events[j], i)
                          && forall m | j < m < k :: !Turns(history[m].ctxs, events[m], i)
  {
    hide EventOk, Speaks, Turns;
    if k > 0 {
      CarvesAt(run, events, history, k - 1);
      TurnStepMoves(history[k - 1], history[k], events[k - 1], i);
      if i < |history[k - 1].ctxs| {
        TurnStepIff(run, events, history, k - 1, i);
      } else {
        forall j | 0 <= j < k ensures !Speaks(history[j].ctxs, events[j], i) {
          FleetGrows(run, events, history, j, k - 1);
          SpeakerIsThere(history[j].ctxs, events[j], i);
        }
      }
    }
  }

  lemma SpeakerIsThere(ctxs: seq<Ctx>, r: Routed, i: nat)
    requires ctxs != []
    ensures Speaks(ctxs, r, i) ==> i < |ctxs|
  {
  }

  lemma {:induction false} FleetGrows(run: RunId, events: seq<Routed>, history: seq<Carving>, j: nat, k: nat)
    requires Carves(run, events, history) && j <= k < |history|
    ensures 0 < |history[j].ctxs| <= |history[k].ctxs|
    decreases k
  {
    hide EventOk;
    if k > 0 {
      CarvesAt(run, events, history, k - 1);
      FleetGrows(run, events, history, if j == k then k - 1 else j, k - 1);
    }
  }

  lemma TurnStepMoves(before: Carving, after: Carving, r: Routed, i: nat)
    requires EventOk(before, after, r) && i < |after.ctxs|
    ensures after.ctxs[i].turnStep.Some? <==>
              Speaks(before.ctxs, r, i)
              || (i < |before.ctxs| && before.ctxs[i].turnStep.Some? && !Turns(before.ctxs, r, i))
  {
    hide Chained, DispatchOk, PendingOk, OwnRunOnly, WithEntry;
    if r.event.ToolComplete? && after != before {
      var k: nat :| CompletesAt(before, after, Owner(before.ctxs, r.ctx), r.event.completed, r.event.isError, k);
      assert after.ctxs == Settle(before.ctxs, before.pending[k].ctx, before.pending[k].step, r.event.isError);
    } else if r.event.SubagentCompleted? && after != before {
      var (parent, step) := before.ctxs[r.event.child.value].dispatch.value;
      assert after.ctxs == Settle(before.ctxs, parent, step, false);
    }
  }
}

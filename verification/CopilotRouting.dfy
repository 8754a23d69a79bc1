/** `routeEvent`: which run an event belongs to, by walking its parentId ancestry with a memo. */
module CopilotRouting {
  import opened Wrappers

  /** Index of a carved child run; the parent run is "no owner". */
  type Child = nat

  datatype Route = Route(owner: Option<Child>, unrouted: bool)

  const ROOT := Route(None, false)
  const UNROUTED := Route(None, true)

  /** The event index of the whole file: each event id with its parentId. */
  type Parents = map<string, Option<string>>
  type Starts = map<string, Child>

  // ----- The plain walk -----

  /** What walking up from `cursor` decides within `fuel` steps: the first start event met owns the
      event, a missing parentId is the root, an unknown id is unrouted. */
  ghost function Walk(parents: Parents, starts: Starts, cursor: Option<string>, fuel: nat): Option<Route>
    decreases fuel
  {
    if cursor.None? then Some(ROOT)
    else if cursor.value in starts then Some(Route(Some(starts[cursor.value]), false))
    else if cursor.value !in parents then Some(UNROUTED)
    else if fuel == 0 then None
    else Walk(parents, starts, parents[cursor.value], fuel - 1)
  }

  ghost predicate Decides(parents: Parents, starts: Starts, cursor: Option<string>) {
    exists fuel: nat :: Walk(parents, starts, cursor, fuel).Some?
  }

  /** The route with no memo: what the walk decides, and unrouted when it never ends. */
  ghost function PlainRoute(parents: Parents, starts: Starts, cursor: Option<string>): Route {
    if Decides(parents, starts, cursor) then
      var fuel: nat :| Walk(parents, starts, cursor, fuel).Some?;
      Walk(parents, starts, cursor, fuel).value
    else UNROUTED
  }

  lemma {:induction false} MoreFuel(parents: Parents, starts: Starts, cursor: Option<string>, fuel: nat, more: nat)
    requires Walk(parents, starts, cursor, fuel).Some? && fuel <= more
    ensures Walk(parents, starts, cursor, more) == Walk(parents, starts, cursor, fuel)
    decreases fuel
  {
    if cursor.Some? && cursor.value !in starts && cursor.value in parents {
      MoreFuel(parents, starts, parents[cursor.value], fuel - 1, more - 1);
    }
  }

  /** The plain route is whatever any sufficient walk decides. */
  lemma PlainRouteIs(parents: Parents, starts: Starts, cursor: Option<string>, fuel: nat)
    requires Walk(parents, starts, cursor, fuel).Some?
    ensures PlainRoute(parents, starts, cursor) == Walk(parents, starts, cursor, fuel).value
  {
    var other: nat :| Walk(parents, starts, cursor, other).Some?
                      && PlainRoute(parents, starts, cursor) == Walk(parents, starts, cursor, other).value;
    if other <= fuel {
      MoreFuel(parents, starts, cursor, other, fuel);
    } else {
      MoreFuel(parents, starts, cursor, fuel, other);
    }
  }

  lemma {:induction false} WalkOwnerIsStarted(parents: Parents, starts: Starts, cursor: Option<string>, fuel: nat)
    requires Walk(parents, starts, cursor, fuel).Some?
    ensures var owner := Walk(parents, starts, cursor, fuel).value.owner;
            owner.Some? ==> owner.value in starts.Values
    decreases fuel
  {
    if cursor.Some? && cursor.value !in starts && cursor.value in parents {
      WalkOwnerIsStarted(parents, starts, parents[cursor.value], fuel - 1);
    }
  }

  lemma OwnerIsStarted(parents: Parents, starts: Starts, cursor: Option<string>)
    ensures var owner := PlainRoute(parents, starts, cursor).owner;
            owner.Some? ==> owner.value in starts.Values
  {
    if Decides(parents, starts, cursor) {
      var fuel: nat :| Walk(parents, starts, cursor, fuel).Some?;
      PlainRouteIs(parents, starts, cursor, fuel);
      WalkOwnerIsStarted(parents, starts, cursor, fuel);
    }
  }

  predicate Passable(parents: Parents, starts: Starts, id: string) {
    id in parents && id !in starts
  }

  /** An event that is not a start routes like its parent. */
  lemma RoutesLikeParent(parents: Parents, starts: Starts, id: string)
    requires Passable(parents, starts, id)
    ensures PlainRoute(parents, starts, Some(id)) == PlainRoute(parents, starts, parents[id])
  {
    if Decides(parents, starts, parents[id]) {
      var fuel: nat :| Walk(parents, starts, parents[id], fuel).Some?;
      assert Walk(parents, starts, Some(id), fuel + 1) == Walk(parents, starts, parents[id], fuel);
      PlainRouteIs(parents, starts, parents[id], fuel);
      PlainRouteIs(parents, starts, Some(id), fuel + 1);
    } else {
      forall fuel: nat ensures Walk(parents, starts, Some(id), fuel).None? {
        assert fuel > 0 ==> Walk(parents, starts, parents[id], fuel - 1).None?;
      }
    }
  }

  /** A set of passable events closed under parentId never reaches a decision. */
  lemma {:induction false} CycleNeverDecides(parents: Parents, starts: Starts, loop: set<string>, id: string, fuel: nat)
    requires id in loop
    requires forall v | v in loop :: Passable(parents, starts, v) && parents[v].Some? && parents[v].value in loop
    ensures Walk(parents, starts, Some(id), fuel).None?
    decreases fuel
  {
    if fuel != 0 {
      CycleNeverDecides(parents, starts, loop, parents[id].value, fuel - 1);
    }
  }

  // ----- Registering a start event -----

  /** Walking up from `cursor` meets `start` within `fuel` steps, before any other start. */
  ghost predicate Meets(parents: Parents, starts: Starts, cursor: Option<string>, start: string, fuel: nat)
    decreases fuel
  {
    cursor.Some? &&
    (cursor.value == start
     || (Passable(parents, starts, cursor.value) && fuel > 0
         && Meets(parents, starts, parents[cursor.value], start, fuel - 1)))
  }

  ghost predicate PassesThrough(parents: Parents, starts: Starts, cursor: Option<string>, start: string) {
    exists fuel: nat :: Meets(parents, starts, cursor, start, fuel)
  }

  /** A walk that meets a passable event meets its parent next. */
  lemma MeetsParent(parents: Parents, starts: Starts, cursor: Option<string>, id: string)
    requires PassesThrough(parents, starts, cursor, id) && Passable(parents, starts, id)
    ensures parents[id].Some? ==> PassesThrough(parents, starts, cursor, parents[id].value)
  {
    var fuel: nat :| Meets(parents, starts, cursor, id, fuel);
    if parents[id].Some? {
      MeetsNext(parents, starts, cursor, id, fuel);
    }
  }

  lemma {:induction false} MeetsNext(parents: Parents, starts: Starts, cursor: Option<string>, id: string, fuel: nat)
    requires Meets(parents, starts, cursor, id, fuel) && Passable(parents, starts, id) && parents[id].Some?
    ensures Meets(parents, starts, cursor, parents[id].value, fuel + 1)
    decreases fuel
  {
    if cursor.value == id {
      assert Meets(parents, starts, parents[id], parents[id].value, fuel);
    } else {
      MeetsNext(parents, starts, parents[cursor.value], id, fuel - 1);
    }
  }

  /** After registering `start`, exactly the walks that meet it route to the new child. */
  lemma {:induction false} WalkAfterStart(parents: Parents, starts: Starts, cursor: Option<string>, start: string,
                                          child: Child, fuel: nat)
    ensures Meets(parents, starts, cursor, start, fuel) ==>
              Walk(parents, starts[start := child], cursor, fuel) == Some(Route(Some(child), false))
    ensures !Meets(parents, starts, cursor, start, fuel) ==>
              Walk(parents, starts[start := child], cursor, fuel) == Walk(parents, starts, cursor, fuel)
    decreases fuel
  {
    if cursor.Some? && cursor.value != start && Passable(parents, starts, cursor.value) && fuel > 0 {
      WalkAfterStart(parents, starts, parents[cursor.value], start, child, fuel - 1);
    }
  }

  lemma RouteAfterStart(parents: Parents, starts: Starts, cursor: Option<string>, start: string, child: Child)
    ensures PlainRoute(parents, starts[start := child], cursor) ==
            if PassesThrough(parents, starts, cursor, start) then Route(Some(child), false)
            else PlainRoute(parents, starts, cursor)
  {
    var after := starts[start := child];
    if PassesThrough(parents, starts, cursor, start) {
      var fuel: nat :| Meets(parents, starts, cursor, start, fuel);
      WalkAfterStart(parents, starts, cursor, start, child, fuel);
      PlainRouteIs(parents, after, cursor, fuel);
    } else {
      forall fuel: nat ensures Walk(parents, after, cursor, fuel) == Walk(parents, starts, cursor, fuel) {
        assert !Meets(parents, starts, cursor, start, fuel);
        WalkAfterStart(parents, starts, cursor, start, child, fuel);
      }
      if Decides(parents, starts, cursor) {
        var fuel: nat :| Walk(parents, starts, cursor, fuel).Some?;
        assert Walk(parents, after, cursor, fuel).Some?;
        PlainRouteIs(parents, starts, cursor, fuel);
        PlainRouteIs(parents, after, cursor, fuel);
      } else {
        assert forall fuel: nat :: Walk(parents, after, cursor, fuel) == Walk(parents, starts, cursor, fuel) == None;
      }
    }
  }

  // ----- The router -----

  datatype Event = Event(
    kind: string,
    parentId: Option<string>,
    interaction: Option<string>,
    callId: Option<string>,
    turnId: Option<string>,
    subagent: Option<string>
  )

  /** The event names a sub-agent that was started. */
  predicate Known(e: Event, childBySubagent: map<string, Child>) {
    e.subagent.Some? && e.subagent.value in childBySubagent
  }

  class Router {
    const parents: Parents
    const hasInteractionIds: bool
    const interactionOfCall: map<string, string>
    var starts: Starts
    var childBySubagent: map<string, Child>
    var childByInteraction: map<string, Child>
    var interactionOfTurn: map<string, string>
    var memo: map<string, Route>

    constructor (parents: Parents, hasInteractionIds: bool, interactionOfCall: map<string, string>)
      ensures this.parents == parents && this.hasInteractionIds == hasInteractionIds
      ensures this.interactionOfCall == interactionOfCall
      ensures starts == map[] && childBySubagent == map[] && memo == map[] && Coherent() && Closed()
    {
      this.parents, this.hasInteractionIds, this.interactionOfCall := parents, hasInteractionIds, interactionOfCall;
      starts, childBySubagent, childByInteraction, interactionOfTurn, memo := map[], map[], map[], map[], map[];
    }

    /** Every memoised route is the plain one. */
    ghost predicate Coherent()
      reads this
    {
      forall id | id in memo :: memo[id] == PlainRoute(parents, starts, Some(id))
    }

    /** Everything a memoised walk went on to is memoised or a start. */
    ghost predicate Closed()
      reads this
    {
      forall id | id in memo && Passable(parents, starts, id) && parents[id].Some? ::
        parents[id].value in memo || parents[id].value in starts
    }

    /** The ancestry walk: stops at a cycle, a memoised id, a start, an unknown id or the root, and
        memoises every id it visited. */
    method RouteByAncestry(parentId: Option<string>) returns (route: Route)
      requires Coherent() && Closed()
      modifies this`memo
      ensures Coherent() && Closed()
      ensures route == PlainRoute(parents, starts, parentId)
      ensures forall id | id in old(memo) :: id in memo && memo[id] == old(memo)[id]
      ensures forall id | id in memo && id !in old(memo) :: PassesThrough(parents, starts, parentId, id)
    {
      var visited: set<string> := {};
      var cursor := parentId;
      route := ROOT;
      assert parentId.Some? ==> Meets(parents, starts, parentId, parentId.value, 0);
      while cursor.Some?
        invariant visited <= parents.Keys && visited !! memo.Keys
        invariant forall v | v in visited :: Passable(parents, starts, v)
                    && PlainRoute(parents, starts, Some(v)) == PlainRoute(parents, starts, cursor)
                    && (parents[v] == cursor || (parents[v].Some? && parents[v].value in visited))
        invariant PlainRoute(parents, starts, parentId) == PlainRoute(parents, starts, cursor)
        invariant memo == old(memo)
        invariant route == ROOT
        invariant forall v | v in visited :: PassesThrough(parents, starts, parentId, v)
        invariant cursor.Some? ==> PassesThrough(parents, starts, parentId, cursor.value)
        decreases parents.Keys - visited
      {
        var id := cursor.value;
        if id in visited {
          route := UNROUTED;
          forall fuel: nat ensures Walk(parents, starts, cursor, fuel).None? {
            CycleNeverDecides(parents, starts, visited, id, fuel);
          }
          break;
        }
        if id in memo {
          route := memo[id];
          break;
        }
        if id in starts {
          route := Route(Some(starts[id]), false);
          PlainRouteIs(parents, starts, cursor, 0);
          break;
        }
        if id !in parents {
          route := UNROUTED;
          PlainRouteIs(parents, starts, cursor, 0);
          visited := visited + {id};
          break;
        }
        visited := visited + {id};
        RoutesLikeParent(parents, starts, id);
        MeetsParent(parents, starts, parentId, id);
        cursor := parents[id];
      }
      if cursor.None? {
        PlainRouteIs(parents, starts, None, 0);
      }
      memo := map id | id in memo.Keys + visited :: if id in visited then route else memo[id];
    }

    /** `subagent.started`: the child owns its start event, and the memo is told so. With a fresh
        child the memo stays coherent exactly when no other memoised walk goes through the start. */
    method RegisterChild(startId: string, subagent: Option<string>, child: Child)
      requires Coherent() && Closed()
      requires child !in starts.Values
      modifies this`starts, this`memo, this`childBySubagent
      ensures starts == old(starts)[startId := child] && memo == old(memo)[startId := Route(Some(child), false)]
      ensures childBySubagent ==
              if subagent.Some? then old(childBySubagent)[subagent.value := child] else old(childBySubagent)
      ensures Closed()
      ensures Coherent() <==>
                forall id | id in old(memo) && id != startId :: !PassesThrough(parents, old(starts), Some(id), startId)
      ensures startId !in old(memo) && startId !in old(starts) ==> Coherent()
    {
      ghost var starts0, memo0 := starts, memo;
      forall id | id in memo0 ensures memo0[id].owner != Some(child) {
        OwnerIsStarted(parents, starts0, Some(id));
      }
      starts := starts[startId := child];
      if subagent.Some? {
        childBySubagent := childBySubagent[subagent.value := child];
      }
      memo := memo[startId := Route(Some(child), false)];
      forall id ensures PlainRoute(parents, starts, Some(id)) ==
          if PassesThrough(parents, starts0, Some(id), startId) then Route(Some(child), false)
          else PlainRoute(parents, starts0, Some(id))
      {
        RouteAfterStart(parents, starts0, Some(id), startId, child);
      }
      assert Meets(parents, starts0, Some(startId), startId, 0);
      if startId !in memo0 && startId !in starts0 {
        forall id | id in memo0 && id != startId ensures !PassesThrough(parents, starts0, Some(id), startId) {
          forall fuel: nat ensures !Meets(parents, starts0, Some(id), startId, fuel) {
            UnmemoisedIsNotMet(parents, starts0, memo0.Keys, id, startId, fuel);
          }
        }
      }
    }

    /** `routeEvent`. Streams with interaction ids are routed by them; otherwise a known sub-agent id
        wins and the ancestry decides. */
    method RouteEvent(e: Event) returns (route: Route)
      requires Coherent() && Closed()
      modifies this`memo
      ensures Coherent() && Closed()
      ensures route ==
              if parents == map[] then ROOT
              else if hasInteractionIds then
                Route(InteractionOwner(e, interactionOfCall, interactionOfTurn, childByInteraction), false)
              else if Known(e, childBySubagent) then Route(Some(childBySubagent[e.subagent.value]), false)
              else PlainRoute(parents, starts, e.parentId)
      ensures forall id | id in old(memo) :: id in memo
      ensures forall id | id in memo && id !in old(memo) ::
                !Known(e, childBySubagent) && PassesThrough(parents, starts, e.parentId, id)
    {
      if |parents| == 0 {
        return ROOT;
      }
      if hasInteractionIds {
        if !("subagent." <= e.kind) {
          if e.interaction.Some? {
            return OwnedBy(e.interaction.value);
          }
          if e.kind == "tool.execution_start" && e.callId.Some? && e.callId.value in interactionOfCall {
            return OwnedBy(interactionOfCall[e.callId.value]);
          }
          if e.kind == "assistant.turn_end" && e.turnId.Some? && e.turnId.value in interactionOfTurn {
            return OwnedBy(interactionOfTurn[e.turnId.value]);
          }
        }
        return ROOT;
      }
      if e.subagent.Some? && e.subagent.value in childBySubagent {
        return Route(Some(childBySubagent[e.subagent.value]), false);
      }
      route := RouteByAncestry(e.parentId);
    }

    function OwnedBy(interaction: string): Route
      reads this`childByInteraction
    {
      if interaction in childByInteraction then Route(Some(childByInteraction[interaction]), false) else ROOT
    }
  }

  /** The interaction an event belongs to: its own, or the one its tool call or turn joins it to.
      Life-cycle events of sub-agents belong to none. */
  function InteractionOf(e: Event, ofCall: map<string, string>, ofTurn: map<string, string>): Option<string> {
    if "subagent." <= e.kind then None
    else if e.interaction.Some? then e.interaction
    else if e.kind == "tool.execution_start" && e.callId.Some? && e.callId.value in ofCall then
      Some(ofCall[e.callId.value])
    else if e.kind == "assistant.turn_end" && e.turnId.Some? && e.turnId.value in ofTurn then
      Some(ofTurn[e.turnId.value])
    else None
  }

  function InteractionOwner(e: Event, ofCall: map<string, string>, ofTurn: map<string, string>,
                            owners: map<string, Child>): Option<Child> {
    var interaction := InteractionOf(e, ofCall, ofTurn);
    if interaction.Some? && interaction.value in owners then Some(owners[interaction.value]) else None
  }

  // ----- Interactions -----

  /** Line k of the file completes a tool call and names its interaction. */
  predicate Completion(file: seq<Event>, k: nat, callId: string)
    requires k < |file|
  {
    file[k].kind == "tool.execution_complete" && file[k].callId == Some(callId) && file[k].interaction.Some?
  }

  /** Line k is the first such completion of the call. */
  predicate FirstCompletion(file: seq<Event>, k: nat, callId: string)
    requires k < |file|
  {
    Completion(file, k, callId) && forall j | 0 <= j < k :: !Completion(file, j, callId)
  }

  /** The scan before the main loop: which interaction a tool call belongs to, by its first completion. */
  method IndexCalls(file: seq<Event>) returns (ofCall: map<string, string>)
    ensures forall c :: c in ofCall <==> exists k :: 0 <= k < |file| && FirstCompletion(file, k, c)
    ensures forall c, k | 0 <= k < |file| && FirstCompletion(file, k, c) ::
              c in ofCall && ofCall[c] == file[k].interaction.value
  {
    ofCall := map[];
    for i := 0 to |file|
      invariant forall c :: c in ofCall <==> exists k :: 0 <= k < i && FirstCompletion(file, k, c)
      invariant forall c, k | 0 <= k < i && FirstCompletion(file, k, c) ::
          c in ofCall && ofCall[c] == file[k].interaction.value
    {
      var e := file[i];
      if e.interaction.Some? && e.kind == "tool.execution_complete" && e.callId.Some? && e.callId.value !in ofCall {
        NoneBeforeIsFirst(file, i, e.callId.value);
        ofCall := ofCall[e.callId.value := e.interaction.value];
      }
    }
  }

  lemma {:induction false} SomeFirst(file: seq<Event>, k: nat, callId: string) returns (first: nat)
    requires k < |file| && Completion(file, k, callId)
    ensures first <= k && FirstCompletion(file, first, callId)
    decreases k
  {
    first := k;
    if j: nat :| j < k && Completion(file, j, callId) {
      first := SomeFirst(file, j, callId);
    }
  }

  lemma NoneBeforeIsFirst(file: seq<Event>, i: nat, callId: string)
    requires i < |file| && Completion(file, i, callId)
    requires !exists k :: 0 <= k < i && FirstCompletion(file, k, callId)
    ensures FirstCompletion(file, i, callId)
  {
    if j: nat :| j < i && Completion(file, j, callId) {
      var first := SomeFirst(file, j, callId);
    }
  }

  /** A tool start carries no interaction; it goes where the first completion of its call goes. */
  lemma StartGoesWithCompletion(file: seq<Event>, ofCall: map<string, string>, k: nat, start: Event,
                                ofTurn: map<string, string>, owners: map<string, Child>)
    requires k < |file| && start.callId.Some? && FirstCompletion(file, k, start.callId.value)
    requires forall c, j | 0 <= j < |file| && FirstCompletion(file, j, c) ::
               c in ofCall && ofCall[c] == file[j].interaction.value
    requires start.kind == "tool.execution_start" && start.interaction.None?
    ensures InteractionOwner(start, ofCall, ofTurn, owners) == InteractionOwner(file[k], ofCall, ofTurn, owners)
    ensures InteractionOwner(start, ofCall, ofTurn, owners) ==
            if file[k].interaction.value in owners then Some(owners[file[k].interaction.value]) else None
  {
    assert start.kind[0] == 't' && file[k].kind[0] == 't';
  }

  /** A turn's end carries only its turn id; it goes where the start that last used the id goes. */
  lemma EndGoesWithStart(start: Event, end: Event, ofCall: map<string, string>, ofTurn: map<string, string>,
                         owners: map<string, Child>)
    requires start.kind == "assistant.turn_start" && start.turnId.Some? && start.interaction.Some?
    requires end.kind == "assistant.turn_end" && end.turnId == start.turnId && end.interaction.None?
    ensures var marked := ofTurn[start.turnId.value := start.interaction.value];
            && InteractionOwner(end, ofCall, marked, owners) == InteractionOwner(start, ofCall, marked, owners)
            && InteractionOwner(end, ofCall, marked, owners) ==
               (if start.interaction.value in owners then Some(owners[start.interaction.value]) else None)
  {
    assert start.kind[0] == 'a' && end.kind[0] == 'a';
  }

  /** Sub-agent life cycle events, and events nothing joins to an interaction, stay with the parent. */
  lemma UnjoinedStaysWithParent(e: Event, ofCall: map<string, string>, ofTurn: map<string, string>,
                                owners: map<string, Child>)
    requires || "subagent." <= e.kind
             || (&& e.interaction.None?
                 && (e.kind == "tool.execution_start" ==> e.callId.None? || e.callId.value !in ofCall)
                 && (e.kind == "assistant.turn_end" ==> e.turnId.None? || e.turnId.value !in ofTurn))
    ensures InteractionOwner(e, ofCall, ofTurn, owners) == None
  {
  }

  // ----- Chains of parentIds -----

  /** `chain` leads up from `cursor` by parentIds, through events that are no starts. */
  ghost predicate LeadsUp(parents: Parents, starts: Starts, cursor: Option<string>, chain: seq<string>) {
    && chain != [] && cursor == Some(chain[0])
    && forall i | 0 <= i < |chain| - 1 ::
         chain[i] in parents && chain[i] !in starts && parents[chain[i]] == Some(chain[i + 1])
  }

  lemma {:induction false} ChainDecides(parents: Parents, starts: Starts, cursor: Option<string>, chain: seq<string>)
    requires LeadsUp(parents, starts, cursor, chain)
    ensures var top := chain[|chain| - 1];
            && (top in starts ==> Walk(parents, starts, cursor, |chain|) == Some(Route(Some(starts[top]), false)))
            && (top !in starts && top !in parents ==> Walk(parents, starts, cursor, |chain|) == Some(UNROUTED))
            && (top !in starts && top in parents && parents[top].None? ==>
                  Walk(parents, starts, cursor, |chain|) == Some(ROOT))
    decreases |chain|
  {
    if |chain| > 1 {
      ChainDecides(parents, starts, parents[chain[0]], chain[1..]);
    }
  }

  lemma {:induction false} WalkHasChain(parents: Parents, starts: Starts, cursor: Option<string>, fuel: nat)
    returns (chain: seq<string>)
    requires cursor.Some? && Walk(parents, starts, cursor, fuel).Some?
    ensures LeadsUp(parents, starts, cursor, chain)
    ensures var top := chain[|chain| - 1]; top in starts || top !in parents || parents[top].None?
    decreases fuel
  {
    var id := cursor.value;
    if id in starts || id !in parents || parents[id].None? {
      chain := [id];
    } else {
      var rest := WalkHasChain(parents, starts, parents[id], fuel - 1);
      chain := [id] + rest;
      assert forall i | 0 < i < |chain| :: chain[i] == rest[i - 1];
    }
  }

  /** Where the ancestry leads, as chains of parentIds: to a child exactly when some chain ends on its
      start, to the root exactly when one ends on an event without a parent, and nowhere exactly when
      one ends on an id of no event or none ends at all. */
  lemma RouteByChains(parents: Parents, starts: Starts, cursor: string)
    ensures forall child :: PlainRoute(parents, starts, Some(cursor)) == Route(Some(child), false) <==>
              exists chain :: LeadsUp(parents, starts, Some(cursor), chain)
                              && chain[|chain| - 1] in starts && starts[chain[|chain| - 1]] == child
    ensures PlainRoute(parents, starts, Some(cursor)) == ROOT <==>
              exists chain :: LeadsUp(parents, starts, Some(cursor), chain)
                              && var top := chain[|chain| - 1]; top !in starts && top in parents && parents[top].None?
    ensures PlainRoute(parents, starts, Some(cursor)) == UNROUTED <==>
              forall chain | LeadsUp(parents, starts, Some(cursor), chain) ::
                var top := chain[|chain| - 1]; top !in starts && (top in parents ==> parents[top].Some?)
  {
    forall chain | LeadsUp(parents, starts, Some(cursor), chain)
      ensures var top, route := chain[|chain| - 1], PlainRoute(parents, starts, Some(cursor));
              && (top in starts ==> route == Route(Some(starts[top]), false))
              && (top !in starts && top !in parents ==> route == UNROUTED)
              && (top !in starts && top in parents && parents[top].None? ==> route == ROOT)
    {
      ChainDecides(parents, starts, Some(cursor), chain);
      if Walk(parents, starts, Some(cursor), |chain|).Some? {
        PlainRouteIs(parents, starts, Some(cursor), |chain|);
      }
    }
    if Decides(parents, starts, Some(cursor)) {
      var fuel: nat :| Walk(parents, starts, Some(cursor), fuel).Some?;
      var chain := WalkHasChain(parents, starts, Some(cursor), fuel);
    }
  }

  /** A start no walk has visited is met by no memoised walk. */
  lemma {:induction false} UnmemoisedIsNotMet(parents: Parents, starts: Starts, memoised: set<string>, id: string,
                                              start: string, fuel: nat)
    requires id in memoised && start !in memoised && start !in starts
    requires forall v | v in memoised && Passable(parents, starts, v) && parents[v].Some? ::
               parents[v].value in memoised || parents[v].value in starts
    ensures !Meets(parents, starts, Some(id), start, fuel)
    decreases fuel
  {
    if Passable(parents, starts, id) && fuel > 0 && parents[id].Some? && parents[id].value in memoised {
      UnmemoisedIsNotMet(parents, starts, memoised, parents[id].value, start, fuel - 1);
    }
  }

  // ----- Whole streams -----

  /** An event of the file in file order; a start event also opens a child run. */
  datatype Item = Plain(e: Event) | Started(e: Event, id: string, child: Child)

  function StartsAfter(items: seq<Item>): Starts {
    if items == [] then map[]
    else
      var earlier := StartsAfter(items[..|items| - 1]);
      match items[|items| - 1]
      case Plain(_) => earlier
      case Started(_, id, child) => earlier[id := child]
  }

  /** The children by the sub-agent id their start event carries. */
  function SubagentsAfter(items: seq<Item>): map<string, Child> {
    if items == [] then map[]
    else
      var earlier := SubagentsAfter(items[..|items| - 1]);
      match items[|items| - 1]
      case Plain(_) => earlier
      case Started(e, _, child) => if e.subagent.Some? then earlier[e.subagent.value := child] else earlier
  }

  /** Where event k belongs, without any memo: to the sub-agent it names if that was started before
      it, else to the start its ancestry meets. */
  ghost function RouteOf(parents: Parents, items: seq<Item>, k: nat): Route
    requires k < |items|
  {
    var e, known := items[k].e, SubagentsAfter(items[..k]);
    if parents == map[] then ROOT
    else if Known(e, known) then Route(Some(known[e.subagent.value]), false)
    else PlainRoute(parents, StartsAfter(items[..k]), e.parentId)
  }

  /** Event j is routed by an ancestry walk that goes through this id. */
  ghost predicate WalksThrough(parents: Parents, items: seq<Item>, j: nat, id: string)
    requires j < |items|
  {
    !Known(items[j].e, SubagentsAfter(items[..j]))
    && PassesThrough(parents, StartsAfter(items[..j]), items[j].e.parentId, id)
  }

  /** Some walk of the first k events goes through this id. */
  ghost predicate WalkedBefore(parents: Parents, items: seq<Item>, k: nat, id: string)
    requires k <= |items|
  {
    exists j :: 0 <= j < k && WalksThrough(parents, items, j, id)
  }

  /** Start events are distinct, each with its own child, and registered before any later walk and
      after no earlier one, their own included, goes through them. */
  ghost predicate StartsComeFirst(parents: Parents, items: seq<Item>) {
    && (forall k | 0 <= k < |items| && items[k].Started? ::
          items[k].id in parents && !WalkedBefore(parents, items, k + 1, items[k].id))
    && (forall j, k | 0 <= j < k < |items| && items[j].Started? && items[k].Started? ::
          items[j].id != items[k].id && items[j].child != items[k].child)
  }

  lemma {:induction false} StartsAfterOrigin(items: seq<Item>, k: nat)
    requires k <= |items|
    ensures forall id | id in StartsAfter(items[..k]) ::
              exists j ::
                0 <= j < k && items[j].Started? && items[j].id == id && items[j].child == StartsAfter(items[..k])[id]
    decreases k
  {
    if k != 0 {
      assert items[..k][..k - 1] == items[..k - 1];
      StartsAfterOrigin(items, k - 1);
    }
  }

  /** A fresh start, unseen by every walk so far and by its own. */
  lemma StartIsNew(parents: Parents, items: seq<Item>, k: nat)
    requires StartsComeFirst(parents, items) && k < |items| && items[k].Started?
    ensures items[k].id !in StartsAfter(items[..k]) && items[k].child !in StartsAfter(items[..k]).Values
    ensures !WalkedBefore(parents, items, k + 1, items[k].id)
  {
    hide WalkedBefore;
    StartsAfterOrigin(items, k);
    var starts := StartsAfter(items[..k]);
    forall id | id in starts ensures id != items[k].id && starts[id] != items[k].child {
      var j :| 0 <= j < k && items[j].Started? && items[j].id == id && items[j].child == starts[id];
    }
  }

  /** The router after the first k events: starts registered, every other memoised id walked through. */
  ghost predicate AfterItems(router: Router, items: seq<Item>, k: nat)
    requires k <= |items|
    reads router
  {
    && router.Coherent() && router.Closed() && !router.hasInteractionIds
    && router.starts == StartsAfter(items[..k]) && router.childBySubagent == SubagentsAfter(items[..k])
    && forall id | id in router.memo :: id in router.starts || WalkedBefore(router.parents, items, k, id)
  }

  /** One event of the stream is routed, and then, if it is a start, registered. */
  method RouteItem(router: Router, items: seq<Item>, k: nat) returns (route: Route)
    requires k < |items| && StartsComeFirst(router.parents, items) && AfterItems(router, items, k)
    modifies router
    ensures AfterItems(router, items, k + 1)
    ensures route == RouteOf(router.parents, items, k)
  {
    hide PlainRoute, PassesThrough;
    assert items[..k + 1][..k] == items[..k];
    ghost var walked := router.memo;
    route := router.RouteEvent(items[k].e);
    forall id | id in router.memo ensures id in router.starts || WalkedBefore(router.parents, items, k + 1, id) {
      if id !in walked {
        assert WalksThrough(router.parents, items, k, id);
      } else if id !in router.starts {
        var j :| 0 <= j < k && WalksThrough(router.parents, items, j, id);
      }
    }
    if items[k].Started? {
      StartIsNew(router.parents, items, k);
      router.RegisterChild(items[k].id, items[k].e.subagent, items[k].child);
    }
  }

  /** Memoised routing gives every event of such a stream its memo-free route, cycles and unknown ids
      included. */
  method RouteStream(parents: Parents, items: seq<Item>) returns (routes: seq<Route>)
    requires StartsComeFirst(parents, items)
    ensures |routes| == |items|
    ensures forall k | 0 <= k < |items| :: routes[k] == RouteOf(parents, items, k)
  {
    hide StartsComeFirst, RouteOf, WalkedBefore;
    var router := new Router(parents, false, map[]);
    routes := [];
    assert items[..0] == [];
    for k := 0 to |items|
      invariant fresh(router) && router.parents == parents
      invariant |routes| == k && AfterItems(router, items, k)
      invariant forall j | 0 <= j < k :: routes[j] == RouteOf(parents, items, j)
    {
      var route := RouteItem(router, items, k);
      routes := routes + [route];
    }
  }

  // ----- The routes of a stream, from its events alone -----

  /** Event j is the last of the first k to start a sub-agent under this id. */
  predicate LastNamed(items: seq<Item>, k: nat, name: string, j: nat)
    requires k <= |items|
  {
    && j < k && items[j].Started? && items[j].e.subagent == Some(name)
    && forall i | j < i < k :: !(items[i].Started? && items[i].e.subagent == Some(name))
  }

  lemma {:induction false} SubagentsAreNamed(items: seq<Item>, k: nat, name: string)
    requires k <= |items|
    ensures name in SubagentsAfter(items[..k]) <==> exists j: nat :: LastNamed(items, k, name, j)
    ensures forall j: nat | LastNamed(items, k, name, j) ::
              name in SubagentsAfter(items[..k]) && SubagentsAfter(items[..k])[name] == items[j].child
    decreases k
  {
    if k > 0 {
      assert items[..k][..k - 1] == items[..k - 1];
      SubagentsAreNamed(items, k - 1, name);
      if items[k - 1].Started? && items[k - 1].e.subagent == Some(name) {
        assert LastNamed(items, k, name, k - 1);
      } else {
        forall j: nat | LastNamed(items, k, name, j) ensures LastNamed(items, k - 1, name, j) {
        }
        var m := k - 1;
        if j: nat :| LastNamed(items, m, name, j) {
          assert LastNamed(items, k, name, j);
        }
      }
    }
  }

  lemma {:induction false} StartsAreThere(items: seq<Item>, k: nat, j: nat)
    requires j < k <= |items| && items[j].Started?
    requires forall i | j < i < k && items[i].Started? :: items[i].id != items[j].id
    ensures items[j].id in StartsAfter(items[..k]) && StartsAfter(items[..k])[items[j].id] == items[j].child
    decreases k
  {
    assert items[..k][..k - 1] == items[..k - 1];
    if j < k - 1 {
      StartsAreThere(items, k - 1, j);
    }
  }

  /** An event that names a sub-agent goes to the child last started under that name before it. */
  lemma NamedEventGoesToChild(parents: Parents, items: seq<Item>, k: nat, name: string, j: nat)
    requires parents != map[] && k < |items| && items[k].e.subagent == Some(name) && LastNamed(items, k, name, j)
    ensures RouteOf(parents, items, k) == Route(Some(items[j].child), false)
  {
    SubagentsAreNamed(items, k, name);
  }

  /** An event that names none, or an unknown one, goes to the child whose start its parentIds lead up
      to first, among those started before it. */
  lemma DescendantGoesToChild(parents: Parents, items: seq<Item>, k: nat, j: nat, chain: seq<string>)
    requires StartsComeFirst(parents, items) && j < k < |items| && items[j].Started?
    requires items[k].e.subagent.Some? ==> forall i: nat :: !LastNamed(items, k, items[k].e.subagent.value, i)
    requires LeadsUp(parents, StartsAfter(items[..k]), items[k].e.parentId, chain)
    requires chain[|chain| - 1] == items[j].id
    ensures RouteOf(parents, items, k) == Route(Some(items[j].child), false)
  {
    hide WalkedBefore;
    if items[k].e.subagent.Some? {
      SubagentsAreNamed(items, k, items[k].e.subagent.value);
    }
    StartsAreThere(items, k, j);
    RouteByChains(parents, StartsAfter(items[..k]), chain[0]);
    assert items[j].id in parents;
  }
}

/** `ingestOneComposer`: rebuilding one Cursor conversation over the rows earlier ingests left. */
module CursorIngest {
  import opened Wrappers
  import opened StepTable

  datatype Kind = User | Assistant | Unclassified
  datatype ToolStatus = Errored | Completed | Pending | OtherStatus
  datatype Tool = Tool(name: string, status: ToolStatus)
  datatype Bubble = Bubble(
    id: string,
    kind: Kind,
    text: string,
    tool: Option<Tool>,
    thinking: bool,
    createdAt: Option<nat>
  )

  /** What one ingest needs to know besides the conversation: the served model and the clock. */
  datatype Stamp = Stamp(model: string, now: nat)

  datatype Outcome = Skipped | Committed(added: nat) | RolledBack

  // ----- What a walk over the conversation stores -----

  predicate DistinctIds(bubbles: seq<Bubble>) {
    forall i, j | 0 <= i < j < |bubbles| :: bubbles[i].id != bubbles[j].id
  }

  function WalkId(run: RunId, bubbles: seq<Bubble>, i: nat): StepId
    requires i < |bubbles|
  {
    Deterministic(run, bubbles[i].id)
  }

  predicate IsBlank(text: string) {
    forall c | c in text :: c in " \t\n\r"
  }

  /** The entry a bubble leaves in the history every later turn sees. */
  function TurnOf(b: Bubble): Turn {
    if b.kind == User then Turn("user", b.text)
    else Turn("assistant",
              if b.text != "" then b.text
              else if b.tool.Some? && b.tool.value.name != "" then "[" + b.tool.value.name + "]" else "")
  }

  function History(bubbles: seq<Bubble>, n: nat): seq<Turn>
    requires n <= |bubbles|
  {
    if n == 0 then [] else History(bubbles, n - 1) + [TurnOf(bubbles[n - 1])]
  }

  function ActionOf(b: Bubble): Action {
    if b.tool.Some? && b.tool.value.name != "" then ToolCall(b.tool.value.name)
    else if !IsBlank(b.text) then Message(b.text)
    else if b.thinking then ThinkingOnly
    else NoAction
  }

  function StatusOf(b: Bubble): Status {
    match b.tool
    case Some(Tool(_, Errored)) => Error
    case Some(Tool(_, Pending)) => InProgress
    case _ => Ok
  }

  /** A user turn sees the history up to and including itself, an assistant turn up to itself. */
  function BodyAt(bubbles: seq<Bubble>, i: nat, stamp: Stamp): Body
    requires i < |bubbles|
  {
    var b := bubbles[i];
    var time := b.createdAt.GetOr(stamp.now);
    if b.kind == User then Body(time, "user", History(bubbles, i + 1), b.text, Message(b.text), Ok)
    else Body(time, stamp.model, History(bubbles, i), b.text, ActionOf(b), StatusOf(b))
  }

  function WalkRow(run: RunId, bubbles: seq<Bubble>, i: nat, stamp: Stamp): StepRow
    requires i < |bubbles|
  {
    StepRow(run, if i == 0 then None else Some(WalkId(run, bubbles, i - 1)), i, BodyAt(bubbles, i, stamp))
  }

  ghost predicate IsWalkId(run: RunId, bubbles: seq<Bubble>, id: StepId) {
    exists i :: 0 <= i < |bubbles| && id == WalkId(run, bubbles, i)
  }

  // ----- The stored table an ingest starts from -----

  /** Rows of the run the walk owns; everything else belongs to another plane or another run. */
  ghost predicate InWalk(row: StepRow, run: RunId) {
    row.run == run && row.seqNo < HOOK_BASE
  }

  /** Ids minted for a walk step of this run name only walk rows of this run, and every band row
      of the run lies below the rebuild offset. */
  ghost predicate Healthy(steps: Steps, run: RunId) {
    && (forall id | id in steps && id.Deterministic? && id.run == run :: InWalk(steps[id], run))
    && (forall id | id in steps && steps[id].run == run :: steps[id].seqNo < REBUILD_OFFSET)
  }

  /** Bubble i's step is stored somewhere else in the walk, or another deterministic step sits at i. */
  ghost predicate ShiftedAt(steps: Steps, run: RunId, bubbles: seq<Bubble>, i: nat)
    requires i < |bubbles|
  {
    var computed := WalkId(run, bubbles, i);
    || (computed in steps && InWalk(steps[computed], run) && steps[computed].seqNo != i)
    || (i < HOOK_BASE && exists id | At(steps, id, run, i) :: id != computed && id.Deterministic?)
  }

  ghost predicate Shifted(steps: Steps, run: RunId, bubbles: seq<Bubble>) {
    exists i :: 0 <= i < |bubbles| && ShiftedAt(steps, run, bubbles, i)
  }

  /** On an unshifted ingest a legacy row inside the walk takes its bubble's deterministic id. */
  ghost predicate Migrates(steps: Steps, run: RunId, bubbles: seq<Bubble>, id: StepId) {
    && id in steps
    && InWalk(steps[id], run)
    && steps[id].seqNo < |bubbles|
    && !id.Deterministic?
    && !Shifted(steps, run, bubbles)
  }

  /** The id a stored row answers to after the ingest, or None when the row is gone. */
  ghost function Fate(steps: Steps, run: RunId, bubbles: seq<Bubble>, id: StepId): Option<StepId>
    requires id in steps
  {
    if !InWalk(steps[id], run) || IsWalkId(run, bubbles, id) then Some(id)
    else if Migrates(steps, run, bubbles, id) then Some(WalkId(run, bubbles, steps[id].seqNo))
    else None
  }

  ghost function ParentAfter(steps: Steps, run: RunId, bubbles: seq<Bubble>, parent: Option<StepId>): Option<StepId> {
    if parent.Some? && Migrates(steps, run, bubbles, parent.value)
    then Some(WalkId(run, bubbles, steps[parent.value].seqNo))
    else parent
  }

  /** Rows of other planes and other runs, as an ingest leaves them: only a parent link that
      names a migrated legacy row follows the rename. */
  ghost function OutsiderAfter(steps: Steps, run: RunId, bubbles: seq<Bubble>, row: StepRow): StepRow {
    if row.run == run then row.(parent := ParentAfter(steps, run, bubbles, row.parent)) else row
  }

  /** The whole table after a committed ingest, in terms of the table before it. */
  ghost predicate Reconciled(before: Steps, changesBefore: Changes, after: Steps, changesAfter: Changes,
                             run: RunId, bubbles: seq<Bubble>, stamp: Stamp) {
    && (forall i | 0 <= i < |bubbles| ::
          WalkId(run, bubbles, i) in after && after[WalkId(run, bubbles, i)] == WalkRow(run, bubbles, i, stamp))
    && (forall id | id in after && InWalk(after[id], run) :: IsWalkId(run, bubbles, id))
    && (forall id | id in before && !InWalk(before[id], run) ::
          id in after && after[id] == OutsiderAfter(before, run, bubbles, before[id]))
    && (forall id | id in after && !InWalk(after[id], run) :: id in before && !InWalk(before[id], run))
    && Attached(before, changesBefore)
    && changesAfter == ChangesAfter(before, changesBefore, run, bubbles)
  }

  /** The children left: those whose step has a fate, under the id that step answers to. */
  ghost function ChangesAfter(steps: Steps, changes: Changes, run: RunId, bubbles: seq<Bubble>): Changes
    requires Attached(steps, changes)
  {
    map c | c in changes && Fate(steps, run, bubbles, changes[c].step).Some? ::
      changes[c].(step := Fate(steps, run, bubbles, changes[c].step).value)
  }

  // ----- Reading the snapshot -----

  predicate HasId(bubbles: seq<Bubble>, id: string) {
    exists i :: 0 <= i < |bubbles| && bubbles[i].id == id
  }

  /** One bubble per id, the first one fetched, in fetch order. */
  function FirstById(fetched: seq<Bubble>): (distinct: seq<Bubble>)
    ensures DistinctIds(distinct)
  {
    if fetched == [] then [] else
      var rest := FirstById(fetched[..|fetched| - 1]);
      var last := fetched[|fetched| - 1];
      if HasId(rest, last.id) then rest else rest + [last]
  }

  /** Only user and assistant bubbles become steps. */
  function Classified(bubbles: seq<Bubble>): (kept: seq<Bubble>)
    ensures forall i | 0 <= i < |kept| :: kept[i].kind != Unclassified && HasId(bubbles, kept[i].id)
    ensures DistinctIds(bubbles) ==> DistinctIds(kept)
    ensures |kept| <= |bubbles|
  {
    if bubbles == [] then [] else
      var rest := Classified(bubbles[..|bubbles| - 1]);
      var last := bubbles[|bubbles| - 1];
      if last.kind == Unclassified then rest else rest + [last]
  }

  function Walked(fetched: seq<Bubble>): (bubbles: seq<Bubble>)
    ensures DistinctIds(bubbles)
  {
    Classified(FirstById(fetched))
  }

  // ----- The walk, read off the fetched rows alone -----

  /** No bubble fetched earlier has this one's id. */
  predicate FirstFetched(fetched: seq<Bubble>, j: nat)
    requires j < |fetched|
  {
    forall i | 0 <= i < j :: fetched[i].id != fetched[j].id
  }

  /** Row j of the fetch is the first with its id, and a user or assistant bubble. */
  predicate IsTurn(fetched: seq<Bubble>, j: nat) {
    j < |fetched| && FirstFetched(fetched, j) && fetched[j].kind != Unclassified
  }

  /** `at` lists the positions of all turns in fetch order. */
  ghost predicate Turns(fetched: seq<Bubble>, at: seq<nat>) {
    && (forall k | 0 <= k < |at| :: IsTurn(fetched, at[k]))
    && (forall k, m | 0 <= k < m < |at| :: at[k] < at[m])
    && (forall j: nat | IsTurn(fetched, j) :: j in at)
  }

  ghost predicate Selects(fetched: seq<Bubble>, at: seq<nat>, bubbles: seq<Bubble>) {
    |bubbles| == |at| && forall k | 0 <= k < |at| :: at[k] < |fetched| && bubbles[k] == fetched[at[k]]
  }

  lemma {:induction false} FirstByIdHolds(fetched: seq<Bubble>, id: string)
    ensures HasId(FirstById(fetched), id) <==> HasId(fetched, id)
  {
    if fetched != [] {
      var n := |fetched| - 1;
      FirstByIdHolds(fetched[..n], id);
      FirstByIdHolds(fetched[..n], fetched[n].id);
      assert fetched == fetched[..n] + [fetched[n]];
      HasIdAppend(fetched[..n], fetched[n]);
      HasIdAppend(FirstById(fetched[..n]), fetched[n]);
    }
  }

  /** The walk is the fetched conversation itself: every user or assistant bubble whose id was not
      fetched before, in fetch order, and nothing else. */
  lemma {:induction false} WalkIsFetchOrder(fetched: seq<Bubble>) returns (at: seq<nat>)
    ensures Turns(fetched, at) && Selects(fetched, at, Walked(fetched))
  {
    hide Walked, FirstById, Turns, HasId, FirstFetched;
    if fetched == [] {
      NothingWalked();
      at := [];
    } else {
      var n := |fetched| - 1;
      var earlier, last := fetched[..n], fetched[n];
      var before := WalkIsFetchOrder(earlier);
      FirstByIdHolds(earlier, last.id);
      FirstFetchedIff(fetched, n);
      WalkGrows(fetched);
      at := if IsTurn(fetched, n) then before + [n] else before;
      TurnsGrow(fetched, before, at);
    }
  }

  lemma FirstFetchedIff(fetched: seq<Bubble>, n: nat)
    requires n < |fetched|
    ensures FirstFetched(fetched, n) <==> !HasId(fetched[..n], fetched[n].id)
    ensures forall j | 0 <= j < n :: FirstFetched(fetched, j) <==> FirstFetched(fetched[..n], j)
  {
  }

  lemma NothingWalked()
    ensures Walked([]) == [] && Turns([], [])
  {
  }

  lemma WalkGrows(fetched: seq<Bubble>)
    requires fetched != []
    ensures var n := |fetched| - 1;
            Walked(fetched) == Walked(fetched[..n])
              + (if HasId(FirstById(fetched[..n]), fetched[n].id) || fetched[n].kind == Unclassified then []
                 else [fetched[n]])
  {
    var n := |fetched| - 1;
    var rest := FirstById(fetched[..n]);
    assert (rest + [fetched[n]])[..|rest|] == rest;
  }

  lemma TurnsGrow(fetched: seq<Bubble>, before: seq<nat>, at: seq<nat>)
    requires fetched != [] && Turns(fetched[..|fetched| - 1], before)
    requires at == if IsTurn(fetched, |fetched| - 1) then before + [|fetched| - 1] else before
    ensures Turns(fetched, at)
  {
    var n := |fetched| - 1;
    forall j: nat ensures IsTurn(fetched, j) <==> IsTurn(fetched[..n], j) || (j == n && IsTurn(fetched, n)) {
      TurnOfPrefix(fetched, j);
    }
    assert forall j: nat | IsTurn(fetched[..n], j) :: j < n;
    hide IsTurn;
    forall j: nat | IsTurn(fetched, j) ensures j in at {
      assert IsTurn(fetched[..n], j) ==> j in before;
    }
  }

  lemma TurnOfPrefix(fetched: seq<Bubble>, j: nat)
    requires fetched != []
    ensures var n := |fetched| - 1;
            IsTurn(fetched, j) <==> IsTurn(fetched[..n], j) || (j == n && IsTurn(fetched, n))
  {
  }

  /** `at` lists the positions of all first fetches in order. */
  ghost predicate Firsts(fetched: seq<Bubble>, at: seq<nat>) {
    && (forall k | 0 <= k < |at| :: at[k] < |fetched| && FirstFetched(fetched, at[k]))
    && (forall k, m | 0 <= k < m < |at| :: at[k] < at[m])
    && (forall j | 0 <= j < |fetched| && FirstFetched(fetched, j) :: j in at)
  }

  lemma {:induction false} DistinctIsFetchOrder(fetched: seq<Bubble>) returns (at: seq<nat>)
    ensures Firsts(fetched, at) && Selects(fetched, at, FirstById(fetched))
  {
    hide Firsts, HasId, FirstFetched;
    if fetched == [] {
      at := [];
      FirstsOfNone();
    } else {
      var n := |fetched| - 1;
      var before := DistinctIsFetchOrder(fetched[..n]);
      FirstByIdHolds(fetched[..n], fetched[n].id);
      FirstFetchedIff(fetched, n);
      at := if FirstFetched(fetched, n) then before + [n] else before;
      FirstsGrow(fetched, before, at);
    }
  }

  lemma FirstsOfNone()
    ensures Firsts([], [])
  {
  }

  lemma FirstsGrow(fetched: seq<Bubble>, before: seq<nat>, at: seq<nat>)
    requires fetched != [] && Firsts(fetched[..|fetched| - 1], before)
    requires at == if FirstFetched(fetched, |fetched| - 1) then before + [|fetched| - 1] else before
    ensures Firsts(fetched, at)
  {
    var n := |fetched| - 1;
    FirstFetchedIff(fetched, n);
    forall j | 0 <= j < |fetched| && FirstFetched(fetched, j) ensures j in at {
      assert j < n ==> j in before;
    }
  }

  /** The bubbles are just the first fetches, in order. */
  ghost predicate InFetchOrder(fetched: seq<Bubble>, distinct: seq<Bubble>) {
    exists at :: Firsts(fetched, at) && Selects(fetched, at, distinct)
  }

  method DedupeBubbles(fetched: seq<Bubble>) returns (distinct: seq<Bubble>)
    ensures distinct == FirstById(fetched) && InFetchOrder(fetched, distinct)
  {
    distinct := [];
    var seen: set<string> := {};
    for i := 0 to |fetched|
      invariant distinct == FirstById(fetched[..i])
      invariant forall id :: id in seen <==> HasId(distinct, id)
    {
      assert fetched[..i + 1][..i] == fetched[..i];
      if fetched[i].id !in seen {
        ghost var earlier := distinct;
        seen, distinct := seen + {fetched[i].id}, distinct + [fetched[i]];
        HasIdAppend(earlier, fetched[i]);
      }
    }
    assert fetched[..|fetched|] == fetched;
    ghost var at := DistinctIsFetchOrder(fetched);
  }

  lemma HasIdAppend(bubbles: seq<Bubble>, last: Bubble)
    ensures forall id :: HasId(bubbles + [last], id) <==> HasId(bubbles, id) || id == last.id
  {
    assert (bubbles + [last])[|bubbles|] == last;
    forall id | HasId(bubbles, id) ensures HasId(bubbles + [last], id) {
      var i :| 0 <= i < |bubbles| && bubbles[i].id == id;
      assert (bubbles + [last])[i].id == id;
    }
  }

  /** The context a step was taken in: the turns fetched before it, its own included for a user. */
  ghost predicate Hears(context: seq<Turn>, fetched: seq<Bubble>, at: seq<nat>, n: nat)
    requires n <= |at| && forall k | 0 <= k < |at| :: at[k] < |fetched|
  {
    && |context| == n
    && forall j | 0 <= j < n ::
         var b := fetched[at[j]];
         && context[j].role == (if b.kind == User then "user" else "assistant")
         && (b.text != "" ==> context[j].text == b.text)
         && (b.text == "" && b.kind != User && b.tool.Some? && b.tool.value.name != "" ==>
               context[j].text == "[" + b.tool.value.name + "]")
  }

  /** What an assistant turn did: its named tool, else its text, else thinking, else nothing. */
  ghost predicate Does(action: Action, b: Bubble) {
    var named := b.tool.Some? && b.tool.value.name != "";
    && (action.ToolCall? <==> named) && (named ==> action.tool == b.tool.value.name)
    && (action.Message? <==> !named && !IsBlank(b.text)) && (action.Message? ==> action.text == b.text)
    && (action.ThinkingOnly? <==> !named && IsBlank(b.text) && b.thinking)
  }

  /** Row i of a stored walk tells turn i. */
  ghost predicate Tells(row: StepRow, run: RunId, fetched: seq<Bubble>, at: seq<nat>, i: nat, stamp: Stamp)
    requires i < |at| && forall k | 0 <= k < |at| :: at[k] < |fetched|
  {
    var b, body := fetched[at[i]], row.body;
    && row.run == run && row.seqNo == i
    && (i == 0 ==> row.parent == None) && (i > 0 ==> row.parent == Some(Deterministic(run, fetched[at[i - 1]].id)))
    && body.decision == b.text && (b.createdAt.Some? ==> body.timestamp == b.createdAt.value)
    && (b.createdAt.None? ==> body.timestamp == stamp.now)
    && (b.kind == User ==>
          body.model == "user" && body.action == Message(b.text) && body.status == Ok
          && Hears(body.context, fetched, at, i + 1))
    && (b.kind == Assistant ==>
          && body.model == stamp.model && Does(body.action, b) && Hears(body.context, fetched, at, i)
          && (body.status == Error <==> b.tool.Some? && b.tool.value.status == Errored)
          && (body.status == InProgress <==> b.tool.Some? && b.tool.value.status == Pending))
  }

  /** The walk of a run is the conversation as it was fetched, turn by turn, and holds nothing else. */
  ghost predicate ToldInOrder(steps: Steps, run: RunId, fetched: seq<Bubble>, at: seq<nat>, stamp: Stamp) {
    && Turns(fetched, at)
    && (forall i | 0 <= i < |at| ::
          var id := Deterministic(run, fetched[at[i]].id);
          id in steps && Tells(steps[id], run, fetched, at, i, stamp))
    && (forall id | id in steps && InWalk(steps[id], run) ::
          exists i :: 0 <= i < |at| && id == Deterministic(run, fetched[at[i]].id))
  }

  ghost predicate Told(steps: Steps, run: RunId, fetched: seq<Bubble>, stamp: Stamp) {
    exists at :: ToldInOrder(steps, run, fetched, at, stamp)
  }

  lemma {:induction false} HistoryHears(fetched: seq<Bubble>, at: seq<nat>, bubbles: seq<Bubble>, n: nat)
    requires Selects(fetched, at, bubbles) && n <= |bubbles|
    ensures Hears(History(bubbles, n), fetched, at, n)
  {
    if n != 0 {
      HistoryHears(fetched, at, bubbles, n - 1);
    }
  }

  lemma WalkRowTells(run: RunId, fetched: seq<Bubble>, at: seq<nat>, bubbles: seq<Bubble>, i: nat, stamp: Stamp)
    requires Selects(fetched, at, bubbles) && i < |bubbles|
    ensures Tells(WalkRow(run, bubbles, i, stamp), run, fetched, at, i, stamp)
  {
    hide Hears, IsBlank;
    HistoryHears(fetched, at, bubbles, i);
    HistoryHears(fetched, at, bubbles, i + 1);
  }

  /** A reconciled table tells the fetched conversation in order. */
  lemma ConversationIsTold(before: Steps, changes: Changes, after: Steps, changesAfter: Changes, run: RunId,
                           fetched: seq<Bubble>, stamp: Stamp)
    requires Reconciled(before, changes, after, changesAfter, run, Walked(fetched), stamp)
    ensures Told(after, run, fetched, stamp)
  {
    hide Turns, Walked, Tells, WalkRow, ChangesAfter, OutsiderAfter;
    var at := WalkIsFetchOrder(fetched);
    assert forall i | 0 <= i < |at| :: at[i] < |fetched| by {
      TurnsInRange(fetched, at);
    }
    var bubbles := Walked(fetched);
    forall i | 0 <= i < |at|
      ensures var id := Deterministic(run, fetched[at[i]].id);
              id in after && Tells(after[id], run, fetched, at, i, stamp)
    {
      WalkRowTells(run, fetched, at, bubbles, i, stamp);
      assert WalkId(run, bubbles, i) in after;
    }
    forall id | id in after && InWalk(after[id], run)
      ensures exists i :: 0 <= i < |at| && id == Deterministic(run, fetched[at[i]].id)
    {
      assert IsWalkId(run, bubbles, id);
      var i :| 0 <= i < |bubbles| && id == WalkId(run, bubbles, i);
      assert id == Deterministic(run, fetched[at[i]].id);
    }
    assert ToldInOrder(after, run, fetched, at, stamp);
  }

  lemma TurnsInRange(fetched: seq<Bubble>, at: seq<nat>)
    requires Turns(fetched, at)
    ensures forall i | 0 <= i < |at| :: at[i] < |fetched|
  {
  }

  // ----- Reconciliation against stored rows -----

  ghost function StoredSeqs(steps: Steps, run: RunId): set<nat> {
    set id | id in steps && InWalk(steps[id], run) :: steps[id].seqNo
  }

  datatype Rename = Rename(oldId: StepId, newId: StepId)

  /** The walk rows of the run, by sequence. */
  ghost predicate Lists(steps: Steps, run: RunId, idBySeq: map<nat, StepId>) {
    && (forall s | s in idBySeq :: At(steps, idBySeq[s], run, s) && s < HOOK_BASE)
    && (forall id | id in steps && InWalk(steps[id], run) ::
          steps[id].seqNo in idBySeq && idBySeq[steps[id].seqNo] == id)
  }

  /** One rename for every legacy row sitting inside the conversation. */
  ghost predicate Plans(idBySeq: map<nat, StepId>, run: RunId, bubbles: seq<Bubble>, migrations: seq<Rename>) {
    && (forall m | m in migrations :: exists i | 0 <= i < |bubbles| && i in idBySeq && !idBySeq[i].Deterministic? ::
          m == Rename(idBySeq[i], WalkId(run, bubbles, i)))
    && (forall i | 0 <= i < |bubbles| && i in idBySeq && !idBySeq[i].Deterministic? ::
          Rename(idBySeq[i], WalkId(run, bubbles, i)) in migrations)
  }

  /** existingIdBySeq: the walk rows of the run by sequence. */
  method ListWalk(steps: Steps, run: RunId) returns (idBySeq: map<nat, StepId>)
    requires UniqueSlots(steps)
    ensures Lists(steps, run, idBySeq)
    ensures idBySeq.Keys == StoredSeqs(steps, run)
  {
    idBySeq := map[];
    var rest := steps.Keys;
    while rest != {}
      invariant rest <= steps.Keys
      invariant forall s | s in idBySeq :: At(steps, idBySeq[s], run, s) && s < HOOK_BASE
      invariant forall id | id in steps && InWalk(steps[id], run) ::
          id in rest || (steps[id].seqNo in idBySeq && idBySeq[steps[id].seqNo] == id)
      decreases rest
    {
      var id :| id in rest;
      if steps[id].run == run && steps[id].seqNo < HOOK_BASE {
        idBySeq := idBySeq[steps[id].seqNo := id];
      }
      rest := rest - {id};
    }
  }

  method DetectShift(steps: Steps, idBySeq: map<nat, StepId>, run: RunId, bubbles: seq<Bubble>) returns (shifted: bool)
    requires UniqueSlots(steps)
    requires Lists(steps, run, idBySeq)
    ensures shifted <==> Shifted(steps, run, bubbles)
  {
    var seqById := map s | s in idBySeq :: idBySeq[s] := s;
    assert forall id | id in steps && InWalk(steps[id], run) :: idBySeq[steps[id].seqNo] in seqById;
    for i := 0 to |bubbles|
      invariant forall k | 0 <= k < i :: !ShiftedAt(steps, run, bubbles, k)
    {
      var computed := WalkId(run, bubbles, i);
      if computed in seqById && seqById[computed] != i {
        assert ShiftedAt(steps, run, bubbles, i);
        return true;
      }
      if i in idBySeq && idBySeq[i] != computed && idBySeq[i].Deterministic? {
        assert ShiftedAt(steps, run, bubbles, i);
        return true;
      }
    }
    return false;
  }

  /** Distinct non-deterministic ids to be renamed to distinct deterministic ones. */
  ghost predicate CleanRenames(renames: seq<Rename>) {
    && (forall k | 0 <= k < |renames| :: !renames[k].oldId.Deterministic? && renames[k].newId.Deterministic?)
    && (forall j, k | 0 <= j < k < |renames| ::
          renames[j].oldId != renames[k].oldId && renames[j].newId != renames[k].newId)
  }

  method PlanMigrations(idBySeq: map<nat, StepId>, run: RunId, bubbles: seq<Bubble>)
    returns (migrations: seq<Rename>, migratedSeqs: set<nat>)
    requires DistinctIds(bubbles)
    requires forall s, t | s in idBySeq && t in idBySeq && s != t :: idBySeq[s] != idBySeq[t]
    ensures forall i :: i in migratedSeqs <==> i < |bubbles| && i in idBySeq && !idBySeq[i].Deterministic?
    ensures CleanRenames(migrations)
    ensures Plans(idBySeq, run, bubbles, migrations)
  {
    migrations, migratedSeqs := [], {};
    for i := 0 to |bubbles|
      invariant forall k :: k in migratedSeqs <==> k < i && k in idBySeq && !idBySeq[k].Deterministic?
      invariant CleanRenames(migrations)
      invariant forall m | m in migrations :: exists k | k in migratedSeqs ::
                  m == Rename(idBySeq[k], WalkId(run, bubbles, k))
      invariant forall k | k in migratedSeqs :: Rename(idBySeq[k], WalkId(run, bubbles, k)) in migrations
    {
      if i in idBySeq && !idBySeq[i].Deterministic? {
        var m := Rename(idBySeq[i], WalkId(run, bubbles, i));
        assert forall k | 0 <= k < |migrations| :: migrations[k] in migrations;
        migrations, migratedSeqs := migrations + [m], migratedSeqs + {i};
      }
    }
  }

  /** How many of the first n bubbles have an id no stored walk row answers to. */
  function NovelCount(run: RunId, bubbles: seq<Bubble>, preIds: set<StepId>, n: nat): nat
    requires n <= |bubbles|
  {
    if n == 0 then 0
    else NovelCount(run, bubbles, preIds, n - 1) + (if WalkId(run, bubbles, n - 1) in preIds then 0 else 1)
  }

  /** Tool bubbles whose file changes are extracted after the commit, with their step. */
  function ToolSteps(run: RunId, bubbles: seq<Bubble>, n: nat): seq<(Bubble, StepId)>
    requires n <= |bubbles|
  {
    if n == 0 then []
    else
      var b := bubbles[n - 1];
      ToolSteps(run, bubbles, n - 1)
      + (if b.kind == Assistant && b.tool.Some? then [(b, WalkId(run, bubbles, n - 1))] else [])
  }

  predicate IsToolTurn(b: Bubble) {
    b.kind == Assistant && b.tool.Some?
  }

  /** `at` lists the positions of the tool turns in order, and `steps` each with its own id. */
  ghost predicate ListsTools(run: RunId, bubbles: seq<Bubble>, n: nat, at: seq<nat>, steps: seq<(Bubble, StepId)>)
    requires n <= |bubbles|
  {
    && |at| == |steps|
    && (forall k | 0 <= k < |at| ::
          at[k] < n && IsToolTurn(bubbles[at[k]])
          && steps[k].0 == bubbles[at[k]] && steps[k].1 == Deterministic(run, bubbles[at[k]].id))
    && (forall k, m | 0 <= k < m < |at| :: at[k] < at[m])
    && (forall i: nat | i < n && IsToolTurn(bubbles[i]) :: i in at)
  }

  lemma OneMoreTool(run: RunId, bubbles: seq<Bubble>, n: nat, at: seq<nat>, steps: seq<(Bubble, StepId)>)
    requires n < |bubbles| && ListsTools(run, bubbles, n, at, steps)
    ensures IsToolTurn(bubbles[n]) ==>
              ListsTools(run, bubbles, n + 1, at + [n], steps + [(bubbles[n], Deterministic(run, bubbles[n].id))])
    ensures !IsToolTurn(bubbles[n]) ==> ListsTools(run, bubbles, n + 1, at, steps)
  {
    hide IsToolTurn;
    assert forall i: nat | i < n && IsToolTurn(bubbles[i]) :: i in at + [n];
  }

  lemma ToolStepsGrow(run: RunId, bubbles: seq<Bubble>, n: nat)
    requires n < |bubbles|
    ensures IsToolTurn(bubbles[n]) ==>
              ToolSteps(run, bubbles, n + 1)
              == ToolSteps(run, bubbles, n) + [(bubbles[n], Deterministic(run, bubbles[n].id))]
    ensures !IsToolTurn(bubbles[n]) ==> ToolSteps(run, bubbles, n + 1) == ToolSteps(run, bubbles, n)
  {
  }

  lemma NoToolSteps(run: RunId, bubbles: seq<Bubble>)
    ensures ListsTools(run, bubbles, 0, [], ToolSteps(run, bubbles, 0))
  {
  }

  /** The steps that wait for their file changes are the tool turns of the walk, all of them and in
      order, each under its own id. */
  lemma {:induction false} ToolStepsAreTurns(run: RunId, bubbles: seq<Bubble>, n: nat) returns (at: seq<nat>)
    requires n <= |bubbles|
    ensures ListsTools(run, bubbles, n, at, ToolSteps(run, bubbles, n))
  {
    hide ToolSteps, IsToolTurn, ListsTools;
    if n == 0 {
      at := [];
      NoToolSteps(run, bubbles);
    } else {
      at := ToolStepsAreTurns(run, bubbles, n - 1);
      OneMoreTool(run, bubbles, n - 1, at, ToolSteps(run, bubbles, n - 1));
      ToolStepsGrow(run, bubbles, n - 1);
      at := if IsToolTurn(bubbles[n - 1]) then at + [n - 1] else at;
    }
  }

  /** The row of one bubble; a user turn joins the history before its row, an assistant turn after it. */
  method BuildRow(run: RunId, ghost bubbles: seq<Bubble>, i: nat, stamp: Stamp, prevStepId: Option<StepId>,
                  sequence: nat, history0: seq<Turn>, b: Bubble) returns (row: StepRow, history: seq<Turn>)
    requires i < |bubbles| && sequence == i && b == bubbles[i] && b.kind != Unclassified
             && history0 == History(bubbles, i)
    requires prevStepId == if i == 0 then None else Some(WalkId(run, bubbles, i - 1))
    ensures row == WalkRow(run, bubbles, i, stamp) && history == History(bubbles, i + 1)
  {
    var time := b.createdAt.GetOr(stamp.now);
    history := history0 + [TurnOf(b)];
    if b.kind == User {
      row := StepRow(run, prevStepId, sequence, Body(time, "user", history, b.text, Message(b.text), Ok));
    } else {
      row := StepRow(run, prevStepId, sequence, Body(time, stamp.model, history0, b.text, ActionOf(b), StatusOf(b)));
    }
  }

  /** The ids and rows of the first bubbles, as many as there are ids. */
  ghost predicate Built(run: RunId, bubbles: seq<Bubble>, stamp: Stamp, ids: seq<StepId>, rows: seq<StepRow>) {
    && |ids| == |rows| <= |bubbles|
    && (forall k | 0 <= k < |ids| :: ids[k] == WalkId(run, bubbles, k))
    && (forall k | 0 <= k < |rows| :: rows[k] == WalkRow(run, bubbles, k, stamp))
  }

  lemma BuiltOneMore(run: RunId, bubbles: seq<Bubble>, stamp: Stamp, ids: seq<StepId>, rows: seq<StepRow>)
    requires Built(run, bubbles, stamp, ids, rows) && |ids| < |bubbles|
    ensures Built(run, bubbles, stamp, ids + [WalkId(run, bubbles, |ids|)],
                  rows + [WalkRow(run, bubbles, |rows|, stamp)])
  {
  }

  /** Phase 1: one row per bubble, each chained to the id that survives at the slot before it. */
  method BuildSteps(run: RunId, bubbles: seq<Bubble>, stamp: Stamp, shifted: bool, idBySeq: map<nat, StepId>,
                    migratedSeqs: set<nat>, preIds: set<StepId>)
    returns (ids: seq<StepId>, rows: seq<StepRow>, pendingChanges: seq<(Bubble, StepId)>, added: nat)
    requires forall i | 0 <= i < |bubbles| :: bubbles[i].kind != Unclassified
    requires forall i | 0 <= i < |bubbles| ::
               shifted || i in migratedSeqs || (i in idBySeq ==> idBySeq[i] == WalkId(run, bubbles, i))
    ensures |ids| == |bubbles| && Built(run, bubbles, stamp, ids, rows)
    ensures added == NovelCount(run, bubbles, preIds, |bubbles|)
    ensures pendingChanges == ToolSteps(run, bubbles, |bubbles|)
  {
    ids, rows, pendingChanges, added := [], [], [], 0;
    var history: seq<Turn> := [];
    var prevStepId: Option<StepId> := None;
    var sequence := 0;
    for i := 0 to |bubbles|
      invariant sequence == |ids| == i && Built(run, bubbles, stamp, ids, rows)
      invariant history == History(bubbles, i)
      invariant prevStepId == if i == 0 then None else Some(WalkId(run, bubbles, i - 1))
      invariant added == NovelCount(run, bubbles, preIds, i)
      invariant pendingChanges == ToolSteps(run, bubbles, i)
    {
      var b := bubbles[i];
      var stepId := Deterministic(run, b.id);
      var row;
      row, history := BuildRow(run, bubbles, i, stamp, prevStepId, sequence, history, b);
      BuiltOneMore(run, bubbles, stamp, ids, rows);
      ids, rows := ids + [stepId], rows + [row];
      var survivor := if shifted || sequence in migratedSeqs then stepId
                      else if sequence in idBySeq then idBySeq[sequence] else stepId;
      assert survivor == WalkId(run, bubbles, i);
      prevStepId := Some(survivor);
      if survivor !in preIds {
        added := added + 1;
      }
      if b.kind == Assistant && b.tool.Some? {
        pendingChanges := pendingChanges + [(b, survivor)];
      }
      sequence := sequence + 1;
    }
  }

  // ----- Phase 2: the commit -----

  ghost function NewName(renames: seq<Rename>, id: StepId): StepId {
    if renames == [] then id
    else if renames[|renames| - 1].oldId == id then renames[|renames| - 1].newId
    else NewName(renames[..|renames| - 1], id)
  }

  ghost function NewParent(renames: seq<Rename>, parent: Option<StepId>): Option<StepId> {
    if parent.None? then None else Some(NewName(renames, parent.value))
  }

  ghost function RowRenamed(row: StepRow, run: RunId, renames: seq<Rename>): StepRow {
    if row.run == run then row.(parent := NewParent(renames, row.parent)) else row
  }

  ghost function NamesOf(ids: set<StepId>, renames: seq<Rename>): set<StepId> {
    set id | id in ids :: NewName(renames, id)
  }

  /** `after` is `before` with every renamed row under its new id and parent links following. */
  ghost predicate RenamedBy(before: Steps, after: Steps, run: RunId, renames: seq<Rename>) {
    && after.Keys == NamesOf(before.Keys, renames)
    && (forall id | id in before ::
          NewName(renames, id) in after && after[NewName(renames, id)] == RowRenamed(before[id], run, renames))
  }

  ghost function RenamedChanges(changes: Changes, run: RunId, renames: seq<Rename>): Changes {
    map c | c in changes ::
      if changes[c].run == run then changes[c].(step := NewName(renames, changes[c].step)) else changes[c]
  }

  ghost function RenamedNotes(notes: Notes, renames: seq<Rename>): Notes {
    map a | a in notes :: NewName(renames, notes[a])
  }

  /** A note on a legacy row inside the walk addresses it by its new id. */
  ghost function NotesAfter(before: Steps, notes: Notes, run: RunId, bubbles: seq<Bubble>): Notes {
    map a | a in notes :: LegacyName(before, run, bubbles, notes[a])
  }

  /** A user's note on a legacy row of the walk is found on the bubble at its place; every other note
      stays where it was. */
  lemma NotesFollow(before: Steps, notes: Notes, run: RunId, bubbles: seq<Bubble>, a: string)
    requires a in notes
    ensures a in NotesAfter(before, notes, run, bubbles)
    ensures var id := notes[a];
            NotesAfter(before, notes, run, bubbles)[a] ==
            if id in before && before[id].run == run && before[id].seqNo < HOOK_BASE && before[id].seqNo < |bubbles|
               && !id.Deterministic? && !Shifted(before, run, bubbles)
            then Deterministic(run, bubbles[before[id].seqNo].id) else id
  {
  }

  /** A hook or usage row of the run is kept; its parent link follows a legacy row of the walk to the
      bubble at its place, and any other link stays. Rows of other runs do not change. */
  lemma ParentsFollow(before: Steps, changes: Changes, after: Steps, changesAfter: Changes, run: RunId,
                      bubbles: seq<Bubble>, stamp: Stamp, id: StepId)
    requires Reconciled(before, changes, after, changesAfter, run, bubbles, stamp)
    requires id in before && (before[id].run != run || before[id].seqNo >= HOOK_BASE)
    ensures id in after && after[id].(parent := before[id].parent) == before[id]
    ensures before[id].run != run || before[id].parent == None ==> after[id] == before[id]
    ensures before[id].run == run && before[id].parent.Some? ==>
              var p := before[id].parent.value;
              after[id].parent ==
              if p in before && before[p].run == run && before[p].seqNo < HOOK_BASE && before[p].seqNo < |bubbles|
                 && !p.Deterministic? && !Shifted(before, run, bubbles)
              then Some(Deterministic(run, bubbles[before[p].seqNo].id)) else Some(p)
  {
    assert !InWalk(before[id], run);
    assert after[id] == OutsiderAfter(before, run, bubbles, before[id]);
  }

  /** The renames name rows of this run and mint only unused ids. */
  ghost predicate Applicable(steps: Steps, run: RunId, renames: seq<Rename>) {
    && CleanRenames(renames)
    && (forall k | 0 <= k < |renames| ::
          renames[k].oldId in steps && steps[renames[k].oldId].run == run && renames[k].newId !in steps)
  }

  lemma {:induction false} NewNameIs(renames: seq<Rename>, id: StepId)
    requires CleanRenames(renames)
    ensures (forall k | 0 <= k < |renames| :: renames[k].oldId != id) ==> NewName(renames, id) == id
    ensures forall k | 0 <= k < |renames| && renames[k].oldId == id :: NewName(renames, id) == renames[k].newId
  {
    if renames != [] {
      var front := renames[..|renames| - 1];
      assert forall k | 0 <= k < |front| :: front[k] == renames[k];
      NewNameIs(front, id);
    }
  }

  /** Names after k + 1 renames are names after k renames with the last one applied on top. */
  lemma NamesStep(before: Steps, run: RunId, renames: seq<Rename>, k: nat)
    requires k < |renames| && Applicable(before, run, renames)
    ensures forall id ::
              NewName(renames[..k + 1], id) == Renamed(NewName(renames[..k], id), renames[k].oldId, renames[k].newId)
    ensures forall id | id in before :: NewName(renames[..k], id) != renames[k].newId
    ensures forall id | id in before && NewName(renames[..k], id) == renames[k].oldId :: id == renames[k].oldId
    ensures NewName(renames[..k], renames[k].oldId) == renames[k].oldId
  {
    assert renames[..k + 1][..k] == renames[..k];
    forall id
      ensures NewName(renames[..k + 1], id) == Renamed(NewName(renames[..k], id), renames[k].oldId, renames[k].newId)
      ensures id in before ==> NewName(renames[..k], id) != renames[k].newId
      ensures NewName(renames[..k], id) == renames[k].oldId ==> id == renames[k].oldId
    {
      NewNameIs(renames[..k], id);
    }
    NewNameIs(renames[..k], renames[k].oldId);
  }

  /** One more rename on top of those already applied. */
  lemma RenameOneMore(before: Steps, midway: Steps, run: RunId, renames: seq<Rename>, k: nat)
    requires k < |renames| && Applicable(before, run, renames)
    requires RenamedBy(before, midway, run, renames[..k])
    ensures renames[k].newId !in midway
    ensures RenamedBy(before, Reparented(RenamedRow(midway, run, renames[k].oldId, renames[k].newId), run,
                                         renames[k].oldId, renames[k].newId), run, renames[..k + 1])
  {
    var oldId, newId := renames[k].oldId, renames[k].newId;
    NamesStep(before, run, renames, k);
    KeysStep(before.Keys, run, renames, k);
    assert Renames(midway, run, oldId, newId);
    var after := Reparented(RenamedRow(midway, run, oldId, newId), run, oldId, newId);
    assert after.Keys == midway.Keys - {oldId} + {newId};
    forall id | id in before
      ensures NewName(renames[..k + 1], id) in after
      ensures after[NewName(renames[..k + 1], id)] == RowRenamed(before[id], run, renames[..k + 1])
    {
      RowStep(midway, run, renames, k, NewName(renames[..k], id), before[id]);
    }
  }

  lemma RowStep(midway: Steps, run: RunId, renames: seq<Rename>, k: nat, name: StepId, row: StepRow)
    requires k < |renames|
    requires name in midway && midway[name] == RowRenamed(row, run, renames[..k])
    requires Renames(midway, run, renames[k].oldId, renames[k].newId) && renames[k].newId !in midway
    requires forall id ::
               NewName(renames[..k + 1], id) == Renamed(NewName(renames[..k], id), renames[k].oldId, renames[k].newId)
    ensures var oldId, newId := renames[k].oldId, renames[k].newId;
            var after := Reparented(RenamedRow(midway, run, oldId, newId), run, oldId, newId);
            Renamed(name, oldId, newId) in after
            && after[Renamed(name, oldId, newId)] == RowRenamed(row, run, renames[..k + 1])
  {
  }

  lemma KeysStep(ids: set<StepId>, run: RunId, renames: seq<Rename>, k: nat)
    requires k < |renames| && renames[k].oldId in ids
    requires forall id ::
               NewName(renames[..k + 1], id) == Renamed(NewName(renames[..k], id), renames[k].oldId, renames[k].newId)
    requires forall id | id in ids :: NewName(renames[..k], id) != renames[k].newId
    requires NewName(renames[..k], renames[k].oldId) == renames[k].oldId
    ensures NamesOf(ids, renames[..k]) - {renames[k].oldId} + {renames[k].newId} == NamesOf(ids, renames[..k + 1])
  {
  }

  /** The tables after the first k renames. */
  ghost predicate MigratedSoFar(before: Steps, changesBefore: Changes, notesBefore: Notes, steps: Steps,
                                changes: Changes, notes: Notes, run: RunId, renames: seq<Rename>, k: nat)
    requires k <= |renames|
  {
    && (Applicable(before, run, renames) ==> RenamedBy(before, steps, run, renames[..k]))
    && (CleanRenames(renames) ==>
          changes == RenamedChanges(changesBefore, run, renames[..k])
          && notes == RenamedNotes(notesBefore, renames[..k]))
    && (k == 0 ==> steps == before && changes == changesBefore && notes == notesBefore)
  }

  lemma MigratedNone(steps: Steps, changes: Changes, notes: Notes, run: RunId, renames: seq<Rename>)
    ensures MigratedSoFar(steps, changes, notes, steps, changes, notes, run, renames, 0)
  {
    var none := renames[..0];
    forall id ensures NewName(none, id) == id {
    }
    assert RenamedChanges(changes, run, none) == changes && RenamedNotes(notes, none) == notes;
  }

  lemma ChildrenOneMore(changesBefore: Changes, notesBefore: Notes, run: RunId, renames: seq<Rename>, k: nat)
    requires k < |renames| && CleanRenames(renames)
    ensures Repointed(RenamedChanges(changesBefore, run, renames[..k]), run, renames[k].oldId, renames[k].newId)
         == RenamedChanges(changesBefore, run, renames[..k + 1])
    ensures Retargeted(RenamedNotes(notesBefore, renames[..k]), renames[k].oldId, renames[k].newId)
         == RenamedNotes(notesBefore, renames[..k + 1])
  {
    assert renames[..k + 1][..k] == renames[..k];
    forall id
      ensures NewName(renames[..k + 1], id) == Renamed(NewName(renames[..k], id), renames[k].oldId, renames[k].newId)
    {
      NewNameIs(renames[..k], id);
    }
  }

  lemma MigrateOneMore(before: Steps, changesBefore: Changes, notesBefore: Notes, steps: Steps, changes: Changes,
                       notes: Notes, run: RunId, renames: seq<Rename>, k: nat)
    requires k < |renames| && MigratedSoFar(before, changesBefore, notesBefore, steps, changes, notes, run, renames, k)
    ensures var oldId, newId := renames[k].oldId, renames[k].newId;
            && (Applicable(before, run, renames) ==> newId !in steps)
            && MigratedSoFar(before, changesBefore, notesBefore,
                             Reparented(RenamedRow(steps, run, oldId, newId), run, oldId, newId),
                             Repointed(changes, run, oldId, newId), Retargeted(notes, oldId, newId),
                             run, renames, k + 1)
  {
    if Applicable(before, run, renames) {
      RenameOneMore(before, steps, run, renames, k);
    }
    if CleanRenames(renames) {
      ChildrenOneMore(changesBefore, notesBefore, run, renames, k);
    }
  }

  method RunMigrations(store: Store, run: RunId, renames: seq<Rename>) returns (ok: bool)
    requires UniqueSlots(store.steps)
    modifies store
    ensures ok ==> UniqueSlots(store.steps)
    ensures Applicable(old(store.steps), run, renames) ==> ok
    ensures Applicable(old(store.steps), run, renames) ==> RenamedBy(old(store.steps), store.steps, run, renames)
    ensures CleanRenames(renames) && ok ==> store.changes == RenamedChanges(old(store.changes), run, renames)
    ensures CleanRenames(renames) && ok ==> store.notes == RenamedNotes(old(store.notes), renames)
    ensures renames == [] ==>
              ok && store.steps == old(store.steps) && store.changes == old(store.changes)
              && store.notes == old(store.notes)
  {
    hide RenamedBy, RenamedChanges, RenamedNotes, Applicable, CleanRenames, UniqueSlots;
    ghost var before, changesBefore, notesBefore := store.steps, store.changes, store.notes;
    MigratedNone(before, changesBefore, notesBefore, run, renames);
    ok := true;
    for k := 0 to |renames|
      invariant UniqueSlots(store.steps)
      invariant MigratedSoFar(before, changesBefore, notesBefore, store.steps, store.changes, store.notes, run, renames,
                              k)
    {
      MigrateOneMore(before, changesBefore, notesBefore, store.steps, store.changes, store.notes, run, renames, k);
      ghost var midway := store.steps;
      ok := store.MigrateStepId(run, renames[k].oldId, renames[k].newId);
      if !ok {
        return false;
      }
      RenameKeepsSlots(midway, run, renames[k].oldId, renames[k].newId);
    }
    assert renames[..|renames|] == renames;
  }

  lemma RenameKeepsSlots(steps: Steps, run: RunId, oldId: StepId, newId: StepId)
    requires UniqueSlots(steps)
    requires Renames(steps, run, oldId, newId) ==> newId !in steps
    ensures UniqueSlots(Reparented(RenamedRow(steps, run, oldId, newId), run, oldId, newId))
  {
  }

  /** Every slot the walk is about to write is free or already holds the bubble's own step. */
  ghost predicate Ready(steps: Steps, run: RunId, bubbles: seq<Bubble>) {
    forall i, id | 0 <= i < |bubbles| && At(steps, id, run, i) :: id == WalkId(run, bubbles, i)
  }

  /** `after` is `before` overwritten with the rows of the first n bubbles. */
  ghost predicate Overlaid(before: Steps, after: Steps, run: RunId, bubbles: seq<Bubble>, rows: seq<StepRow>, n: nat)
    requires n <= |bubbles| == |rows|
  {
    && (forall i | 0 <= i < n :: WalkId(run, bubbles, i) in after && after[WalkId(run, bubbles, i)] == rows[i])
    && (forall id | (forall i | 0 <= i < n :: id != WalkId(run, bubbles, i)) ::
          (id in after <==> id in before) && (id in before ==> after[id] == before[id]))
  }

  method UpsertWalk(store: Store, run: RunId, bubbles: seq<Bubble>, ids: seq<StepId>, rows: seq<StepRow>)
    returns (ok: bool)
    requires UniqueSlots(store.steps) && DistinctIds(bubbles)
    requires |ids| == |rows| == |bubbles|
    requires forall i | 0 <= i < |bubbles| :: ids[i] == WalkId(run, bubbles, i)
    requires forall i | 0 <= i < |bubbles| :: rows[i].run == run && rows[i].seqNo == i
    modifies store`steps
    ensures UniqueSlots(store.steps)
    ensures Ready(old(store.steps), run, bubbles) ==> ok
    ensures Ready(old(store.steps), run, bubbles) ==>
              Overlaid(old(store.steps), store.steps, run, bubbles, rows, |bubbles|)
  {
    hide UniqueSlots, DistinctIds, Ready, Overlaid, Insertable, AfterInsert;
    ghost var before := store.steps;
    NothingOverlaid(before, run, bubbles, rows);
    ok := true;
    for k := 0 to |bubbles|
      invariant UniqueSlots(store.steps)
      invariant Ready(before, run, bubbles) ==> Overlaid(before, store.steps, run, bubbles, rows, k)
    {
      if Ready(before, run, bubbles) {
        OverlaidOneMore(before, store.steps, run, bubbles, rows, k);
      }
      ok := store.InsertStep(ids[k], rows[k]);
      if !ok {
        return false;
      }
    }
  }

  lemma NothingOverlaid(before: Steps, run: RunId, bubbles: seq<Bubble>, rows: seq<StepRow>)
    requires |rows| == |bubbles|
    ensures Overlaid(before, before, run, bubbles, rows, 0)
  {
  }

  lemma OverlaidOneMore(before: Steps, midway: Steps, run: RunId, bubbles: seq<Bubble>, rows: seq<StepRow>, k: nat)
    requires DistinctIds(bubbles) && k < |bubbles| == |rows|
    requires forall i | 0 <= i < |bubbles| :: rows[i].run == run && rows[i].seqNo == i
    requires Ready(before, run, bubbles) && Overlaid(before, midway, run, bubbles, rows, k)
    ensures var id := WalkId(run, bubbles, k);
            && Insertable(midway, id, rows[k])
            && Overlaid(before, AfterInsert(midway, id, rows[k]), run, bubbles, rows, k + 1)
  {
    hide Ready, Overlaid, DistinctIds;
    SlotIsClear(before, midway, run, bubbles, rows, k);
    ClearSlotTakesRow(midway, WalkId(run, bubbles, k), rows[k]);
    OverlayPut(before, midway, run, bubbles, rows, k);
  }

  lemma ClearSlotTakesRow(steps: Steps, id: StepId, row: StepRow)
    requires forall other | At(steps, other, row.run, row.seqNo) :: other == id
    ensures Insertable(steps, id, row) && AfterInsert(steps, id, row) == steps[id := row]
  {
  }

  lemma OverlayPut(before: Steps, midway: Steps, run: RunId, bubbles: seq<Bubble>, rows: seq<StepRow>, k: nat)
    requires DistinctIds(bubbles) && k < |bubbles| == |rows| && Overlaid(before, midway, run, bubbles, rows, k)
    ensures Overlaid(before, midway[WalkId(run, bubbles, k) := rows[k]], run, bubbles, rows, k + 1)
  {
  }

  lemma SlotIsClear(before: Steps, midway: Steps, run: RunId, bubbles: seq<Bubble>, rows: seq<StepRow>, k: nat)
    requires DistinctIds(bubbles) && k < |bubbles| == |rows|
    requires forall i | 0 <= i < |bubbles| :: rows[i].run == run && rows[i].seqNo == i
    requires Ready(before, run, bubbles) && Overlaid(before, midway, run, bubbles, rows, k)
    ensures forall id | At(midway, id, run, k) :: id == WalkId(run, bubbles, k)
  {
    forall id | At(midway, id, run, k) ensures id == WalkId(run, bubbles, k) {
      if i :| 0 <= i < k && id == WalkId(run, bubbles, i) {
      } else {
        assert At(before, id, run, k);
      }
    }
  }

  // ----- From the staged table to the reconciled one -----

  /** The id a stored row goes by while the transaction runs. */
  ghost function Settled(steps: Steps, run: RunId, bubbles: seq<Bubble>, id: StepId): StepId
    requires id in steps
  {
    Fate(steps, run, bubbles, id).GetOr(id)
  }

  /** What the two trims delete. */
  ghost predicate Trimmed(row: StepRow, run: RunId, n: nat) {
    row.run == run && (n <= row.seqNo < HOOK_BASE || REBUILD_OFFSET <= row.seqNo)
  }

  /** The table once slots are vacated, by rename or by offset, and before the walk is written. */
  ghost predicate Staged(before: Steps, staged: Steps, run: RunId, bubbles: seq<Bubble>) {
    && staged.Keys == (set id | id in before :: Settled(before, run, bubbles, id))
    && (forall id | id in before && !InWalk(before[id], run) ::
          staged[id] == OutsiderAfter(before, run, bubbles, before[id]))
    && (forall id | id in before && InWalk(before[id], run) ::
          var row := staged[Settled(before, run, bubbles, id)];
          row.run == run && (Fate(before, run, bubbles, id).None? ==> Trimmed(row, run, |bubbles|)))
    && Ready(staged, run, bubbles)
  }

  ghost predicate TrimmedTo(full: Steps, after: Steps, run: RunId, n: nat) {
    && (forall id :: id in after <==> id in full && !Trimmed(full[id], run, n))
    && (forall id | id in after :: after[id] == full[id])
  }

  lemma SettledRow(before: Steps, staged: Steps, full: Steps, run: RunId, bubbles: seq<Bubble>, rows: seq<StepRow>,
                   id: StepId)
    requires Healthy(before, run) && |bubbles| == |rows| <= HOOK_BASE
    requires forall i | 0 <= i < |bubbles| :: rows[i].run == run && rows[i].seqNo == i
    requires Staged(before, staged, run, bubbles) && Overlaid(staged, full, run, bubbles, rows, |bubbles|)
    requires id in before
    ensures var name := Settled(before, run, bubbles, id);
            && name in full
            && (Trimmed(full[name], run, |bubbles|) <==> Fate(before, run, bubbles, id).None?)
            && (!InWalk(before[id], run) ==> name == id && full[id] == OutsiderAfter(before, run, bubbles, before[id]))
            && (InWalk(before[id], run) && Fate(before, run, bubbles, id).Some? ==> IsWalkId(run, bubbles, name))
  {
  }

  /** Writing the walk over a staged table and trimming it reconciles the run. */
  lemma Settles(before: Steps, staged: Steps, full: Steps, after: Steps, run: RunId, bubbles: seq<Bubble>,
                rows: seq<StepRow>, stamp: Stamp)
    requires Healthy(before, run) && |bubbles| == |rows| <= HOOK_BASE
    requires forall i | 0 <= i < |bubbles| :: rows[i] == WalkRow(run, bubbles, i, stamp)
    requires Staged(before, staged, run, bubbles) && Overlaid(staged, full, run, bubbles, rows, |bubbles|)
    requires TrimmedTo(full, after, run, |bubbles|)
    ensures forall i | 0 <= i < |bubbles| ::
              WalkId(run, bubbles, i) in after && after[WalkId(run, bubbles, i)] == WalkRow(run, bubbles, i, stamp)
    ensures forall id | id in after && InWalk(after[id], run) :: IsWalkId(run, bubbles, id)
    ensures forall id | id in before && !InWalk(before[id], run) ::
              id in after && after[id] == OutsiderAfter(before, run, bubbles, before[id])
    ensures forall id | id in after && !InWalk(after[id], run) :: id in before && !InWalk(before[id], run)
    ensures forall id | id in before :: Settled(before, run, bubbles, id) in after <==>
              Fate(before, run, bubbles, id).Some?
  {
    forall id | id in before
      ensures Settled(before, run, bubbles, id) in after <==> Fate(before, run, bubbles, id).Some?
      ensures !InWalk(before[id], run) ==> id in after && after[id] == OutsiderAfter(before, run, bubbles, before[id])
    {
      SettledRow(before, staged, full, run, bubbles, rows, id);
    }
    forall id | id in after && !IsWalkId(run, bubbles, id)
      ensures id in before && !InWalk(before[id], run) && !InWalk(after[id], run)
    {
      assert id in staged;
      var b :| b in before && Settled(before, run, bubbles, b) == id;
      SettledRow(before, staged, full, run, bubbles, rows, b);
    }
  }

  /** The renames apply cleanly and give exactly the legacy walk rows their bubble's id. */
  ghost predicate RenamesLegacy(steps: Steps, run: RunId, bubbles: seq<Bubble>, renames: seq<Rename>) {
    Applicable(steps, run, renames) && forall id :: NewName(renames, id) == LegacyName(steps, run, bubbles, id)
  }

  ghost function LegacyName(steps: Steps, run: RunId, bubbles: seq<Bubble>, id: StepId): StepId {
    if Migrates(steps, run, bubbles, id) then WalkId(run, bubbles, steps[id].seqNo) else id
  }

  lemma MigrationNames(steps: Steps, run: RunId, bubbles: seq<Bubble>, idBySeq: map<nat, StepId>, renames: seq<Rename>)
    requires UniqueSlots(steps) && DistinctIds(bubbles) && !Shifted(steps, run, bubbles)
    requires Healthy(steps, run) && CleanRenames(renames)
    requires Lists(steps, run, idBySeq)
    requires Plans(idBySeq, run, bubbles, renames)
    ensures RenamesLegacy(steps, run, bubbles, renames)
  {
    forall k | 0 <= k < |renames|
      ensures Migrates(steps, run, bubbles, renames[k].oldId) && renames[k].newId !in steps
      ensures renames[k].newId == WalkId(run, bubbles, steps[renames[k].oldId].seqNo)
    {
      assert renames[k] in renames;
      var i :| 0 <= i < |bubbles| && i in idBySeq && !idBySeq[i].Deterministic?
               && renames[k] == Rename(idBySeq[i], WalkId(run, bubbles, i));
      assert !ShiftedAt(steps, run, bubbles, i);
    }
    forall id
      ensures NewName(renames, id) == if Migrates(steps, run, bubbles, id) then WalkId(run, bubbles, steps[id].seqNo)
                                      else id
    {
      NewNameIs(renames, id);
      if Migrates(steps, run, bubbles, id) {
        var m := Rename(id, WalkId(run, bubbles, steps[id].seqNo));
        assert m in renames;
      }
    }
  }

  /** On the quiet path every stored walk row inside the conversation sits at its own bubble. */
  lemma QuietRow(steps: Steps, run: RunId, bubbles: seq<Bubble>, id: StepId)
    requires !Shifted(steps, run, bubbles)
    requires id in steps && InWalk(steps[id], run) && steps[id].seqNo < |bubbles|
    ensures Settled(steps, run, bubbles, id) == WalkId(run, bubbles, steps[id].seqNo)
  {
    var i := steps[id].seqNo;
    assert !ShiftedAt(steps, run, bubbles, i);
    assert At(steps, id, run, i);
    if id.Deterministic? {
      assert id == WalkId(run, bubbles, i);
    } else {
      assert !IsWalkId(run, bubbles, id);
    }
  }

  /** Quiet path: the migrated tables are staged. */
  lemma MigratedTables(before: Steps, changes: Changes, notes: Notes, staged: Steps, run: RunId, bubbles: seq<Bubble>,
                       renames: seq<Rename>)
    requires Attached(before, changes) && !Shifted(before, run, bubbles) && Ingestable(before, run, bubbles)
    requires RenamedBy(before, staged, run, renames) && RenamesLegacy(before, run, bubbles, renames)
    ensures StagedTables(before, changes, notes, staged, RenamedChanges(changes, run, renames),
                         RenamedNotes(notes, renames), run, bubbles)
  {
    MigratedIsStaged(before, staged, run, bubbles, renames);
    RenamedChildren(before, changes, run, bubbles, renames);
    RenamedNotesFollow(before, notes, run, bubbles, renames);
  }

  lemma RenamedNotesFollow(before: Steps, notes: Notes, run: RunId, bubbles: seq<Bubble>, renames: seq<Rename>)
    requires RenamesLegacy(before, run, bubbles, renames)
    ensures RenamedNotes(notes, renames) == NotesAfter(before, notes, run, bubbles)
  {
    forall a | a in notes ensures RenamedNotes(notes, renames)[a] == NotesAfter(before, notes, run, bubbles)[a] {
      assert NewName(renames, notes[a]) == LegacyName(before, run, bubbles, notes[a]);
    }
  }

  lemma MigratedIsStaged(before: Steps, staged: Steps, run: RunId, bubbles: seq<Bubble>, renames: seq<Rename>)
    requires !Shifted(before, run, bubbles) && |bubbles| <= HOOK_BASE
    requires Healthy(before, run) && RenamedBy(before, staged, run, renames)
             && RenamesLegacy(before, run, bubbles, renames)
    ensures Staged(before, staged, run, bubbles)
  {
    forall id | id in before ensures NewName(renames, id) == Settled(before, run, bubbles, id) {
      LegacyNameIsSettled(before, run, bubbles, id);
    }
    assert NamesOf(before.Keys, renames) == (set id | id in before :: Settled(before, run, bubbles, id));
    forall id | id in before
      ensures RowRenamed(before[id], run, renames) == OutsiderAfter(before, run, bubbles, before[id])
    {
      RenamedOutsider(before, run, bubbles, renames, before[id]);
    }
    MigratedIsReady(before, staged, run, bubbles, renames);
    forall id | id in before && InWalk(before[id], run)
      ensures var row := staged[Settled(before, run, bubbles, id)];
              row.run == run && (Fate(before, run, bubbles, id).None? ==> Trimmed(row, run, |bubbles|))
    {
      assert staged[NewName(renames, id)] == RowRenamed(before[id], run, renames);
      if before[id].seqNo < |bubbles| {
        QuietRow(before, run, bubbles, id);
      }
    }
  }

  lemma LegacyNameIsSettled(before: Steps, run: RunId, bubbles: seq<Bubble>, id: StepId)
    requires id in before
    ensures LegacyName(before, run, bubbles, id) == Settled(before, run, bubbles, id)
  {
  }

  lemma RenamedOutsider(before: Steps, run: RunId, bubbles: seq<Bubble>, renames: seq<Rename>, row: StepRow)
    requires RenamesLegacy(before, run, bubbles, renames)
    ensures RowRenamed(row, run, renames) == OutsiderAfter(before, run, bubbles, row)
  {
    if row.parent.Some? {
      assert NewName(renames, row.parent.value) == LegacyName(before, run, bubbles, row.parent.value);
    }
  }

  lemma MigratedIsReady(before: Steps, staged: Steps, run: RunId, bubbles: seq<Bubble>, renames: seq<Rename>)
    requires !Shifted(before, run, bubbles) && |bubbles| <= HOOK_BASE
    requires RenamedBy(before, staged, run, renames)
    requires forall id | id in before :: NewName(renames, id) == Settled(before, run, bubbles, id)
    ensures Ready(staged, run, bubbles)
  {
    forall i, id | 0 <= i < |bubbles| && At(staged, id, run, i) ensures id == WalkId(run, bubbles, i) {
      var b :| b in before && NewName(renames, b) == id;
      QuietRow(before, run, bubbles, b);
    }
  }

  /** Shifted path: the offset table is staged. */
  lemma OffsetIsStaged(before: Steps, staged: Steps, run: RunId, bubbles: seq<Bubble>, offset: nat)
    requires Shifted(before, run, bubbles) && |bubbles| <= HOOK_BASE && Healthy(before, run)
    requires offset >= REBUILD_OFFSET && staged == Offset(before, run, offset, HOOK_BASE)
    ensures Staged(before, staged, run, bubbles)
  {
  }

  /** Children of the staged table: each still names the row it named, under its current id. */
  ghost function StagedChanges(before: Steps, changes: Changes, run: RunId, bubbles: seq<Bubble>): Changes
    requires Attached(before, changes)
  {
    map c | c in changes :: changes[c].(step := Settled(before, run, bubbles, changes[c].step))
  }

  lemma RenamedChildren(before: Steps, changes: Changes, run: RunId, bubbles: seq<Bubble>, renames: seq<Rename>)
    requires Attached(before, changes) && RenamesLegacy(before, run, bubbles, renames)
    ensures RenamedChanges(changes, run, renames) == StagedChanges(before, changes, run, bubbles)
  {
    forall c | c in changes
      ensures RenamedChanges(changes, run, renames)[c] == StagedChanges(before, changes, run, bubbles)[c]
    {
      LegacyNameIsSettled(before, run, bubbles, changes[c].step);
    }
  }

  lemma OffsetChildren(before: Steps, changes: Changes, notes: Notes, run: RunId, bubbles: seq<Bubble>)
    requires Attached(before, changes) && Shifted(before, run, bubbles)
    ensures changes == StagedChanges(before, changes, run, bubbles) && notes == NotesAfter(before, notes, run, bubbles)
  {
  }

  lemma ChildSettles(before: Steps, staged: Steps, full: Steps, after: Steps, run: RunId, bubbles: seq<Bubble>,
                     rows: seq<StepRow>, id: StepId)
    requires Healthy(before, run) && |bubbles| == |rows| <= HOOK_BASE && id in before
    requires forall i | 0 <= i < |bubbles| :: rows[i].run == run && rows[i].seqNo == i
    requires Staged(before, staged, run, bubbles) && Overlaid(staged, full, run, bubbles, rows, |bubbles|)
    requires TrimmedTo(full, after, run, |bubbles|)
    ensures RowFollows(before, full, after, run, bubbles, id)
  {
    SettledRow(before, staged, full, run, bubbles, rows, id);
    if InWalk(before[id], run) && Fate(before, run, bubbles, id).Some? {
      var i :| 0 <= i < |bubbles| && Settled(before, run, bubbles, id) == WalkId(run, bubbles, i);
      assert full[WalkId(run, bubbles, i)] == rows[i];
    }
  }

  /** What `ChildSettles` says of one stored row. */
  ghost predicate RowFollows(before: Steps, full: Steps, after: Steps, run: RunId, bubbles: seq<Bubble>, id: StepId)
    requires id in before
  {
    var name := Settled(before, run, bubbles, id);
    && name in full
    && (Trimmed(full[name], run, |bubbles|) <==> Fate(before, run, bubbles, id).None?)
    && (Fate(before, run, bubbles, id).Some? ==> name in after && after[name].run == before[id].run)
  }

  /** Cascading the trims keeps exactly the children of surviving rows, and none dangles. */
  lemma ChildrenSettle(before: Steps, changes: Changes, full: Steps, after: Steps, changesAfter: Changes,
                       run: RunId, bubbles: seq<Bubble>)
    requires Attached(before, changes)
    requires forall id | id in before :: RowFollows(before, full, after, run, bubbles, id)
    requires changesAfter == Surviving(StagedChanges(before, changes, run, bubbles), full, run, |bubbles|)
    ensures changesAfter == ChangesAfter(before, changes, run, bubbles)
    ensures Attached(after, changesAfter)
  {
  }

  ghost function Surviving(changes: Changes, full: Steps, run: RunId, n: nat): Changes {
    map c | c in changes && !(changes[c].step in full && Trimmed(full[changes[c].step], run, n)) :: changes[c]
  }

  ghost predicate Ingestable(steps: Steps, run: RunId, bubbles: seq<Bubble>) {
    Healthy(steps, run) && |bubbles| <= HOOK_BASE
  }

  /** Fewer bubbles fetched than the headers claim, or none of them classifiable. */
  predicate TornRead(headers: seq<string>, fetched: seq<Bubble>) {
    var claimed := |set h | h in headers|;
    claimed > 0 && (|FirstById(fetched)| < claimed || Walked(fetched) == [])
  }

  /** A reduced view that would delete stored steps: some bubble did not classify, and the
      commit would rebuild the run or trim its tail. */
  ghost predicate Destructive(steps: Steps, run: RunId, fetched: seq<Bubble>) {
    && |Walked(fetched)| < |FirstById(fetched)|
    && (Shifted(steps, run, Walked(fetched)) || |Walked(fetched)| < |StoredSeqs(steps, run)|)
  }

  /** Bubbles whose step no stored row already answers to. */
  ghost function NovelBubbles(steps: Steps, run: RunId, bubbles: seq<Bubble>): set<nat> {
    set i | 0 <= i < |bubbles|
            && !(exists id | id in steps ::
                   InWalk(steps[id], run) && Fate(steps, run, bubbles, id) == Some(WalkId(run, bubbles, i)))
  }

  /** Steps, children and notes once slots are vacated. */
  ghost predicate StagedTables(before: Steps, changesBefore: Changes, notesBefore: Notes, staged: Steps,
                               changes: Changes, notes: Notes, run: RunId, bubbles: seq<Bubble>)
    requires Attached(before, changesBefore)
  {
    && Staged(before, staged, run, bubbles)
    && changes == StagedChanges(before, changesBefore, run, bubbles)
    && notes == NotesAfter(before, notesBefore, run, bubbles)
  }

  method VacateWalk(store: Store, run: RunId, bubbles: seq<Bubble>)
    requires UniqueSlots(store.steps) && Attached(store.steps, store.changes) && Shifted(store.steps, run, bubbles)
    modifies store`steps
    ensures UniqueSlots(store.steps)
    ensures Ingestable(old(store.steps), run, bubbles) ==>
              StagedTables(old(store.steps), store.changes, store.notes, store.steps, store.changes, store.notes, run,
                           bubbles)
  {
    ghost var before := store.steps;
    var offset := store.OffsetStepSequences(run, REBUILD_OFFSET, HOOK_BASE);
    if Ingestable(before, run, bubbles) {
      OffsetIsStaged(before, store.steps, run, bubbles, offset);
      OffsetChildren(before, store.changes, store.notes, run, bubbles);
    }
  }

  /** Renames legacy rows, or vacates the walk range when the turn order shifted. */
  method StageSlots(store: Store, run: RunId, bubbles: seq<Bubble>, shifted: bool, migrations: seq<Rename>)
    returns (ok: bool)
    requires UniqueSlots(store.steps) && Attached(store.steps, store.changes)
    requires shifted <==> Shifted(store.steps, run, bubbles)
    requires CleanRenames(migrations) && (shifted ==> migrations == [])
    requires !shifted && Ingestable(store.steps, run, bubbles) ==> RenamesLegacy(store.steps, run, bubbles, migrations)
    modifies store
    ensures ok ==> UniqueSlots(store.steps)
    ensures Ingestable(old(store.steps), run, bubbles) ==>
              ok && StagedTables(old(store.steps), old(store.changes), old(store.notes), store.steps, store.changes,
                                 store.notes, run, bubbles)
  {
    ghost var before, changes, notes := store.steps, store.changes, store.notes;
    ok := RunMigrations(store, run, migrations);
    if ok && shifted {
      VacateWalk(store, run, bubbles);
    } else if !shifted && Ingestable(before, run, bubbles) {
      MigratedTables(before, changes, notes, store.steps, run, bubbles, migrations);
    }
  }

  /** The stale tail below the hook band, then everything the offset left unmatched. */
  method TrimWalk(store: Store, run: RunId, n: nat)
    requires UniqueSlots(store.steps)
    modifies store`steps, store`changes
    ensures UniqueSlots(store.steps)
    ensures TrimmedTo(old(store.steps), store.steps, run, n)
    ensures store.changes == Surviving(old(store.changes), old(store.steps), run, n)
  {
    store.DeleteStepsFromSequence(run, n, Some(HOOK_BASE));
    store.DeleteStepsFromSequence(run, REBUILD_OFFSET, None);
    TwoTrims(old(store.steps), old(store.changes), run, n);
  }

  ghost function WithoutRange(steps: Steps, run: RunId, from: int, below: Option<int>): Steps {
    map id | id in steps && !InRange(steps[id], run, from, below) :: steps[id]
  }

  ghost function ChildrenWithoutRange(steps: Steps, changes: Changes, run: RunId, from: int,
                                      below: Option<int>): Changes {
    map c | c in changes && !(changes[c].step in steps && InRange(steps[changes[c].step], run, from, below)) ::
      changes[c]
  }

  lemma TwoTrims(full: Steps, changes: Changes, run: RunId, n: nat)
    ensures var steps1 := WithoutRange(full, run, n, Some(HOOK_BASE));
            var changes1 := ChildrenWithoutRange(full, changes, run, n, Some(HOOK_BASE));
            && TrimmedTo(full, WithoutRange(steps1, run, REBUILD_OFFSET, None), run, n)
            && ChildrenWithoutRange(steps1, changes1, run, REBUILD_OFFSET, None) == Surviving(changes, full, run, n)
  {
  }

  /** The commit transaction: migrate, vacate if shifted, upsert the walk, trim, check references.
      Any failing statement rolls everything back. */
  method CommitWalk(store: Store, run: RunId, bubbles: seq<Bubble>, shifted: bool, migrations: seq<Rename>,
                    ids: seq<StepId>, rows: seq<StepRow>, ghost stamp: Stamp) returns (ok: bool)
    requires UniqueSlots(store.steps) && Attached(store.steps, store.changes) && DistinctIds(bubbles)
    requires |ids| == |rows| == |bubbles|
    requires forall i | 0 <= i < |bubbles| :: ids[i] == WalkId(run, bubbles, i)
    requires forall i | 0 <= i < |bubbles| :: rows[i] == WalkRow(run, bubbles, i, stamp)
    requires shifted <==> Shifted(store.steps, run, bubbles)
    requires CleanRenames(migrations) && (shifted ==> migrations == [])
    requires !shifted && Ingestable(store.steps, run, bubbles) ==> RenamesLegacy(store.steps, run, bubbles, migrations)
    modifies store
    ensures UniqueSlots(store.steps) && Attached(store.steps, store.changes)
    ensures !ok ==>
              store.steps == old(store.steps) && store.changes == old(store.changes) && store.notes == old(store.notes)
    ensures Ingestable(old(store.steps), run, bubbles) ==>
              && ok
              && Reconciled(old(store.steps), old(store.changes), store.steps, store.changes, run, bubbles, stamp)
              && store.notes == NotesAfter(old(store.steps), old(store.notes), run, bubbles)
  {
    var savedSteps, savedChanges, savedNotes := store.steps, store.changes, store.notes;
    ok := StageSlots(store, run, bubbles, shifted, migrations);
    ghost var staged, stagedChanges := store.steps, store.changes;
    if ok {
      ok := UpsertWalk(store, run, bubbles, ids, rows);
    }
    ghost var full := store.steps;
    if ok {
      TrimWalk(store, run, |bubbles|);
      ok := Attached(store.steps, store.changes);
    }
    if Ingestable(savedSteps, run, bubbles) {
      Settles(savedSteps, staged, full, store.steps, run, bubbles, rows, stamp);
      forall id | id in savedSteps ensures RowFollows(savedSteps, full, store.steps, run, bubbles, id) {
        ChildSettles(savedSteps, staged, full, store.steps, run, bubbles, rows, id);
      }
      ChildrenSettle(savedSteps, savedChanges, full, store.steps, store.changes, run, bubbles);
    }
    if !ok {
      store.steps, store.changes, store.notes := savedSteps, savedChanges, savedNotes;
    }
  }

  lemma {:induction false} NovelCountIs(run: RunId, bubbles: seq<Bubble>, preIds: set<StepId>, n: nat)
    requires n <= |bubbles|
    ensures NovelCount(run, bubbles, preIds, n) == |set i | 0 <= i < n && WalkId(run, bubbles, i) !in preIds|
  {
    var novel := set i | 0 <= i < n && WalkId(run, bubbles, i) !in preIds;
    if n != 0 {
      NovelCountIs(run, bubbles, preIds, n - 1);
      var earlier := set i | 0 <= i < n - 1 && WalkId(run, bubbles, i) !in preIds;
      assert novel == if WalkId(run, bubbles, n - 1) in preIds then earlier else earlier + {n - 1};
    }
  }

  /** Unless the run shifted, the id surviving at every stored slot is the bubble's own. */
  lemma QuietSlots(steps: Steps, run: RunId, bubbles: seq<Bubble>, idBySeq: map<nat, StepId>, i: nat)
    requires Lists(steps, run, idBySeq) && !Shifted(steps, run, bubbles)
    requires i < |bubbles| && i in idBySeq && idBySeq[i].Deterministic?
    ensures idBySeq[i] == WalkId(run, bubbles, i)
  {
    assert !ShiftedAt(steps, run, bubbles, i);
  }

  lemma AddedIsNovel(steps: Steps, run: RunId, bubbles: seq<Bubble>, idBySeq: map<nat, StepId>, shifted: bool,
                     migrations: seq<Rename>)
    requires Ingestable(steps, run, bubbles) && DistinctIds(bubbles) && Lists(steps, run, idBySeq)
    requires shifted <==> Shifted(steps, run, bubbles)
    requires if shifted then migrations == [] else Plans(idBySeq, run, bubbles, migrations)
    ensures NovelCount(run, bubbles, idBySeq.Values + (set m | m in migrations :: m.newId), |bubbles|)
         == |NovelBubbles(steps, run, bubbles)|
  {
    var preIds := idBySeq.Values + (set m | m in migrations :: m.newId);
    NovelCountIs(run, bubbles, preIds, |bubbles|);
    forall i | 0 <= i < |bubbles|
      ensures WalkId(run, bubbles, i) in preIds <==> i !in NovelBubbles(steps, run, bubbles)
    {
      var id := WalkId(run, bubbles, i);
      if id in steps {
        assert Fate(steps, run, bubbles, id) == Some(id) && id in idBySeq.Values;
      } else if id in preIds {
        assert id !in idBySeq.Values;
        var m :| m in migrations && m.newId == id;
        var k :| 0 <= k < |bubbles| && k in idBySeq && !idBySeq[k].Deterministic?
                 && m == Rename(idBySeq[k], WalkId(run, bubbles, k));
        assert Fate(steps, run, bubbles, idBySeq[k]) == Some(id);
      } else {
        forall b | b in steps && InWalk(steps[b], run) ensures Fate(steps, run, bubbles, b) != Some(id) {
          if Migrates(steps, run, bubbles, b) {
            var m := Rename(b, WalkId(run, bubbles, steps[b].seqNo));
            assert m in migrations;
          }
        }
      }
    }
    assert (set i | 0 <= i < |bubbles| && WalkId(run, bubbles, i) !in preIds) == NovelBubbles(steps, run, bubbles);
  }

  datatype Plan = Plan(
    stored: nat,
    shifted: bool,
    migrations: seq<Rename>,
    ids: seq<StepId>,
    rows: seq<StepRow>,
    pendingChanges: seq<(Bubble, StepId)>,
    added: nat
  )

  /** Everything decided before the transaction opens: what is stored, whether it shifted, which
      legacy rows to rename, and the rows to write. */
  ghost predicate PlanFor(plan: Plan, steps: Steps, run: RunId, bubbles: seq<Bubble>, stamp: Stamp) {
    && plan.stored == |StoredSeqs(steps, run)|
    && (plan.shifted <==> Shifted(steps, run, bubbles))
    && CleanRenames(plan.migrations) && (plan.shifted ==> plan.migrations == [])
    && |plan.ids| == |plan.rows| == |bubbles|
    && (forall i | 0 <= i < |bubbles| :: plan.ids[i] == WalkId(run, bubbles, i))
    && (forall i | 0 <= i < |bubbles| :: plan.rows[i] == WalkRow(run, bubbles, i, stamp))
    && plan.pendingChanges == ToolSteps(run, bubbles, |bubbles|)
    && (Ingestable(steps, run, bubbles) ==> plan.added == |NovelBubbles(steps, run, bubbles)|)
    && (Ingestable(steps, run, bubbles) && !plan.shifted ==> RenamesLegacy(steps, run, bubbles, plan.migrations))
  }

  method PlanWalk(steps: Steps, run: RunId, existed: bool, bubbles: seq<Bubble>, stamp: Stamp) returns (plan: Plan)
    requires UniqueSlots(steps) && DistinctIds(bubbles)
    requires forall i | 0 <= i < |bubbles| :: bubbles[i].kind != Unclassified
    requires !existed ==> forall id | id in steps :: steps[id].run != run
    ensures PlanFor(plan, steps, run, bubbles, stamp)
  {
    var idBySeq: map<nat, StepId> := map[];
    if existed {
      idBySeq := ListWalk(steps, run);
    }
    var shifted := DetectShift(steps, idBySeq, run, bubbles);
    var migrations: seq<Rename>, migratedSeqs: set<nat> := [], {};
    if !shifted {
      migrations, migratedSeqs := PlanMigrations(idBySeq, run, bubbles);
      forall i | 0 <= i < |bubbles| && i !in migratedSeqs && i in idBySeq
        ensures idBySeq[i] == WalkId(run, bubbles, i)
      {
        QuietSlots(steps, run, bubbles, idBySeq, i);
      }
    }
    var preIds := idBySeq.Values + set m | m in migrations :: m.newId;
    var ids, rows, pendingChanges, added := BuildSteps(run, bubbles, stamp, shifted, idBySeq, migratedSeqs, preIds);
    assert |idBySeq| == |idBySeq.Keys|;
    if Ingestable(steps, run, bubbles) {
      AddedIsNovel(steps, run, bubbles, idBySeq, shifted, migrations);
      if !shifted {
        MigrationNames(steps, run, bubbles, idBySeq, migrations);
      }
    }
    plan := Plan(|idBySeq|, shifted, migrations, ids, rows, pendingChanges, added);
  }

  datatype Tables = Tables(steps: Steps, changes: Changes)

  /** What an ingest does to the tables: it reconciles the walk, or leaves them alone. */
  ghost predicate WalkEventOf(before: Tables, after: Tables, run: RunId, fetched: seq<Bubble>, stamp: Stamp) {
    && |Walked(fetched)| <= HOOK_BASE
    && UniqueSlots(after.steps)
    && (after == before
        || Reconciled(before.steps, before.changes, after.steps, after.changes, run, Walked(fetched), stamp))
  }

  /** One composer's ingest. `existed` says the run row predates this call; `headers` are the
      envelope's bubble ids and `fetched` the bubble rows the read snapshot materialised. */
  method IngestOneComposer(store: Store, run: RunId, existed: bool, headers: seq<string>, fetched: seq<Bubble>,
                           stamp: Stamp)
    returns (outcome: Outcome)
    requires UniqueSlots(store.steps) && Attached(store.steps, store.changes)
    requires !existed ==> forall id | id in store.steps :: store.steps[id].run != run
    modifies store
    ensures UniqueSlots(store.steps) && Attached(store.steps, store.changes)
    ensures outcome.Skipped? <==> existed && (TornRead(headers, fetched) || Destructive(old(store.steps), run, fetched))
    ensures !outcome.Committed? ==>
              store.steps == old(store.steps) && store.changes == old(store.changes) && store.notes == old(store.notes)
    ensures Ingestable(old(store.steps), run, Walked(fetched)) ==> !outcome.RolledBack?
    ensures Ingestable(old(store.steps), run, Walked(fetched)) && outcome.Committed? ==>
              && Reconciled(old(store.steps), old(store.changes), store.steps, store.changes, run, Walked(fetched),
                            stamp)
              && outcome.added == |NovelBubbles(old(store.steps), run, Walked(fetched))|
              && store.notes == NotesAfter(old(store.steps), old(store.notes), run, Walked(fetched))
              && Told(store.steps, run, fetched, stamp)
    ensures Ingestable(old(store.steps), run, Walked(fetched)) ==>
              WalkEventOf(Tables(old(store.steps), old(store.changes)), Tables(store.steps, store.changes), run,
                          fetched, stamp)
  {
    hide InFetchOrder, Told, Reconciled, NotesAfter, Healthy, NovelBubbles, Attached, UniqueSlots, Shifted, StoredSeqs;
    hide WalkRow, ToolSteps, CleanRenames, RenamesLegacy, FirstById, Classified;
    var distinct := DedupeBubbles(fetched);
    var bubbles := Classified(distinct);
    var claimed := |set h | h in headers|;
    if existed && claimed > 0 && (|distinct| < claimed || |bubbles| == 0) {
      return Skipped;
    }
    var plan := PlanWalk(store.steps, run, existed, bubbles, stamp);
    if existed && |bubbles| < |distinct| && (plan.shifted || |bubbles| < plan.stored) {
      return Skipped;
    }
    ghost var before, changes := store.steps, store.changes;
    var ok := CommitWalk(store, run, bubbles, plan.shifted, plan.migrations, plan.ids, plan.rows, stamp);
    if ok && Ingestable(before, run, bubbles) {
      ConversationIsTold(before, changes, store.steps, store.changes, run, fetched, stamp);
    }
    return if ok then Committed(plan.added) else RolledBack;
  }

  // ----- What holds of any committed ingest -----

  /** After an ingest the walk is settled: nothing shifted, nothing to migrate, nothing new. */
  lemma SettledAfterIngest(before: Steps, changes: Changes, after: Steps, changesAfter: Changes, run: RunId,
                           bubbles: seq<Bubble>, stamp: Stamp)
    requires DistinctIds(bubbles) && Ingestable(before, run, bubbles)
    requires Reconciled(before, changes, after, changesAfter, run, bubbles, stamp)
    ensures Ingestable(after, run, bubbles) && !Shifted(after, run, bubbles)
    ensures NovelBubbles(after, run, bubbles) == {}
    ensures forall id | id in after :: Fate(after, run, bubbles, id) == Some(id)
    ensures forall parent :: ParentAfter(after, run, bubbles, parent) == parent
  {
    forall id | id in after && InWalk(after[id], run)
      ensures exists i :: 0 <= i < |bubbles| && id == WalkId(run, bubbles, i) && after[id].seqNo == i
    {
      var i :| 0 <= i < |bubbles| && id == WalkId(run, bubbles, i);
      assert after[id] == WalkRow(run, bubbles, i, stamp);
    }
    forall i | 0 <= i < |bubbles| ensures i !in NovelBubbles(after, run, bubbles) {
      var id := WalkId(run, bubbles, i);
      assert after[id] == WalkRow(run, bubbles, i, stamp);
      assert Fate(after, run, bubbles, id) == Some(id);
    }
  }

  /** Both ingests write the same bodies: same model, and same clock or bubbles that carry their own time. */
  ghost predicate SameBodies(bubbles: seq<Bubble>, stamp: Stamp, later: Stamp) {
    later.model == stamp.model
    && (later.now == stamp.now || forall i | 0 <= i < |bubbles| :: bubbles[i].createdAt.Some?)
  }

  /** Ingesting the same conversation again adds no step, moves no row and touches no child; when
      the bodies written are the same it changes no column either. */
  lemma ReingestChangesNothing(before: Steps, changes0: Changes, once: Steps, changes1: Changes, twice: Steps,
                               changes2: Changes, run: RunId, bubbles: seq<Bubble>, stamp: Stamp, later: Stamp)
    requires DistinctIds(bubbles) && Ingestable(before, run, bubbles)
    requires Reconciled(before, changes0, once, changes1, run, bubbles, stamp)
    requires Reconciled(once, changes1, twice, changes2, run, bubbles, later)
    ensures NovelBubbles(once, run, bubbles) == {} && changes2 == changes1 && twice.Keys == once.Keys
    ensures forall id | id in once :: twice[id].(body := once[id].body) == once[id]
    ensures SameBodies(bubbles, stamp, later) ==> twice == once
  {
    SettledAfterIngest(before, changes0, once, changes1, run, bubbles, stamp);
    forall id | id in once
      ensures id in twice && twice[id].(body := once[id].body) == once[id]
      ensures SameBodies(bubbles, stamp, later) ==> twice[id] == once[id]
    {
      if InWalk(once[id], run) {
        var i :| 0 <= i < |bubbles| && id == WalkId(run, bubbles, i);
        SameWalkRow(run, bubbles, i, stamp, later);
      }
    }
    SameIds(once, changes1, twice, changes2, run, bubbles, later);
  }

  lemma SameIds(once: Steps, changes1: Changes, twice: Steps, changes2: Changes, run: RunId, bubbles: seq<Bubble>,
                later: Stamp)
    requires Reconciled(once, changes1, twice, changes2, run, bubbles, later)
    requires forall i | 0 <= i < |bubbles| :: WalkId(run, bubbles, i) in once
    requires forall id | id in once :: id in twice && Fate(once, run, bubbles, id) == Some(id)
    ensures twice.Keys == once.Keys && changes2 == changes1
  {
  }

  lemma SameWalkRow(run: RunId, bubbles: seq<Bubble>, i: nat, stamp: Stamp, later: Stamp)
    requires i < |bubbles|
    ensures WalkRow(run, bubbles, i, later).(body := WalkRow(run, bubbles, i, stamp).body) ==
              WalkRow(run, bubbles, i, stamp)
    ensures SameBodies(bubbles, stamp, later) ==> WalkRow(run, bubbles, i, later) == WalkRow(run, bubbles, i, stamp)
  {
  }

  /** No child of a surviving turn is lost or re-parented: a child of a deterministic row still in
      the conversation stays on that row, shifted or not; on an unshifted ingest a child of the
      legacy row at sequence i ends on bubble i's row. A child goes only with a trimmed row. */
  lemma ChildrenOfSurvivorsKept(before: Steps, changes: Changes, after: Steps, changesAfter: Changes, run: RunId,
                                bubbles: seq<Bubble>, stamp: Stamp, c: string)
    requires Ingestable(before, run, bubbles) && c in changes
    requires Reconciled(before, changes, after, changesAfter, run, bubbles, stamp)
    ensures var id := changes[c].step;
            && (IsWalkId(run, bubbles, id) || !InWalk(before[id], run) ==>
                  c in changesAfter && changesAfter[c] == changes[c])
            && (!Shifted(before, run, bubbles) && InWalk(before[id], run) && before[id].seqNo < |bubbles| ==>
                  c in changesAfter && changesAfter[c] == changes[c].(step := WalkId(run, bubbles, before[id].seqNo)))
            && (c !in changesAfter ==> InWalk(before[id], run) && !IsWalkId(run, bubbles, id)
                                       && (before[id].seqNo >= |bubbles| || Shifted(before, run, bubbles)))
    ensures c in changesAfter ==> changesAfter[c].step in after
  {
    var id := changes[c].step;
    if !Shifted(before, run, bubbles) && InWalk(before[id], run) && before[id].seqNo < |bubbles| {
      QuietRow(before, run, bubbles, id);
    }
    if c in changesAfter {
      var name := changesAfter[c].step;
      if IsWalkId(run, bubbles, name) {
        var i :| 0 <= i < |bubbles| && name == WalkId(run, bubbles, i);
        assert WalkId(run, bubbles, i) in after;
      }
    }
  }

  /** Without deferral the rename would be refused: between its first two statements a child of
      the renamed row references a step that does not exist. */
  lemma RenameDanglesMidway(steps: Steps, changes: Changes, run: RunId, oldId: StepId, newId: StepId, c: string)
    requires Attached(steps, changes) && c in changes && changes[c].step == oldId && changes[c].run == run
             && oldId != newId
    requires newId !in steps
    ensures !Attached(RenamedRow(steps, run, oldId, newId), changes)
    ensures Attached(RenamedRow(steps, run, oldId, newId), Repointed(changes, run, oldId, newId))
  {
  }
}

/** The Copilot commit of one carved run: delete the stale main-band rows, then upsert the carve. */
module CopilotCommit {
  import opened Wrappers
  import opened StepTable
  import Replay

  datatype CarvedStep = CarvedStep(id: StepId, parent: Option<StepId>, body: Body)
  datatype CarvedChange = CarvedChange(id: string, row: ChangeRow)

  function RowAt(run: RunId, carve: seq<CarvedStep>, i: nat): StepRow
    requires i < |carve|
  {
    StepRow(run, carve[i].parent, i, carve[i].body)
  }

  function Ids(carve: seq<CarvedStep>): set<StepId> {
    set i | 0 <= i < |carve| :: carve[i].id
  }

  ghost predicate InMainBand(row: StepRow, run: RunId) {
    row.run == run && row.seqNo < HOOK_BASE
  }

  /** The carve's ids, where stored, name main-band rows of this run. */
  ghost predicate OwnIds(steps: Steps, run: RunId, carve: seq<CarvedStep>) {
    forall i | 0 <= i < |carve| && carve[i].id in steps :: InMainBand(steps[carve[i].id], run)
  }

  /** The main band holds exactly the carve: ids, contents, sequences 0..n-1. */
  ghost predicate MatchesCarve(steps: Steps, run: RunId, carve: seq<CarvedStep>) {
    && (forall i | 0 <= i < |carve| :: carve[i].id in steps && steps[carve[i].id] == RowAt(run, carve, i))
    && (forall id | id in steps && InMainBand(steps[id], run) :: id in Ids(carve))
  }

  /** The condition a caller can check on the stored rows: no id is carved twice, and no stored
      step is carved at a higher index than the sequence it is stored at. */
  ghost predicate NothingMovesUp(steps: Steps, carve: seq<CarvedStep>) {
    && NoRepeats(carve)
    && (forall j | 0 <= j < |carve| && carve[j].id in steps :: j <= steps[carve[j].id].seqNo)
  }

  ghost predicate Stale(id: StepId, row: StepRow, run: RunId, keep: set<StepId>) {
    InMainBand(row, run) && id !in keep
  }

  ghost function Swept(steps: Steps, run: RunId, keep: set<StepId>): Steps {
    map id | id in steps && !Stale(id, steps[id], run, keep) :: steps[id]
  }

  /** The table a converging commit leaves: everything outside the main band, plus the carve. */
  ghost predicate Recarved(before: Steps, after: Steps, run: RunId, carve: seq<CarvedStep>) {
    && MatchesCarve(after, run, carve)
    && (forall id | id in before && !InMainBand(before[id], run) :: id in after && after[id] == before[id])
    && (forall id | id in after && !InMainBand(after[id], run) :: id in before && !InMainBand(before[id], run))
  }

  ghost predicate CarvedSoFar(swept: Steps, midway: Steps, run: RunId, carve: seq<CarvedStep>, n: nat)
    requires n <= |carve|
  {
    && (forall i | 0 <= i < n :: carve[i].id in midway && midway[carve[i].id] == RowAt(run, carve, i))
    && (forall id | (forall i | 0 <= i < n :: id != carve[i].id) ::
          (id in midway <==> id in swept) && (id in swept ==> midway[id] == swept[id]))
  }

  /** The two DELETE statements that sweep rows the carve no longer has. */
  method SweepStale(store: Store, run: RunId, keep: set<StepId>)
    requires UniqueSlots(store.steps) && Attached(store.steps, store.changes)
    modifies store`steps, store`changes
    ensures UniqueSlots(store.steps) && Attached(store.steps, store.changes)
    ensures store.steps == Swept(old(store.steps), run, keep)
    ensures store.changes == map c | c in old(store.changes) && old(store.changes)[c].step in store.steps ::
              old(store.changes)[c]
  {
    var doomed := set id | id in store.steps && store.steps[id].run == run && store.steps[id].seqNo < HOOK_BASE
                  && id !in keep;
    store.changes := map c | c in store.changes && store.changes[c].step !in doomed :: store.changes[c];
    store.steps := map id | id in store.steps && id !in doomed :: store.steps[id];
  }

  /** Up to the first slot a later stored step still holds, upserting builds the carve. */
  lemma SlotIsClear(swept: Steps, midway: Steps, run: RunId, carve: seq<CarvedStep>, k: nat)
    requires k < |carve| <= HOOK_BASE && CarvedSoFar(swept, midway, run, carve, k)
    requires forall id | id in swept && InMainBand(swept[id], run) :: id in Ids(carve)
    requires forall j: nat :: !Blocks(swept, carve, k, j)
    ensures forall id | At(midway, id, run, k) :: id == carve[k].id
  {
    forall id | At(midway, id, run, k) ensures id == carve[k].id {
      if forall i | 0 <= i < k :: id != carve[i].id {
        var j :| 0 <= j < |carve| && id == carve[j].id;
        assert !Blocks(swept, carve, k, j);
      }
    }
  }

  /** Step `holder`, still waiting for its turn, sits in the slot step `slot` is about to take. */
  ghost predicate Blocks(swept: Steps, carve: seq<CarvedStep>, slot: nat, holder: nat) {
    slot < holder < |carve| && carve[holder].id in swept && swept[carve[holder].id].seqNo == slot
  }

  /** There is a lowest blocked slot below any blocked one. */
  lemma {:induction false} LowestBlockedSlot(swept: Steps, carve: seq<CarvedStep>, slot: nat, holder: nat)
    returns (lowest: nat, lowestHolder: nat)
    requires Blocks(swept, carve, slot, holder)
    ensures Blocks(swept, carve, lowest, lowestHolder)
    ensures forall k: nat, j: nat | k < lowest :: !Blocks(swept, carve, k, j)
    decreases slot
  {
    lowest, lowestHolder := slot, holder;
    if k: nat, j: nat :| k < slot && Blocks(swept, carve, k, j) {
      lowest, lowestHolder := LowestBlockedSlot(swept, carve, k, j);
    }
  }

  ghost predicate NoRepeats(carve: seq<CarvedStep>) {
    forall i, j | 0 <= i < j < |carve| :: carve[i].id != carve[j].id
  }

  /** Where the loop stands before upsert k, `slot` being the lowest blocked slot (or past the end):
      below it the carve is built; beyond it the step that met the blocked slot is not stored. */
  ghost predicate Progress(swept: Steps, midway: Steps, run: RunId, carve: seq<CarvedStep>, slot: nat, k: nat)
    requires k <= |carve|
  {
    if k <= slot then CarvedSoFar(swept, midway, run, carve, k)
    else slot < |carve| && carve[slot].id !in midway
  }

  lemma UpsertProgress(swept: Steps, midway: Steps, run: RunId, carve: seq<CarvedStep>, slot: nat, holder: nat, k: nat)
    requires k < |carve| <= HOOK_BASE && NoRepeats(carve) && UniqueSlots(midway) && OwnIds(swept, run, carve)
    requires forall id | id in swept && InMainBand(swept[id], run) :: id in Ids(carve)
    requires forall i: nat, j: nat | i < slot :: !Blocks(swept, carve, i, j)
    requires slot < |carve| ==> Blocks(swept, carve, slot, holder)
    requires Progress(swept, midway, run, carve, slot, k)
    ensures k < slot ==> Insertable(midway, carve[k].id, RowAt(run, carve, k))
    ensures Insertable(midway, carve[k].id, RowAt(run, carve, k)) ==>
              Progress(swept, AfterInsert(midway, carve[k].id, RowAt(run, carve, k)), run, carve, slot, k + 1)
  {
    if k < slot {
      SlotIsClear(swept, midway, run, carve, k);
    } else if k == slot {
      assert At(midway, carve[holder].id, run, k);
    }
  }

  /** Upserts never move a row to another run, and touch and add rows of theirs alone. */
  ghost predicate RunsKept(swept: Steps, midway: Steps, run: RunId, keep: set<StepId>) {
    && (forall id | id in swept :: id in midway && midway[id].run == swept[id].run)
    && (forall id | id in midway && id in keep :: midway[id].run == run)
    && (forall id | id in swept && swept[id].run != run :: midway[id] == swept[id])
    && (forall id | id in midway && id !in swept :: id in keep)
  }

  lemma UpsertKeepsRuns(swept: Steps, midway: Steps, run: RunId, keep: set<StepId>, id: StepId, row: StepRow)
    requires RunsKept(swept, midway, run, keep) && row.run == run && id in keep
    requires id in swept ==> swept[id].run == run
    ensures RunsKept(swept, AfterInsert(midway, id, row), run, keep)
  {
  }

  method UpsertCarve(store: Store, run: RunId, carve: seq<CarvedStep>) returns (ok: bool)
    requires UniqueSlots(store.steps) && |carve| <= HOOK_BASE
    requires forall id | id in store.steps && InMainBand(store.steps[id], run) :: id in Ids(carve)
    requires OwnIds(store.steps, run, carve)
    modifies store`steps
    ensures UniqueSlots(store.steps)
    ensures NothingMovesUp(old(store.steps), carve) ==>
              ok && CarvedSoFar(old(store.steps), store.steps, run, carve, |carve|)
    ensures ok && MatchesCarve(store.steps, run, carve) ==> NothingMovesUp(old(store.steps), carve)
    ensures RunsKept(old(store.steps), store.steps, run, Ids(carve))
  {
    ghost var swept := store.steps;
    ghost var slot, holder := |carve|, 0;
    if NoRepeats(carve) && !NothingMovesUp(swept, carve) {
      ghost var j :| 0 <= j < |carve| && carve[j].id in swept && swept[carve[j].id].seqNo < j;
      slot, holder := LowestBlockedSlot(swept, carve, swept[carve[j].id].seqNo, j);
    }
    ok := true;
    for k := 0 to |carve|
      invariant UniqueSlots(store.steps)
      invariant NoRepeats(carve) ==> Progress(swept, store.steps, run, carve, slot, k)
      invariant RunsKept(swept, store.steps, run, Ids(carve))
    {
      if NoRepeats(carve) {
        UpsertProgress(swept, store.steps, run, carve, slot, holder, k);
      }
      assert carve[k].id in Ids(carve);
      UpsertKeepsRuns(swept, store.steps, run, Ids(carve), carve[k].id, RowAt(run, carve, k));
      ok := store.InsertStep(carve[k].id, RowAt(run, carve, k));
      if !ok {
        return false;
      }
    }
    if MatchesCarve(store.steps, run, carve) {
      MatchingHasNoRepeats(store.steps, run, carve);
    }
  }

  lemma MatchingHasNoRepeats(steps: Steps, run: RunId, carve: seq<CarvedStep>)
    requires MatchesCarve(steps, run, carve)
    ensures NoRepeats(carve)
  {
  }

  // ----- File changes of the carve -----

  /** Inserting each carved change unless its id or its (step, sequence) slot is taken. */
  ghost function Absorbed(kept: Changes, fileChanges: seq<CarvedChange>): Changes {
    if fileChanges == [] then kept
    else
      var earlier := Absorbed(kept, fileChanges[..|fileChanges| - 1]);
      var last := fileChanges[|fileChanges| - 1];
      if DuplicateChange(earlier, last.id, last.row) then earlier else earlier[last.id := last.row]
  }

  /** Every change row keeps the change invariants. */
  predicate AllAcceptable(fileChanges: seq<CarvedChange>) {
    forall i | 0 <= i < |fileChanges| :: Replay.Acceptable(fileChanges[i].row.change)
  }

  /** A change row whose step is stored names that step's run. */
  predicate OwnRows(steps: Steps, fileChanges: seq<CarvedChange>) {
    forall fc | fc in fileChanges && fc.row.step in steps :: steps[fc.row.step].run == fc.row.run
  }

  method InsertChanges(store: Store, fileChanges: seq<CarvedChange>) returns (ok: bool)
    modifies store`changes
    ensures ok ==> AllAcceptable(fileChanges)
    ensures AllAcceptable(fileChanges) && (forall fc | fc in fileChanges :: fc.row.step in store.steps) ==> ok
    ensures ok ==> store.changes == Absorbed(old(store.changes), fileChanges)
    ensures OwnRows(store.steps, fileChanges) && Attached(store.steps, old(store.changes)) ==>
              Attached(store.steps, store.changes)
  {
    ghost var kept := store.changes;
    for k := 0 to |fileChanges|
      invariant store.changes == Absorbed(kept, fileChanges[..k]) && AllAcceptable(fileChanges[..k])
      invariant OwnRows(store.steps, fileChanges) && Attached(store.steps, kept) ==>
                  Attached(store.steps, store.changes)
    {
      var fc := fileChanges[k];
      assert fc in fileChanges && fileChanges[..k + 1][..k] == fileChanges[..k];
      var result := store.InsertFileChange(fc.id, fc.row);
      if result == MissingStep || result == Invalid {
        return false;
      }
    }
    assert fileChanges[..|fileChanges|] == fileChanges;
    return true;
  }

  /** Absorbing keeps every earlier child, adds only carved changes, and leaves nothing to add. */
  lemma {:induction false} AbsorbedKeeps(kept: Changes, fileChanges: seq<CarvedChange>)
    ensures forall c | c in kept :: c in Absorbed(kept, fileChanges) && Absorbed(kept, fileChanges)[c] == kept[c]
    ensures forall c | c in Absorbed(kept, fileChanges) && c !in kept ::
              CarvedChange(c, Absorbed(kept, fileChanges)[c]) in fileChanges
    ensures forall fc | fc in fileChanges :: DuplicateChange(Absorbed(kept, fileChanges), fc.id, fc.row)
  {
    if fileChanges != [] {
      var n := |fileChanges| - 1;
      AbsorbedKeeps(kept, fileChanges[..n]);
      var earlier, all := Absorbed(kept, fileChanges[..n]), Absorbed(kept, fileChanges);
      forall fc | fc in fileChanges ensures DuplicateChange(all, fc.id, fc.row) {
        if fc in fileChanges[..n] {
          assert DuplicateChange(earlier, fc.id, fc.row);
          StaysDuplicate(earlier, all, fc);
        } else {
          assert fc == fileChanges[n];
        }
      }
    }
  }

  lemma StaysDuplicate(earlier: Changes, later: Changes, fc: CarvedChange)
    requires DuplicateChange(earlier, fc.id, fc.row)
    requires forall c | c in earlier :: c in later && later[c] == earlier[c]
    ensures DuplicateChange(later, fc.id, fc.row)
  {
  }

  lemma {:induction false} AbsorbedAgain(kept: Changes, fileChanges: seq<CarvedChange>)
    requires forall fc | fc in fileChanges :: DuplicateChange(kept, fc.id, fc.row)
    ensures Absorbed(kept, fileChanges) == kept
  {
    if fileChanges != [] {
      AbsorbedAgain(kept, fileChanges[..|fileChanges| - 1]);
      assert fileChanges[|fileChanges| - 1] in fileChanges;
    }
  }

  // ----- The commit -----

  /** The children left once the stale steps of a run are gone. */
  ghost function SweptChanges(steps: Steps, changes: Changes, run: RunId, keep: set<StepId>): Changes {
    map c | c in changes && !(changes[c].step in steps && Stale(changes[c].step, steps[changes[c].step], run, keep)) ::
      changes[c]
  }

  lemma SweepKeepsCarve(steps: Steps, run: RunId, carve: seq<CarvedStep>)
    ensures NothingMovesUp(Swept(steps, run, Ids(carve)), carve) <==> NothingMovesUp(steps, carve)
    ensures OwnIds(steps, run, carve) ==> OwnIds(Swept(steps, run, Ids(carve)), run, carve)
    ensures forall id | id in Swept(steps, run, Ids(carve)) && InMainBand(steps[id], run) :: id in Ids(carve)
  {
    var swept := Swept(steps, run, Ids(carve));
    forall j | 0 <= j < |carve| ensures carve[j].id in swept <==> carve[j].id in steps {
      assert carve[j].id in Ids(carve);
    }
  }

  lemma CarvedIsRecarved(before: Steps, after: Steps, run: RunId, carve: seq<CarvedStep>)
    requires |carve| <= HOOK_BASE && OwnIds(before, run, carve)
    requires CarvedSoFar(Swept(before, run, Ids(carve)), after, run, carve, |carve|)
    ensures Recarved(before, after, run, carve)
  {
    forall id | id in before && !InMainBand(before[id], run) ensures id in after && after[id] == before[id] {
      assert forall i | 0 <= i < |carve| :: id != carve[i].id;
    }
    forall id | id in after && id !in Ids(carve)
      ensures id in before && !InMainBand(before[id], run) && after[id] == before[id]
    {
      assert forall i | 0 <= i < |carve| :: carve[i].id in Ids(carve);
    }
  }

  /** Children of the sweep stay attached through the upserts, which keep every row in its run. */
  lemma StaysAttached(swept: Steps, after: Steps, changes: Changes, run: RunId, keep: set<StepId>)
    requires Attached(swept, changes) && RunsKept(swept, after, run, keep)
    ensures Attached(after, changes)
  {
  }

  /** One context of the carve: a run, its steps and their file changes. */
  datatype Carved = Carved(run: RunId, steps: seq<CarvedStep>, fileChanges: seq<CarvedChange>)

  /** What carving makes sure of: ids and changes of a context are of its own run. */
  ghost predicate Ready(steps: Steps, c: Carved) {
    && |c.steps| <= HOOK_BASE && OwnIds(steps, c.run, c.steps)
    && forall fc | fc in c.fileChanges :: fc.row.run == c.run && fc.row.step in Ids(c.steps)
  }

  /** The condition of one context, read off the stored rows. */
  ghost predicate Meets(steps: Steps, c: Carved) {
    NothingMovesUp(steps, c.steps) && AllAcceptable(c.fileChanges)
  }

  ghost predicate Built(steps: Steps, c: Carved) {
    MatchesCarve(steps, c.run, c.steps)
  }

  /** Rows of other runs are as before, and every row of the run was its own before or is carved. */
  ghost predicate OnlyRun(before: Steps, after: Steps, run: RunId, carve: seq<CarvedStep>) {
    && (forall id | id in before && before[id].run != run :: id in after && after[id] == before[id])
    && (forall id | id in after && after[id].run != run :: id in before && before[id] == after[id])
    && (forall id | id in after && after[id].run == run :: id in Ids(carve) || (id in before && before[id].run == run))
  }

  lemma SweptIsOnlyRun(before: Steps, after: Steps, run: RunId, carve: seq<CarvedStep>)
    requires RunsKept(Swept(before, run, Ids(carve)), after, run, Ids(carve))
    ensures OnlyRun(before, after, run, carve)
  {
    hide Ids;
  }

  /** The commit of one run inside the carve transaction. It succeeds with the main band equal to
      the carve exactly when nothing moves up and every change row keeps the change invariants; a
      failing statement rolls everything back. */
  method CommitRun(store: Store, c: Carved) returns (ok: bool)
    requires UniqueSlots(store.steps) && Attached(store.steps, store.changes) && Ready(store.steps, c)
    modifies store`steps, store`changes
    ensures UniqueSlots(store.steps) && Attached(store.steps, store.changes)
    ensures !ok ==> store.steps == old(store.steps) && store.changes == old(store.changes)
    ensures ok && Built(store.steps, c) <==> Meets(old(store.steps), c)
    ensures Meets(old(store.steps), c) ==> Recarved(old(store.steps), store.steps, c.run, c.steps)
    ensures OnlyRun(old(store.steps), store.steps, c.run, c.steps)
    ensures ok ==> store.changes ==
                   Absorbed(SweptChanges(old(store.steps), old(store.changes), c.run, Ids(c.steps)), c.fileChanges)
  {
    var savedSteps, savedChanges := store.steps, store.changes;
    SweepStale(store, c.run, Ids(c.steps));
    ghost var swept, kept := store.steps, store.changes;
    assert kept == SweptChanges(savedSteps, savedChanges, c.run, Ids(c.steps));
    SweepKeepsCarve(savedSteps, c.run, c.steps);
    ok := UpsertCarve(store, c.run, c.steps);
    StaysAttached(swept, store.steps, kept, c.run, Ids(c.steps));
    SweptIsOnlyRun(savedSteps, store.steps, c.run, c.steps);
    if NothingMovesUp(savedSteps, c.steps) {
      CarvedIsRecarved(savedSteps, store.steps, c.run, c.steps);
    }
    if ok {
      ok := InsertChanges(store, c.fileChanges);
    }
    if !ok {
      store.steps, store.changes := savedSteps, savedChanges;
    }
  }

  // ----- Convergence over re-carves -----

  /** Committing the same carve again changes nothing: no row, no child. */
  lemma RecarveChangesNothing(once: Steps, twice: Steps, changes: Changes, run: RunId, carve: seq<CarvedStep>,
                              fileChanges: seq<CarvedChange>)
    requires MatchesCarve(once, run, carve) && Recarved(once, twice, run, carve)
    requires Attached(once, changes) && forall fc | fc in fileChanges :: DuplicateChange(changes, fc.id, fc.row)
    ensures NothingMovesUp(once, carve)
    ensures twice == once
    ensures Absorbed(SweptChanges(once, changes, run, Ids(carve)), fileChanges) == changes
  {
    assert SweptChanges(once, changes, run, Ids(carve)) == changes;
    AbsorbedAgain(changes, fileChanges);
  }

  ghost predicate StrictlyIncreasing(s: seq<nat>) {
    forall i, j | 0 <= i < j < |s| :: s[i] < s[j]
  }

  lemma {:induction false} IncreasingDominates(s: seq<nat>, k: nat)
    requires StrictlyIncreasing(s) && k < |s|
    ensures k <= s[k]
  {
    if k != 0 {
      IncreasingDominates(s, k - 1);
    }
  }

  /** A growing file meets the condition: stored steps kept in stored order, then new ones. `stored`
      lists the main band by sequence and `at` says which stored step each kept one is. */
  lemma SubsequenceThenNewMovesNothingUp(steps: Steps, run: RunId, stored: seq<StepId>, carve: seq<CarvedStep>,
                                         at: seq<nat>)
    requires forall i | 0 <= i < |stored| :: stored[i] in steps
    requires forall i, j | 0 <= i < j < |stored| :: steps[stored[i]].seqNo < steps[stored[j]].seqNo
    requires |at| <= |carve| && StrictlyIncreasing(at)
    requires forall j | 0 <= j < |at| :: at[j] < |stored| && carve[j].id == stored[at[j]]
    requires forall j | |at| <= j < |carve| :: carve[j].id !in steps
    requires forall i, j | |at| <= i < j < |carve| :: carve[i].id != carve[j].id
    ensures NothingMovesUp(steps, carve)
  {
    forall j | 0 <= j < |at| ensures j <= steps[carve[j].id].seqNo {
      var seqNos := seq(|at|, k requires 0 <= k < |at| => steps[stored[at[k]]].seqNo);
      IncreasingDominates(seqNos, j);
    }
  }

  /** Two stored steps carved in the opposite order block the commit: the condition is not empty talk. */
  lemma SwappedStepsNeverCommit(run: RunId, first: CarvedStep, second: CarvedStep, steps: Steps)
    requires first.id != second.id
    requires steps ==
               map[first.id := StepRow(run, first.parent, 0, first.body),
                   second.id := StepRow(run, second.parent, 1, second.body)]
    ensures MatchesCarve(steps, run, [first, second])
    ensures !NothingMovesUp(steps, [second, first])
    ensures !Insertable(steps, second.id, RowAt(run, [second, first], 0))
  {
    var forward, back := [first, second], [second, first];
    assert back[1].id in steps && steps[back[1].id].seqNo == 0;
    assert first.id == forward[0].id && second.id == forward[1].id;
    assert first.id in Ids(forward) && second.id in Ids(forward);
    assert At(steps, first.id, run, 0);
  }
}

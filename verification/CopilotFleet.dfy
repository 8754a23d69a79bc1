/** The carve transaction as a whole: the parent and every child run, committed together or not at all. */
module CopilotFleet {
  import opened StepTable
  import opened CopilotCommit

  /** One context per run, and no id carved in two of them. */
  ghost predicate Apart(fleet: seq<Carved>) {
    forall i, j | 0 <= i < j < |fleet| :: fleet[i].run != fleet[j].run && Ids(fleet[i].steps) !! Ids(fleet[j].steps)
  }

  predicate InFleet(run: RunId, fleet: seq<Carved>) {
    exists k :: 0 <= k < |fleet| && fleet[k].run == run
  }

  /** The children once each context swept its own and inserted its carved changes. */
  ghost function FleetChanges(steps: Steps, changes: Changes, fleet: seq<Carved>): Changes {
    if fleet == [] then changes
    else
      var last := fleet[|fleet| - 1];
      Absorbed(SweptChanges(steps, FleetChanges(steps, changes, fleet[..|fleet| - 1]), last.run, Ids(last.steps)),
               last.fileChanges)
  }

  ghost predicate SameRows(before: Steps, after: Steps, run: RunId) {
    forall id ::
      && (id in after && after[id].run == run <==> id in before && before[id].run == run)
      && (id in after && after[id].run == run ==> after[id] == before[id])
  }

  /** The rows of a run outside its main band are as before. */
  ghost predicate BandsKept(before: Steps, after: Steps, run: RunId) {
    forall id ::
      && (id in after && after[id].run == run && !InMainBand(after[id], run) <==>
          id in before && before[id].run == run && !InMainBand(before[id], run))
      && (id in after && after[id].run == run && !InMainBand(after[id], run) ==> after[id] == before[id])
  }

  /** What the commit of one context leaves of its run. */
  ghost predicate Settled(before: Steps, after: Steps, c: Carved) {
    && (Meets(before, c) <==> Built(after, c))
    && (Meets(before, c) ==> BandsKept(before, after, c.run))
    && (forall id | id in after && after[id].run == c.run ::
          id in Ids(c.steps) || (id in before && before[id].run == c.run))
  }

  ghost predicate Committed(before: Steps, after: Steps, done: seq<Carved>) {
    && (forall k | 0 <= k < |done| :: Settled(before, after, done[k]))
    && (forall run | !InFleet(run, done) :: SameRows(before, after, run))
  }

  /** A run still to come finds its rows, and so its condition, as they were before the transaction. */
  lemma WaitingIsUntouched(before: Steps, midway: Steps, fleet: seq<Carved>, i: nat)
    requires i < |fleet| && Apart(fleet) && Ready(before, fleet[i]) && Committed(before, midway, fleet[..i])
    ensures SameRows(before, midway, fleet[i].run)
    ensures Ready(midway, fleet[i]) && (Meets(midway, fleet[i]) <==> Meets(before, fleet[i]))
  {
    hide SameRows, Settled, Meets;
    var c := fleet[i];
    forall k | 0 <= k < i ensures fleet[..i][k].run != c.run {
    }
    forall j | 0 <= j < |c.steps| ensures c.steps[j].id in midway <==> c.steps[j].id in before {
      assert c.steps[j].id in Ids(c.steps);
      CarvedIdStays(before, midway, fleet, i, c.steps[j].id);
    }
    ConditionStays(before, midway, c);
  }

  /** An id carved for a run is stored midway exactly when it was, and then for that run. */
  lemma CarvedIdStays(before: Steps, midway: Steps, fleet: seq<Carved>, i: nat, id: StepId)
    requires i < |fleet| && Apart(fleet) && Ready(before, fleet[i]) && Committed(before, midway, fleet[..i])
    requires id in Ids(fleet[i].steps)
    ensures id in midway <==> id in before
  {
    hide Meets, Built, BandsKept;
    var done, run := fleet[..i], fleet[i].run;
    assert !InFleet(run, done);
    if id in before {
      assert SameRows(before, midway, run);
    }
    if id in midway && !InFleet(midway[id].run, done) {
      assert SameRows(before, midway, midway[id].run);
    }
  }

  lemma ConditionStays(before: Steps, midway: Steps, c: Carved)
    requires Ready(before, c) && SameRows(before, midway, c.run)
    requires forall j | 0 <= j < |c.steps| :: c.steps[j].id in midway <==> c.steps[j].id in before
    ensures Ready(midway, c) && (Meets(midway, c) <==> Meets(before, c))
  {
  }

  /** Committing one more context settles it and leaves the others as they are. */
  lemma CommittedOneMore(before: Steps, midway: Steps, after: Steps, fleet: seq<Carved>, i: nat)
    requires i < |fleet| && Apart(fleet) && Ready(before, fleet[i]) && Committed(before, midway, fleet[..i])
    requires OnlyRun(midway, after, fleet[i].run, fleet[i].steps)
    requires Meets(midway, fleet[i]) <==> Built(after, fleet[i])
    requires Meets(midway, fleet[i]) ==> Recarved(midway, after, fleet[i].run, fleet[i].steps)
    ensures Committed(before, after, fleet[..i + 1])
  {
    hide SameRows, Settled, OnlyRun, Recarved, Meets;
    var done := fleet[..i + 1];
    WaitingIsUntouched(before, midway, fleet, i);
    forall run | run != fleet[i].run ensures SameRows(midway, after, run) {
      OnlyRunKeeps(midway, after, fleet[i], run);
    }
    forall k | 0 <= k < |done| ensures Settled(before, after, done[k]) {
      if k == i {
        NewlySettled(before, midway, after, fleet[i]);
      } else {
        assert done[k] == fleet[..i][k];
        StaysSettled(before, midway, after, done[k]);
      }
    }
    forall run | !InFleet(run, done) ensures SameRows(before, after, run) {
      assert done[i].run == fleet[i].run;
      forall k | 0 <= k < i ensures fleet[..i][k].run != run {
        assert done[k] == fleet[..i][k];
      }
      SameRowsTransitive(before, midway, after, run);
    }
  }

  lemma OnlyRunKeeps(midway: Steps, after: Steps, c: Carved, run: RunId)
    requires OnlyRun(midway, after, c.run, c.steps) && run != c.run
    ensures SameRows(midway, after, run)
  {
    hide Ids;
  }

  lemma SameRowsTransitive(before: Steps, midway: Steps, after: Steps, run: RunId)
    requires SameRows(before, midway, run) && SameRows(midway, after, run)
    ensures SameRows(before, after, run)
  {
  }

  lemma StaysSettled(before: Steps, midway: Steps, after: Steps, c: Carved)
    requires Settled(before, midway, c) && SameRows(midway, after, c.run)
    ensures Settled(before, after, c)
  {
    hide Meets, Ids;
    forall i | 0 <= i < |c.steps|
      ensures (c.steps[i].id in midway && midway[c.steps[i].id] == RowAt(c.run, c.steps, i)) <==>
              (c.steps[i].id in after && after[c.steps[i].id] == RowAt(c.run, c.steps, i))
    {
    }
  }

  lemma NewlySettled(before: Steps, midway: Steps, after: Steps, c: Carved)
    requires SameRows(before, midway, c.run) && (Meets(midway, c) <==> Meets(before, c))
    requires OnlyRun(midway, after, c.run, c.steps) && (Meets(midway, c) <==> Built(after, c))
    requires Meets(midway, c) ==> Recarved(midway, after, c.run, c.steps)
    ensures Settled(before, after, c)
  {
    hide Meets, Ids, Built, MatchesCarve;
  }

  /** Rows of a run not yet reached are what decides which children its sweep takes. */
  lemma SweepIsAsBefore(before: Steps, midway: Steps, changes: Changes, run: RunId, keep: set<StepId>)
    requires SameRows(before, midway, run)
    ensures SweptChanges(before, changes, run, keep) == SweptChanges(midway, changes, run, keep)
  {
  }

  /** The transaction: it goes through with every run holding its carve exactly when every run meets
      its condition on the rows stored before; one blocked child rolls the parent back too. */
  method CommitFleet(store: Store, fleet: seq<Carved>) returns (ok: bool)
    requires UniqueSlots(store.steps) && Attached(store.steps, store.changes)
    requires Apart(fleet) && forall k | 0 <= k < |fleet| :: Ready(store.steps, fleet[k])
    modifies store`steps, store`changes
    ensures UniqueSlots(store.steps) && Attached(store.steps, store.changes)
    ensures !ok ==> store.steps == old(store.steps) && store.changes == old(store.changes)
    ensures ok && (forall k | 0 <= k < |fleet| :: Built(store.steps, fleet[k])) <==>
            forall k | 0 <= k < |fleet| :: Meets(old(store.steps), fleet[k])
    ensures (forall k | 0 <= k < |fleet| :: Meets(old(store.steps), fleet[k])) ==>
              && (forall k | 0 <= k < |fleet| :: BandsKept(old(store.steps), store.steps, fleet[k].run))
              && (forall run | !InFleet(run, fleet) :: SameRows(old(store.steps), store.steps, run))
    ensures ok ==> store.changes == FleetChanges(old(store.steps), old(store.changes), fleet)
  {
    hide UniqueSlots, Attached, Apart, Ready, Meets, Built, BandsKept, SameRows, OnlyRun, Recarved;
    var savedSteps, savedChanges := store.steps, store.changes;
    NothingCommitted(savedSteps);
    assert fleet[..0] == [];
    for i := 0 to |fleet|
      invariant UniqueSlots(store.steps) && Attached(store.steps, store.changes)
      invariant Committed(savedSteps, store.steps, fleet[..i])
      invariant store.changes == FleetChanges(savedSteps, savedChanges, fleet[..i])
    {
      var c := fleet[i];
      ghost var midway, changes := store.steps, store.changes;
      WaitingIsUntouched(savedSteps, midway, fleet, i);
      SweepIsAsBefore(savedSteps, midway, changes, c.run, Ids(c.steps));
      ok := CommitRun(store, c);
      if !ok {
        store.steps, store.changes := savedSteps, savedChanges;
        return false;
      }
      CommittedOneMore(savedSteps, midway, store.steps, fleet, i);
      assert fleet[..i + 1][..i] == fleet[..i];
    }
    assert fleet[..|fleet|] == fleet;
    ok := true;
  }

  lemma NothingCommitted(before: Steps)
    ensures Committed(before, before, [])
  {
  }
}

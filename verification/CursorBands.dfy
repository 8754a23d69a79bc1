/** The four planes that write into one Cursor run, each in its own sequence band. */
module CursorBands {
  import opened Wrappers
  import opened StepTable
  import opened CursorIngest

  datatype Plane = Walk | Hook | Admin | Checkpoint

  function Base(plane: Plane): nat {
    match plane
    case Walk => 0
    case Hook => HOOK_BASE
    case Admin => ADMIN_BASE
    case Checkpoint => CHECKPOINT_BASE
  }

  function Limit(plane: Plane): nat {
    match plane
    case Walk => HOOK_BASE
    case Hook => ADMIN_BASE
    case Admin => CHECKPOINT_BASE
    case Checkpoint => REBUILD_OFFSET
  }

  /** The plane that mints an id. Only the pre-deterministic walk ever minted legacy ids. */
  function PlaneOf(id: StepId): Plane {
    match id
    case Deterministic(_, _) => Walk
    case HookStep(_, _) => Hook
    case AdminStep(_, _) => Admin
    case CheckpointStep(_, _) => Checkpoint
    case Legacy(_) => Walk
  }

  ghost predicate InBand(row: StepRow, run: RunId, plane: Plane) {
    row.run == run && Base(plane) <= row.seqNo < Limit(plane)
  }

  /** A row lives in the band of the plane that minted its id, and in the run the id names. */
  ghost predicate AtHome(id: StepId, row: StepRow) {
    && InBand(row, row.run, PlaneOf(id))
    && (!id.Legacy? ==> id.run == row.run)
  }

  /** No gaps: below every occupied slot of [base, limit) the range is full. */
  ghost predicate Gapless(steps: Steps, run: RunId, base: nat, limit: nat) {
    forall id, s | id in steps && steps[id].run == run && steps[id].seqNo < limit && base <= s <= steps[id].seqNo ::
      SlotTaken(steps, run, s)
  }

  ghost predicate Contiguous(steps: Steps, run: RunId, plane: Plane) {
    Gapless(steps, run, Base(plane), Limit(plane))
  }

  /** What every writer keeps. */
  ghost predicate Banded(steps: Steps) {
    && UniqueSlots(steps)
    && (forall id | id in steps :: AtHome(id, steps[id]))
    && (forall run, plane: Plane | plane != Walk :: Contiguous(steps, run, plane))
  }

  ghost function RowsBetween(steps: Steps, run: RunId, base: nat, limit: nat): set<StepId> {
    set id | id in steps && steps[id].run == run && base <= steps[id].seqNo < limit
  }

  ghost function BandRows(steps: Steps, run: RunId, plane: Plane): set<StepId> {
    RowsBetween(steps, run, Base(plane), Limit(plane))
  }

  // ----- The next free slot -----

  /** `next` is the first free slot of the range and no later slot is taken; the limit itself when it is full. */
  ghost predicate FirstFree(steps: Steps, run: RunId, base: nat, limit: nat, next: nat) {
    base <= next <= limit && forall s | base <= s < limit :: SlotTaken(steps, run, s) <==> s < next
  }

  /** `nextSequenceInBand`: base + COUNT(*) over the band never passes the limit, and is the first
      free slot exactly when the band has no gap. */
  method NextSequenceInBand(steps: Steps, run: RunId, base: nat, limit: nat) returns (next: nat)
    ensures UniqueSlots(steps) && base <= limit ==>
              base <= next <= limit && (FirstFree(steps, run, base, limit, next) <==> Gapless(steps, run, base, limit))
  {
    next := base + |set id | id in steps && steps[id].run == run && base <= steps[id].seqNo < limit|;
    if UniqueSlots(steps) && base <= limit {
      assert (set id | id in steps && steps[id].run == run && base <= steps[id].seqNo < limit) ==
               RowsBetween(steps, run, base, limit);
      RangeHoldsAtMost(steps, run, base, limit);
      FirstFreeIffGapless(steps, run, base, limit);
    }
  }

  lemma FirstFreeIffGapless(steps: Steps, run: RunId, base: nat, limit: nat)
    requires UniqueSlots(steps) && base <= limit
    ensures FirstFree(steps, run, base, limit, base + |RowsBetween(steps, run, base, limit)|) <==>
              Gapless(steps, run, base, limit)
  {
    if Gapless(steps, run, base, limit) {
      CountIsFirstFree(steps, run, base, limit);
    }
    if FirstFree(steps, run, base, limit, base + |RowsBetween(steps, run, base, limit)|) {
      forall id, s | id in steps && steps[id].run == run && steps[id].seqNo < limit && base <= s <= steps[id].seqNo
        ensures SlotTaken(steps, run, s)
      {
        assert At(steps, id, run, steps[id].seqNo);
        assert SlotTaken(steps, run, steps[id].seqNo);
      }
    }
  }

  /** With a gap the count may name a taken slot: two rows, at base and base + 2, make it base + 2. */
  lemma GapMakesCountCollide(run: RunId, a: StepId, b: StepId, body: Body, base: nat, limit: nat)
    requires a != b && base + 2 < limit
    ensures var steps := map[a := StepRow(run, None, base, body), b := StepRow(run, None, base + 2, body)];
            UniqueSlots(steps) && SlotTaken(steps, run, base + |RowsBetween(steps, run, base, limit)|)
  {
    var steps := map[a := StepRow(run, None, base, body), b := StepRow(run, None, base + 2, body)];
    assert RowsBetween(steps, run, base, limit) == {a, b};
    assert At(steps, b, run, base + 2);
  }

  lemma {:induction false} RangeHoldsAtMost(steps: Steps, run: RunId, base: nat, limit: nat)
    requires UniqueSlots(steps) && base <= limit
    ensures |RowsBetween(steps, run, base, limit)| <= limit - base
    decreases limit
  {
    if base == limit {
      assert RowsBetween(steps, run, base, limit) == {};
    } else {
      RangeHoldsAtMost(steps, run, base, limit - 1);
      OneRowASlot(steps, run, RowsBetween(steps, run, base, limit - 1), RowsBetween(steps, run, base, limit),
                  limit - 1);
    }
  }

  lemma OneRowASlot(steps: Steps, run: RunId, below: set<StepId>, all: set<StepId>, slot: nat)
    requires UniqueSlots(steps)
    requires forall id :: id in all ==> id in below || At(steps, id, run, slot)
    ensures |all| <= |below| + 1
  {
    var extra := all - below;
    assert |all| <= |below| + |extra| by {
      assert all == extra + all * below && |all * below| <= |below| by {
        CardinalityOfSubset(all * below, below);
      }
    }
    if extra != {} {
      var id :| id in extra;
      assert forall other | other in extra :: other == id;
      assert extra == {id};
    }
  }

  lemma {:induction false} CardinalityOfSubset<T>(a: set<T>, b: set<T>)
    requires a <= b
    ensures |a| <= |b|
  {
    assert b == a + (b - a);
  }

  /** The occupied slots of a gapless range are the ones below base + COUNT, and no others. */
  lemma CountIsFirstFree(steps: Steps, run: RunId, base: nat, limit: nat)
    requires UniqueSlots(steps) && Gapless(steps, run, base, limit) && base <= limit
    ensures FirstFree(steps, run, base, limit, base + |RowsBetween(steps, run, base, limit)|)
  {
    var n := 0;
    while base + n < limit && SlotTaken(steps, run, base + n)
      invariant 0 <= n && base + n <= limit
      invariant forall s | base <= s < base + n :: SlotTaken(steps, run, s)
      decreases limit - n
    {
      n := n + 1;
    }
    var rows := RowsBetween(steps, run, base, limit);
    forall id | id in rows ensures steps[id].seqNo < base + n {
      assert steps[id].seqNo >= base + n ==> SlotTaken(steps, run, base + n);
    }
    FullPrefixCount(steps, run, base, n, rows);
    forall s | base + n <= s < limit ensures !SlotTaken(steps, run, s) {
      forall id ensures !At(steps, id, run, s) {
        var listed := id in rows;
      }
    }
  }

  /** n slots from `base` on, each held by exactly one of `ids` and nothing else, make n ids. */
  lemma {:induction false} FullPrefixCount(steps: Steps, run: RunId, base: nat, n: nat, ids: set<StepId>)
    requires UniqueSlots(steps)
    requires forall s | base <= s < base + n :: SlotTaken(steps, run, s)
    requires forall id :: id in ids <==> id in steps && steps[id].run == run && base <= steps[id].seqNo < base + n
    ensures |ids| == n
  {
    if n != 0 {
      var top := Occupant(steps, run, base + n - 1);
      FullPrefixCount(steps, run, base, n - 1, ids - {top});
    }
  }

  lemma FirstFreeIsUnique(steps: Steps, run: RunId, base: nat, limit: nat, a: nat, b: nat)
    requires FirstFree(steps, run, base, limit, a) && FirstFree(steps, run, base, limit, b)
    ensures a == b
  {
    assert a < b ==> SlotTaken(steps, run, a);
    assert b < a ==> SlotTaken(steps, run, b);
  }

  // ----- One event -----

  /** The band still has a slot left, or the step is already there. */
  ghost predicate HasRoom(steps: Steps, id: StepId)
    requires !id.Legacy?
  {
    id in steps || Base(PlaneOf(id)) + |BandRows(steps, id.run, PlaneOf(id))| < Limit(PlaneOf(id))
  }

  /** The one row a synthetic writer adds or refreshes: a hook refreshes its own step in place,
      the other writers leave a known step alone, and a new step extends the band by one. */
  ghost predicate BandInserted(before: Steps, after: Steps, id: StepId, body: Body)
    requires !id.Legacy?
  {
    var plane := PlaneOf(id);
    if id in before then
      after == if plane == Hook then before[id := StepRow(id.run, None, before[id].seqNo, body)] else before
    else
      var slot := Base(plane) + |BandRows(before, id.run, plane)|;
      !SlotTaken(before, id.run, slot) && after == before[id := StepRow(id.run, None, slot, body)]
  }

  /** One event: a walk ingest that commits or leaves the tables alone, or a synthetic step. */
  ghost predicate WalkEvent(before: Tables, after: Tables, run: RunId) {
    exists fetched: seq<Bubble>, stamp: Stamp :: WalkEventOf(before, after, run, fetched, stamp)
  }

  ghost predicate BandEvent(before: Tables, after: Tables, id: StepId) {
    && !id.Legacy? && !id.Deterministic? && HasRoom(before.steps, id)
    && exists body: Body :: BandInserted(before.steps, after.steps, id, body)
  }

  /** One event of one plane in one run. */
  ghost predicate Event(before: Tables, after: Tables, plane: Plane, run: RunId) {
    if plane == Walk then WalkEvent(before, after, run)
    else exists id: StepId :: !id.Legacy? && id.run == run && PlaneOf(id) == plane && BandEvent(before, after, id)
  }

  /** Hook, admin and checkpoint writers: a known step keeps its slot, a new one goes to base + COUNT. */
  method InsertBandStep(store: Store, plane: Plane, id: StepId, body: Body) returns (ok: bool)
    requires UniqueSlots(store.steps)
    requires !id.Legacy? && plane != Walk && PlaneOf(id) == plane
    modifies store`steps
    ensures UniqueSlots(store.steps)
    ensures !ok ==> store.steps == old(store.steps)
    ensures Banded(old(store.steps)) && HasRoom(old(store.steps), id) ==>
              && ok && BandInserted(old(store.steps), store.steps, id, body)
              && Event(Tables(old(store.steps), old(store.changes)), Tables(store.steps, store.changes), plane, id.run)
  {
    if Banded(store.steps) {
      assert Contiguous(store.steps, id.run, plane);
      CountIsFirstFree(store.steps, id.run, Base(plane), Limit(plane));
    }
    ghost var before, tables := store.steps, Tables(store.steps, store.changes);
    var seqNo: nat;
    if id in store.steps {
      if plane != Hook {
        BandInsertedIsEvent(tables, tables, id, body);
        return true;
      }
      seqNo := store.steps[id].seqNo;
    } else {
      seqNo := NextSequenceInBand(store.steps, id.run, Base(plane), Limit(plane));
      if Banded(before) {
        FirstFreeIsUnique(before, id.run, Base(plane), Limit(plane), seqNo,
                          Base(plane) + |BandRows(before, id.run, plane)|);
      }
    }
    ok := store.InsertStep(id, StepRow(id.run, None, seqNo, body));
    BandInsertedIsEvent(tables, Tables(store.steps, store.changes), id, body);
  }

  lemma BandInsertedIsEvent(before: Tables, after: Tables, id: StepId, body: Body)
    requires !id.Legacy? && PlaneOf(id) != Walk
    ensures HasRoom(before.steps, id) && BandInserted(before.steps, after.steps, id, body) ==>
              Event(before, after, PlaneOf(id), id.run)
  {
    hide HasRoom, BandInserted;
    if HasRoom(before.steps, id) && BandInserted(before.steps, after.steps, id, body) {
      assert BandEvent(before, after, id);
    }
  }

  // ----- Whole runs -----

  datatype Writer = Writer(plane: Plane, run: RunId)

  lemma BandEventKeeps(before: Steps, after: Steps, id: StepId, body: Body)
    requires Banded(before) && !id.Legacy? && !id.Deterministic? && HasRoom(before, id)
             && BandInserted(before, after, id, body)
    ensures Banded(after)
  {
    BandEventSlots(before, after, id, body);
    forall run: RunId, p: Plane | p != Walk ensures Contiguous(after, run, p) {
      BandEventContiguous(before, after, id, body, run, p);
    }
  }

  lemma BandEventSlots(before: Steps, after: Steps, id: StepId, body: Body)
    requires Banded(before) && !id.Legacy? && HasRoom(before, id) && BandInserted(before, after, id, body)
    ensures UniqueSlots(after) && forall b | b in after :: AtHome(b, after[b])
  {
    forall b | b in after && b != id ensures !At(after, b, after[id].run, after[id].seqNo) {
      if id !in before {
        assert !At(before, b, after[id].run, after[id].seqNo);
      } else {
        assert AtHome(id, before[id]);
      }
    }
    forall b | b in after ensures AtHome(b, after[b]) {
      if b in before {
        assert AtHome(b, before[b]);
      }
    }
  }

  lemma BandEventContiguous(before: Steps, after: Steps, id: StepId, body: Body, run: RunId, p: Plane)
    requires Banded(before) && !id.Legacy? && HasRoom(before, id) && BandInserted(before, after, id, body) && p != Walk
    requires !id.Deterministic?
    ensures Contiguous(after, run, p)
  {
    var plane := PlaneOf(id);
    assert Contiguous(before, id.run, plane) && Contiguous(before, run, p);
    CountIsFirstFree(before, id.run, Base(plane), Limit(plane));
    assert SlotsKept(before, after) by {
      if id in before {
        assert AtHome(id, before[id]);
      }
    }
    StaysContiguous(before, after, id, run, p);
  }

  ghost predicate SlotsKept(before: Steps, after: Steps) {
    forall b | b in before :: b in after && after[b].run == before[b].run && after[b].seqNo == before[b].seqNo
  }

  /** Rows in their slots, and at most one new row above a full stretch, leave no gap. */
  lemma StaysContiguous(before: Steps, after: Steps, id: StepId, run: RunId, p: Plane)
    requires Contiguous(before, run, p) && SlotsKept(before, after)
    requires forall b | b in after :: b in before || b == id
    requires id !in before && id in after && InBand(after[id], run, p) ==>
               forall s | Base(p) <= s < after[id].seqNo :: SlotTaken(before, run, s)
    ensures Contiguous(after, run, p)
  {
    forall b, s | b in after && InBand(after[b], run, p) && Base(p) <= s <= after[b].seqNo
      ensures SlotTaken(after, run, s)
    {
      if b !in before && s == after[b].seqNo {
        assert At(after, b, run, s);
      } else {
        KeepsSlot(before, after, run, s);
      }
    }
  }

  lemma KeepsSlot(before: Steps, after: Steps, run: RunId, s: int)
    requires SlotTaken(before, run, s) && SlotsKept(before, after)
    ensures SlotTaken(after, run, s)
  {
    assert At(after, Occupant(before, run, s), run, s);
  }

  lemma WalkEventKeeps(before: Tables, after: Tables, run: RunId, fetched: seq<Bubble>, stamp: Stamp)
    requires Banded(before.steps) && WalkEventOf(before, after, run, fetched, stamp)
    ensures Banded(after.steps)
  {
    if after != before {
      var bubbles := Walked(fetched);
      forall id | id in after.steps ensures AtHome(id, after.steps[id]) {
        if InWalk(after.steps[id], run) {
          var i :| 0 <= i < |bubbles| && id == WalkId(run, bubbles, i);
          WalkRowAtHome(run, bubbles, i, stamp);
        } else {
          assert AtHome(id, before.steps[id]);
        }
      }
      OutsidersStay(before, after, run, fetched, stamp);
      forall r: RunId, p: Plane | p != Walk ensures Contiguous(after.steps, r, p) {
        assert Contiguous(before.steps, r, p);
        WalkKeepsBand(before.steps, after.steps, run, r, p);
      }
    }
  }

  /** Outside a run's walk, the rows and their slots are the same. */
  ghost predicate OutsidersKept(before: Steps, after: Steps, run: RunId) {
    && (forall id | id in before && !InWalk(before[id], run) ::
          id in after && after[id].run == before[id].run && after[id].seqNo == before[id].seqNo)
    && (forall id | id in after && !InWalk(after[id], run) ::
          id in before && after[id].run == before[id].run && after[id].seqNo == before[id].seqNo)
  }

  lemma OutsidersStay(before: Tables, after: Tables, run: RunId, fetched: seq<Bubble>, stamp: Stamp)
    requires WalkEventOf(before, after, run, fetched, stamp) && after != before
    ensures OutsidersKept(before.steps, after.steps, run)
  {
  }

  lemma WalkKeepsBand(before: Steps, after: Steps, run: RunId, r: RunId, p: Plane)
    requires Contiguous(before, r, p) && OutsidersKept(before, after, run) && p != Walk
    ensures Contiguous(after, r, p)
  {
    forall b, s | b in after && InBand(after[b], r, p) && Base(p) <= s <= after[b].seqNo
      ensures SlotTaken(after, r, s)
    {
      assert b in before && InBand(before[b], r, p);
      assert At(after, Occupant(before, r, s), r, s);
    }
  }

  lemma WalkRowAtHome(run: RunId, bubbles: seq<Bubble>, i: nat, stamp: Stamp)
    requires i < |bubbles| <= HOOK_BASE
    ensures AtHome(WalkId(run, bubbles, i), WalkRow(run, bubbles, i, stamp))
  {
  }

  lemma EventKeeps(before: Tables, after: Tables, w: Writer)
    requires Banded(before.steps) && Event(before, after, w.plane, w.run)
    ensures Banded(after.steps)
  {
    if w.plane == Walk {
      var fetched: seq<Bubble>, stamp: Stamp :| WalkEventOf(before, after, w.run, fetched, stamp);
      WalkEventKeeps(before, after, w.run, fetched, stamp);
    } else {
      var id: StepId :| !id.Legacy? && id.run == w.run && PlaneOf(id) == w.plane && BandEvent(before, after, id);
      var body :| BandInserted(before.steps, after.steps, id, body);
      BandEventKeeps(before.steps, after.steps, id, body);
    }
  }

  /** A banded table is one every run's walk can be ingested into. */
  lemma BandedIsHealthy(steps: Steps, run: RunId)
    requires Banded(steps)
    ensures Healthy(steps, run)
  {
    forall id | id in steps ensures AtHome(id, steps[id]) {
    }
  }

  /** Over any interleaving of walk ingests, hooks, admin events and checkpoints, starting from any
      banded table, legacy rows included: every band stays contiguous from its base, base + COUNT is
      its first free slot as long as it has room, every row stays with the plane that minted it, and
      every run stays healthy, which is what an ingest needs to commit without rolling back. */
  lemma {:induction false} BandsHoldOverRuns(trace: seq<Tables>, writers: seq<Writer>, k: nat)
    requires k < |trace| == |writers| + 1 && Banded(trace[0].steps)
    requires forall i | 0 <= i < |writers| :: Event(trace[i], trace[i + 1], writers[i].plane, writers[i].run)
    ensures Banded(trace[k].steps)
    ensures forall run: RunId :: Healthy(trace[k].steps, run)
    ensures forall run: RunId, plane: Plane | plane != Walk ::
              FirstFree(trace[k].steps, run, Base(plane), Limit(plane),
                        Base(plane) + |BandRows(trace[k].steps, run, plane)|)
  {
    if k != 0 {
      BandsHoldOverRuns(trace, writers, k - 1);
      assert Event(trace[k - 1], trace[k - 1 + 1], writers[k - 1].plane, writers[k - 1].run);
      EventKeeps(trace[k - 1], trace[k], writers[k - 1]);
    }
    forall run: RunId ensures Healthy(trace[k].steps, run) {
      BandedIsHealthy(trace[k].steps, run);
    }
    forall run: RunId, plane: Plane | plane != Walk
      ensures FirstFree(trace[k].steps, run, Base(plane), Limit(plane),
                        Base(plane) + |BandRows(trace[k].steps, run, plane)|)
    {
      assert Contiguous(trace[k].steps, run, plane);
      CountIsFirstFree(trace[k].steps, run, Base(plane), Limit(plane));
    }
  }

  ghost predicate Foreign(id: StepId, row: StepRow, plane: Plane, run: RunId) {
    PlaneOf(id) != plane || row.run != run
  }

  /** The row is there afterwards, in its slot with its content; its parent link may have changed. */
  ghost predicate StaysPut(before: Steps, after: Steps, id: StepId)
    requires id in before
  {
    id in after && after[id].(parent := before[id].parent) == before[id]
  }

  /** No plane moves, deletes, rewrites or adds rows of another plane or another run; at most a
      walk ingest makes a parent link inside its run follow a legacy rename. */
  lemma OtherPlanesUntouched(before: Tables, after: Tables, plane: Plane, run: RunId, id: StepId)
    requires Banded(before.steps) && Event(before, after, plane, run)
    ensures id in before.steps && Foreign(id, before.steps[id], plane, run) ==>
              && StaysPut(before.steps, after.steps, id)
              && (plane != Walk || before.steps[id].run != run ==> after.steps[id] == before.steps[id])
    ensures id in after.steps && Foreign(id, after.steps[id], plane, run) ==> id in before.steps
  {
    if plane == Walk {
      var fetched: seq<Bubble>, stamp: Stamp :| WalkEventOf(before, after, run, fetched, stamp);
      WalkLeaves(before, after, run, fetched, stamp, id);
    } else {
      var own: StepId :| !own.Legacy? && own.run == run && PlaneOf(own) == plane && BandEvent(before, after, own);
      var body :| BandInserted(before.steps, after.steps, own, body);
      BandWriteLeaves(before.steps, after.steps, own, body, id);
    }
  }

  lemma WalkLeaves(before: Tables, after: Tables, run: RunId, fetched: seq<Bubble>, stamp: Stamp, id: StepId)
    requires Banded(before.steps) && WalkEventOf(before, after, run, fetched, stamp)
    ensures id in before.steps && Foreign(id, before.steps[id], Walk, run) ==>
              StaysPut(before.steps, after.steps, id)
              && (before.steps[id].run != run ==> after.steps[id] == before.steps[id])
    ensures id in after.steps && Foreign(id, after.steps[id], Walk, run) ==> id in before.steps
  {
    hide UniqueSlots, Contiguous, ChangesAfter, BodyAt;
    if id in before.steps {
      assert AtHome(id, before.steps[id]);
    }
  }

  lemma BandWriteLeaves(before: Steps, after: Steps, own: StepId, body: Body, id: StepId)
    requires Banded(before) && !own.Legacy? && BandInserted(before, after, own, body)
    ensures id in before && Foreign(id, before[id], PlaneOf(own), own.run) ==> id in after && after[id] == before[id]
    ensures id in after && Foreign(id, after[id], PlaneOf(own), own.run) ==> id in before
  {
    hide UniqueSlots, Contiguous;
  }
}

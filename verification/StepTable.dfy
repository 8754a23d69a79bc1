/** The `steps` and `file_change` tables, with the statements the adapters run against them.

    `steps` is keyed by step id (the primary key, so a map) and carries UNIQUE(run_id, sequence);
    `file_change` rows reference a step with ON DELETE CASCADE. A statement that would break a
    uniqueness key reports failure and leaves the table alone, as SQLite does. */
module StepTable {
  import opened Wrappers
  import Replay

  type RunId = string

  /** Step ids, one constructor for each way the code mints them. Hash-minted ids are
      represented by the data they hash, which is what makes them injective here.
      `Deterministic` ids are exactly the ones DETERMINISTIC_STEP_ID_RE recognises. */
  datatype StepId =
    | Deterministic(run: RunId, key: string)
    | HookStep(run: RunId, anchor: string)
    | AdminStep(run: RunId, event: string)
    | CheckpointStep(run: RunId, uuid: string)
    | Legacy(uuid: string)

  datatype Turn = Turn(role: string, text: string)

  datatype Status = Ok | Error | InProgress

  datatype Action =
    | Message(text: string)
    | ToolCall(tool: string)
    | ThinkingOnly
    | NoAction

  /** The columns both upsert arms overwrite. `context` stands for the hashed context snapshot. */
  datatype Body = Body(
    timestamp: nat,
    model: string,
    context: seq<Turn>,
    decision: string,
    action: Action,
    status: Status
  )

  datatype StepRow = StepRow(run: RunId, parent: Option<StepId>, seqNo: nat, body: Body)

  datatype ChangeRow = ChangeRow(run: RunId, step: StepId, seqNo: nat, change: Replay.Change)

  type Steps = map<StepId, StepRow>
  type Changes = map<string, ChangeRow>

  /** Annotations of steps: a user's note by its id, with the step it addresses. No foreign key. */
  type Notes = map<string, StepId>

  /** Sequence bands of a run. */
  const HOOK_BASE := 100_000
  const ADMIN_BASE := 200_000
  const CHECKPOINT_BASE := 300_000
  const REBUILD_OFFSET := 1_000_000

  ghost predicate At(steps: Steps, id: StepId, run: RunId, seqNo: int) {
    id in steps && steps[id].run == run && steps[id].seqNo == seqNo
  }

  /** UNIQUE(run_id, sequence). */
  ghost predicate UniqueSlots(steps: Steps) {
    forall a, b | a in steps && b in steps && a != b ::
      steps[a].run != steps[b].run || steps[a].seqNo != steps[b].seqNo
  }

  /** Every child references an existing step of its own run. */
  predicate Attached(steps: Steps, changes: Changes) {
    forall c | c in changes :: changes[c].step in steps && steps[changes[c].step].run == changes[c].run
  }

  ghost predicate SlotTaken(steps: Steps, run: RunId, seqNo: int) {
    exists id :: At(steps, id, run, seqNo)
  }

  ghost function Occupant(steps: Steps, run: RunId, seqNo: int): (id: StepId)
    requires SlotTaken(steps, run, seqNo)
    ensures At(steps, id, run, seqNo)
  {
    var id :| At(steps, id, run, seqNo);
    id
  }

  /** The upsert meets no uniqueness violation: a row found by id may only move to a slot
      nobody else holds. */
  ghost predicate Insertable(steps: Steps, id: StepId, row: StepRow) {
    id in steps ==> forall other | At(steps, other, row.run, row.seqNo) :: other == id
  }

  /** The table after the upsert: found by id, the row takes every new column; found only by
      its slot, the stored row keeps its id and its slot and takes the rest. */
  ghost function AfterInsert(steps: Steps, id: StepId, row: StepRow): Steps {
    if id in steps || !SlotTaken(steps, row.run, row.seqNo) then
      steps[id := row]
    else
      var stored := Occupant(steps, row.run, row.seqNo);
      steps[stored := steps[stored].(parent := row.parent, body := row.body)]
  }

  ghost predicate InRange(row: StepRow, run: RunId, from: int, below: Option<int>) {
    row.run == run && from <= row.seqNo && (below.Some? ==> row.seqNo < below.value)
  }

  ghost predicate BelowBase(row: StepRow, run: RunId, base: int) {
    row.run == run && row.seqNo < base
  }

  function Renamed(id: StepId, oldId: StepId, newId: StepId): StepId {
    if id == oldId then newId else id
  }

  function RenamedParent(parent: Option<StepId>, oldId: StepId, newId: StepId): Option<StepId> {
    if parent == Some(oldId) then Some(newId) else parent
  }

  datatype ChangeResult = Inserted | Invalid | Duplicate | MissingStep

  /** PRIMARY KEY(file_change_id) or UNIQUE(step_id, sequence) would be broken. */
  predicate DuplicateChange(changes: Changes, id: string, row: ChangeRow) {
    id in changes || exists c | c in changes :: changes[c].step == row.step && changes[c].seqNo == row.seqNo
  }

  class Store {
    var steps: Steps
    var changes: Changes
    var notes: Notes

    constructor ()
      ensures steps == map[] && changes == map[] && notes == map[]
    {
      steps, changes, notes := map[], map[], map[];
    }

    /** `insertStep`: one INSERT with an ON CONFLICT arm for each uniqueness key. */
    method InsertStep(id: StepId, row: StepRow) returns (ok: bool)
      requires UniqueSlots(steps)
      modifies this`steps
      ensures UniqueSlots(steps)
      ensures ok <==> Insertable(old(steps), id, row)
      ensures steps == if ok then AfterInsert(old(steps), id, row) else old(steps)
    {
      var holders := set other | other in steps && steps[other].run == row.run && steps[other].seqNo == row.seqNo;
      assert forall other :: other in holders <==> At(steps, other, row.run, row.seqNo);
      if id in steps {
        if holders - {id} == {} {
          assert forall other | other in steps && other != id :: !At(steps, other, row.run, row.seqNo) by {
            assert forall other | other in holders && other != id :: other in holders - {id};
          }
          steps := steps[id := row];
          return true;
        }
        ghost var other :| other in holders - {id};
        assert At(steps, other, row.run, row.seqNo);
        return false;
      }
      if holders == {} {
        assert forall other | other in steps :: !At(steps, other, row.run, row.seqNo);
        steps := steps[id := row];
        return true;
      }
      var stored :| stored in holders;
      assert stored == Occupant(steps, row.run, row.seqNo);
      steps := steps[stored := steps[stored].(parent := row.parent, body := row.body)];
      return true;
    }

    /** `insertFileChange`: a row that breaks the change invariants never reaches the table; a taken
        id or (step_id, sequence) slot is reported as a duplicate, a missing step as a foreign-key failure. */
    method InsertFileChange(id: string, row: ChangeRow) returns (result: ChangeResult)
      modifies this`changes
      ensures result.Invalid? <==> !Replay.Acceptable(row.change)
      ensures result.Duplicate? <==> Replay.Acceptable(row.change) && DuplicateChange(old(changes), id, row)
      ensures result.Inserted? ==> row.step in steps && changes == old(changes)[id := row]
      ensures !result.Inserted? ==> changes == old(changes)
      ensures result.MissingStep? <==>
                Replay.Acceptable(row.change) && !DuplicateChange(old(changes), id, row) && row.step !in steps
    {
      if !Replay.Acceptable(row.change) {
        return Invalid;
      }
      if DuplicateChange(changes, id, row) {
        return Duplicate;
      }
      if row.step !in steps {
        return MissingStep;
      }
      changes := changes[id := row];
      return Inserted;
    }

    /** `deleteStepsFromSequence`: children go with their step. */
    method DeleteStepsFromSequence(run: RunId, from: int, below: Option<int>)
      modifies this`steps, this`changes
      ensures steps == map id | id in old(steps) && !InRange(old(steps[id]), run, from, below) :: old(steps[id])
      ensures changes == map c |
                c in old(changes) && !(old(changes[c]).step in old(steps)
                                       && InRange(old(steps)[old(changes[c]).step], run, from, below)) ::
                                            old(changes[c])
      ensures UniqueSlots(old(steps)) ==> UniqueSlots(steps)
      ensures Attached(old(steps), old(changes)) ==> Attached(steps, changes)
    {
      var doomed := set id | id in steps && steps[id].run == run && from <= steps[id].seqNo
                             && (below.Some? ==> steps[id].seqNo < below.value);
      changes := map c | c in changes && changes[c].step !in doomed :: changes[c];
      steps := map id | id in steps && id !in doomed :: steps[id];
    }

    /** `offsetStepSequences` with its bound: every row of the run below `belowSeq` moves up by
        one offset that clears both `minOffset` and the highest sequence the run has anywhere. */
    method OffsetStepSequences(run: RunId, minOffset: nat, belowSeq: int) returns (offset: nat)
      modifies this`steps
      ensures offset >= minOffset
      ensures forall id | id in old(steps) && old(steps)[id].run == run :: old(steps)[id].seqNo < offset
      ensures steps == Offset(old(steps), run, offset, belowSeq)
      ensures UniqueSlots(old(steps)) ==> UniqueSlots(steps)
    {
      ghost var before := steps;
      var top := MaxSequence(steps, run);
      offset := if minOffset >= top + 1 then minOffset else top + 1;
      steps := map id | id in steps ::
        if steps[id].run == run && steps[id].seqNo < belowSeq
        then steps[id].(seqNo := steps[id].seqNo + offset) else steps[id];
      if UniqueSlots(before) {
        OffsetNeverCollides(before, run, offset, belowSeq, before.Keys);
      }
    }

    /** `migrateStepId`: four UPDATE statements under deferred foreign keys. Renaming the row
        first leaves its children dangling until the second statement repoints them; notes follow last. */
    method MigrateStepId(run: RunId, oldId: StepId, newId: StepId) returns (ok: bool)
      modifies this
      ensures ok <==> (Renames(old(steps), run, oldId, newId) ==> newId !in old(steps))
      ensures !ok ==> steps == old(steps) && changes == old(changes) && notes == old(notes)
      ensures ok ==> steps == Reparented(RenamedRow(old(steps), run, oldId, newId), run, oldId, newId)
      ensures ok ==> changes == Repointed(old(changes), run, oldId, newId)
      ensures ok ==> notes == Retargeted(old(notes), oldId, newId)
    {
      if Renames(steps, run, oldId, newId) && newId in steps {
        return false;
      }
      steps := RenamedRow(steps, run, oldId, newId);
      changes := Repointed(changes, run, oldId, newId);
      steps := Reparented(steps, run, oldId, newId);
      notes := Retargeted(notes, oldId, newId);
      return true;
    }
  }

  ghost function Offset(steps: Steps, run: RunId, offset: nat, belowSeq: int): Steps {
    map id | id in steps ::
      if BelowBase(steps[id], run, belowSeq) then steps[id].(seqNo := steps[id].seqNo + offset) else steps[id]
  }

  predicate Renames(steps: Steps, run: RunId, oldId: StepId, newId: StepId) {
    oldId in steps && steps[oldId].run == run && oldId != newId
  }

  function RenamedRow(steps: Steps, run: RunId, oldId: StepId, newId: StepId): Steps {
    if Renames(steps, run, oldId, newId)
    then (map id | id in steps && id != oldId :: steps[id])[newId := steps[oldId]]
    else steps
  }

  function Repointed(changes: Changes, run: RunId, oldId: StepId, newId: StepId): Changes {
    map c | c in changes ::
      if changes[c].run == run then changes[c].(step := Renamed(changes[c].step, oldId, newId)) else changes[c]
  }

  function Reparented(steps: Steps, run: RunId, oldId: StepId, newId: StepId): Steps {
    map id | id in steps ::
      if steps[id].run == run then steps[id].(parent := RenamedParent(steps[id].parent, oldId, newId)) else steps[id]
  }

  function Retargeted(notes: Notes, oldId: StepId, newId: StepId): Notes {
    map a | a in notes :: Renamed(notes[a], oldId, newId)
  }

  /** SELECT MAX(sequence) over one run, or -1 when the run has no rows. */
  method MaxSequence(steps: Steps, run: RunId) returns (top: int)
    ensures forall id | id in steps && steps[id].run == run :: steps[id].seqNo <= top
    ensures top == -1 || exists id | id in steps && steps[id].run == run :: steps[id].seqNo == top
  {
    top := -1;
    var rest := steps.Keys;
    var first := true;
    while rest != {}
      invariant rest <= steps.Keys
      invariant first ==> top == -1 && forall id | id in steps && steps[id].run == run :: id in rest
      invariant forall id | id in steps && steps[id].run == run :: id in rest || steps[id].seqNo <= top
      invariant first || exists id | id in steps && steps[id].run == run :: steps[id].seqNo == top
      decreases rest
    {
      var id :| id in rest;
      if steps[id].run == run && (first || steps[id].seqNo > top) {
        top, first := steps[id].seqNo, false;
      }
      rest := rest - {id};
    }
  }

  /** SQLite checks UNIQUE(run_id, sequence) row by row while the offset statement runs. With any
      subset of the rows moved so far, no two rows share a slot: the bulk move never trips over
      its own unmoved rows. */
  lemma OffsetNeverCollides(steps: Steps, run: RunId, offset: nat, belowSeq: int, moved: set<StepId>)
    requires UniqueSlots(steps)
    requires forall id | id in steps && steps[id].run == run :: steps[id].seqNo < offset
    ensures var midway := map id | id in steps ::
              if id in moved && BelowBase(steps[id], run, belowSeq) then steps[id].(seqNo := steps[id].seqNo + offset)
              else steps[id];
            UniqueSlots(midway)
  {
  }
}

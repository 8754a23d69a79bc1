/** What the Codex adapter builds, read off the rollout alone: which record each step and each file
    change comes from. */
module CodexTraces {
  import opened Wrappers
  import opened CodexUsage
  import Replay

  // ----- Steps -----

  /** The rows are the step records, one each and in order, named by their offset and chained. */
  ghost predicate RowsTell(records: seq<Parsed>, n: nat, run: RunId, rows: seq<Row>)
    requires n <= |records|
  {
    && (forall k | 0 <= k < |rows| :: RowTells(records, n, run, rows, k))
    && (forall j, k | 0 <= j < k < |rows| :: rows[j].at < rows[k].at)
    && (forall i | 0 <= i < n && IsStep(records[i].record) :: exists k :: 0 <= k < |rows| && rows[k].at == i)
  }

  predicate RowTells(records: seq<Parsed>, n: nat, run: RunId, rows: seq<Row>, k: nat)
    requires n <= |records| && k < |rows|
  {
    && rows[k].at < n && IsStep(records[rows[k].at].record) && rows[k].sequence == k
    && rows[k].id == StepId(run, records[rows[k].at].offset)
    && rows[k].parent == if k == 0 then None else Some(rows[k - 1].id)
  }

  lemma {:induction false} RowsAreTheSteps(records: seq<Parsed>, n: nat, run: RunId, cwd: string)
    requires n <= |records|
    ensures RowsTell(records, n, run, Walked(records, n, run, cwd).rows)
  {
    hide Turn, RowTells, LastId;
    if n > 0 {
      hide RowsTell;
      RowsAreTheSteps(records, n - 1, run, cwd);
      WalkedTurn(records, n, run, cwd);
      RowsGrow(records, n - 1, run, Walked(records, n - 1, run, cwd).rows);
    }
  }

  lemma RowsGrow(records: seq<Parsed>, n: nat, run: RunId, rows: seq<Row>)
    requires n < |records| && RowsTell(records, n, run, rows)
    ensures var r := records[n];
            RowsTell(records, n + 1, run,
                     if IsStep(r.record) then rows + [Row(n, StepId(run, r.offset), LastId(rows), |rows|)] else rows)
  {
    var r := records[n];
    if IsStep(r.record) {
      var row := Row(n, StepId(run, r.offset), LastId(rows), |rows|);
      var now := rows + [row];
      var m := n + 1;
      forall k: nat | k < |now| ensures RowTells(records, m, run, now, k) {
        if k < |rows| {
          RowKept(records, n, run, rows, [row], k);
        }
      }
      forall k | 0 <= k < |rows| ensures rows[k].at < n {
        assert RowTells(records, n, run, rows, k);
      }
      hide RowTells;
      forall i | 0 <= i < n + 1 && IsStep(records[i].record) ensures exists k :: 0 <= k < |now| && now[k].at == i {
        if i == n {
          assert now[|rows|].at == i;
        } else {
          var k :| 0 <= k < |rows| && rows[k].at == i;
          assert now[k].at == i;
        }
      }
    } else {
      var m := n + 1;
      forall k: nat | k < |rows| ensures RowTells(records, m, run, rows, k) {
        RowKept(records, n, run, rows, [], k);
        assert rows + [] == rows;
      }
    }
  }

  lemma RowKept(records: seq<Parsed>, n: nat, run: RunId, rows: seq<Row>, more: seq<Row>, k: nat)
    requires n < |records| && k < |rows| && RowTells(records, n, run, rows, k)
    ensures RowTells(records, n + 1, run, rows + more, k)
  {
  }

  /** Records at different offsets make steps with different ids. */
  lemma StepIdsAreDistinct(records: seq<Parsed>, run: RunId, cwd: string, j: nat, k: nat)
    requires Ascending(records) && j < k < |Walked(records, |records|, run, cwd).rows|
    ensures var rows := Walked(records, |records|, run, cwd).rows; rows[j].id != rows[k].id
  {
    RowsAreTheSteps(records, |records|, run, cwd);
    var rows := Walked(records, |records|, run, cwd).rows;
    hide Walked;
    assert RowTells(records, |records|, run, rows, j) && RowTells(records, |records|, run, rows, k);
  }

  // ----- The step a patch belongs to -----

  predicate LastStep(records: seq<Parsed>, m: nat, j: nat)
    requires m <= |records|
  {
    j < m && IsStep(records[j].record) && forall i | j < i < m :: !IsStep(records[i].record)
  }

  predicate LastCall(records: seq<Parsed>, m: nat, callId: string, j: nat)
    requires m <= |records|
  {
    && j < m && records[j].record == ToolCall(callId)
    && forall i | j < i < m :: records[i].record != ToolCall(callId)
  }

  /** Record j made the step that patch m changed files for: the last call of its id before it, or,
      when no call before it has that id, the last step before it. */
  predicate Patched(records: seq<Parsed>, m: nat, j: nat)
    requires m < |records| && records[m].record.PatchApplyEnd?
  {
    var callId := records[m].record.patchCallId;
    || (callId != "" && LastCall(records, m, callId, j))
    || ((callId == "" || forall i | 0 <= i < m :: records[i].record != ToolCall(callId)) && LastStep(records, m, j))
  }

  /** The step before the loop's place is the last step record's. */
  ghost predicate LastPoints(records: seq<Parsed>, n: nat, run: RunId, last: Option<StepId>)
    requires n <= |records|
  {
    if last.None? then forall i | 0 <= i < n :: !IsStep(records[i].record)
    else exists j: nat :: LastStep(records, n, j) && last.value == StepId(run, records[j].offset)
  }

  /** The map of calls holds a call exactly when it was made, under its last step. */
  ghost predicate CallPoints(records: seq<Parsed>, n: nat, run: RunId, byCall: map<string, StepId>, c: string)
    requires n <= |records|
  {
    if c !in byCall then c == "" || forall i | 0 <= i < n :: records[i].record != ToolCall(c)
    else c != "" && exists j: nat :: LastCall(records, n, c, j) && byCall[c] == StepId(run, records[j].offset)
  }

  lemma {:induction false} LastIdPoints(records: seq<Parsed>, n: nat, run: RunId, cwd: string)
    requires n <= |records|
    ensures LastPoints(records, n, run, LastId(Walked(records, n, run, cwd).rows))
  {
    if n > 0 {
      LastIdPoints(records, n - 1, run, cwd);
      WalkedTurn(records, n, run, cwd);
      var last, r := LastId(Walked(records, n - 1, run, cwd).rows), records[n - 1];
      hide Walked;
      if IsStep(r.record) {
        assert LastStep(records, n, n - 1);
      } else if last.Some? {
        var j: nat :| LastStep(records, n - 1, j) && last.value == StepId(run, records[j].offset);
        assert LastStep(records, n, j);
      }
    }
  }

  lemma {:induction false} ByCallPoints(records: seq<Parsed>, n: nat, run: RunId, cwd: string, c: string)
    requires n <= |records|
    ensures CallPoints(records, n, run, Walked(records, n, run, cwd).byCall, c)
  {
    if n > 0 {
      ByCallPoints(records, n - 1, run, cwd, c);
      ByCallTurn(records, n - 1, run, Walked(records, n - 1, run, cwd), cwd, c);
    }
  }

  lemma ByCallTurn(records: seq<Parsed>, n: nat, run: RunId, w: Walk, cwd: string, c: string)
    requires n < |records| && CallPoints(records, n, run, w.byCall, c)
    ensures CallPoints(records, n + 1, run, Turn(w, records[n], n, run, cwd).byCall, c)
  {
    if records[n].record == ToolCall(c) {
      assert LastCall(records, n + 1, c, n);
    } else if c in w.byCall {
      var j: nat :| LastCall(records, n, c, j) && w.byCall[c] == StepId(run, records[j].offset);
      assert LastCall(records, n + 1, c, j);
    }
  }

  /** The patch's target is the step the records say, and there is none exactly when they name none. */
  lemma TargetIs(records: seq<Parsed>, m: nat, run: RunId, w: Walk) returns (step: nat)
    requires m < |records| && records[m].record.PatchApplyEnd?
    requires LastPoints(records, m, run, LastId(w.rows))
    requires CallPoints(records, m, run, w.byCall, records[m].record.patchCallId)
    ensures var target := Target(w, records[m].record.patchCallId);
            && (target.Some? <==> exists j: nat :: Patched(records, m, j))
            && (target.Some? ==>
                  step < m && Patched(records, m, step) && target.value == StepId(run, records[step].offset))
  {
    var callId := records[m].record.patchCallId;
    step := 0;
    if callId != "" && callId in w.byCall {
      step :| LastCall(records, m, callId, step) && w.byCall[callId] == StepId(run, records[step].offset);
      assert Patched(records, m, step);
    } else if LastId(w.rows).Some? {
      step :| LastStep(records, m, step) && LastId(w.rows).value == StepId(run, records[step].offset);
      assert Patched(records, m, step);
    }
  }

  // ----- Changes -----

  /** The file a change row tells of: an added file in full under its path; any other as a partial row,
      a moved one under its new path with the old one beside it. */
  predicate Describes(row: Change, c: PatchChange, cwd: string) {
    var full := c.kind.Add? && c.hasContent;
    && row.partial == !full
    && row.op == (match c.kind
                  case Add => Replay.Create
                  case Delete => Replay.Delete
                  case Update => if c.movePath == "" then Replay.Modify else Replay.Rename)
    && (full || c.movePath == "" ==> row.path == RepoRelative(c.path, cwd) && row.oldPath == None)
    && (!full && c.movePath != "" ==>
          row.path == RepoRelative(c.movePath, cwd) && row.oldPath == Some(RepoRelative(c.path, cwd)))
  }

  /** File `file` of patch record `patch`, changed by the step of record `step`. */
  datatype Origin = Origin(patch: nat, file: nat, step: nat)

  predicate Earlier(a: Origin, b: Origin) {
    a.patch < b.patch || (a.patch == b.patch && a.file < b.file)
  }

  predicate IsOrigin(records: seq<Parsed>, n: nat, o: Origin)
    requires n <= |records|
  {
    && o.patch < n && records[o.patch].record.PatchApplyEnd? && records[o.patch].record.changes.Some?
    && o.file < |records[o.patch].record.changes.value| && Patched(records, o.patch, o.step)
  }

  predicate ComesFrom(records: seq<Parsed>, n: nat, run: RunId, cwd: string, row: Change, o: Origin)
    requires n <= |records|
  {
    && IsOrigin(records, n, o) && row.step == StepId(run, records[o.step].offset)
    && Describes(row, records[o.patch].record.changes.value[o.file], cwd)
  }

  /** The change rows are the patched files, each of every patch that has a step, one row each, in the
      order of the patches and of the files in them. */
  ghost predicate Traces(records: seq<Parsed>, n: nat, run: RunId, cwd: string, changes: seq<Change>, from: seq<Origin>)
    requires n <= |records|
  {
    && |from| == |changes|
    && (forall k | 0 <= k < |changes| :: ComesFrom(records, n, run, cwd, changes[k], from[k]))
    && (forall j, k | 0 <= j < k < |from| :: Earlier(from[j], from[k]))
    && (forall o | IsOrigin(records, n, o) ::
          exists k :: 0 <= k < |from| && from[k].patch == o.patch && from[k].file == o.file)
  }

  /** The rows one patch adds: one for each of its files, of the target step. */
  lemma {:induction false} PatchRows(w: Walk, step: StepId, changed: seq<PatchChange>, cwd: string)
    returns (rows: seq<Change>)
    ensures WithChanges(w, step, changed, cwd).changes == w.changes + rows && |rows| == |changed|
    ensures forall f | 0 <= f < |rows| :: rows[f].step == step && Describes(rows[f], changed[f], cwd)
  {
    if changed == [] {
      rows := [];
    } else {
      var n := |changed| - 1;
      var earlier := PatchRows(w, step, changed[..n], cwd);
      var before := WithChanges(w, step, changed[..n], cwd);
      var row := RowFor(step, before.Next(step), changed[n], cwd);
      assert WithChanges(w, step, changed, cwd).changes == before.changes + [row];
      hide WithChanges, RowFor, Describes;
      RowDescribes(step, before.Next(step), changed[n], cwd);
      rows := earlier + [row];
      Assoc(w.changes, earlier, [row]);
    }
  }

  lemma RowDescribes(step: StepId, number: nat, c: PatchChange, cwd: string)
    ensures RowFor(step, number, c, cwd).step == step && Describes(RowFor(step, number, c, cwd), c, cwd)
  {
    hide RepoRelative;
  }

  lemma TurnChanges(w: Walk, r: Parsed, at: nat, run: RunId, cwd: string)
    ensures Turn(w, r, at, run, cwd).changes ==
            if r.record.PatchApplyEnd? && r.record.changes.Some? && Target(w, r.record.patchCallId).Some?
            then WithChanges(w, Target(w, r.record.patchCallId).value, r.record.changes.value, cwd).changes
            else w.changes
  {
    hide WithChanges, Target;
  }

  lemma NoNewOrigin(records: seq<Parsed>, n: nat, run: RunId, cwd: string, changes: seq<Change>, from: seq<Origin>)
    requires n < |records| && Traces(records, n, run, cwd, changes, from)
    requires forall o | IsOrigin(records, n + 1, o) :: o.patch < n
    ensures Traces(records, n + 1, run, cwd, changes, from)
  {
    hide Patched, Describes;
  }

  lemma PatchIsTraced(records: seq<Parsed>, n: nat, run: RunId, cwd: string, changes: seq<Change>, from: seq<Origin>,
                      rows: seq<Change>, step: nat) returns (all: seq<Origin>)
    requires n < |records| && Traces(records, n, run, cwd, changes, from)
    requires records[n].record.PatchApplyEnd? && records[n].record.changes.Some? && Patched(records, n, step)
    requires |rows| == |records[n].record.changes.value|
    requires forall f | 0 <= f < |rows| :: rows[f].step == StepId(run, records[step].offset)
                                           && Describes(rows[f], records[n].record.changes.value[f], cwd)
    ensures Traces(records, n + 1, run, cwd, changes + rows, all)
  {
    hide Patched, Describes;
    all := from + seq(|rows|, f requires 0 <= f < |rows| => Origin(n, f, step));
    forall k | 0 <= k < |all| ensures ComesFrom(records, n + 1, run, cwd, (changes + rows)[k], all[k]) {
      if k < |from| {
        assert ComesFrom(records, n, run, cwd, changes[k], from[k]);
      }
    }
    forall o | IsOrigin(records, n + 1, o)
      ensures exists k :: 0 <= k < |all| && all[k].patch == o.patch && all[k].file == o.file
    {
      if o.patch < n {
        assert IsOrigin(records, n, o);
        var k :| 0 <= k < |from| && from[k].patch == o.patch && from[k].file == o.file;
        assert all[k] == from[k];
      } else {
        assert all[|from| + o.file] == Origin(n, o.file, step);
      }
    }
  }

  lemma TraceTurn(records: seq<Parsed>, n: nat, run: RunId, cwd: string, w: Walk, earlier: seq<Origin>)
    returns (from: seq<Origin>)
    requires n < |records| && Traces(records, n, run, cwd, w.changes, earlier)
             && LastPoints(records, n, run, LastId(w.rows))
    requires var r := records[n].record; r.PatchApplyEnd? ==> CallPoints(records, n, run, w.byCall, r.patchCallId)
    ensures Traces(records, n + 1, run, cwd, Turn(w, records[n], n, run, cwd).changes, from)
  {
    hide Traces, Turn, Target, WithChanges, LastPoints, CallPoints, Describes, Patched, LastId;
    var r := records[n].record;
    TurnChanges(w, records[n], n, run, cwd);
    if r.PatchApplyEnd? {
      var step := TargetIs(records, n, run, w);
      if r.changes.Some? && Target(w, r.patchCallId).Some? {
        var rows := PatchRows(w, StepId(run, records[step].offset), r.changes.value, cwd);
        from := PatchIsTraced(records, n, run, cwd, w.changes, earlier, rows, step);
      } else {
        NoNewOrigin(records, n, run, cwd, w.changes, earlier);
        from := earlier;
      }
    } else {
      NoNewOrigin(records, n, run, cwd, w.changes, earlier);
      from := earlier;
    }
  }

  /** Every change of a rollout is traced to the file of a patch and the step its call made. */
  lemma {:induction false} ChangesAreTraced(records: seq<Parsed>, n: nat, run: RunId, cwd: string)
    returns (from: seq<Origin>)
    requires n <= |records|
    ensures Traces(records, n, run, cwd, Walked(records, n, run, cwd).changes, from)
  {
    hide Turn;
    if n == 0 {
      from := [];
    } else {
      var earlier := ChangesAreTraced(records, n - 1, run, cwd);
      var w, r := Walked(records, n - 1, run, cwd), records[n - 1].record;
      LastIdPoints(records, n - 1, run, cwd);
      if r.PatchApplyEnd? {
        ByCallPoints(records, n - 1, run, cwd, r.patchCallId);
      }
      hide Traces, LastPoints, CallPoints;
      from := TraceTurn(records, n - 1, run, cwd, w, earlier);
    }
  }
}

/** The stored change rows: who derived a row, when a step already carries a change, the next free
    sequence of a step, and the order in which the rows of one run are read back and replayed. */
module ChangeLog {
  import opened Wrappers
  import opened Replay

  datatype Origin = ToolCall | Watch | GitDiff

  /** A step, named by its run and its sequence there. */
  datatype Step = Step(run: string, seqNo: nat)

  datatype LogRow = LogRow(step: Step, seqNo: nat, origin: Origin, change: Change)

  const WATCH_BASE: nat := 1000

  /** What the duplicate test compares: the path, the operation and both refs. */
  datatype Transition = Transition(path: Path, op: FileOp, before: Option<BlobRef>, after: Option<BlobRef>)

  function TransitionOf(c: Change): Transition {
    Transition(c.path, c.op, c.before, c.after)
  }

  /** The step already carries this path exactly from a tool call, or this very watch row. */
  predicate Covers(row: LogRow, step: Step, t: Transition) {
    && row.step == step && row.change.path == t.path
    && (|| (row.origin == ToolCall && !row.change.partial)
        || (row.origin == Watch && TransitionOf(row.change) == t))
  }

  predicate Covered(rows: seq<LogRow>, step: Step, t: Transition) {
    exists i :: 0 <= i < |rows| && Covers(rows[i], step, t)
  }

  lemma CoveredConcat(rows: seq<LogRow>, added: seq<LogRow>, step: Step, t: Transition)
    ensures Covered(rows + added, step, t) <==> Covered(rows, step, t) || Covered(added, step, t)
  {
    var all := rows + added;
    if Covered(rows, step, t) {
      var i :| 0 <= i < |rows| && Covers(rows[i], step, t);
      assert Covers(all[i], step, t);
    }
    if Covered(added, step, t) {
      var i :| 0 <= i < |added| && Covers(added[i], step, t);
      assert Covers(all[|rows| + i], step, t);
    }
  }

  // ----- Slots -----

  /** One past the highest sequence the step has in use, and never below the watch partition. */
  function NextSeq(rows: seq<LogRow>, step: Step): (next: nat)
    ensures next >= WATCH_BASE && forall i | 0 <= i < |rows| && rows[i].step == step :: rows[i].seqNo < next
    ensures next == WATCH_BASE || exists i :: 0 <= i < |rows| && rows[i].step == step && rows[i].seqNo == next - 1
  {
    if rows == [] then WATCH_BASE
    else
      var rest := NextSeq(rows[..|rows| - 1], step);
      var last := rows[|rows| - 1];
      if last.step == step && last.seqNo + 1 > rest then last.seqNo + 1 else rest
  }

  /** Rows numbered on from the next free sequence move it up by their number. */
  lemma {:induction false} NextSeqAfter(rows: seq<LogRow>, added: seq<LogRow>, step: Step)
    requires forall i | 0 <= i < |added| :: added[i].step == step && added[i].seqNo == NextSeq(rows, step) + i
    ensures NextSeq(rows + added, step) == NextSeq(rows, step) + |added|
    decreases |added|
  {
    if added == [] {
      assert rows + added == rows;
    } else {
      var n := |added| - 1;
      assert (rows + added)[..|rows + added| - 1] == rows + added[..n];
      NextSeqAfter(rows, added[..n], step);
    }
  }

  /** UNIQUE(step_id, sequence) over the recorded rows. */
  ghost predicate UniqueSlots(rows: seq<LogRow>) {
    forall i, j | 0 <= i < j < |rows| :: rows[i].step != rows[j].step || rows[i].seqNo != rows[j].seqNo
  }

  predicate InPartition(row: LogRow) {
    row.origin == Watch <==> row.seqNo >= WATCH_BASE
  }

  /** No slot is taken twice, and the watch rows are the ones at or above the watch base. */
  ghost predicate Numbered(rows: seq<LogRow>) {
    UniqueSlots(rows) && forall i | 0 <= i < |rows| :: InPartition(rows[i])
  }

  /** The slot a writer stores its row in: a watch writer the next one of the step, any other writer
      a free one below the watch base. */
  ghost predicate Fits(rows: seq<LogRow>, row: LogRow) {
    && InPartition(row)
    && (row.origin == Watch ==> row.seqNo == NextSeq(rows, row.step))
    && forall i | 0 <= i < |rows| :: rows[i].step != row.step || rows[i].seqNo != row.seqNo
  }

  lemma StaysNumbered(rows: seq<LogRow>, row: LogRow)
    requires Numbered(rows) && Fits(rows, row)
    ensures Numbered(rows + [row])
  {
  }

  // ----- Replay order -----

  predicate Before(a: LogRow, b: LogRow) {
    a.step.seqNo < b.step.seqNo || (a.step.seqNo == b.step.seqNo && a.seqNo < b.seqNo)
  }

  function Insert(sorted: seq<LogRow>, row: LogRow): seq<LogRow> {
    if sorted == [] || !Before(row, sorted[|sorted| - 1]) then sorted + [row]
    else Insert(sorted[..|sorted| - 1], row) + [sorted[|sorted| - 1]]
  }

  /** The rows of one run for the steps from `from` on and before `to`. */
  predicate InView(row: LogRow, run: string, from: nat, to: Option<nat>) {
    row.step.run == run && row.step.seqNo >= from && (to.Some? ==> row.step.seqNo < to.value)
  }

  /** `listFileChanges`: the viewed rows, by the sequence of their step and then their own. */
  function Listed(rows: seq<LogRow>, run: string, from: nat, to: Option<nat>): seq<LogRow> {
    if rows == [] then []
    else
      var earlier, last := Listed(rows[..|rows| - 1], run, from, to), rows[|rows| - 1];
      if InView(last, run, from, to) then Insert(earlier, last) else earlier
  }

  function ChangesOf(rows: seq<LogRow>): (changes: seq<Change>)
    ensures |changes| == |rows| && forall i | 0 <= i < |rows| :: changes[i] == rows[i].change
  {
    seq(|rows|, i requires 0 <= i < |rows| => rows[i].change)
  }

  ghost predicate Ordered(rows: seq<LogRow>) {
    forall i, j | 0 <= i < j < |rows| :: !Before(rows[j], rows[i])
  }

  lemma {:induction false} InsertKeepsRows(sorted: seq<LogRow>, row: LogRow)
    ensures multiset(Insert(sorted, row)) == multiset(sorted) + multiset{row}
  {
    hide Before;
    if sorted != [] {
      var rest, last := sorted[..|sorted| - 1], sorted[|sorted| - 1];
      assert sorted == rest + [last];
      InsertKeepsRows(rest, row);
    }
  }

  lemma OrderedAppend(sorted: seq<LogRow>, row: LogRow)
    requires Ordered(sorted) && forall x | x in sorted :: !Before(row, x)
    ensures Ordered(sorted + [row])
  {
    hide Before;
  }

  lemma {:induction false} InsertOrders(sorted: seq<LogRow>, row: LogRow)
    requires Ordered(sorted)
    ensures Ordered(Insert(sorted, row))
  {
    if sorted == [] || !Before(row, sorted[|sorted| - 1]) {
      OrderedAppend(sorted, row);
    } else {
      var rest, last := sorted[..|sorted| - 1], sorted[|sorted| - 1];
      InsertOrders(rest, row);
      InsertKeepsRows(rest, row);
      forall x | x in Insert(rest, row) ensures !Before(last, x) {
        assert x in multiset(Insert(rest, row));
      }
      OrderedAppend(Insert(rest, row), last);
    }
  }

  /** The rows of a view in table order. */
  function Viewed(rows: seq<LogRow>, run: string, from: nat, to: Option<nat>): seq<LogRow> {
    if rows == [] then []
    else
      var earlier, last := Viewed(rows[..|rows| - 1], run, from, to), rows[|rows| - 1];
      if InView(last, run, from, to) then earlier + [last] else earlier
  }

  /** The listing holds just the viewed rows, each as often as the table, in replay order. */
  lemma {:induction false} ListedIsOrdered(rows: seq<LogRow>, run: string, from: nat, to: Option<nat>)
    ensures Ordered(Listed(rows, run, from, to))
    ensures multiset(Listed(rows, run, from, to)) == multiset(Viewed(rows, run, from, to))
  {
    if rows != [] {
      ListedIsOrdered(rows[..|rows| - 1], run, from, to);
      if InView(rows[|rows| - 1], run, from, to) {
        InsertOrders(Listed(rows[..|rows| - 1], run, from, to), rows[|rows| - 1]);
        InsertKeepsRows(Listed(rows[..|rows| - 1], run, from, to), rows[|rows| - 1]);
      }
    }
  }

  lemma {:induction false} ListedMembers(rows: seq<LogRow>, run: string, from: nat, to: Option<nat>, row: LogRow)
    ensures row in Listed(rows, run, from, to) <==> row in rows && InView(row, run, from, to)
  {
    if rows != [] {
      var rest, last := rows[..|rows| - 1], rows[|rows| - 1];
      assert rows == rest + [last];
      ListedMembers(rest, run, from, to, row);
      if InView(last, run, from, to) {
        InsertKeepsRows(Listed(rest, run, from, to), last);
        assert row in Listed(rows, run, from, to) <==> row in multiset(Listed(rows, run, from, to));
      }
    }
  }

  ghost predicate Comparable(rows: seq<LogRow>) {
    forall a, b | a in rows && b in rows && a != b :: Before(a, b) || Before(b, a)
  }

  /** With no slot taken twice the order leaves no choice: any ordered arrangement of the viewed rows
      is the listing. */
  lemma ListedIsUnique(rows: seq<LogRow>, run: string, from: nat, to: Option<nat>, other: seq<LogRow>)
    requires UniqueSlots(rows)
    requires Ordered(other) && multiset(other) == multiset(Viewed(rows, run, from, to))
    ensures other == Listed(rows, run, from, to)
  {
    var listed := Listed(rows, run, from, to);
    ListedIsOrdered(rows, run, from, to);
    forall a, b | a in listed && b in listed && a != b ensures Before(a, b) || Before(b, a) {
      ListedMembers(rows, run, from, to, a);
      ListedMembers(rows, run, from, to, b);
    }
    SameOrder(listed, other);
  }

  lemma {:induction false} SameOrder(sorted: seq<LogRow>, other: seq<LogRow>)
    requires Ordered(sorted) && Ordered(other) && Comparable(sorted) && multiset(sorted) == multiset(other)
    ensures sorted == other
  {
    hide *;
    assert |other| == |multiset(other)| == |multiset(sorted)| == |sorted|;
    if sorted != [] {
      var m := |sorted| - 1;
      SameLast(sorted, other);
      AllButLast(sorted);
      AllButLast(other);
      SameOrder(sorted[..m], other[..m]);
      assert sorted == sorted[..m] + [sorted[m]] && other == other[..m] + [other[m]];
    }
  }

  lemma AllButLast(rows: seq<LogRow>)
    requires rows != []
    ensures multiset(rows[..|rows| - 1]) == multiset(rows) - multiset{rows[|rows| - 1]}
    ensures Ordered(rows) ==> Ordered(rows[..|rows| - 1])
    ensures Comparable(rows) ==> Comparable(rows[..|rows| - 1])
  {
    hide Before;
    assert rows == rows[..|rows| - 1] + [rows[|rows| - 1]];
  }

  lemma SameLast(sorted: seq<LogRow>, other: seq<LogRow>)
    requires Ordered(sorted) && Ordered(other) && Comparable(sorted) && multiset(sorted) == multiset(other)
    requires |sorted| == |other| > 0
    ensures sorted[|sorted| - 1] == other[|sorted| - 1]
  {
    hide Before;
    var m := |sorted| - 1;
    assert sorted[m] in multiset(other) && other[m] in multiset(sorted);
    var i :| 0 <= i <= m && other[i] == sorted[m];
    var j :| 0 <= j <= m && sorted[j] == other[m];
    assert i == m || !Before(other[m], other[i]);
    assert j == m || !Before(sorted[m], sorted[j]);
  }

  /** Within a step every watch row replays after every other row, so a tool call's row that arrives
      late still goes before them. */
  lemma WatchRowsReplayLast(rows: seq<LogRow>, run: string, from: nat, to: Option<nat>, i: nat, j: nat)
    requires forall k | 0 <= k < |rows| :: InPartition(rows[k])
    requires i < |Listed(rows, run, from, to)| && j < |Listed(rows, run, from, to)|
    requires var listed := Listed(rows, run, from, to);
             listed[i].step == listed[j].step && listed[i].origin != Watch && listed[j].origin == Watch
    ensures i < j
  {
    var listed := Listed(rows, run, from, to);
    ListedIsOrdered(rows, run, from, to);
    ListedMembers(rows, run, from, to, listed[i]);
    ListedMembers(rows, run, from, to, listed[j]);
    assert Before(listed[i], listed[j]);
  }

  /** `workingTreeAt`: the baseline with every listed row of an earlier step applied. */
  method WorkingTreeAt(baseline: Tree, rows: seq<LogRow>, run: string, to: Option<nat>) returns (tree: Tree)
    ensures tree == Replayed(baseline, ChangesOf(Listed(rows, run, 0, to)))
  {
    var listed := Listed(rows, run, 0, to);
    var work := new WorkingTree(baseline);
    for i := 0 to |listed|
      invariant work.files == Replayed(baseline, ChangesOf(listed[..i]))
    {
      assert ChangesOf(listed[..i + 1])[..i] == ChangesOf(listed[..i]);
      work.Apply(listed[i].change);
    }
    assert listed[..|listed|] == listed;
    tree := work.files;
  }

  lemma {:induction false} InsertLeft(x: seq<LogRow>, y: seq<LogRow>, row: LogRow)
    requires forall i | 0 <= i < |y| :: Before(row, y[i])
    ensures Insert(x + y, row) == Insert(x, row) + y
    decreases |y|
  {
    if y == [] {
      assert x + y == x;
    } else {
      assert (x + y)[..|x + y| - 1] == x + y[..|y| - 1];
      InsertLeft(x, y[..|y| - 1], row);
    }
  }

  lemma {:induction false} InsertRight(x: seq<LogRow>, y: seq<LogRow>, row: LogRow)
    requires forall i | 0 <= i < |x| :: !Before(row, x[i])
    ensures Insert(x + y, row) == x + Insert(y, row)
    decreases |y|
  {
    if y == [] {
      assert x + y == x;
    } else {
      assert (x + y)[..|x + y| - 1] == x + y[..|y| - 1];
      InsertRight(x, y[..|y| - 1], row);
    }
  }

  lemma {:induction false} ListedSplits(rows: seq<LogRow>, run: string, from: nat, to: Option<nat>)
    requires to.Some? ==> from <= to.value
    ensures Listed(rows, run, 0, to) == Listed(rows, run, 0, Some(from)) + Listed(rows, run, from, to)
  {
    if rows != [] {
      var rest, last := rows[..|rows| - 1], rows[|rows| - 1];
      ListedSplits(rest, run, from, to);
      var early, late := Listed(rest, run, 0, Some(from)), Listed(rest, run, from, to);
      forall i | 0 <= i < |early| ensures InView(early[i], run, 0, Some(from)) {
        ListedMembers(rest, run, 0, Some(from), early[i]);
      }
      forall i | 0 <= i < |late| ensures InView(late[i], run, from, to) {
        ListedMembers(rest, run, from, to, late[i]);
      }
      if InView(last, run, 0, to) {
        if last.step.seqNo < from {
          InsertLeft(early, late, last);
        } else {
          InsertRight(early, late, last);
        }
      }
    }
  }

  /** Scrubbing forward: the tree before a later step is the tree before step `from` with just the
      rows from `from` on applied on top. */
  lemma ScrubForward(baseline: Tree, rows: seq<LogRow>, run: string, from: nat, to: Option<nat>)
    requires to.Some? ==> from <= to.value
    ensures Replayed(baseline, ChangesOf(Listed(rows, run, 0, to))) ==
            Replayed(Replayed(baseline, ChangesOf(Listed(rows, run, 0, Some(from)))),
                     ChangesOf(Listed(rows, run, from, to)))
  {
    var early, late := Listed(rows, run, 0, Some(from)), Listed(rows, run, from, to);
    ListedSplits(rows, run, from, to);
    assert ChangesOf(early + late) == ChangesOf(early) + ChangesOf(late);
    ReplayedConcat(baseline, ChangesOf(early), ChangesOf(late));
  }

  // ----- The content replay shows at one path -----

  /** What a run's rows, replayed in order, show at a path. */
  function ContentAt(tree: Tree, rows: seq<LogRow>, run: string, path: Path): Option<BlobRef> {
    BlobAt(Replayed(tree, ChangesOf(Listed(rows, run, 0, None))), path)
  }

  predicate Sets(row: LogRow, path: Path) {
    ContentSet(row.change, path).Some?
  }

  /** The row sets a path at a later step of the run, or in the same step above the given height. */
  predicate Beyond(row: LogRow, step: Step, height: Option<nat>, path: Path) {
    && row.step.run == step.run && Sets(row, path)
    && (row.step.seqNo > step.seqNo || (row.step == step && height.Some? && row.seqNo > height.value))
  }

  predicate SetBeyond(rows: seq<LogRow>, step: Step, height: Option<nat>, path: Path) {
    exists i :: 0 <= i < |rows| && Beyond(rows[i], step, height, path)
  }

  lemma SetBeyondConcat(rows: seq<LogRow>, added: seq<LogRow>, step: Step, height: Option<nat>, path: Path)
    ensures SetBeyond(rows + added, step, height, path) <==>
            SetBeyond(rows, step, height, path) || SetBeyond(added, step, height, path)
  {
    var all := rows + added;
    if SetBeyond(rows, step, height, path) {
      var i :| 0 <= i < |rows| && Beyond(rows[i], step, height, path);
      assert Beyond(all[i], step, height, path);
    }
    if SetBeyond(added, step, height, path) {
      var i :| 0 <= i < |added| && Beyond(added[i], step, height, path);
      assert Beyond(all[|rows| + i], step, height, path);
    }
  }

  /** The row moves a path's content in any table order: no row above it sets the path. */
  predicate Prevails(rows: seq<LogRow>, row: LogRow, run: string, path: Path) {
    row.step.run == run && Sets(row, path) && !SetBeyond(rows, row.step, Some(row.seqNo), path)
  }

  lemma {:induction false} InsertedContent(tree: Tree, sorted: seq<LogRow>, row: LogRow, path: Path)
    requires Ordered(sorted) && forall i | 0 <= i < |sorted| :: sorted[i].step.run == row.step.run
    ensures BlobAt(Replayed(tree, ChangesOf(Insert(sorted, row))), path) ==
            if Prevails(sorted, row, row.step.run, path) then ContentSet(row.change, path).value
            else BlobAt(Replayed(tree, ChangesOf(sorted)), path)
  {
    hide Replayed, ContentSet;
    if sorted == [] || !Before(row, sorted[|sorted| - 1]) {
      OneMoreContent(tree, sorted, row, path);
      assert !SetBeyond(sorted, row.step, Some(row.seqNo), path);
    } else {
      var rest, last := sorted[..|sorted| - 1], sorted[|sorted| - 1];
      assert sorted == rest + [last];
      InsertedContent(tree, rest, row, path);
      OneMoreContent(tree, rest, last, path);
      OneMoreContent(tree, Insert(rest, row), last, path);
      SetBeyondConcat(rest, [last], row.step, Some(row.seqNo), path);
      assert SetBeyond([last], row.step, Some(row.seqNo), path) <==> Beyond([last][0], row.step, Some(row.seqNo), path);
    }
  }

  lemma OneMoreContent(tree: Tree, rows: seq<LogRow>, row: LogRow, path: Path)
    ensures BlobAt(Replayed(tree, ChangesOf(rows + [row])), path) ==
            ContentSet(row.change, path).GetOr(BlobAt(Replayed(tree, ChangesOf(rows)), path))
  {
    var changes := ChangesOf(rows + [row]);
    assert changes[..|rows|] == ChangesOf(rows);
    AppliedContent(Replayed(tree, ChangesOf(rows)), row.change, path);
  }

  /** Storing one more row moves the content a run shows at a path exactly when the row is of the
      run, sets the path, and no stored row of the run above it sets the path: whatever the table
      held, and whenever the row arrives. */
  lemma ContentAfterRow(tree: Tree, rows: seq<LogRow>, row: LogRow, run: string, path: Path)
    ensures ContentAt(tree, rows + [row], run, path) ==
            if Prevails(rows, row, run, path) then ContentSet(row.change, path).value
            else ContentAt(tree, rows, run, path)
  {
    var listed := Listed(rows, run, 0, None);
    assert (rows + [row])[..|rows|] == rows;
    ListedIsOrdered(rows, run, 0, None);
    if row.step.run == run {
      forall i | 0 <= i < |listed| ensures listed[i] in rows && listed[i].step.run == run {
        ListedMembers(rows, run, 0, None, listed[i]);
      }
      InsertedContent(tree, listed, row, path);
      ListedSetBeyond(rows, row.step, Some(row.seqNo), path);
    }
  }

  lemma ListedSetBeyond(rows: seq<LogRow>, step: Step, height: Option<nat>, path: Path)
    ensures SetBeyond(Listed(rows, step.run, 0, None), step, height, path) <==> SetBeyond(rows, step, height, path)
  {
    var listed := Listed(rows, step.run, 0, None);
    if SetBeyond(listed, step, height, path) {
      var i :| 0 <= i < |listed| && Beyond(listed[i], step, height, path);
      ListedMembers(rows, step.run, 0, None, listed[i]);
      var j :| 0 <= j < |rows| && rows[j] == listed[i];
      assert Beyond(rows[j], step, height, path);
    }
    if SetBeyond(rows, step, height, path) {
      var i :| 0 <= i < |rows| && Beyond(rows[i], step, height, path);
      ListedMembers(rows, step.run, 0, None, rows[i]);
      var j :| 0 <= j < |listed| && listed[j] == rows[i];
      assert Beyond(listed[j], step, height, path);
    }
  }
}

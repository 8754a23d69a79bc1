/** The file sentinel: a content snapshot of the watched root that advances with every processed
    event, and the rows it records for the step each change is attributed to. */
module FileSentinel {
  import opened Wrappers
  import opened ChangeLog
  import opened Replay

  /** What `lstat` and the read find at a path; a regular file whose read fails has no content. */
  datatype Node = Gone | Directory | Special | Regular(size: nat, content: Option<string>)

  /** Last observed state of a tracked file; no ref for an oversize one. */
  datatype Known = Known(ref: Option<BlobRef>)

  type Snapshot = map<Path, Known>

  function KnownAt(s: Snapshot, path: Path): Option<Known> {
    if path in s then Some(s[path]) else None
  }

  function RefOf(known: Option<Known>): Option<BlobRef> {
    if known.Some? then known.value.ref else None
  }

  function RefAt(s: Snapshot, path: Path): Option<BlobRef> {
    RefOf(KnownAt(s, path))
  }

  /** Which tracked paths an event at `rel` processes: a vanished directory fans out to everything
      tracked beneath it. */
  ghost function Touched(s: Snapshot, rel: Path, node: Node, maxBytes: nat): set<Path> {
    match node
    case Directory => {}
    case Special => if rel in s then {rel} else {}
    case Gone => if rel in s then {rel} else set path | path in s && rel + "/" <= path
    case Regular(size, content) => if size > maxBytes || content.Some? then {rel} else {}
  }

  function KnownAfter(node: Node, maxBytes: nat): Option<Known> {
    match node
    case Regular(size, content) =>
      if size > maxBytes then Some(Known(None))
      else if content.Some? then Some(Known(Some(BlobRef(content.value)))) else None
    case _ => None
  }

  /** Each side of the change that exists was within the cap and can be read. */
  predicate ReadableSides(prev: Option<Known>, next: Option<Known>, lost: set<BlobRef>) {
    && (prev.Some? ==> prev.value.ref.Some? && prev.value.ref.value !in lost)
    && (next.Some? ==> next.value.ref.Some?)
  }

  function OpOf(prev: Option<Known>, next: Option<Known>): FileOp {
    if next.None? then Delete else if prev.None? then Create else Modify
  }

  /** The change reported for a processed path; `lost` are refs whose blob can no longer be read. */
  function Offer(path: Path, prev: Option<Known>, next: Option<Known>, lost: set<BlobRef>): (offer: Option<Change>)
    ensures offer.Some? ==> offer.value.path == path && SnapshotOp(offer.value.op) && Acceptable(offer.value)
    ensures offer.Some? && !offer.value.partial <==> ReadableSides(prev, next, lost) && RefOf(prev) != RefOf(next)
    ensures offer.Some? && !offer.value.partial ==>
              TransitionOf(offer.value) == Transition(path, OpOf(prev, next), RefOf(prev), RefOf(next))
  {
    if prev.None? && next.None? then None
    else if next.None? then
      if prev.value.ref.Some? && prev.value.ref.value !in lost
      then Some(Change(Delete, path, None, prev.value.ref, None, None, false))
      else Some(Change(Delete, path, None, None, None, None, true))
    else
      var op := if prev.Some? then Modify else Create;
      if next.value.ref.None? then Some(Change(op, path, None, None, None, None, true))
      else if prev.None? then Some(Change(Create, path, None, None, next.value.ref, None, false))
      else if prev.value.ref == next.value.ref then None
      else if prev.value.ref.Some? && prev.value.ref.value !in lost
      then Some(Change(Modify, path, None, prev.value.ref, next.value.ref, None, false))
      else Some(Change(Modify, path, None, None, None, None, true))
  }

  /** The guard under which a change is dropped: nothing to attribute it to, or a covering row. */
  predicate Skips(rows: seq<LogRow>, step: Option<Step>, c: Change) {
    step.None? || Covered(rows, step.value, TransitionOf(c))
  }

  /** The rows once an offer went through attribution and dedup: dropped, or one more in the next slot. */
  function RowsAfter(rows: seq<LogRow>, step: Option<Step>, offer: Option<Change>): seq<LogRow> {
    if offer.None? || Skips(rows, step, offer.value) then rows
    else rows + [LogRow(step.value, NextSeq(rows, step.value), Watch, offer.value)]
  }

  /** The snapshot advanced at exactly the touched paths. */
  ghost predicate Advanced(before: Snapshot, after: Snapshot, touched: set<Path>, next: Option<Known>) {
    forall path :: KnownAt(after, path) == if path in touched then next else KnownAt(before, path)
  }

  /** The recorded change of a touched path, if it is offered and not skipped. */
  ghost function RecordedAt(before: Snapshot, rows: seq<LogRow>, step: Option<Step>, next: Option<Known>,
                            lost: set<BlobRef>, path: Path): Option<Change> {
    var offer := Offer(path, KnownAt(before, path), next, lost);
    if offer.Some? && !Skips(rows, step, offer.value) then offer else None
  }

  /** `added` are the rows of one event: one per touched path whose offer is not skipped, numbered on
      from the next free sequence of the step. */
  ghost predicate Logged(before: Snapshot, rows: seq<LogRow>, added: seq<LogRow>, step: Option<Step>,
                         touched: set<Path>, next: Option<Known>, lost: set<BlobRef>) {
    && (forall i | 0 <= i < |added| ::
          && added[i].origin == Watch && step == Some(added[i].step) && added[i].change.path in touched
          && added[i].seqNo == NextSeq(rows, added[i].step) + i
          && RecordedAt(before, rows, step, next, lost, added[i].change.path) == Some(added[i].change))
    && (forall path | path in touched && RecordedAt(before, rows, step, next, lost, path).Some? ::
          exists i :: 0 <= i < |added| && added[i].change.path == path)
    && (forall i, j | 0 <= i < j < |added| :: added[i].change.path != added[j].change.path)
  }

  // ----- Attribution -----

  /** A run as the watcher sees it; `last` is its latest step and that step's time. */
  datatype RunView = RunView(run: string, inProgress: bool, overlaps: bool, last: Option<(nat, int)>)

  datatype Attribution = To(step: Step) | NoActiveRun | NoRecentStep

  predicate Candidate(r: RunView) {
    r.inProgress && r.overlaps && r.last.Some?
  }

  function LastStep(r: RunView): Step
    requires r.last.Some?
  {
    Step(r.run, r.last.value.0)
  }

  /** Run k has the newest last step of all candidates, and no earlier run has one as new. */
  ghost predicate Newest(runs: seq<RunView>, k: nat) {
    && k < |runs| && Candidate(runs[k])
    && (forall i | 0 <= i < |runs| && Candidate(runs[i]) :: runs[i].last.value.1 <= runs[k].last.value.1)
    && (forall i | 0 <= i < k && Candidate(runs[i]) :: runs[i].last.value.1 < runs[k].last.value.1)
  }

  lemma NewestIsUnique(runs: seq<RunView>, k: nat, k': nat)
    requires Newest(runs, k) && Newest(runs, k')
    ensures k == k'
  {
  }

  /** The step an event is attributed to: the last one of the newest run, unless it is too old. */
  ghost function AttributedTo(runs: seq<RunView>, now: int, windowMs: int): Option<Step> {
    if exists k: nat :: Newest(runs, k) then
      var k: nat :| Newest(runs, k);
      if now - runs[k].last.value.1 <= windowMs then Some(LastStep(runs[k])) else None
    else None
  }

  /** `attribute`: the newest step of the running runs that overlap the root, if it is recent. */
  method Attribute(runs: seq<RunView>, now: int, windowMs: int) returns (a: Attribution)
    ensures a.NoActiveRun? <==> forall i | 0 <= i < |runs| :: !Candidate(runs[i])
    ensures a.To? ==>
              exists k: nat :: Newest(runs, k) && a.step == LastStep(runs[k]) && now - runs[k].last.value.1 <= windowMs
    ensures AttributedTo(runs, now, windowMs) == if a.To? then Some(a.step) else None
    ensures a.NoRecentStep? ==>
              forall i | 0 <= i < |runs| && Candidate(runs[i]) :: now - runs[i].last.value.1 > windowMs
  {
    var best: Option<nat> := None;
    for i := 0 to |runs|
      invariant best.None? <==> forall j | 0 <= j < i :: !Candidate(runs[j])
      invariant best.Some? ==> best.value < i && Newest(runs[..i], best.value)
    {
      if runs[i].inProgress && runs[i].overlaps && runs[i].last.Some? {
        if best.None? || runs[i].last.value.1 > runs[best.value].last.value.1 {
          best := Some(i);
        }
      }
    }
    assert runs[..|runs|] == runs;
    if best.None? {
      return NoActiveRun;
    }
    forall k: nat | Newest(runs, k) ensures k == best.value {
      NewestIsUnique(runs, k, best.value);
    }
    if now - runs[best.value].last.value.1 > windowMs {
      return NoRecentStep;
    }
    assert Newest(runs, best.value);
    return To(LastStep(runs[best.value]));
  }

  // ----- The watcher -----

  /** A debounced event: what is found at its path, and the step it is attributed to. */
  datatype Event = Event(rel: Path, node: Node, step: Option<Step>)
  datatype State = State(snapshot: Snapshot, rows: seq<LogRow>)

  /** What one event leaves: the snapshot advanced and the event's rows stored after the others. */
  ghost predicate Processed(before: State, after: State, e: Event, maxBytes: nat, lost: set<BlobRef>) {
    var touched := Touched(before.snapshot, e.rel, e.node, maxBytes);
    && Advanced(before.snapshot, after.snapshot, touched, KnownAfter(e.node, maxBytes))
    && |before.rows| <= |after.rows| && after.rows[..|before.rows|] == before.rows
    && Logged(before.snapshot, before.rows, after.rows[|before.rows|..], e.step, touched, KnownAfter(e.node, maxBytes),
              lost)
  }

  class Sentinel {
    var snapshot: Snapshot
    var rows: seq<LogRow>
    const maxBytes: nat
    const windowMs: int
    const lost: set<BlobRef>

    constructor (primed: Snapshot, stored: seq<LogRow>, maxBytes: nat, windowMs: int, lost: set<BlobRef>)
      ensures snapshot == primed && rows == stored
      ensures this.maxBytes == maxBytes && this.windowMs == windowMs && this.lost == lost
    {
      snapshot, rows := primed, stored;
      this.maxBytes, this.windowMs, this.lost := maxBytes, windowMs, lost;
    }

    /** `insertChange`: attribution, dedup against the step's rows, next free sequence. */
    method InsertChange(runs: seq<RunView>, now: int, c: Change)
      requires UniqueSlots(rows)
      modifies this`rows
      ensures UniqueSlots(rows)
      ensures rows == RowsAfter(old(rows), AttributedTo(runs, now, windowMs), Some(c))
    {
      hide AttributedTo, Newest, Candidate, LastStep;
      var attributed := Attribute(runs, now, windowMs);
      if !attributed.To? {
        return;
      }
      var step := attributed.step;
      for i := 0 to |rows|
        invariant forall k | 0 <= k < i :: !Covers(rows[k], step, TransitionOf(c))
      {
        if rows[i].step == step && rows[i].change.path == c.path {
          if rows[i].origin == ToolCall && !rows[i].change.partial {
            assert Covers(rows[i], step, TransitionOf(c));
            return;
          }
          if rows[i].origin == Watch && rows[i].change.op == c.op && rows[i].change.after == c.after
             && rows[i].change.before == c.before {
            assert Covers(rows[i], step, TransitionOf(c));
            return;
          }
        }
      }
      rows := rows + [LogRow(step, NextSeq(rows, step), Watch, c)];
    }

    /** `handleDelete`. */
    method HandleDelete(rel: Path, runs: seq<RunView>, now: int)
      requires UniqueSlots(rows) && rel in snapshot
      modifies this`rows, this`snapshot
      ensures UniqueSlots(rows) && snapshot == old(snapshot) - {rel}
      ensures rows ==
                RowsAfter(old(rows), AttributedTo(runs, now, windowMs),
                          Offer(rel, Some(old(snapshot)[rel]), None, lost))
    {
      var prev := snapshot[rel];
      snapshot := snapshot - {rel};
      if prev.ref.None? || prev.ref.value in lost {
        InsertChange(runs, now, Change(Delete, rel, None, None, None, None, true));
      } else {
        InsertChange(runs, now, Change(Delete, rel, None, prev.ref, None, None, false));
      }
    }

    /** The branch of `processPath` for a regular file. */
    method ProcessFile(rel: Path, node: Node, runs: seq<RunView>, now: int)
      requires UniqueSlots(rows) && node.Regular?
      modifies this`rows, this`snapshot
      ensures UniqueSlots(rows)
      ensures KnownAfter(node, maxBytes).None? ==> snapshot == old(snapshot) && rows == old(rows)
      ensures KnownAfter(node, maxBytes).Some? ==>
                && (forall path :: KnownAt(snapshot, path) ==
                      if path == rel then KnownAfter(node, maxBytes) else KnownAt(old(snapshot), path))
                && rows ==
                     RowsAfter(old(rows), AttributedTo(runs, now, windowMs),
                               Offer(rel, KnownAt(old(snapshot), rel), KnownAfter(node, maxBytes), lost))
    {
      var prev := KnownAt(snapshot, rel);
      var op := if prev.Some? then Modify else Create;
      if node.size > maxBytes {
        snapshot := snapshot[rel := Known(None)];
        InsertChange(runs, now, Change(op, rel, None, None, None, None, true));
      } else if node.content.Some? {
        var after := BlobRef(node.content.value);
        if prev.None? || prev.value.ref != Some(after) {
          snapshot := snapshot[rel := Known(Some(after))];
          if prev.Some? && (prev.value.ref.None? || prev.value.ref.value in lost) {
            InsertChange(runs, now, Change(Modify, rel, None, None, None, None, true));
          } else {
            InsertChange(runs, now,
                         Change(op, rel, None, if prev.Some? then prev.value.ref else None, Some(after), None, false));
          }
        }
      }
    }

    /** `processPath`: one debounced event. */
    method ProcessPath(rel: Path, node: Node, runs: seq<RunView>, now: int)
      requires UniqueSlots(rows)
      modifies this`rows, this`snapshot
      ensures UniqueSlots(rows)
      ensures Processed(State(old(snapshot), old(rows)), State(snapshot, rows),
                        Event(rel, node, AttributedTo(runs, now, windowMs)), maxBytes, lost)
    {
      hide Logged, Offer, RowsAfter;
      ghost var before, e := State(snapshot, rows), Event(rel, node, AttributedTo(runs, now, windowMs));
      match node {
      case Directory =>
        NoneProcessed(before, e, maxBytes, lost);
      case Special =>
        if rel in snapshot {
          HandleDelete(rel, runs, now);
          OneProcessed(before, State(snapshot, rows), e, maxBytes, lost);
        } else {
          NoneProcessed(before, e, maxBytes, lost);
        }
      case Gone =>
        if rel in snapshot {
          HandleDelete(rel, runs, now);
          OneProcessed(before, State(snapshot, rows), e, maxBytes, lost);
        } else {
          DeleteBeneath(rel, runs, now);
        }
      case Regular(_, _) =>
        ProcessFile(rel, node, runs, now);
        if KnownAfter(node, maxBytes).Some? {
          OneProcessed(before, State(snapshot, rows), e, maxBytes, lost);
        } else {
          NoneProcessed(before, e, maxBytes, lost);
        }
      }
    }

    /** A vanished directory: every tracked path under it is deleted. */
    method DeleteBeneath(rel: Path, runs: seq<RunView>, now: int)
      requires UniqueSlots(rows) && rel !in snapshot
      modifies this`rows, this`snapshot
      ensures UniqueSlots(rows)
      ensures Processed(State(old(snapshot), old(rows)), State(snapshot, rows),
                        Event(rel, Gone, AttributedTo(runs, now, windowMs)), maxBytes, lost)
    {
      hide Logged, RowsAfter, Offer;
      ghost var step := AttributedTo(runs, now, windowMs);
      ghost var before, stored := snapshot, rows;
      NothingLogged(before, stored, step, None, lost);
      assert stored[|stored|..] == [];
      var beneath := set path | path in snapshot && rel + "/" <= path;
      var rest := beneath;
      assert beneath - rest == {} && beneath == Touched(before, rel, Gone, maxBytes);
      while rest != {}
        invariant rest <= beneath
        invariant UniqueSlots(rows)
        invariant forall path ::
                    KnownAt(snapshot, path) == if path in beneath - rest then None else KnownAt(before, path)
        invariant |stored| <= |rows| && rows[..|stored|] == stored
        invariant Logged(before, stored, rows[|stored|..], step, beneath - rest, None, lost)
        decreases rest
      {
        var path :| path in rest;
        ghost var midway := rows;
        HandleDelete(path, runs, now);
        LogsOneMore(before, stored, midway, rows, step, beneath - rest, path, None, lost);
        assert beneath - (rest - {path}) == (beneath - rest) + {path};
        rest := rest - {path};
      }
      assert beneath - rest == beneath;
    }
  }

  /** Rows of other paths never make a change a duplicate. */
  lemma OtherPathsDoNotCover(stored: seq<LogRow>, added: seq<LogRow>, step: Option<Step>, c: Change)
    requires forall i | 0 <= i < |added| :: added[i].change.path != c.path
    ensures Skips(stored + added, step, c) <==> Skips(stored, step, c)
  {
    if step.Some? {
      CoveredConcat(stored, added, step.value, TransitionOf(c));
    }
  }

  /** Processing one more path logs its offer or nothing. */
  lemma LogsOneMore(before: Snapshot, stored: seq<LogRow>, midway: seq<LogRow>, rows: seq<LogRow>, step: Option<Step>,
                    done: set<Path>, path: Path, next: Option<Known>, lost: set<BlobRef>)
    requires |stored| <= |midway| && midway[..|stored|] == stored && path !in done
    requires Logged(before, stored, midway[|stored|..], step, done, next, lost)
    requires rows == RowsAfter(midway, step, Offer(path, KnownAt(before, path), next, lost))
    ensures |stored| <= |rows| && rows[..|stored|] == stored
    ensures Logged(before, stored, rows[|stored|..], step, done + {path}, next, lost)
  {
    hide Skips, NextSeq, Logged;
    var added, offer := midway[|stored|..], Offer(path, KnownAt(before, path), next, lost);
    assert midway == stored + added;
    assert offer.Some? ==> offer.value.path == path;
    hide Offer;
    LoggedSoFar(before, stored, added, step, done, next, lost, path);
    if offer.Some? {
      OtherPathsDoNotCover(stored, added, step, offer.value);
    }
    if offer.None? || Skips(midway, step, offer.value) {
      LoggedSkip(before, stored, added, step, done, next, lost, path);
    } else {
      SkipsUnattributed(midway, step, offer.value);
      assert rows[|stored|..] == added + [rows[|midway|]];
      LoggedAppend(before, stored, added, step, done, next, lost, rows[|midway|]);
    }
  }

  /** What the rows logged so far mean for the next path. */
  lemma LoggedSoFar(before: Snapshot, stored: seq<LogRow>, added: seq<LogRow>, step: Option<Step>, done: set<Path>,
                    next: Option<Known>, lost: set<BlobRef>, path: Path)
    requires Logged(before, stored, added, step, done, next, lost) && path !in done
    ensures forall i | 0 <= i < |added| :: added[i].change.path != path
    ensures step.Some? ==> NextSeq(stored + added, step.value) == NextSeq(stored, step.value) + |added|
  {
    hide RecordedAt, NextSeq;
    if step.Some? {
      NextSeqAfter(stored, added, step.value);
    }
  }

  lemma NoneProcessed(before: State, e: Event, maxBytes: nat, lost: set<BlobRef>)
    requires Touched(before.snapshot, e.rel, e.node, maxBytes) == {}
    ensures Processed(before, before, e, maxBytes, lost)
  {
    assert before.rows[|before.rows|..] == [];
    NothingLogged(before.snapshot, before.rows, e.step, KnownAfter(e.node, maxBytes), lost);
  }

  lemma OneProcessed(before: State, after: State, e: Event, maxBytes: nat, lost: set<BlobRef>)
    requires Touched(before.snapshot, e.rel, e.node, maxBytes) == {e.rel}
    requires Advanced(before.snapshot, after.snapshot, {e.rel}, KnownAfter(e.node, maxBytes))
    requires after.rows ==
             RowsAfter(before.rows, e.step,
                       Offer(e.rel, KnownAt(before.snapshot, e.rel), KnownAfter(e.node, maxBytes), lost))
    ensures Processed(before, after, e, maxBytes, lost)
  {
    hide Logged, Offer, RowsAfter;
    var s, rows, next := before.snapshot, before.rows, KnownAfter(e.node, maxBytes);
    NothingLogged(s, rows, e.step, next, lost);
    assert rows[|rows|..] == [];
    LogsOneMore(s, rows, rows, after.rows, e.step, {}, e.rel, next, lost);
    assert {} + {e.rel} == {e.rel};
  }

  lemma SkipsUnattributed(rows: seq<LogRow>, step: Option<Step>, c: Change)
    ensures step.None? ==> Skips(rows, step, c)
  {
  }

  lemma NothingLogged(before: Snapshot, stored: seq<LogRow>, step: Option<Step>, next: Option<Known>,
                      lost: set<BlobRef>)
    ensures Logged(before, stored, [], step, {}, next, lost)
  {
  }

  lemma LoggedSkip(before: Snapshot, stored: seq<LogRow>, added: seq<LogRow>, step: Option<Step>, done: set<Path>,
                   next: Option<Known>, lost: set<BlobRef>, path: Path)
    requires Logged(before, stored, added, step, done, next, lost)
    requires RecordedAt(before, stored, step, next, lost, path).None?
    ensures Logged(before, stored, added, step, done + {path}, next, lost)
  {
    hide RecordedAt, NextSeq;
  }

  lemma LoggedAppend(before: Snapshot, stored: seq<LogRow>, added: seq<LogRow>, step: Option<Step>, done: set<Path>,
                     next: Option<Known>, lost: set<BlobRef>, row: LogRow)
    requires Logged(before, stored, added, step, done, next, lost) && row.change.path !in done
    requires row.origin == Watch && step == Some(row.step) && row.seqNo == NextSeq(stored, row.step) + |added|
    requires RecordedAt(before, stored, step, next, lost, row.change.path) == Some(row.change)
    ensures Logged(before, stored, added + [row], step, done + {row.change.path}, next, lost)
  {
    hide RecordedAt, NextSeq;
    var longer := added + [row];
    forall path | path in done + {row.change.path} && RecordedAt(before, stored, step, next, lost, path).Some?
      ensures exists i :: 0 <= i < |longer| && longer[i].change.path == path
    {
      if path in done {
        var i :| 0 <= i < |added| && added[i].change.path == path;
        assert longer[i].change.path == path;
      } else {
        assert longer[|added|].change.path == path;
      }
    }
  }

  // ----- Recorded rows against the snapshot -----

  ghost predicate Mirrors(tree: Tree, s: Snapshot) {
    forall path :: BlobAt(tree, path) == RefAt(s, path)
  }

  /** The rows of a run, replayed in order, show the snapshot. */
  ghost predicate Shows(tree: Tree, rows: seq<LogRow>, run: string, s: Snapshot) {
    forall path :: ContentAt(tree, rows, run, path) == RefAt(s, path)
  }

  /** The guards that let a path's new content into the rows: the change is attributed, both sides
      are readable and differ, and no row of the step carries it already. */
  ghost predicate RecordedInFull(before: Snapshot, rows: seq<LogRow>, step: Option<Step>, next: Option<Known>,
                                 lost: set<BlobRef>, path: Path) {
    var prev := KnownAt(before, path);
    && step.Some?
    && ReadableSides(prev, next, lost) && RefOf(prev) != RefOf(next)
    && !Covered(rows, step.value, Transition(path, OpOf(prev, next), RefOf(prev), RefOf(next)))
  }

  /** What lets a row of the step reach replay: the step is of the replayed run, and no later step of
      the run sets the path. */
  predicate Reaches(rows: seq<LogRow>, step: Option<Step>, run: string, path: Path) {
    step.Some? && step.value.run == run && !SetBeyond(rows, step.value, None, path)
  }

  /** The one row of an event that can set a path is the one recorded for it, and it does exactly when
      it is recorded in full. */
  lemma RowSets(before: Snapshot, rows: seq<LogRow>, added: seq<LogRow>, step: Option<Step>, touched: set<Path>,
                next: Option<Known>, lost: set<BlobRef>, path: Path, i: nat)
    requires Logged(before, rows, added, step, touched, next, lost) && i < |added|
    ensures Sets(added[i], path) <==>
            added[i].change.path == path && RecordedInFull(before, rows, step, next, lost, path)
    ensures Sets(added[i], path) ==> ContentSet(added[i].change, path) == Some(RefOf(next))
  {
    var c := added[i].change;
    assert RecordedAt(before, rows, step, next, lost, c.path) == Some(c);
  }

  /** Rows that leave a path alone leave what replay shows there. */
  lemma {:induction false} SilentRowsKeep(tree: Tree, rows: seq<LogRow>, added: seq<LogRow>, run: string, path: Path)
    requires forall i | 0 <= i < |added| :: !Sets(added[i], path)
    ensures ContentAt(tree, rows + added, run, path) == ContentAt(tree, rows, run, path)
    decreases |added|
  {
    hide ContentAt, Sets;
    if added == [] {
      assert rows + added == rows;
    } else {
      var n := |added| - 1;
      assert rows + added == (rows + added[..n]) + [added[n]];
      SilentRowsKeep(tree, rows, added[..n], run, path);
      ContentAfterRow(tree, rows + added[..n], added[n], run, path);
    }
  }

  /** A row above all the step holds is outranked by later steps alone. */
  lemma HighRowReaches(rows: seq<LogRow>, added: seq<LogRow>, step: Step, height: nat, path: Path)
    requires height >= NextSeq(rows, step)
    requires forall i | 0 <= i < |added| :: !Sets(added[i], path)
    ensures SetBeyond(rows + added, step, Some(height), path) <==> SetBeyond(rows, step, None, path)
  {
    SetBeyondConcat(rows, added, step, Some(height), path);
    assert forall i | 0 <= i < |rows| :: Beyond(rows[i], step, Some(height), path) <==>
             Beyond(rows[i], step, None, path);
  }

  /** The content replay of a run shows at a path once an event's rows are stored. */
  lemma ContentAfterAdded(tree: Tree, before: Snapshot, rows: seq<LogRow>, added: seq<LogRow>, step: Option<Step>,
                          touched: set<Path>, next: Option<Known>, lost: set<BlobRef>, run: string, path: Path)
    requires Logged(before, rows, added, step, touched, next, lost)
    ensures ContentAt(tree, rows + added, run, path) ==
            if && path in touched && RecordedInFull(before, rows, step, next, lost, path)
               && Reaches(rows, step, run, path)
            then RefOf(next) else ContentAt(tree, rows, run, path)
  {
    hide ContentAt, SetBeyond, Sets, RecordedInFull, ContentSet, RecordedAt, Reaches, NextSeq;
    forall i | 0 <= i < |added|
      ensures Sets(added[i], path) <==>
              added[i].change.path == path && RecordedInFull(before, rows, step, next, lost, path)
    {
      RowSets(before, rows, added, step, touched, next, lost, path, i);
    }
    if path in touched && RecordedInFull(before, rows, step, next, lost, path) {
      FullIsRecorded(before, rows, step, next, lost, path);
      var i: nat :| i < |added| && added[i].change.path == path;
      RowSets(before, rows, added, step, touched, next, lost, path, i);
      OneRowSets(tree, rows, added, run, path, i);
    } else {
      SilentRowsKeep(tree, rows, added, run, path);
    }
  }

  /** Of rows numbered on in one step, the only one that sets a path decides what replay shows. */
  lemma OneRowSets(tree: Tree, rows: seq<LogRow>, added: seq<LogRow>, run: string, path: Path, i: nat)
    requires i < |added| && Sets(added[i], path) && added[i].seqNo >= NextSeq(rows, added[i].step)
    requires forall j | 0 <= j < |added| && Sets(added[j], path) :: j == i
    ensures ContentAt(tree, rows + added, run, path) ==
            if Reaches(rows, Some(added[i].step), run, path) then ContentSet(added[i].change, path).value
            else ContentAt(tree, rows, run, path)
  {
    hide ContentAt, SetBeyond, ContentSet, NextSeq;
    var below, row, above := added[..i], added[i], added[i + 1..];
    assert rows + added == (rows + below + [row]) + above;
    SilentRowsKeep(tree, rows, below, run, path);
    ContentAfterRow(tree, rows + below, row, run, path);
    HighRowReaches(rows, below, row.step, row.seqNo, path);
    SilentRowsKeep(tree, rows + below + [row], above, run, path);
  }

  lemma FullIsRecorded(before: Snapshot, rows: seq<LogRow>, step: Option<Step>, next: Option<Known>, lost: set<BlobRef>,
                       path: Path)
    ensures RecordedInFull(before, rows, step, next, lost, path) ==>
              RecordedAt(before, rows, step, next, lost, path).Some?
  {
  }

  /** The content replay of a run shows at one path after an event. */
  lemma ContentAfterEvent(tree: Tree, before: State, after: State, e: Event, maxBytes: nat, lost: set<BlobRef>,
                          run: string, path: Path)
    requires Processed(before, after, e, maxBytes, lost)
    ensures ContentAt(tree, after.rows, run, path) ==
            if && path in Touched(before.snapshot, e.rel, e.node, maxBytes)
               && RecordedInFull(before.snapshot, before.rows, e.step, KnownAfter(e.node, maxBytes), lost, path)
               && Reaches(before.rows, e.step, run, path)
            then RefOf(KnownAfter(e.node, maxBytes)) else ContentAt(tree, before.rows, run, path)
  {
    hide ContentAt, RecordedInFull, Reaches, Touched, Logged;
    var added := after.rows[|before.rows|..];
    assert after.rows == before.rows + added;
    ContentAfterAdded(tree, before.snapshot, before.rows, added, e.step,
                      Touched(before.snapshot, e.rel, e.node, maxBytes), KnownAfter(e.node, maxBytes), lost, run, path);
  }

  /** One event, whatever rows and snapshot held before it: the run's replay shows the snapshot
      afterwards exactly when they agreed on every path the event leaves alone, and each touched path
      either is recorded in full for a step of the run that no later step outranks there, or was
      already replayed to its new content, by a tool call's row say. */
  lemma EventAgreesIff(tree: Tree, before: State, after: State, e: Event, maxBytes: nat, lost: set<BlobRef>,
                       run: string)
    requires Processed(before, after, e, maxBytes, lost)
    ensures Shows(tree, after.rows, run, after.snapshot) <==>
              var next := KnownAfter(e.node, maxBytes);
              forall path ::
                if path !in Touched(before.snapshot, e.rel, e.node, maxBytes)
                then ContentAt(tree, before.rows, run, path) == RefAt(before.snapshot, path)
                else || ContentAt(tree, before.rows, run, path) == RefOf(next)
                     || (&& RecordedInFull(before.snapshot, before.rows, e.step, next, lost, path)
                         && Reaches(before.rows, e.step, run, path))
  {
    hide ContentAt, RecordedInFull, Reaches, Touched, Logged;
    forall path
      ensures ContentAt(tree, after.rows, run, path) == RefAt(after.snapshot, path) <==>
              var next := KnownAfter(e.node, maxBytes);
              if path !in Touched(before.snapshot, e.rel, e.node, maxBytes)
              then ContentAt(tree, before.rows, run, path) == RefAt(before.snapshot, path)
              else || ContentAt(tree, before.rows, run, path) == RefOf(next)
                   || (&& RecordedInFull(before.snapshot, before.rows, e.step, next, lost, path)
                       && Reaches(before.rows, e.step, run, path))
    {
      ContentAfterEvent(tree, before, after, e, maxBytes, lost, run, path);
      assert KnownAt(after.snapshot, path) ==
             if path in Touched(before.snapshot, e.rel, e.node, maxBytes) then KnownAfter(e.node, maxBytes)
             else KnownAt(before.snapshot, path);
    }
  }

  /** An event keeps the rows numbered: unique slots, its own at or above the watch base. */
  lemma EventStaysNumbered(before: State, after: State, e: Event, maxBytes: nat, lost: set<BlobRef>)
    requires Processed(before, after, e, maxBytes, lost) && Numbered(before.rows)
    ensures Numbered(after.rows)
  {
    var added := after.rows[|before.rows|..];
    assert after.rows == before.rows + added;
    assert forall i | |before.rows| <= i < |after.rows| :: after.rows[i] == added[i - |before.rows|];
  }

  // ----- When a change is left to another row -----

  /** The step's tool call recorded this path in full. */
  predicate RecordedByTool(row: LogRow, step: Step, path: Path) {
    row.step == step && row.change.path == path && row.origin == ToolCall && !row.change.partial
  }

  /** A path the step's tool call recorded in full gets no row from the watcher for that step. */
  lemma ToolRowSilencesWatcher(before: State, after: State, e: Event, maxBytes: nat, lost: set<BlobRef>, path: Path,
                               k: nat)
    requires Processed(before, after, e, maxBytes, lost) && e.step.Some?
    requires k < |before.rows| && RecordedByTool(before.rows[k], e.step.value, path)
    ensures forall i | |before.rows| <= i < |after.rows| :: after.rows[i].change.path != path
  {
    hide NextSeq;
    var added := after.rows[|before.rows|..];
    forall i | |before.rows| <= i < |after.rows| ensures after.rows[i].change.path != path {
      var c := added[i - |before.rows|].change;
      assert RecordedAt(before.snapshot, before.rows, e.step, KnownAfter(e.node, maxBytes), lost, c.path) == Some(c);
      var covered := Covers(before.rows[k], e.step.value, TransitionOf(c));
      assert c.path == path ==> covered;
    }
  }

  /** Rows of different paths: more than one of them are not all of one path. */
  lemma AtMostOneAt(rows: seq<LogRow>, path: Path)
    requires forall i, j | 0 <= i < j < |rows| :: rows[i].change.path != rows[j].change.path
    ensures |rows| <= 1 || exists i | 0 <= i < |rows| :: rows[i].change.path != path
  {
    if |rows| > 1 && rows[0].change.path == path {
      assert rows[1].change.path != path;
    }
  }

  /** Nothing else but the very same watch row does: with neither in the step, a readable change of the
      event's path is recorded, partial tool rows and rows of other steps notwithstanding. */
  lemma UncoveredChangeIsRecorded(before: State, after: State, e: Event, maxBytes: nat, lost: set<BlobRef>,
                                  content: string)
    requires Processed(before, after, e, maxBytes, lost) && e.step.Some?
    requires e.node == Regular(|content|, Some(content)) && |content| <= maxBytes
    requires e.rel in before.snapshot ==>
               var prev := before.snapshot[e.rel].ref;
               prev.Some? && prev.value !in lost && prev != Some(BlobRef(content))
    requires forall i | 0 <= i < |before.rows| ::
               && !RecordedByTool(before.rows[i], e.step.value, e.rel)
               && !(before.rows[i].step == e.step.value && before.rows[i].change.path == e.rel
                    && before.rows[i].origin == Watch && before.rows[i].change.after == Some(BlobRef(content)))
    ensures |after.rows| == |before.rows| + 1
    ensures var row := after.rows[|before.rows|];
            && row.step == e.step.value && row.origin == Watch && row.change.path == e.rel && !row.change.partial
            && row.change.after == Some(BlobRef(content))
            && row.change.before == (if e.rel in before.snapshot then before.snapshot[e.rel].ref else None)
            && row.change.op == (if e.rel in before.snapshot then Modify else Create)
  {
    hide NextSeq;
    var next, added := KnownAfter(e.node, maxBytes), after.rows[|before.rows|..];
    var recorded := RecordedAt(before.snapshot, before.rows, e.step, next, lost, e.rel);
    AtMostOneAt(added, e.rel);
    assert recorded.Some?;
    var i :| 0 <= i < |added| && added[i].change.path == e.rel;
    assert |added| == 1 && after.rows[|before.rows|] == added[0] && added[0].change == recorded.value;
  }
}

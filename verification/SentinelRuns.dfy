/** Whole sessions of the file sentinel: its events among rows stored by other writers, and what the
    replay of one run then shows. */
module SentinelRuns {
  import opened Wrappers
  import opened ChangeLog
  import opened Replay
  import opened FileSentinel

  /** The watcher processes an event, or another writer stores a row: the live ingest a tool call's,
      a hook drain a watch row. */
  datatype Happening = Observed(e: Event) | Stored(row: LogRow)

  /** What happens from a start on; `run` is the run whose replay is looked at. */
  datatype Session = Session(run: string, start: State, happenings: seq<Happening>, maxBytes: nat, lost: set<BlobRef>)

  ghost predicate Stepped(before: State, after: State, h: Happening, maxBytes: nat, lost: set<BlobRef>) {
    match h
    case Observed(e) => Processed(before, after, e, maxBytes, lost)
    case Stored(row) => Fits(before.rows, row) && after == before.(rows := before.rows + [row])
  }

  ghost predicate StatesOf(s: Session, states: seq<State>) {
    && |states| == |s.happenings| + 1 && states[0] == s.start
    && forall i | 0 <= i < |s.happenings| :: Stepped(states[i], states[i + 1], s.happenings[i], s.maxBytes, s.lost)
  }

  // ----- Read off the events and the initial state -----

  ghost function TouchedBy(snapshot: Snapshot, h: Happening, maxBytes: nat): set<Path> {
    match h
    case Observed(e) => Touched(snapshot, e.rel, e.node, maxBytes)
    case Stored(_) => {}
  }

  ghost function NextOf(h: Happening, maxBytes: nat): Option<Known> {
    match h
    case Observed(e) => KnownAfter(e.node, maxBytes)
    case Stored(_) => None
  }

  ghost function StepOf(h: Happening): Option<Step> {
    match h
    case Observed(e) => e.step
    case Stored(_) => None
  }

  /** The snapshot once `touched` have become `next`. */
  ghost function Moved(snapshot: Snapshot, touched: set<Path>, next: Option<Known>): Snapshot {
    if next.None? then snapshot - touched else snapshot + map path | path in touched :: next.value
  }

  /** The snapshot before happening k. */
  ghost function SnapshotAt(s: Session, k: nat): Snapshot
    requires k <= |s.happenings|
  {
    if k == 0 then s.start.snapshot
    else
      var snapshot, h := SnapshotAt(s, k - 1), s.happenings[k - 1];
      Moved(snapshot, TouchedBy(snapshot, h, s.maxBytes), NextOf(h, s.maxBytes))
  }

  ghost predicate Touches(s: Session, k: nat, path: Path)
    requires k < |s.happenings|
  {
    path in TouchedBy(SnapshotAt(s, k), s.happenings[k], s.maxBytes)
  }

  /** Event k moves a path from one readable content to another within the cap. */
  ghost predicate Captures(s: Session, k: nat, path: Path)
    requires k < |s.happenings|
  {
    var prev, next := KnownAt(SnapshotAt(s, k), path), NextOf(s.happenings[k], s.maxBytes);
    Touches(s, k, path) && ReadableSides(prev, next, s.lost) && RefOf(prev) != RefOf(next)
  }

  ghost function TransitionAt(s: Session, k: nat, path: Path): Transition
    requires k < |s.happenings|
  {
    var prev, next := KnownAt(SnapshotAt(s, k), path), NextOf(s.happenings[k], s.maxBytes);
    Transition(path, OpOf(prev, next), RefOf(prev), RefOf(next))
  }

  /** A row stored at the start or by another writer before happening k carries the transition. */
  ghost predicate StoredElsewhere(s: Session, k: nat, step: Step, t: Transition)
    requires k <= |s.happenings|
  {
    || Covered(s.start.rows, step, t)
    || exists j :: 0 <= j < k && s.happenings[j].Stored? && Covers(s.happenings[j].row, step, t)
  }

  /** An event before k already made this very transition within the step. */
  ghost predicate Repeats(s: Session, k: nat, step: Step, t: Transition)
    requires k <= |s.happenings|
  {
    exists j ::
      0 <= j < k && StepOf(s.happenings[j]) == Some(step) && Captures(s, j, t.path) && TransitionAt(s, j, t.path) == t
  }

  /** Event k leaves a full row for a path. */
  ghost predicate Recorded(s: Session, k: nat, path: Path)
    requires k < |s.happenings|
  {
    var step := StepOf(s.happenings[k]);
    && step.Some? && Captures(s, k, path)
    && !StoredElsewhere(s, k, step.value, TransitionAt(s, k, path))
    && !Repeats(s, k, step.value, TransitionAt(s, k, path))
  }

  /** A watch row of step `at` goes beyond a height of `step`: it lies above every other row of the
      step, and below the next watch row, which has no height. */
  predicate Past(at: Step, step: Step, height: Option<nat>) {
    at.run == step.run && (at.seqNo > step.seqNo || (at == step && height.Some?))
  }

  /** Before happening k a row beyond this height set the path: one there at the start, one another
      writer stored, or one an event left. */
  ghost predicate SetBefore(s: Session, k: nat, step: Step, height: Option<nat>, path: Path)
    requires k <= |s.happenings|
  {
    || SetBeyond(s.start.rows, step, height, path)
    || (exists j :: 0 <= j < k && s.happenings[j].Stored? && Beyond(s.happenings[j].row, step, height, path))
    || (exists j :: 0 <= j < k && Recorded(s, j, path) && Past(StepOf(s.happenings[j]).value, step, height))
  }

  /** Where a stored row stands in its step: a watch row above all that is there. */
  function Height(row: LogRow): Option<nat> {
    if row.origin == Watch then None else Some(row.seqNo)
  }

  /** Happening k is another writer's row of the run that sets the path, not outranked by any row of
      a later step or higher up in its own. */
  ghost predicate Overrides(s: Session, k: nat, path: Path)
    requires k < |s.happenings|
  {
    match s.happenings[k]
    case Observed(_) => false
    case Stored(row) => row.step.run == s.run && Sets(row, path) && !SetBefore(s, k, row.step, Height(row), path)
  }

  /** What the run should show at a path before happening k: the content last observed there by the
      watcher, or set there since by another writer's row that is not outranked. */
  ghost function Shown(s: Session, k: nat, path: Path): Option<BlobRef>
    requires k <= |s.happenings|
  {
    if k == 0 then RefAt(s.start.snapshot, path)
    else if Touches(s, k - 1, path) then RefOf(NextOf(s.happenings[k - 1], s.maxBytes))
    else if Overrides(s, k - 1, path) then ContentSet(s.happenings[k - 1].row.change, path).value
    else Shown(s, k - 1, path)
  }

  /** Event k is attributed to a step of the run, and no row of a later step set the path before. */
  ghost predicate InTurn(s: Session, k: nat, path: Path)
    requires k < |s.happenings|
  {
    var step := StepOf(s.happenings[k]);
    step.Some? && step.value.run == s.run && !SetBefore(s, k, step.value, None, path)
  }

  /** If event k moves a path away from what the run shows, it records it, and in its turn. */
  ghost predicate Keeps(s: Session, k: nat, path: Path)
    requires k < |s.happenings|
  {
    Touches(s, k, path) && Shown(s, k, path) != RefOf(NextOf(s.happenings[k], s.maxBytes)) ==>
      Recorded(s, k, path) && InTurn(s, k, path)
  }

  ghost predicate Faithful(s: Session, k: nat)
    requires k < |s.happenings|
  {
    forall path :: Keeps(s, k, path)
  }

  // ----- The events tell the state -----

  lemma {:induction false} SnapshotsAre(s: Session, states: seq<State>, k: nat)
    requires StatesOf(s, states) && k < |states|
    ensures states[k].snapshot == SnapshotAt(s, k)
  {
    if k != 0 {
      SnapshotsAre(s, states, k - 1);
      assert Stepped(states[k - 1], states[k - 1 + 1], s.happenings[k - 1], s.maxBytes, s.lost);
      var snapshot, h, after := states[k - 1].snapshot, s.happenings[k - 1], states[k].snapshot;
      var moved := Moved(snapshot, TouchedBy(snapshot, h, s.maxBytes), NextOf(h, s.maxBytes));
      forall path ensures KnownAt(after, path) == KnownAt(moved, path) {
      }
      SameKnownAt(after, moved);
    }
  }

  lemma SameKnownAt(a: Snapshot, b: Snapshot)
    requires forall path :: KnownAt(a, path) == KnownAt(b, path)
    ensures a == b
  {
    forall path ensures (path in a <==> path in b) && (path in a ==> a[path] == b[path]) {
      assert KnownAt(a, path) == KnownAt(b, path);
    }
  }

  /** An event makes a transition within a step. */
  ghost predicate Makes(before: Snapshot, e: Event, maxBytes: nat, lost: set<BlobRef>, step: Step, t: Transition) {
    var prev, next := KnownAt(before, t.path), KnownAfter(e.node, maxBytes);
    && e.step == Some(step) && t.path in Touched(before, e.rel, e.node, maxBytes)
    && ReadableSides(prev, next, lost) && RefOf(prev) != RefOf(next)
    && t == Transition(t.path, OpOf(prev, next), RefOf(prev), RefOf(next))
  }

  /** One event's rows carry a transition exactly when it was carried before or the event makes it. */
  lemma CoveredAfterEvent(before: State, after: State, e: Event, maxBytes: nat, lost: set<BlobRef>, step: Step,
                          t: Transition)
    requires Processed(before, after, e, maxBytes, lost) && t.before != t.after
    ensures Covered(after.rows, step, t) <==>
            Covered(before.rows, step, t) || Makes(before.snapshot, e, maxBytes, lost, step, t)
  {
    var added := after.rows[|before.rows|..];
    assert after.rows == before.rows + added;
    CoveredConcat(before.rows, added, step, t);
    var touched, next := Touched(before.snapshot, e.rel, e.node, maxBytes), KnownAfter(e.node, maxBytes);
    AddedCover(before.snapshot, before.rows, added, e.step, touched, next, lost, step, t);
  }

  /** The rows one event adds carry exactly the transitions it makes that no row carried before. */
  lemma AddedCover(before: Snapshot, rows: seq<LogRow>, added: seq<LogRow>, at: Option<Step>, touched: set<Path>,
                   next: Option<Known>, lost: set<BlobRef>, step: Step, t: Transition)
    requires Logged(before, rows, added, at, touched, next, lost) && t.before != t.after
    ensures Covered(added, step, t) <==>
              var prev := KnownAt(before, t.path);
              && !Covered(rows, step, t)
              && at == Some(step) && t.path in touched && ReadableSides(prev, next, lost) && RefOf(prev) != RefOf(next)
              && t == Transition(t.path, OpOf(prev, next), RefOf(prev), RefOf(next))
  {
    hide NextSeq;
    var offer := Offer(t.path, KnownAt(before, t.path), next, lost);
    if Covered(added, step, t) {
      var i :| 0 <= i < |added| && Covers(added[i], step, t);
      assert RecordedAt(before, rows, at, next, lost, t.path) == Some(added[i].change);
    } else if at == Some(step) && t.path in touched && RecordedAt(before, rows, at, next, lost, t.path).Some? {
      var i :| 0 <= i < |added| && added[i].change.path == t.path;
      assert !Covers(added[i], step, t);
    }
  }

  /** The duplicate test, without the rows: a transition is carried exactly when it was stored at the
      start or by another writer, or an earlier event of the step already made it. */
  lemma {:induction false} CoveredIff(s: Session, states: seq<State>, k: nat, step: Step, t: Transition)
    requires StatesOf(s, states) && k < |states| && t.before != t.after
    ensures Covered(states[k].rows, step, t) <==> StoredElsewhere(s, k, step, t) || Repeats(s, k, step, t)
  {
    if k != 0 {
      CoveredIff(s, states, k - 1, step, t);
      CoveredOneMore(s, states, k - 1, step, t);
    }
  }

  lemma CoveredOneMore(s: Session, states: seq<State>, k: nat, step: Step, t: Transition)
    requires StatesOf(s, states) && k < |s.happenings| && t.before != t.after
    requires Covered(states[k].rows, step, t) <==> StoredElsewhere(s, k, step, t) || Repeats(s, k, step, t)
    ensures Covered(states[k + 1].rows, step, t) <==> StoredElsewhere(s, k + 1, step, t) || Repeats(s, k + 1, step, t)
  {
    OneMoreStored(s, k, step, t);
    OneMoreRepeat(s, k, step, t);
    assert Stepped(states[k], states[k + 1], s.happenings[k], s.maxBytes, s.lost);
    match s.happenings[k]
    case Observed(e) =>
      SnapshotsAre(s, states, k);
      CoveredAfterEvent(states[k], states[k + 1], e, s.maxBytes, s.lost, step, t);
    case Stored(row) =>
      CoveredConcat(states[k].rows, [row], step, t);
      assert Covered([row], step, t) <==> Covers([row][0], step, t);
  }

  lemma OneMoreStored(s: Session, k: nat, step: Step, t: Transition)
    requires k < |s.happenings|
    ensures StoredElsewhere(s, k + 1, step, t) <==>
              StoredElsewhere(s, k, step, t) || (s.happenings[k].Stored? && Covers(s.happenings[k].row, step, t))
  {
  }

  lemma OneMoreRepeat(s: Session, k: nat, step: Step, t: Transition)
    requires k < |s.happenings|
    ensures Repeats(s, k + 1, step, t) <==>
              || Repeats(s, k, step, t)
              || (s.happenings[k].Observed? && Makes(SnapshotAt(s, k), s.happenings[k].e, s.maxBytes, s.lost, step, t))
  {
  }

  /** An event leaves a full row for a path exactly when the guards in its state let it. */
  lemma RecordedIff(s: Session, states: seq<State>, k: nat, path: Path)
    requires StatesOf(s, states) && k < |s.happenings| && s.happenings[k].Observed?
    ensures var e := s.happenings[k].e;
            Recorded(s, k, path) <==>
              && path in Touched(states[k].snapshot, e.rel, e.node, s.maxBytes)
              && RecordedInFull(states[k].snapshot, states[k].rows, e.step, KnownAfter(e.node, s.maxBytes), s.lost,
                                path)
  {
    hide StoredElsewhere, Repeats, Touched;
    var e, t := s.happenings[k].e, TransitionAt(s, k, path);
    SnapshotsAre(s, states, k);
    if e.step.Some? && t.before != t.after {
      CoveredIff(s, states, k, e.step.value, t);
    }
  }

  /** The rows an event adds go beyond a height at a path exactly when it records the path in full at
      a step past it. */
  lemma AddedBeyond(before: Snapshot, rows: seq<LogRow>, added: seq<LogRow>, at: Option<Step>, touched: set<Path>,
                    next: Option<Known>, lost: set<BlobRef>, step: Step, height: Option<nat>, path: Path)
    requires Logged(before, rows, added, at, touched, next, lost)
    requires height.Some? ==> height.value < WATCH_BASE
    ensures SetBeyond(added, step, height, path) <==>
            path in touched && RecordedInFull(before, rows, at, next, lost, path) && Past(at.value, step, height)
  {
    assert RecordedInFull(before, rows, at, next, lost, path) ==> at.Some?;
    hide RecordedInFull, RecordedAt, Sets;
    forall i | 0 <= i < |added|
      ensures Sets(added[i], path) <==>
                added[i].change.path == path && RecordedInFull(before, rows, at, next, lost, path)
    {
      RowSets(before, rows, added, at, touched, next, lost, path, i);
    }
    if path in touched && RecordedInFull(before, rows, at, next, lost, path) && Past(at.value, step, height) {
      FullIsRecorded(before, rows, at, next, lost, path);
      var i :| 0 <= i < |added| && added[i].change.path == path;
      assert Beyond(added[i], step, height, path);
    }
  }

  /** Which rows go beyond a height, without the rows. */
  lemma {:induction false} SetBeforeIff(s: Session, states: seq<State>, k: nat, step: Step, height: Option<nat>,
                                        path: Path)
    requires StatesOf(s, states) && k < |states| && (height.Some? ==> height.value < WATCH_BASE)
    ensures SetBeyond(states[k].rows, step, height, path) <==> SetBefore(s, k, step, height, path)
  {
    hide SetBefore, SetBeyond, Stepped, Recorded, Beyond, Past;
    if k == 0 {
      SetBeforeStart(s, step, height, path);
    } else {
      SetBeforeIff(s, states, k - 1, step, height, path);
      BeyondOneMore(s, states, k - 1, step, height, path);
      SetBeforeOneMore(s, k - 1, step, height, path);
    }
  }

  lemma SetBeforeStart(s: Session, step: Step, height: Option<nat>, path: Path)
    ensures SetBefore(s, 0, step, height, path) <==> SetBeyond(s.start.rows, step, height, path)
  {
    hide SetBeyond, Recorded;
  }

  lemma SetBeforeOneMore(s: Session, k: nat, step: Step, height: Option<nat>, path: Path)
    requires k < |s.happenings|
    ensures SetBefore(s, k + 1, step, height, path) <==>
            || SetBefore(s, k, step, height, path)
            || (s.happenings[k].Stored? && Beyond(s.happenings[k].row, step, height, path))
            || (Recorded(s, k, path) && Past(StepOf(s.happenings[k]).value, step, height))
  {
    assert forall j | 0 <= j <= k && Recorded(s, j, path) :: StepOf(s.happenings[j]).Some?;
    hide Recorded, SetBeyond, Beyond, Past;
  }

  lemma BeyondOneMore(s: Session, states: seq<State>, k: nat, step: Step, height: Option<nat>, path: Path)
    requires StatesOf(s, states) && k < |s.happenings| && (height.Some? ==> height.value < WATCH_BASE)
    ensures SetBeyond(states[k + 1].rows, step, height, path) <==>
            || SetBeyond(states[k].rows, step, height, path)
            || (s.happenings[k].Stored? && Beyond(s.happenings[k].row, step, height, path))
            || (Recorded(s, k, path) && Past(StepOf(s.happenings[k]).value, step, height))
  {
    assert Stepped(states[k], states[k + 1], s.happenings[k], s.maxBytes, s.lost);
    match s.happenings[k]
    case Observed(e) =>
      hide Recorded, RecordedInFull, Logged, SetBeyond, Touched;
      RecordedIff(s, states, k, path);
      var before, added := states[k], states[k + 1].rows[|states[k].rows|..];
      assert states[k + 1].rows == before.rows + added;
      SetBeyondConcat(before.rows, added, step, height, path);
      AddedBeyond(before.snapshot, before.rows, added, e.step, Touched(before.snapshot, e.rel, e.node, s.maxBytes),
                  KnownAfter(e.node, s.maxBytes), s.lost, step, height, path);
    case Stored(row) =>
      SetBeyondConcat(states[k].rows, [row], step, height, path);
      assert SetBeyond([row], step, height, path) <==> Beyond([row][0], step, height, path);
      assert !Recorded(s, k, path);
  }

  /** Another writer's row moves what the run shows exactly when it overrides it. */
  lemma OverridesIff(s: Session, states: seq<State>, k: nat, path: Path)
    requires StatesOf(s, states) && k < |s.happenings| && s.happenings[k].Stored?
    ensures Overrides(s, k, path) <==> Prevails(states[k].rows, s.happenings[k].row, s.run, path)
  {
    hide SetBefore, Sets;
    var row, rows := s.happenings[k].row, states[k].rows;
    assert Stepped(states[k], states[k + 1], s.happenings[k], s.maxBytes, s.lost);
    SetBeforeIff(s, states, k, row.step, Height(row), path);
    if row.origin == Watch {
      HighRowReaches(rows, [], row.step, row.seqNo, path);
      assert rows + [] == rows;
    }
  }

  // ----- Replay over a whole session -----

  /** The rows stay numbered, so at every moment each watch row replays after every other row of its
      step. */
  lemma {:induction false} SessionStaysNumbered(s: Session, states: seq<State>, k: nat)
    requires StatesOf(s, states) && k < |states| && Numbered(s.start.rows)
    ensures Numbered(states[k].rows)
  {
    hide Processed, Fits, Numbered;
    if k != 0 {
      SessionStaysNumbered(s, states, k - 1);
      assert Stepped(states[k - 1], states[k - 1 + 1], s.happenings[k - 1], s.maxBytes, s.lost);
      match s.happenings[k - 1]
      case Observed(e) => EventStaysNumbered(states[k - 1], states[k], e, s.maxBytes, s.lost);
      case Stored(row) => StaysNumbered(states[k - 1].rows, row);
    }
  }

  /** The run's rows, replayed in order, show at every path what they should. */
  ghost predicate Agrees(tree: Tree, s: Session, rows: seq<LogRow>, k: nat)
    requires k <= |s.happenings|
  {
    forall path :: ContentAt(tree, rows, s.run, path) == Shown(s, k, path)
  }

  lemma PathAgreesIff(tree: Tree, s: Session, states: seq<State>, k: nat, path: Path)
    requires StatesOf(s, states) && k < |s.happenings|
    requires ContentAt(tree, states[k].rows, s.run, path) == Shown(s, k, path)
    ensures ContentAt(tree, states[k + 1].rows, s.run, path) == Shown(s, k + 1, path) <==> Keeps(s, k, path)
  {
    hide ContentAt, Recorded, RecordedInFull, SetBeyond, SetBefore, Sets, ContentSet, Touched, StatesOf;
    SteppedAt(s, states, k);
    match s.happenings[k]
    case Observed(e) =>
      SnapshotsAre(s, states, k);
      ContentAfterEvent(tree, states[k], states[k + 1], e, s.maxBytes, s.lost, s.run, path);
      RecordedIff(s, states, k, path);
      if e.step.Some? {
        SetBeforeIff(s, states, k, e.step.value, None, path);
      }
    case Stored(row) =>
      ContentAfterRow(tree, states[k].rows, row, s.run, path);
      OverridesIff(s, states, k, path);
  }

  lemma SteppedAt(s: Session, states: seq<State>, k: nat)
    requires StatesOf(s, states) && k < |s.happenings|
    ensures |states| == |s.happenings| + 1 && Stepped(states[k], states[k + 1], s.happenings[k], s.maxBytes, s.lost)
  {
  }

  /** One happening keeps the run showing what it should exactly when it is faithful. */
  lemma StepAgreesIff(tree: Tree, s: Session, states: seq<State>, k: nat)
    requires StatesOf(s, states) && k < |s.happenings| && Agrees(tree, s, states[k].rows, k)
    ensures Agrees(tree, s, states[k + 1].rows, k + 1) <==> Faithful(s, k)
  {
    hide ContentAt, Keeps, Stepped;
    var rows, n := states[k + 1].rows, k + 1;
    if Faithful(s, k) {
      forall path ensures ContentAt(tree, rows, s.run, path) == Shown(s, n, path) {
        PathAgreesIff(tree, s, states, k, path);
        assert Keeps(s, k, path);
      }
    }
    if Agrees(tree, s, states[k + 1].rows, k + 1) {
      forall path ensures Keeps(s, k, path) {
        PathAgreesIff(tree, s, states, k, path);
      }
    }
  }

  /** Over any session of watcher events among rows stored by others, the replay of the run shows at
      every moment what was last seen at each path exactly when every event is faithful: each content
      it moves away from what the run shows is attributed to a step of the run that no row of a later
      step outranks there, readable on both sides within the cap, not stored by anybody else for the
      step, and no repeat of a transition within the step. */
  lemma {:induction false} RunAgreesIff(tree: Tree, s: Session, states: seq<State>)
    requires StatesOf(s, states) && Shows(tree, s.start.rows, s.run, s.start.snapshot)
    ensures (forall k | 0 <= k <= |s.happenings| :: Agrees(tree, s, states[k].rows, k))
       <==> (forall k | 0 <= k < |s.happenings| :: Faithful(s, k))
  {
    hide Faithful, Agrees, Shows, Stepped;
    if forall k | 0 <= k < |s.happenings| :: Faithful(s, k) {
      forall k | 0 <= k <= |s.happenings| ensures Agrees(tree, s, states[k].rows, k) {
        FaithfulPrefixAgrees(tree, s, states, k);
      }
    }
    if forall k | 0 <= k <= |s.happenings| :: Agrees(tree, s, states[k].rows, k) {
      forall k | 0 <= k < |s.happenings| ensures Faithful(s, k) {
        assert Agrees(tree, s, states[k].rows, k) && Agrees(tree, s, states[k + 1].rows, k + 1);
        StepAgreesIff(tree, s, states, k);
      }
    }
  }

  lemma {:induction false} FaithfulPrefixAgrees(tree: Tree, s: Session, states: seq<State>, k: nat)
    requires StatesOf(s, states) && k < |states| && Shows(tree, s.start.rows, s.run, s.start.snapshot)
    requires forall i | 0 <= i < k :: Faithful(s, i)
    ensures Agrees(tree, s, states[k].rows, k)
  {
    hide ContentAt, Faithful, Stepped;
    if k == 0 {
      forall path ensures ContentAt(tree, states[0].rows, s.run, path) == Shown(s, 0, path) {
      }
    } else {
      FaithfulPrefixAgrees(tree, s, states, k - 1);
      StepAgreesIff(tree, s, states, k - 1);
    }
  }

  /** What the run should show at a path is the snapshot's content unless another writer's row, not
      outranked, set it since the watcher last looked there. */
  lemma {:induction false} ShownIsSnapshot(s: Session, looked: nat, k: nat, path: Path)
    requires looked <= k <= |s.happenings|
    requires looked == 0 || Touches(s, looked - 1, path)
    requires forall j | looked <= j < k :: !Overrides(s, j, path)
    ensures Shown(s, k, path) == RefAt(SnapshotAt(s, k), path)
  {
    hide ContentSet, Touched, KnownAfter, Overrides;
    if looked < k {
      ShownIsSnapshot(s, looked, k - 1, path);
    }
  }

  // ----- The watcher alone -----

  ghost predicate Alone(s: Session) {
    s.start.rows == [] && forall j | 0 <= j < |s.happenings| :: s.happenings[j].Observed?
  }

  ghost predicate Moves(s: Session, k: nat, path: Path)
    requires k < |s.happenings|
  {
    Touches(s, k, path) && RefAt(SnapshotAt(s, k), path) != RefOf(NextOf(s.happenings[k], s.maxBytes))
  }

  /** Every content event k moves is attributed to a step of the run, not before a step its path was
      moved in already, readable on both sides within the cap, and moved by a transition its path has
      not made within the step before. */
  ghost predicate Progresses(s: Session, k: nat)
    requires k < |s.happenings|
  {
    forall path | Moves(s, k, path) ::
      var step := StepOf(s.happenings[k]);
      && step.Some? && step.value.run == s.run && Captures(s, k, path)
      && !Repeats(s, k, step.value, TransitionAt(s, k, path))
      && forall j | 0 <= j < k && Moves(s, j, path) && StepOf(s.happenings[j]).Some? ::
           StepOf(s.happenings[j]).value.run == s.run ==> StepOf(s.happenings[j]).value.seqNo <= step.value.seqNo
  }

  lemma AloneShows(s: Session, k: nat)
    requires Alone(s) && k <= |s.happenings|
    ensures forall path :: Shown(s, k, path) == RefAt(SnapshotAt(s, k), path)
  {
    forall path ensures Shown(s, k, path) == RefAt(SnapshotAt(s, k), path) {
      ShownIsSnapshot(s, 0, k, path);
    }
  }

  /** With the watcher alone a path was set at a later step exactly when an event left it a row there. */
  lemma AloneSetBefore(s: Session, k: nat, step: Step, path: Path)
    requires Alone(s) && k <= |s.happenings|
    ensures SetBefore(s, k, step, None, path) <==>
            exists j :: 0 <= j < k && Recorded(s, j, path) && Past(StepOf(s.happenings[j]).value, step, None)
  {
    hide Recorded;
  }

  lemma FaithfulProgresses(s: Session, k: nat)
    requires Alone(s) && k < |s.happenings| && forall i | 0 <= i <= k :: Faithful(s, i)
    ensures Progresses(s, k)
  {
    hide Captures, Repeats, StoredElsewhere, SetBefore, Shown, Touches;
    AloneShows(s, k);
    assert Faithful(s, k);
    forall path | Moves(s, k, path) ensures Recorded(s, k, path) && InTurn(s, k, path) {
      assert Keeps(s, k, path);
    }
    forall path, j | Moves(s, k, path) && 0 <= j < k && Moves(s, j, path) && StepOf(s.happenings[j]).Some?
                     && StepOf(s.happenings[j]).value.run == s.run
      ensures StepOf(s.happenings[k]).Some?
              && StepOf(s.happenings[j]).value.seqNo <= StepOf(s.happenings[k]).value.seqNo
    {
      AloneShows(s, j);
      assert Faithful(s, j) && Faithful(s, k);
      assert Keeps(s, j, path) && Keeps(s, k, path);
      AloneSetBefore(s, k, StepOf(s.happenings[k]).value, path);
    }
  }

  lemma ProgressIsFaithful(s: Session, k: nat)
    requires Alone(s) && k < |s.happenings| && Progresses(s, k)
    ensures Faithful(s, k)
  {
    hide Repeats, SetBefore, Shown, Touches;
    AloneShows(s, k);
    forall path | Moves(s, k, path) ensures Recorded(s, k, path) && InTurn(s, k, path) {
      var step := StepOf(s.happenings[k]).value;
      AloneSetBefore(s, k, step, path);
      assert forall j | 0 <= j < k && Recorded(s, j, path) :: Moves(s, j, path);
    }
  }

  /** The watcher alone, from an empty log: the run's replay always shows the snapshot exactly when
      every content moved is attributed to the run, path by path never to an earlier step than before,
      readable, and no path repeats a transition within a step. */
  lemma WatcherAloneAgreesIff(tree: Tree, s: Session, states: seq<State>)
    requires Alone(s) && StatesOf(s, states) && Mirrors(tree, s.start.snapshot)
    ensures (forall k | 0 <= k <= |s.happenings| :: Shows(tree, states[k].rows, s.run, states[k].snapshot))
       <==> (forall k | 0 <= k < |s.happenings| :: Progresses(s, k))
  {
    hide Faithful, Progresses, Stepped, Shown, SnapshotAt;
    assert Shows(tree, s.start.rows, s.run, s.start.snapshot);
    RunAgreesIff(tree, s, states);
    forall k | 0 <= k <= |s.happenings|
      ensures Agrees(tree, s, states[k].rows, k) <==> Shows(tree, states[k].rows, s.run, states[k].snapshot)
    {
      AloneShows(s, k);
      SnapshotsAre(s, states, k);
    }
    if forall k | 0 <= k < |s.happenings| :: Faithful(s, k) {
      forall k | 0 <= k < |s.happenings| ensures Progresses(s, k) {
        FaithfulProgresses(s, k);
      }
    }
    if forall k | 0 <= k < |s.happenings| :: Progresses(s, k) {
      forall k | 0 <= k < |s.happenings| ensures Faithful(s, k) {
        ProgressIsFaithful(s, k);
      }
    }
  }

  // ----- Inputs on which replay and snapshot differ, or only seem to -----

  function Holding(path: Path, content: string): Snapshot {
    map[path := Known(Some(BlobRef(content)))]
  }

  function Written(path: Path, content: string, step: Step): Event {
    Event(path, Regular(|content|, Some(content)), Some(step))
  }

  function Rewrite(path: Path, old_: string, new_: string): Transition {
    Transition(path, Modify, Some(BlobRef(old_)), Some(BlobRef(new_)))
  }

  /** One write to a tracked file: what it leaves in the snapshot, in the replay, in the duplicate test
      and beyond the heights of a step. */
  lemma OneWrite(tree: Tree, before: State, after: State, path: Path, x: string, y: string, step: Step, maxBytes: nat,
                 run: string, t: Transition, at: Step, height: Option<nat>)
    requires x != y && |y| <= maxBytes && KnownAt(before.snapshot, path) == Some(Known(Some(BlobRef(x))))
    requires Processed(before, after, Written(path, y, step), maxBytes, {})
    requires t.path == path && t.before != t.after && (height.Some? ==> height.value < WATCH_BASE)
    ensures KnownAt(after.snapshot, path) == Some(Known(Some(BlobRef(y))))
    ensures ContentAt(tree, after.rows, run, path) ==
            if !Covered(before.rows, step, Rewrite(path, x, y)) && Reaches(before.rows, Some(step), run, path)
            then Some(BlobRef(y)) else ContentAt(tree, before.rows, run, path)
    ensures Covered(after.rows, step, t) <==> Covered(before.rows, step, t) || t == Rewrite(path, x, y)
    ensures SetBeyond(after.rows, at, height, path) <==>
            || SetBeyond(before.rows, at, height, path)
            || (!Covered(before.rows, step, Rewrite(path, x, y)) && Past(step, at, height))
  {
    hide ContentAt, Reaches, Covered, Logged, SetBeyond, Past;
    var e, added := Written(path, y, step), after.rows[|before.rows|..];
    ContentAfterEvent(tree, before, after, e, maxBytes, {}, run, path);
    CoveredAfterEvent(before, after, e, maxBytes, {}, step, t);
    assert after.rows == before.rows + added;
    SetBeyondConcat(before.rows, added, at, height, path);
    AddedBeyond(before.snapshot, before.rows, added, e.step, {path}, KnownAfter(e.node, maxBytes), {}, at, height,
                path);
  }

  /** Not every session is faithful: within one step, a file written x to y, back to x, and to y again
      has its last write taken for a repeat, and the run replays to x while the snapshot holds y. */
  lemma RepeatedWriteIsDropped(tree: Tree, path: Path, x: string, y: string, step: Step, maxBytes: nat,
                               states: seq<State>)
    requires x != y && |x| <= maxBytes && |y| <= maxBytes
    requires var toX, toY := Observed(Written(path, x, step)), Observed(Written(path, y, step));
             StatesOf(Session(step.run, State(Holding(path, x), []), [toY, toX, toY], maxBytes, {}), states)
    ensures ContentAt(tree, states[3].rows, step.run, path) == Some(BlobRef(x))
    ensures RefAt(states[3].snapshot, path) == Some(BlobRef(y))
  {
    hide ContentAt, Processed;
    var toX, toY := Written(path, x, step), Written(path, y, step);
    var s := Session(step.run, State(Holding(path, x), []), [Observed(toY), Observed(toX), Observed(toY)], maxBytes,
                     {});
    SteppedAt(s, states, 0);
    SteppedAt(s, states, 1);
    SteppedAt(s, states, 2);
    assert !SetBeyond([], step, None, path) && !Covered([], step, Rewrite(path, x, y))
           && !Covered([], step, Rewrite(path, y, x));
    hide SetBeyond, Covered;
    OneWrite(tree, states[0], states[1], path, x, y, step, maxBytes, step.run, Rewrite(path, y, x), step, None);
    OneWrite(tree, states[0], states[1], path, x, y, step, maxBytes, step.run, Rewrite(path, x, y), step, None);
    OneWrite(tree, states[1], states[2], path, y, x, step, maxBytes, step.run, Rewrite(path, x, y), step, None);
    OneWrite(tree, states[2], states[3], path, x, y, step, maxBytes, step.run, Rewrite(path, x, y), step, None);
  }

  /** The late row the watch base is there for: the watcher records x to y and y to z, then the step's
      tool call row x to y arrives. It replays first, so the run shows z, as the snapshot does; in
      arrival order the rows would end on y. */
  lemma LateToolRowReplaysFirst(tree: Tree, path: Path, x: string, y: string, z: string, step: Step, maxBytes: nat,
                                states: seq<State>)
    requires x != y && y != z && |y| <= maxBytes && |z| <= maxBytes
    requires var toolRow := LogRow(step, 0, ToolCall,
                                   Change(Modify, path, None, Some(BlobRef(x)), Some(BlobRef(y)), None, false));
             var happenings := [Observed(Written(path, y, step)), Observed(Written(path, z, step)), Stored(toolRow)];
             StatesOf(Session(step.run, State(Holding(path, x), []), happenings, maxBytes, {}), states)
    ensures ContentAt(tree, states[3].rows, step.run, path) == Some(BlobRef(z))
    ensures RefAt(states[3].snapshot, path) == Some(BlobRef(z))
    ensures BlobAt(Replayed(tree, ChangesOf(states[3].rows)), path) == Some(BlobRef(y))
  {
    hide ContentAt, Processed, Fits;
    var toolRow := LogRow(step, 0, ToolCall,
                          Change(Modify, path, None, Some(BlobRef(x)), Some(BlobRef(y)), None, false));
    var s := Session(step.run, State(Holding(path, x), []),
                     [Observed(Written(path, y, step)), Observed(Written(path, z, step)), Stored(toolRow)], maxBytes,
                     {});
    SteppedAt(s, states, 0);
    SteppedAt(s, states, 1);
    SteppedAt(s, states, 2);
    assert !SetBeyond([], step, None, path) && !Covered([], step, Rewrite(path, x, y))
           && !Covered([], step, Rewrite(path, y, z));
    hide SetBeyond, Covered;
    OneWrite(tree, states[0], states[1], path, x, y, step, maxBytes, step.run, Rewrite(path, y, z), step, None);
    OneWrite(tree, states[1], states[2], path, y, z, step, maxBytes, step.run, Rewrite(path, y, z), step, Some(0));
    ContentAfterRow(tree, states[2].rows, toolRow, step.run, path);
    OneMoreContent(tree, states[2].rows, toolRow, path);
  }

  /** Attribution that goes back, or to another run: x to y recorded for a step, then y to z for an
      earlier one or one of another run. The run replays to y while the snapshot holds z. */
  lemma GoingBackHidesLastWrite(tree: Tree, path: Path, x: string, y: string, z: string, step: Step, back: Step,
                                maxBytes: nat, states: seq<State>)
    requires x != y && y != z && |y| <= maxBytes && |z| <= maxBytes
    requires back.run != step.run || back.seqNo < step.seqNo
    requires var happenings := [Observed(Written(path, y, step)), Observed(Written(path, z, back))];
             StatesOf(Session(step.run, State(Holding(path, x), []), happenings, maxBytes, {}), states)
    ensures ContentAt(tree, states[2].rows, step.run, path) == Some(BlobRef(y))
    ensures RefAt(states[2].snapshot, path) == Some(BlobRef(z))
  {
    hide ContentAt, Processed;
    var s := Session(step.run, State(Holding(path, x), []),
                     [Observed(Written(path, y, step)), Observed(Written(path, z, back))], maxBytes, {});
    SteppedAt(s, states, 0);
    SteppedAt(s, states, 1);
    assert !SetBeyond([], step, None, path) && !Covered([], step, Rewrite(path, x, y));
    hide SetBeyond, Covered;
    OneWrite(tree, states[0], states[1], path, x, y, step, maxBytes, step.run, Rewrite(path, y, z), back, None);
    OneWrite(tree, states[1], states[2], path, y, z, back, maxBytes, step.run, Rewrite(path, y, z), back, None);
  }
}

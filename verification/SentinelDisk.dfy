/** The file sentinel against the disk it watches: what a flush makes of what lies at its path, and
    the snapshot over whole sessions of file operations. */
module SentinelDisk {
  import opened Wrappers
  import opened ChangeLog
  import opened Replay
  import opened FileSentinel
  import opened SentinelRuns

  /** What lies at a path: a readable file, a directory, or a link, pipe or device. */
  datatype Entry = Readable(content: string) | Folder | Odd

  type Disk = map<Path, Entry>

  predicate Beneath(path: Path, folder: Path) {
    folder + "/" <= path
  }

  /** Whatever lies beneath a path lies in a folder. */
  ghost predicate Tidy(disk: Disk) {
    forall p, q | q in disk && Beneath(q, p) :: p in disk && disk[p].Folder?
  }

  function NodeAt(disk: Disk, path: Path): Node {
    if path !in disk then Gone
    else match disk[path]
      case Folder => Directory
      case Odd => Special
      case Readable(content) => Regular(|content|, Some(content))
  }

  /** The file a path should be tracked as: its content within the cap, its existence above it. */
  ghost predicate TracksDisk(snapshot: Snapshot, disk: Disk, maxBytes: nat, path: Path) {
    var isFile := path in disk && disk[path].Readable?;
    && (path in snapshot <==> isFile)
    && (isFile ==>
          snapshot[path].ref == if |disk[path].content| <= maxBytes then Some(BlobRef(disk[path].content)) else None)
  }

  /** One flush at `rel`, whatever changed before it and however much: a path is tracked rightly
      afterwards exactly when it is `rel` itself, unless a folder took the place of a file tracked
      there; or lies beneath a `rel` that is gone and was no tracked file; or was tracked rightly. */
  lemma FlushSettlesIff(disk: Disk, before: State, after: State, rel: Path, step: Option<Step>, maxBytes: nat,
                        lost: set<BlobRef>, path: Path)
    requires Tidy(disk) && Processed(before, after, Event(rel, NodeAt(disk, rel), step), maxBytes, lost)
    ensures TracksDisk(after.snapshot, disk, maxBytes, path) <==>
              if path == rel then !(rel in disk && disk[rel].Folder? && rel in before.snapshot)
              else (rel !in disk && rel !in before.snapshot && Beneath(path, rel))
                   || TracksDisk(before.snapshot, disk, maxBytes, path)
  {
    hide Logged;
    var touched := Touched(before.snapshot, rel, NodeAt(disk, rel), maxBytes);
    assert KnownAt(after.snapshot, path) ==
           if path in touched then KnownAfter(NodeAt(disk, rel), maxBytes) else KnownAt(before.snapshot, path);
  }

  /** A tracked file replaced by a folder before its flush stays tracked. */
  lemma ReplacedFileStaysTracked(disk: Disk, before: State, after: State, rel: Path, step: Option<Step>, maxBytes: nat,
                                 lost: set<BlobRef>)
    requires Tidy(disk) && rel in disk && disk[rel].Folder? && rel in before.snapshot
    requires Processed(before, after, Event(rel, NodeAt(disk, rel), step), maxBytes, lost)
    ensures rel in after.snapshot && after.snapshot[rel] == before.snapshot[rel]
  {
    hide Logged;
    assert KnownAt(after.snapshot, rel) == KnownAt(before.snapshot, rel);
  }

  // ----- Whole sessions -----

  /** One file operation at a path: write a file, put a link or pipe there, remove a file or such,
      make a folder, remove a folder with everything beneath it. */
  datatype Deed = Write(path: Path, content: string) | Place(path: Path) | Remove(path: Path) | MakeFolder(path: Path)
                | RemoveFolder(path: Path)

  ghost predicate Done(before: Disk, after: Disk, d: Deed) {
    && Tidy(after)
    && match d
       case Write(path, content) => !(path in before && before[path].Folder?)
       && after == before[path := Readable(content)]
       case Place(path) => !(path in before && before[path].Folder?) && after == before[path := Odd]
       case Remove(path) => path in before && !before[path].Folder? && after == before - {path}
       case MakeFolder(path) => path !in before && after == before[path := Folder]
       case RemoveFolder(path) =>
         && path in before && before[path].Folder?
         && after == map p | p in before && p != path && !Beneath(p, path) :: before[p]
  }

  /** Every event of the session follows one operation at its path; other writers' rows do not touch
      the disk. */
  ghost predicate Follows(s: Session, disks: seq<Disk>) {
    && |disks| == |s.happenings| + 1
    && forall k | 0 <= k < |s.happenings| :: FollowsAt(disks[k], disks[k + 1], s.happenings[k])
  }

  ghost predicate FollowsAt(before: Disk, after: Disk, h: Happening) {
    match h
    case Observed(e) => e.node == NodeAt(after, e.rel) && exists d: Deed :: d.path == e.rel && Done(before, after, d)
    case Stored(_) => after == before
  }

  ghost predicate TracksAll(snapshot: Snapshot, disk: Disk, maxBytes: nat) {
    forall path :: TracksDisk(snapshot, disk, maxBytes, path)
  }

  /** A flush that follows one operation at its path keeps the whole snapshot right. */
  lemma DeedIsTracked(before: Disk, after: Disk, d: Deed, was: State, now: State, step: Option<Step>, maxBytes: nat,
                      lost: set<BlobRef>)
    requires Tidy(before) && Done(before, after, d) && TracksAll(was.snapshot, before, maxBytes)
    requires Processed(was, now, Event(d.path, NodeAt(after, d.path), step), maxBytes, lost)
    ensures TracksAll(now.snapshot, after, maxBytes)
  {
    hide Processed;
    forall path ensures TracksDisk(now.snapshot, after, maxBytes, path) {
      FlushSettlesIff(after, was, now, d.path, step, maxBytes, lost, path);
      assert TracksDisk(was.snapshot, before, maxBytes, path) && TracksDisk(was.snapshot, before, maxBytes, d.path);
      assert d.Remove? && Beneath(path, d.path) ==> path !in before;
    }
  }

  /** Over any session of file operations, each followed by its flush, the snapshot is at every moment
      what the disk holds: every file under its content, nothing that vanished. */
  lemma {:induction false} SnapshotFollowsDisk(s: Session, states: seq<State>, disks: seq<Disk>, k: nat)
    requires StatesOf(s, states) && Follows(s, disks) && k < |states|
    requires Tidy(disks[0]) && TracksAll(s.start.snapshot, disks[0], s.maxBytes)
    ensures Tidy(disks[k]) && TracksAll(states[k].snapshot, disks[k], s.maxBytes)
  {
    hide Processed, TracksAll, Tidy, NodeAt;
    if k != 0 {
      SnapshotFollowsDisk(s, states, disks, k - 1);
      SteppedAt(s, states, k - 1);
      assert FollowsAt(disks[k - 1], disks[k - 1 + 1], s.happenings[k - 1]);
      match s.happenings[k - 1]
      case Observed(e) =>
        var d: Deed :| d.path == e.rel && Done(disks[k - 1], disks[k], d);
        DeedIsTracked(disks[k - 1], disks[k], d, states[k - 1], states[k], e.step, s.maxBytes, s.lost);
      case Stored(_) =>
    }
  }

  /** What replay should give back of a path: the content of a file within the cap. */
  function HeldAt(disk: Disk, maxBytes: nat, path: Path): Option<BlobRef> {
    if path in disk && disk[path].Readable? && |disk[path].content| <= maxBytes then Some(BlobRef(disk[path].content))
    else None
  }

  /** With the watcher alone, the rows of a run replay to the disk at every moment exactly when every
      content moved is attributed to the run in order, readable, and no repeat within its step. */
  lemma ReplayShowsDiskIff(tree: Tree, s: Session, states: seq<State>, disks: seq<Disk>)
    requires Alone(s) && StatesOf(s, states) && Follows(s, disks) && Mirrors(tree, s.start.snapshot)
    requires Tidy(disks[0]) && TracksAll(s.start.snapshot, disks[0], s.maxBytes)
    ensures (forall k, path | 0 <= k <= |s.happenings| ::
               ContentAt(tree, states[k].rows, s.run, path) == HeldAt(disks[k], s.maxBytes, path))
       <==> (forall k | 0 <= k < |s.happenings| :: Progresses(s, k))
  {
    hide ContentAt, Progresses, Follows, Stepped;
    DisksPerState(s, disks);
    WatcherAloneAgreesIff(tree, s, states);
    forall k, path | 0 <= k <= |s.happenings|
      ensures RefAt(states[k].snapshot, path) == HeldAt(disks[k], s.maxBytes, path)
    {
      SnapshotFollowsDisk(s, states, disks, k);
      assert TracksDisk(states[k].snapshot, disks[k], s.maxBytes, path);
    }
  }

  lemma DisksPerState(s: Session, disks: seq<Disk>)
    requires Follows(s, disks)
    ensures |disks| == |s.happenings| + 1
  {
  }
}

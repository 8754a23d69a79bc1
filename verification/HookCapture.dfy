/** Hook capture: a manifest of the watched root, refreshed before a command and diffed after it. */
module HookCapture {
  import opened Wrappers
  import opened Replay

  /** One regular file as a scan meets it; `content` is None when reading it fails. */
  datatype Seen = Seen(path: Path, size: nat, mtime: int, content: Option<string>)

  datatype Entry = Entry(size: nat, mtime: int, ref: Option<BlobRef>)

  type Manifest = map<Path, Entry>

  datatype Delta = Delta(
    path: Path,
    op: FileOp,
    before: Option<BlobRef>,
    after: Option<BlobRef>,
    sizeBefore: Option<nat>,
    sizeAfter: Option<nat>,
    partial: bool
  )

  predicate DistinctPaths(scan: seq<Seen>) {
    forall i, j | 0 <= i < j < |scan| :: scan[i].path != scan[j].path
  }

  ghost predicate Scanned(scan: seq<Seen>, path: Path) {
    exists i :: 0 <= i < |scan| && scan[i].path == path
  }

  predicate SameStat(entry: Entry, seen: Seen) {
    entry.size == seen.size && entry.mtime == seen.mtime
  }

  /** `readEntry`: a file over the cap or unreadable is tracked without a blob. */
  function ReadEntry(seen: Seen, maxBytes: nat): Entry {
    if seen.size > maxBytes || seen.content.None? then Entry(seen.size, seen.mtime, None)
    else Entry(seen.size, seen.mtime, Some(BlobRef(seen.content.value)))
  }

  function EntryAt(m: Manifest, path: Path): Option<Entry> {
    if path in m then Some(m[path]) else None
  }

  /** An unchanged stat keeps the known entry, anything else is read afresh. */
  function EntryFor(before: Manifest, seen: Seen, maxBytes: nat): Entry {
    if seen.path in before && SameStat(before[seen.path], seen) then before[seen.path] else ReadEntry(seen, maxBytes)
  }

  /** The manifest after a pass over `scan`: unchanged stats keep their entry, every other scanned
      path is read afresh, and paths no longer there are dropped. */
  ghost predicate Refreshed(before: Manifest, after: Manifest, scan: seq<Seen>, maxBytes: nat) {
    && (forall i | 0 <= i < |scan| :: EntryAt(after, scan[i].path) == Some(EntryFor(before, scan[i], maxBytes)))
    && (forall path | path in after :: Scanned(scan, path))
  }

  // ----- What a pass reports -----

  function RefOf(entry: Option<Entry>): Option<BlobRef> {
    if entry.Some? then entry.value.ref else None
  }

  /** Known to exist, content not captured. */
  predicate Uncaptured(entry: Option<Entry>) {
    entry.Some? && entry.value.ref.None?
  }

  /** The delta between what the manifest knew of a path before and after; None when nothing is reported. */
  function DeltaOf(path: Path, prev: Option<Entry>, next: Option<Entry>): Option<Delta> {
    if prev.None? && next.None? then None
    else if prev.None? then
      Some(Delta(path, Create, None, next.value.ref, None, Some(next.value.size), next.value.ref.None?))
    else if next.None? then
      Some(Delta(path, Delete, prev.value.ref, None, Some(prev.value.size), None, prev.value.ref.None?))
    else if prev.value.ref.Some? && prev.value.ref == next.value.ref then None
    else if prev.value.ref.None? && next.value.ref.None? && prev.value.size == next.value.size then None
    else
      Some(Delta(path, Modify, prev.value.ref, next.value.ref, Some(prev.value.size), Some(next.value.size),
                 prev.value.ref.None? || next.value.ref.None?))
  }

  /** `deltas` are exactly the differences between two manifests, one per path. */
  ghost predicate Reports(before: Manifest, after: Manifest, deltas: seq<Delta>) {
    && (forall d | d in deltas :: DeltaOf(d.path, EntryAt(before, d.path), EntryAt(after, d.path)) == Some(d))
    && (forall path | DeltaOf(path, EntryAt(before, path), EntryAt(after, path)).Some? ::
          DeltaOf(path, EntryAt(before, path), EntryAt(after, path)).value in deltas)
    && (forall i, j | 0 <= i < j < |deltas| :: deltas[i].path != deltas[j].path)
  }

  class Capture {
    var manifest: Option<Manifest>
    const maxBytes: nat

    constructor (maxBytes: nat)
      ensures manifest.None? && this.maxBytes == maxBytes
    {
      manifest := None;
      this.maxBytes := maxBytes;
    }

    /** `buildManifest`: prime from nothing. */
    method Prime(scan: seq<Seen>)
      requires DistinctPaths(scan)
      modifies this`manifest
      ensures manifest.Some? && Refreshed(map[], manifest.value, scan, maxBytes)
    {
      var files: Manifest := map[];
      for i := 0 to |scan|
        invariant forall k | 0 <= k < i :: scan[k].path in files && files[scan[k].path] == ReadEntry(scan[k], maxBytes)
        invariant forall path | path in files :: Scanned(scan[..i], path)
      {
        files := files[scan[i].path := ReadEntry(scan[i], maxBytes)];
        forall path | path in files ensures Scanned(scan[..i + 1], path) {
        }
      }
      assert scan[..|scan|] == scan;
      manifest := Some(files);
    }

    /** `capturePre`: fold everything that changed since the last capture into the baseline, silently. */
    method CapturePre(scan: seq<Seen>) returns (refreshed: nat)
      requires DistinctPaths(scan)
      modifies this`manifest
      ensures manifest.Some?
      ensures Refreshed(if old(manifest).Some? then old(manifest).value else map[], manifest.value, scan, maxBytes)
    {
      if manifest.None? {
        Prime(scan);
        return 0;
      }
      var files, touched, deltas := Pass(manifest.value, scan);
      manifest := Some(files);
      refreshed := touched;
    }

    /** `capturePost`: the same pass, reporting what it folds in. Without a baseline it only primes. */
    method CapturePost(scan: seq<Seen>) returns (deltas: seq<Delta>)
      requires DistinctPaths(scan)
      modifies this`manifest
      ensures manifest.Some?
      ensures Refreshed(if old(manifest).Some? then old(manifest).value else map[], manifest.value, scan, maxBytes)
      ensures old(manifest).None? ==> deltas == []
      ensures old(manifest).Some? ==> Reports(old(manifest).value, manifest.value, deltas)
    {
      if manifest.None? {
        Prime(scan);
        return [];
      }
      var files, touched, found := Pass(manifest.value, scan);
      manifest := Some(files);
      deltas := found;
    }

    /** The two loops capturePre and capturePost share: scanned paths first, then vanished ones. */
    method Pass(before: Manifest, scan: seq<Seen>) returns (files: Manifest, touched: nat, deltas: seq<Delta>)
      requires DistinctPaths(scan)
      ensures Refreshed(before, files, scan, maxBytes) && Reports(before, files, deltas)
    {
      files, touched, deltas := FoldScanned(before, scan);
      files, touched, deltas := DropVanished(before, scan, files, touched, deltas);
    }

    method FoldScanned(before: Manifest, scan: seq<Seen>) returns (files: Manifest, touched: nat, deltas: seq<Delta>)
      requires DistinctPaths(scan)
      ensures Folded(before, files, scan, maxBytes) && Reports(before, files, deltas)
    {
      hide Folded, Reports;
      NothingFolded(before, maxBytes);
      assert scan[..0] == [];
      files, touched, deltas := before, 0, [];
      for i := 0 to |scan|
        invariant Folded(before, files, scan[..i], maxBytes) && Reports(before, files, deltas)
      {
        var seen := scan[i];
        ghost var earlier := files;
        FoldedOneMore(before, earlier, scan, i, maxBytes);
        if !(seen.path in before && SameStat(before[seen.path], seen)) {
          var entry := ReadEntry(seen, maxBytes);
          files := files[seen.path := entry];
          touched := touched + 1;
          ReportsOneMore(before, earlier, files, deltas, seen.path);
          var prev := EntryAt(before, seen.path);
          var sameBytes := prev.Some? && prev.value.ref.Some? && prev.value.ref == entry.ref;
          var touchedStub := prev.Some? && prev.value.ref.None? && entry.ref.None? && prev.value.size == entry.size;
          if !sameBytes && !touchedStub {
            var bothCaptured := entry.ref.Some? && (prev.None? || prev.value.ref.Some?);
            deltas := deltas + [Delta(seen.path, if prev.Some? then Modify else Create,
                                      if prev.Some? then prev.value.ref else None, entry.ref,
                                      if prev.Some? then Some(prev.value.size) else None, Some(entry.size),
                                      !bothCaptured)];
          }
        }
        assert files == earlier[seen.path := EntryFor(before, seen, maxBytes)];
      }
      assert scan[..|scan|] == scan;
    }

    method DropVanished(before: Manifest, scan: seq<Seen>, folded: Manifest, touched0: nat, deltas0: seq<Delta>)
      returns (files: Manifest, touched: nat, deltas: seq<Delta>)
      requires Folded(before, folded, scan, maxBytes) && Reports(before, folded, deltas0)
      ensures Refreshed(before, files, scan, maxBytes) && Reports(before, files, deltas)
    {
      files, touched, deltas := folded, touched0, deltas0;
      var present := set k | 0 <= k < |scan| :: scan[k].path;
      assert forall path :: path in present <==> Scanned(scan, path);
      var rest := folded.Keys - present;
      while rest != {}
        invariant rest <= folded.Keys - present
        invariant forall path ::
                    EntryAt(files, path) == if path in present || path in rest then EntryAt(folded, path) else None
        invariant Reports(before, files, deltas)
        decreases rest
      {
        var path :| path in rest;
        ghost var earlier := files;
        assert EntryAt(folded, path) == EntryAt(before, path);
        var prev := files[path];
        files := files - {path};
        touched := touched + 1;
        ReportsOneMore(before, earlier, files, deltas, path);
        deltas := deltas + [Delta(path, Delete, prev.ref, None, Some(prev.size), None, prev.ref.None?)];
        rest := rest - {path};
      }
    }
  }

  /** After the first loop over `scan`: scanned paths are up to date, every other path untouched. */
  ghost predicate Folded(before: Manifest, files: Manifest, scan: seq<Seen>, maxBytes: nat) {
    && (forall k | 0 <= k < |scan| :: EntryAt(files, scan[k].path) == Some(EntryFor(before, scan[k], maxBytes)))
    && (forall path | !Scanned(scan, path) :: EntryAt(files, path) == EntryAt(before, path))
  }

  lemma NothingFolded(before: Manifest, maxBytes: nat)
    ensures Folded(before, before, [], maxBytes) && Reports(before, before, [])
  {
  }

  lemma FoldedOneMore(before: Manifest, files: Manifest, scan: seq<Seen>, i: nat, maxBytes: nat)
    requires DistinctPaths(scan) && i < |scan| && Folded(before, files, scan[..i], maxBytes)
    ensures EntryAt(files, scan[i].path) == EntryAt(before, scan[i].path)
    ensures Folded(before, files[scan[i].path := EntryFor(before, scan[i], maxBytes)], scan[..i + 1], maxBytes)
  {
  }

  /** Changing the entry of one path not touched before adds its delta and no other. */
  lemma ReportsOneMore(before: Manifest, earlier: Manifest, later: Manifest, deltas: seq<Delta>, path: Path)
    requires Reports(before, earlier, deltas) && EntryAt(earlier, path) == EntryAt(before, path)
    requires forall other | other != path :: EntryAt(later, other) == EntryAt(earlier, other)
    ensures var report := DeltaOf(path, EntryAt(before, path), EntryAt(later, path));
            Reports(before, later, if report.Some? then deltas + [report.value] else deltas)
  {
  }

  // ----- Capture and replay agree -----

  /** A delta with the refs it has as a row. */
  function FullRow(d: Delta): Change {
    Change(d.op, d.path, None, d.before, d.after, None, false)
  }

  /** The row a delta becomes: a partial one carries no blob refs. */
  function RowOf(d: Delta): Change {
    if d.partial then Change(d.op, d.path, None, None, None, None, true) else FullRow(d)
  }

  function RowsOf(deltas: seq<Delta>): (rows: seq<Change>)
    ensures |rows| == |deltas|
    ensures forall i | 0 <= i < |deltas| :: rows[i] == RowOf(deltas[i])
  {
    seq(|deltas|, i requires 0 <= i < |deltas| => RowOf(deltas[i]))
  }

  /** A reported delta is one of the three snapshot operations, its row is accepted, and unless it
      is partial its refs are the two captured contents. */
  lemma DeltaIsAcceptable(path: Path, prev: Option<Entry>, next: Option<Entry>)
    requires DeltaOf(path, prev, next).Some?
    ensures var d := DeltaOf(path, prev, next).value;
            && SnapshotOp(d.op) && Acceptable(RowOf(d))
            && (!d.partial ==> d.before == RefOf(prev) && d.after == RefOf(next))
            && (d.partial <==> Uncaptured(prev) || Uncaptured(next))
  {
  }

  /** A tree holds exactly the captured contents of a manifest. */
  ghost predicate Mirrors(tree: Tree, m: Manifest) {
    forall path :: BlobAt(tree, path) == RefOf(EntryAt(m, path))
  }

  /** No path goes from captured to uncaptured or back between two manifests. */
  ghost predicate CoverageKept(before: Manifest, after: Manifest) {
    forall path ::
      !(Uncaptured(EntryAt(before, path)) && RefOf(EntryAt(after, path)).Some?)
      && !(RefOf(EntryAt(before, path)).Some? && Uncaptured(EntryAt(after, path)))
  }

  /** Path by path: replaying the reported rows moves a tree from the earlier snapshot to the later
      one wherever neither side is uncaptured, and leaves the path alone where one is. */
  lemma ReplayFollowsCapture(tree: Tree, before: Manifest, after: Manifest, deltas: seq<Delta>, path: Path)
    requires Mirrors(tree, before) && Reports(before, after, deltas)
    ensures BlobAt(Replayed(tree, RowsOf(deltas)), path) ==
            if Uncaptured(EntryAt(before, path)) || Uncaptured(EntryAt(after, path)) then RefOf(EntryAt(before, path))
            else RefOf(EntryAt(after, path))
  {
    hide Replayed, Applied, RowOf, DeltaOf, Uncaptured, Acceptable, SnapshotOp;
    forall i | 0 <= i < |deltas|
      ensures SnapshotOp(deltas[i].op) && RowsOf(deltas)[i].op == deltas[i].op
              && RowsOf(deltas)[i].path == deltas[i].path
    {
      assert deltas[i] in deltas;
      DeltaIsAcceptable(deltas[i].path, EntryAt(before, deltas[i].path), EntryAt(after, deltas[i].path));
      RowKeepsPath(deltas[i]);
    }
    ReplayedAt(tree, RowsOf(deltas), path);
    DeltaMoves(tree, path, EntryAt(before, path), EntryAt(after, path));
    var report := DeltaOf(path, EntryAt(before, path), EntryAt(after, path));
    if report.Some? {
      var i :| 0 <= i < |deltas| && deltas[i] == report.value;
      assert RowsOf(deltas)[i].path == path;
    } else {
      assert forall i | 0 <= i < |deltas| :: deltas[i] in deltas && deltas[i].path != path;
    }
  }

  lemma RowKeepsPath(d: Delta)
    ensures RowOf(d).op == d.op && RowOf(d).path == d.path
  {
  }

  lemma DeltaMoves(tree: Tree, path: Path, prev: Option<Entry>, next: Option<Entry>)
    requires BlobAt(tree, path) == RefOf(prev)
    ensures var report := DeltaOf(path, prev, next);
            && (report.Some? ==> report.value.path == path)
            && (if report.Some? then BlobAt(Applied(tree, RowOf(report.value)), path) else RefOf(prev)) ==
               if Uncaptured(prev) || Uncaptured(next) then RefOf(prev) else RefOf(next)
  {
    var report := DeltaOf(path, prev, next);
    if report.Some? {
      DeltaIsAcceptable(path, prev, next);
      AppliedContent(tree, RowOf(report.value), path);
    }
  }

  /** Capture and replay agree on the whole tree exactly when no path crosses the capture limit;
      under the size cap, with every file readable, no path ever does. */
  lemma CaptureReplayAgree(tree: Tree, before: Manifest, after: Manifest, deltas: seq<Delta>)
    requires Mirrors(tree, before) && Reports(before, after, deltas)
    ensures Mirrors(Replayed(tree, RowsOf(deltas)), after) <==> CoverageKept(before, after)
    ensures forall d | d in deltas :: Acceptable(RowOf(d))
  {
    forall path
      ensures BlobAt(Replayed(tree, RowsOf(deltas)), path) == RefOf(EntryAt(after, path)) <==>
              !(Uncaptured(EntryAt(before, path)) && RefOf(EntryAt(after, path)).Some?)
              && !(RefOf(EntryAt(before, path)).Some? && Uncaptured(EntryAt(after, path)))
    {
      ReplayFollowsCapture(tree, before, after, deltas, path);
    }
    forall d | d in deltas ensures Acceptable(RowOf(d)) {
      DeltaIsAcceptable(d.path, EntryAt(before, d.path), EntryAt(after, d.path));
    }
  }

  /** Every scanned file is readable and within the cap. */
  predicate FullyReadable(scan: seq<Seen>, maxBytes: nat) {
    forall i | 0 <= i < |scan| :: scan[i].size <= maxBytes && scan[i].content.Some?
  }

  lemma ReadableKeepsCoverage(before: Manifest, after: Manifest, scan: seq<Seen>, maxBytes: nat)
    requires (forall path :: !Uncaptured(EntryAt(before, path))) && FullyReadable(scan, maxBytes)
    requires Refreshed(before, after, scan, maxBytes)
    ensures CoverageKept(before, after) && forall path :: !Uncaptured(EntryAt(after, path))
  {
  }

  /** What a look makes of a file it has not seen in this state: its stat, and its content if it was
      read and no larger than the cap. */
  lemma NewStatIsRead(before: Manifest, after: Manifest, scan: seq<Seen>, maxBytes: nat, i: nat)
    requires Refreshed(before, after, scan, maxBytes) && i < |scan|
    requires scan[i].path in before ==>
               before[scan[i].path].size != scan[i].size || before[scan[i].path].mtime != scan[i].mtime
    ensures var seen := scan[i];
            && seen.path in after && after[seen.path].size == seen.size && after[seen.path].mtime == seen.mtime
            && (seen.size <= maxBytes && seen.content.Some? ==>
                  after[seen.path].ref == Some(BlobRef(seen.content.value)))
            && (seen.size > maxBytes || seen.content.None? ==> after[seen.path].ref == None)
  {
    assert EntryAt(after, scan[i].path) == Some(EntryFor(before, scan[i], maxBytes));
  }

  /** A captured file that grows past the cap: replay goes on showing the old content, which the
      later snapshot no longer holds. */
  lemma GrowthPastCapDiverges(path: Path, content: string, mode: nat, size: nat, grown: nat, maxBytes: nat)
    requires size <= maxBytes < grown
    ensures var before := map[path := Entry(size, 0, Some(BlobRef(content)))];
            var after := map[path := Entry(grown, 1, None)];
            var deltas := [Delta(path, Modify, Some(BlobRef(content)), None, Some(size), Some(grown), true)];
            var tree := map[path := File(BlobRef(content), mode)];
            && Refreshed(map[], before, [Seen(path, size, 0, Some(content))], maxBytes)
            && Refreshed(before, after, [Seen(path, grown, 1, None)], maxBytes) && Reports(before, after, deltas)
            && !CoverageKept(before, after) && Mirrors(tree, before)
            && Replayed(tree, RowsOf(deltas)) == tree && !Mirrors(tree, after)
  {
    var before := map[path := Entry(size, 0, Some(BlobRef(content)))];
    var after := map[path := Entry(grown, 1, None)];
    var d := Delta(path, Modify, Some(BlobRef(content)), None, Some(size), Some(grown), true);
    var tree := map[path := File(BlobRef(content), mode)];
    assert [Seen(path, size, 0, Some(content))][0].path == path && [Seen(path, grown, 1, None)][0].path == path;
    assert EntryAt(before, path) == Some(before[path]) && EntryAt(after, path) == Some(after[path]);
    assert RefOf(EntryAt(before, path)).Some? && Uncaptured(EntryAt(after, path));
    assert RowsOf([d])[..0] == [] && Replayed(tree, RowsOf([d])[..0]) == tree;
    assert BlobAt(tree, path) == Some(BlobRef(content));
  }

  // ----- The manifest and the disk -----

  /** The manifest holds what the scan read at every scanned path. */
  ghost predicate Current(m: Manifest, scan: seq<Seen>, maxBytes: nat) {
    && (forall i | 0 <= i < |scan| :: EntryAt(m, scan[i].path) == Some(ReadEntry(scan[i], maxBytes)))
    && (forall path | path in m :: Scanned(scan, path))
  }

  /** No path keeps its size and mtime from one scan to the next while what is read there changes. */
  ghost predicate StatTells(earlier: seq<Seen>, later: seq<Seen>, maxBytes: nat) {
    forall i, j | 0 <= i < |earlier| && 0 <= j < |later| && SameButContent(earlier[i], later[j]) ::
      ReadEntry(earlier[i], maxBytes) == ReadEntry(later[j], maxBytes)
  }

  predicate SameButContent(a: Seen, b: Seen) {
    a.path == b.path && a.size == b.size && a.mtime == b.mtime
  }

  /** After one pass from a manifest that holds the earlier scan. */
  lemma PassIsCurrentIff(before: Manifest, after: Manifest, earlier: seq<Seen>, later: seq<Seen>, maxBytes: nat)
    requires DistinctPaths(earlier) && Current(before, earlier, maxBytes) && Refreshed(before, after, later, maxBytes)
    ensures Current(after, later, maxBytes) <==> StatTells(earlier, later, maxBytes)
  {
    forall j | 0 <= j < |later|
      ensures EntryAt(after, later[j].path) == Some(ReadEntry(later[j], maxBytes)) <==>
              forall i | 0 <= i < |earlier| && SameButContent(earlier[i], later[j]) ::
                ReadEntry(earlier[i], maxBytes) == ReadEntry(later[j], maxBytes)
    {
      if later[j].path in before {
        var i :| 0 <= i < |earlier| && earlier[i].path == later[j].path;
        assert before[later[j].path] == ReadEntry(earlier[i], maxBytes);
      }
    }
  }

  /** Over any run of passes from an empty baseline, the manifest always holds what was last scanned
      exactly when no content changes between two scans under the same size and mtime. */
  lemma ManifestsAreCurrentIff(manifests: seq<Manifest>, scans: seq<seq<Seen>>, maxBytes: nat)
    requires |manifests| == |scans| + 1 && manifests[0] == map[]
    requires forall k | 0 <= k < |scans| :: DistinctPaths(scans[k])
    requires forall k | 0 <= k < |scans| :: Refreshed(manifests[k], manifests[k + 1], scans[k], maxBytes)
    ensures (forall k | 0 <= k < |scans| :: Current(manifests[k + 1], scans[k], maxBytes))
       <==> (forall k | 0 < k < |scans| :: StatTells(scans[k - 1], scans[k], maxBytes))
  {
    if forall k | 0 < k < |scans| :: StatTells(scans[k - 1], scans[k], maxBytes) {
      forall k | 0 <= k < |scans| ensures Current(manifests[k + 1], scans[k], maxBytes) {
        TellingPassesAreCurrent(manifests, scans, maxBytes, k);
      }
    }
    if forall k | 0 <= k < |scans| :: Current(manifests[k + 1], scans[k], maxBytes) {
      forall k | 0 < k < |scans| ensures StatTells(scans[k - 1], scans[k], maxBytes) {
        assert Current(manifests[k - 1 + 1], scans[k - 1], maxBytes) && Current(manifests[k + 1], scans[k], maxBytes);
        PassIsCurrentIff(manifests[k], manifests[k + 1], scans[k - 1], scans[k], maxBytes);
      }
    }
  }

  lemma {:induction false} TellingPassesAreCurrent(manifests: seq<Manifest>, scans: seq<seq<Seen>>, maxBytes: nat,
                                                   k: nat)
    requires |manifests| == |scans| + 1 && manifests[0] == map[] && k < |scans|
    requires forall i | 0 <= i < |scans| :: DistinctPaths(scans[i])
    requires forall i | 0 <= i < |scans| :: Refreshed(manifests[i], manifests[i + 1], scans[i], maxBytes)
    requires forall i | 0 < i < |scans| :: StatTells(scans[i - 1], scans[i], maxBytes)
    ensures Current(manifests[k + 1], scans[k], maxBytes)
  {
    assert Refreshed(manifests[k], manifests[k + 1], scans[k], maxBytes);
    if k != 0 {
      TellingPassesAreCurrent(manifests, scans, maxBytes, k - 1);
      PassIsCurrentIff(manifests[k], manifests[k + 1], scans[k - 1], scans[k], maxBytes);
    }
  }

  /** A rewrite that keeps size and mtime is neither reported nor folded in. */
  lemma SameStatHidesChange(path: Path, size: nat, mtime: int, x: string, y: string, maxBytes: nat)
    requires x != y && size <= maxBytes
    ensures var earlier, later := [Seen(path, size, mtime, Some(x))], [Seen(path, size, mtime, Some(y))];
            var m := map[path := Entry(size, mtime, Some(BlobRef(x)))];
            && Refreshed(map[], m, earlier, maxBytes) && Refreshed(m, m, later, maxBytes) && Reports(m, m, [])
            && Current(m, earlier, maxBytes) && !Current(m, later, maxBytes)
  {
    var earlier, later := [Seen(path, size, mtime, Some(x))], [Seen(path, size, mtime, Some(y))];
    assert earlier[0].path == path && later[0].path == path;
  }

  // ----- One command between two hooks -----

  /** The path's stat, or its presence, differs between the two scans. */
  ghost predicate StatChanged(scan1: seq<Seen>, scan2: seq<Seen>, path: Path) {
    || (Scanned(scan1, path) != Scanned(scan2, path))
    || exists i, j :: 0 <= i < |scan1| && 0 <= j < |scan2| && scan1[i].path == path && scan2[j].path == path
                      && (scan1[i].size != scan2[j].size || scan1[i].mtime != scan2[j].mtime)
  }

  lemma ReportNeedsStatChange(baseline: Manifest, mid: Manifest, after: Manifest, scan1: seq<Seen>, scan2: seq<Seen>,
                              maxBytes: nat, deltas: seq<Delta>, d: Delta)
    requires DistinctPaths(scan1) && DistinctPaths(scan2)
    requires Refreshed(baseline, mid, scan1, maxBytes) && Refreshed(mid, after, scan2, maxBytes)
    requires Reports(mid, after, deltas) && d in deltas
    ensures StatChanged(scan1, scan2, d.path)
  {
  }

  ghost predicate NothingUncaptured(m: Option<Manifest>) {
    m.Some? ==> forall path :: !Uncaptured(EntryAt(m.value, path))
  }

  /** A pre hook, a command, and a post hook: only paths whose stat the command changed are
      reported, the manifest holds the disk afterwards exactly when every change of content showed in
      its stat, and while every file is readable and within the cap, replaying the report over the
      tree captured before the command (`mid`) gives the tree captured after it. */
  method BashCall(capture: Capture, scan1: seq<Seen>, scan2: seq<Seen>)
    returns (deltas: seq<Delta>, ghost mid: Manifest)
    requires DistinctPaths(scan1) && DistinctPaths(scan2)
    modifies capture`manifest
    ensures capture.manifest.Some?
    ensures Refreshed(if old(capture.manifest).Some? then old(capture.manifest).value else map[], mid, scan1,
                      capture.maxBytes)
    ensures Refreshed(mid, capture.manifest.value, scan2, capture.maxBytes)
    ensures Reports(mid, capture.manifest.value, deltas)
    ensures forall d | d in deltas :: StatChanged(scan1, scan2, d.path) && Acceptable(RowOf(d))
    ensures Current(mid, scan1, capture.maxBytes) ==>
              (Current(capture.manifest.value, scan2, capture.maxBytes) <==> StatTells(scan1, scan2, capture.maxBytes))
    ensures NothingUncaptured(old(capture.manifest))
              && FullyReadable(scan1, capture.maxBytes) && FullyReadable(scan2, capture.maxBytes) ==>
              NothingUncaptured(capture.manifest)
              && forall tree: Tree | Mirrors(tree, mid) ::
                   Mirrors(Replayed(tree, RowsOf(deltas)), capture.manifest.value)
  {
    ghost var baseline := if capture.manifest.Some? then capture.manifest.value else map[];
    var refreshed := capture.CapturePre(scan1);
    mid := capture.manifest.value;
    deltas := capture.CapturePost(scan2);
    ghost var after := capture.manifest.value;
    forall d | d in deltas ensures StatChanged(scan1, scan2, d.path) && Acceptable(RowOf(d)) {
      ReportNeedsStatChange(baseline, mid, after, scan1, scan2, capture.maxBytes, deltas, d);
      DeltaIsAcceptable(d.path, EntryAt(mid, d.path), EntryAt(after, d.path));
    }
    if Current(mid, scan1, capture.maxBytes) {
      PassIsCurrentIff(mid, after, scan1, scan2, capture.maxBytes);
    }
    if NothingUncaptured(old(capture.manifest)) && FullyReadable(scan1, capture.maxBytes)
       && FullyReadable(scan2, capture.maxBytes) {
      ReadableKeepsCoverage(baseline, mid, scan1, capture.maxBytes);
      ReadableKeepsCoverage(mid, after, scan2, capture.maxBytes);
      forall tree: Tree | Mirrors(tree, mid) ensures Mirrors(Replayed(tree, RowsOf(deltas)), after) {
        CaptureReplayAgree(tree, mid, after, deltas);
      }
    }
  }
}

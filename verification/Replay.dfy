/** The replay layer: file-change rows, their invariants, and applying them to a working tree. */
module Replay {
  import opened Wrappers

  type Path = string

  /** Content address: the hash of some content, represented by the content it hashes. */
  datatype BlobRef = BlobRef(content: string)

  datatype FileOp = Create | Modify | Delete | Rename | Chmod

  datatype Change = Change(
    op: FileOp,
    path: Path,
    oldPath: Option<Path>,
    before: Option<BlobRef>,
    after: Option<BlobRef>,
    modeAfter: Option<nat>,
    partial: bool
  )

  datatype File = File(blob: BlobRef, mode: nat)
  type Tree = map<Path, File>

  /** 0o100644 */
  const DEFAULT_MODE: nat := 33188

  /** `assertFileChangeInvariants` does not throw. */
  predicate Acceptable(fc: Change) {
    if fc.op == Chmod then true
    else if fc.partial then fc.before.None? && fc.after.None?
    else match fc.op
      case Create => fc.before.None? && fc.after.Some?
      case Delete => fc.before.Some? && fc.after.None?
      case _ => fc.before.Some? && fc.after.Some? && (fc.op == Rename ==> fc.oldPath.Some?)
  }

  function FileAfter(tree: Tree, path: Path, blob: BlobRef, mode: Option<nat>): File {
    File(blob, mode.GetOr(if path in tree then tree[path].mode else DEFAULT_MODE))
  }

  /** The tree one row leaves. */
  function Applied(tree: Tree, fc: Change): Tree {
    if fc.partial then tree
    else match fc.op
      case Delete => tree - {fc.path}
      case Rename =>
        var moved := if fc.oldPath.Some? then tree - {fc.oldPath.value} else tree;
        if fc.after.Some? then moved[fc.path := FileAfter(moved, fc.path, fc.after.value, fc.modeAfter)] else moved
      case Chmod =>
        if fc.path in tree && fc.modeAfter.Some? then tree[fc.path := tree[fc.path].(mode := fc.modeAfter.value)]
        else tree
      case _ =>
        if fc.after.Some? then tree[fc.path := FileAfter(tree, fc.path, fc.after.value, fc.modeAfter)] else tree
  }

  function Replayed(tree: Tree, changes: seq<Change>): Tree {
    if changes == [] then tree
    else Applied(Replayed(tree, changes[..|changes| - 1]), changes[|changes| - 1])
  }

  /** A working tree, changed in place row by row. */
  class WorkingTree {
    var files: Tree

    constructor (baseline: Tree)
      ensures files == baseline
    {
      files := baseline;
    }

    /** `applyFileChange`. */
    method Apply(fc: Change)
      modifies this
      ensures files == Applied(old(files), fc)
    {
      if fc.partial {
        return;
      }
      if fc.op == Delete {
        files := files - {fc.path};
        return;
      }
      if fc.op == Rename {
        if fc.oldPath.Some? {
          files := files - {fc.oldPath.value};
        }
        if fc.after.Some? {
          var mode := if fc.modeAfter.Some? then fc.modeAfter.value
                      else if fc.path in files then files[fc.path].mode else DEFAULT_MODE;
          files := files[fc.path := File(fc.after.value, mode)];
        }
        return;
      }
      if fc.op == Chmod {
        if fc.path in files && fc.modeAfter.Some? {
          files := files[fc.path := files[fc.path].(mode := fc.modeAfter.value)];
        }
        return;
      }
      if fc.after.Some? {
        var mode := if fc.modeAfter.Some? then fc.modeAfter.value
                    else if fc.path in files then files[fc.path].mode else DEFAULT_MODE;
        files := files[fc.path := File(fc.after.value, mode)];
      }
    }
  }

  lemma {:induction false} ReplayedConcat(tree: Tree, x: seq<Change>, y: seq<Change>)
    ensures Replayed(tree, x + y) == Replayed(Replayed(tree, x), y)
    decreases |y|
  {
    if y == [] {
      assert x + y == x;
    } else {
      assert (x + y)[..|x + y| - 1] == x + y[..|y| - 1];
      ReplayedConcat(tree, x, y[..|y| - 1]);
    }
  }

  // ----- The content of a tree, path by path -----

  function BlobAt(tree: Tree, path: Path): Option<BlobRef> {
    if path in tree then Some(tree[path].blob) else None
  }

  predicate SnapshotOp(op: FileOp) {
    op == Create || op == Modify || op == Delete
  }

  /** The content a row sets at a path whatever the tree held, if it sets any. A rename empties its
      old path before it fills the new one. */
  function ContentSet(fc: Change, path: Path): Option<Option<BlobRef>> {
    if fc.partial then None
    else match fc.op
      case Delete => if path == fc.path then Some(None) else None
      case Rename =>
        if path == fc.path && fc.after.Some? then Some(fc.after)
        else if fc.oldPath == Some(path) then Some(None) else None
      case Chmod => None
      case _ => if path == fc.path && fc.after.Some? then Some(fc.after) else None
  }

  lemma AppliedContent(tree: Tree, fc: Change, path: Path)
    ensures BlobAt(Applied(tree, fc), path) == ContentSet(fc, path).GetOr(BlobAt(tree, path))
  {
  }

  /** Replaying snapshot rows of distinct paths changes each path by its own row alone. */
  lemma {:induction false} ReplayedAt(tree: Tree, changes: seq<Change>, path: Path)
    requires forall i | 0 <= i < |changes| :: SnapshotOp(changes[i].op)
    requires forall i, j | 0 <= i < j < |changes| :: changes[i].path != changes[j].path
    ensures (forall i | 0 <= i < |changes| :: changes[i].path != path) ==>
              BlobAt(Replayed(tree, changes), path) == BlobAt(tree, path)
    ensures forall i | 0 <= i < |changes| && changes[i].path == path ::
              BlobAt(Replayed(tree, changes), path) == BlobAt(Applied(tree, changes[i]), path)
    decreases |changes|
  {
    if changes != [] {
      var n := |changes| - 1;
      ReplayedAt(tree, changes[..n], path);
      AppliedContent(Replayed(tree, changes[..n]), changes[n], path);
      AppliedContent(tree, changes[n], path);
    }
  }

  // ----- The mode of a file -----

  function ModeAt(tree: Tree, path: Path): Option<nat> {
    if path in tree then Some(tree[path].mode) else None
  }

  /** A row that says nothing about the mode of a file and does not take it away: of another path, of
      no content, or new content without a mode. */
  predicate LeavesMode(fc: Change, path: Path) {
    || fc.partial
    || (fc.path != path && (fc.op == Rename ==> fc.oldPath != Some(path)))
    || ((fc.op == Create || fc.op == Modify || fc.op == Chmod) && fc.modeAfter.None?)
  }

  /** A file keeps its mode through any rows that leave it. */
  lemma {:induction false} ModeLasts(tree: Tree, changes: seq<Change>, path: Path)
    requires path in tree && forall i | 0 <= i < |changes| :: LeavesMode(changes[i], path)
    ensures ModeAt(Replayed(tree, changes), path) == Some(tree[path].mode)
  {
    if changes != [] {
      ModeLasts(tree, changes[..|changes| - 1], path);
    }
  }

  /** A changed mode outlasts the edits after it, and changing it leaves every content alone. */
  lemma ChmodLasts(tree: Tree, chmod: Change, changes: seq<Change>, path: Path)
    requires chmod.op == Chmod && !chmod.partial && chmod.modeAfter.Some? && chmod.path == path && path in tree
    requires forall i | 0 <= i < |changes| :: LeavesMode(changes[i], path)
    ensures ModeAt(Replayed(tree, [chmod] + changes), path) == chmod.modeAfter
    ensures forall p :: BlobAt(Replayed(tree, [chmod]), p) == BlobAt(tree, p)
  {
    ReplayedConcat(tree, [chmod], changes);
    assert [chmod][..0] == [] && Replayed(tree, []) == tree;
    assert Replayed(tree, [chmod]) == Applied(tree, chmod);
    ModeLasts(Replayed(tree, [chmod]), changes, path);
  }

  /** A file created anew has the mode its row names, or 0o100644; what it had before it was deleted is
      forgotten. */
  lemma CreatedMode(tree: Tree, create: Change, changes: seq<Change>, path: Path)
    requires create.op == Create && Acceptable(create) && !create.partial && create.path == path && path !in tree
    requires forall i | 0 <= i < |changes| :: LeavesMode(changes[i], path)
    ensures ModeAt(Replayed(tree, [create] + changes), path) ==
            if create.modeAfter.Some? then create.modeAfter else Some(0x81A4)
  {
    ReplayedConcat(tree, [create], changes);
    assert [create][..0] == [] && Replayed(tree, []) == tree;
    assert Replayed(tree, [create]) == Applied(tree, create);
    ModeLasts(Replayed(tree, [create]), changes, path);
  }

  lemma DeletionForgetsMode(tree: Tree, delete: Change)
    requires delete.op == Delete && !delete.partial
    ensures ModeAt(Replayed(tree, [delete]), delete.path) == None
  {
    assert [delete][..0] == [] && Replayed(tree, []) == tree;
  }

  /** A renamed file takes the mode of its row, or of the file it replaces, or 0o100644; its old mode
      does not travel. */
  lemma RenamedMode(tree: Tree, rename: Change)
    requires rename.op == Rename && Acceptable(rename) && !rename.partial && rename.oldPath != Some(rename.path)
    ensures ModeAt(Applied(tree, rename), rename.path) ==
            if rename.modeAfter.Some? then rename.modeAfter
            else if rename.path in tree then Some(tree[rename.path].mode) else Some(0x81A4)
    ensures ModeAt(Applied(tree, rename), rename.oldPath.value) == None
  {
  }
}

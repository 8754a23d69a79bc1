/** The delegation tree under a run: `getChildRuns` and the recursive walk of `getDescendantRuns`. */
module Lineage {
  import opened Wrappers

  type RunId = string

  datatype RunRow = RunRow(id: RunId, parent: Option<RunId>)
  datatype Descendant = Descendant(id: RunId, depth: nat)

  /** The runs table, listed in the order of the child query (`started_at`, `run_id`); `run_id` is the primary key. */
  type Runs = rs: seq<RunRow> | forall j, k | 0 <= j < k < |rs| :: rs[j].id != rs[k].id

  /** `run` is a row of the table whose parent column names `parent`. */
  ghost predicate ChildOf(runs: Runs, run: RunId, parent: RunId) {
    RunRow(run, Some(parent)) in runs
  }

  /** Index of a run in the listing, or the length of the listing. */
  function Position(runs: Runs, run: RunId, from: nat := 0): (at: nat)
    requires from <= |runs|
    ensures from <= at <= |runs| && (at < |runs| ==> runs[at].id == run)
    decreases |runs| - from
  {
    if from == |runs| || runs[from].id == run then from else Position(runs, run, from + 1)
  }

  lemma {:induction false} PositionIs(runs: Runs, k: nat, from: nat)
    requires from <= k < |runs|
    ensures Position(runs, runs[k].id, from) == k
    decreases k - from
  {
    if from < k { PositionIs(runs, k, from + 1); }
  }

  predicate Precedes(runs: Runs, a: RunId, b: RunId) {
    Position(runs, a) < Position(runs, b)
  }

  function Ids(runs: Runs): set<RunId> {
    set row | row in runs :: row.id
  }

  /** `getChildRuns`. */
  function Children(runs: Runs, parent: RunId): (children: seq<RunId>)
    ensures forall c :: c in children <==> ChildOf(runs, c, parent)
    ensures forall j, k | 0 <= j < k < |children| :: Precedes(runs, children[j], children[k])
  {
    assert runs[..|runs|] == runs;
    ChildrenUpTo(runs, parent, |runs|)
  }

  function ChildrenUpTo(runs: Runs, parent: RunId, to: nat): (cs: seq<RunId>)
    requires to <= |runs|
    ensures forall c :: c in cs <==> RunRow(c, Some(parent)) in runs[..to]
    ensures forall c | c in cs :: Position(runs, c) < to
    ensures forall j, k | 0 <= j < k < |cs| :: Precedes(runs, cs[j], cs[k])
  {
    if to == 0 then [] else
    assert runs[..to] == runs[..to - 1] + [runs[to - 1]];
    PositionIs(runs, to - 1, 0);
    ChildrenUpTo(runs, parent, to - 1) + (if runs[to - 1].parent == Some(parent) then [runs[to - 1].id] else [])
  }

  // ----- Lineage chains -----

  /** Following parents from `x` meets `top` after `n` steps, without passing `root` before. */
  ghost predicate Chain(runs: Runs, root: RunId, x: RunId, top: RunId, n: nat)
    decreases n
  {
    if n == 0 then x == top
    else x != root && exists p :: ChildOf(runs, x, p) && Chain(runs, root, p, top, n - 1)
  }

  lemma {:induction false} ChainJoins(runs: Runs, root: RunId, x: RunId, a: RunId, n: nat, b: RunId, m: nat)
    requires Chain(runs, root, x, a, n) && Chain(runs, root, a, b, m)
    ensures Chain(runs, root, x, b, n + m)
    decreases n
  {
    if n > 0 {
      var p :| ChildOf(runs, x, p) && Chain(runs, root, p, a, n - 1);
      ChainJoins(runs, root, p, a, n - 1, b, m);
    }
  }

  /** The last step of a chain is a child of its top. */
  lemma {:induction false} LastStep(runs: Runs, root: RunId, x: RunId, top: RunId, n: nat) returns (c: RunId)
    requires n > 0 && Chain(runs, root, x, top, n)
    ensures c != root && ChildOf(runs, c, top) && Chain(runs, root, x, c, n - 1)
    decreases n
  {
    var p :| ChildOf(runs, x, p) && Chain(runs, root, p, top, n - 1);
    if n == 1 {
      c := x;
    } else {
      c := LastStep(runs, root, p, top, n - 1);
    }
  }

  /** Two chains of the same length meet the same run. */
  lemma {:induction false} SameTop(runs: Runs, root: RunId, x: RunId, a: RunId, b: RunId, n: nat)
    requires Chain(runs, root, x, a, n) && Chain(runs, root, x, b, n)
    ensures a == b
    decreases n
  {
    if n > 0 {
      var p :| ChildOf(runs, x, p) && Chain(runs, root, p, a, n - 1);
      var q :| ChildOf(runs, x, q) && Chain(runs, root, q, b, n - 1);
      SameTop(runs, root, p, a, b, n - 1);
    }
  }

  /** A run has one distance from the root. */
  lemma {:induction false} OneDistance(runs: Runs, root: RunId, x: RunId, n: nat, m: nat)
    requires Chain(runs, root, x, root, n) && Chain(runs, root, x, root, m)
    ensures n == m
    decreases n
  {
    if n > 0 && m > 0 {
      var p :| ChildOf(runs, x, p) && Chain(runs, root, p, root, n - 1);
      var q :| ChildOf(runs, x, q) && Chain(runs, root, q, root, m - 1);
      OneDistance(runs, root, p, n - 1, m - 1);
    }
  }

  /** Runs at the same depth share no descendant. */
  lemma Apart(runs: Runs, root: RunId, x: RunId, a: RunId, n: nat, b: RunId, m: nat, d: nat)
    requires Chain(runs, root, x, a, n) && Chain(runs, root, x, b, m)
    requires Chain(runs, root, a, root, d) && Chain(runs, root, b, root, d)
    ensures a == b && n == m
  {
    ChainJoins(runs, root, x, a, n, root, d);
    ChainJoins(runs, root, x, b, m, root, d);
    OneDistance(runs, root, x, n + d, m + d);
    SameTop(runs, root, x, a, b, n);
  }

  ghost predicate Beneath(runs: Runs, root: RunId, x: RunId, top: RunId) {
    exists n: nat :: n > 0 && Chain(runs, root, x, top, n)
  }

  lemma ChildChain(runs: Runs, root: RunId, c: RunId, p: RunId)
    requires c != root && ChildOf(runs, c, p)
    ensures Chain(runs, root, c, p, 1)
  {
  }

  /** The runs beneath `top`. */
  ghost function Below(runs: Runs, root: RunId, top: RunId): (below: set<RunId>)
    ensures forall x :: x in below <==> Beneath(runs, root, x, top)
  {
    assert forall x, p | ChildOf(runs, x, p) :: x in Ids(runs);
    set x | x in Ids(runs) && Beneath(runs, root, x, top)
  }

  /** Siblings are equally far from the root. */
  lemma SiblingDepths(runs: Runs, root: RunId, a: RunId, b: RunId, p: RunId, n: nat, m: nat)
    requires ChildOf(runs, a, p) && ChildOf(runs, b, p)
    requires n > 0 && Chain(runs, root, a, root, n) && m > 0 && Chain(runs, root, b, root, m)
    ensures n == m
  {
    OneDistance(runs, root, p, n - 1, m - 1);
  }

  // ----- Listings of a forest -----

  function IdsOf(part: seq<Descendant>): set<RunId> {
    set e | e in part :: e.id
  }

  ghost predicate UnderTop(runs: Runs, root: RunId, tops: seq<RunId>, depth: nat, e: Descendant) {
    && e.depth >= depth > 0 && Chain(runs, root, e.id, root, e.depth)
    && exists c :: c in tops && c != root && Chain(runs, root, e.id, c, e.depth - depth)
  }

  /** The entries are exactly the tops other than the root and the runs beneath them, at their
      distance from the root. */
  ghost predicate Lists(runs: Runs, root: RunId, tops: seq<RunId>, depth: nat, part: seq<Descendant>) {
    && (forall e | e in part :: UnderTop(runs, root, tops, depth, e))
    && (forall x, c, n: nat | c in tops && c != root && Chain(runs, root, x, c, n) :: x in IdsOf(part))
  }

  ghost predicate Once(part: seq<Descendant>) {
    forall j, k | 0 <= j < k < |part| :: part[j].id != part[k].id
  }

  /** Each run's descendants are the entries that follow it until the depth falls back to its own. */
  ghost predicate Preorder(runs: Runs, root: RunId, part: seq<Descendant>) {
    forall i, j | 0 <= i < j < |part| :: Beneath(runs, root, part[j].id, part[i].id) <==> StaysDeeper(part, i, j)
  }

  ghost predicate StaysDeeper(part: seq<Descendant>, i: nat, j: nat)
    requires i < j < |part|
  {
    forall k | i < k <= j :: part[k].depth > part[i].depth
  }

  ghost predicate SiblingsInOrder(runs: Runs, part: seq<Descendant>) {
    forall i, j, p | 0 <= i < j < |part| && ChildOf(runs, part[i].id, p) && ChildOf(runs, part[j].id, p) ::
      Precedes(runs, part[i].id, part[j].id)
  }

  ghost predicate Forest(runs: Runs, root: RunId, tops: seq<RunId>, depth: nat, part: seq<Descendant>) {
    && Lists(runs, root, tops, depth, part)
    && Once(part)
    && Preorder(runs, root, part)
    && SiblingsInOrder(runs, part)
  }

  /** The listings of the forest of some tops. */
  ghost function Forests(runs: Runs, root: RunId, tops: seq<RunId>, depth: nat): iset<seq<Descendant>> {
    iset part | Forest(runs, root, tops, depth, part)
  }

  // ----- A run in front of its subtree -----

  lemma UnderHead(runs: Runs, root: RunId, c: RunId, depth: nat, e: Descendant)
    requires c != root && depth > 0 && UnderTop(runs, root, Children(runs, c), depth + 1, e)
    ensures e.depth > depth && Chain(runs, root, e.id, c, e.depth - depth)
  {
    var ch :| ch in Children(runs, c) && ch != root && Chain(runs, root, e.id, ch, e.depth - (depth + 1));
    ChildChain(runs, root, ch, c);
    ChainJoins(runs, root, e.id, ch, e.depth - (depth + 1), c, 1);
  }

  lemma HeadMisses(runs: Runs, root: RunId, c: RunId, depth: nat, sub: seq<Descendant>, x: RunId, n: nat)
    requires c != root && depth > 0
    requires Lists(runs, root, Children(runs, c), depth + 1, sub) && Chain(runs, root, x, c, n)
    ensures x in IdsOf([Descendant(c, depth)] + sub)
  {
    var part := [Descendant(c, depth)] + sub;
    if n == 0 {
      assert part[0].id == x;
    } else {
      var ch := LastStep(runs, root, x, c, n);
      var e :| e in sub && e.id == x;
      assert e in part;
    }
  }

  lemma HeadLists(runs: Runs, root: RunId, c: RunId, depth: nat, sub: seq<Descendant>)
    requires c != root && depth > 0 && Chain(runs, root, c, root, depth)
    requires Lists(runs, root, Children(runs, c), depth + 1, sub)
    ensures Lists(runs, root, [c], depth, [Descendant(c, depth)] + sub)
  {
    var part := [Descendant(c, depth)] + sub;
    assert c in [c];
    forall e | e in part ensures UnderTop(runs, root, [c], depth, e) {
      if e in sub {
        UnderHead(runs, root, c, depth, e);
      } else {
        assert e == Descendant(c, depth) && Chain(runs, root, c, c, 0);
      }
    }
    forall x, n: nat | Chain(runs, root, x, c, n) ensures x in IdsOf(part) {
      HeadMisses(runs, root, c, depth, sub, x, n);
    }
  }

  lemma HeadOrder(runs: Runs, root: RunId, c: RunId, depth: nat, sub: seq<Descendant>)
    requires c != root && depth > 0
    requires Lists(runs, root, Children(runs, c), depth + 1, sub) && Preorder(runs, root, sub)
    ensures Preorder(runs, root, [Descendant(c, depth)] + sub)
  {
    var part := [Descendant(c, depth)] + sub;
    assert forall k | 0 < k < |part| :: part[k] == sub[k - 1] && part[k] in sub;
    forall e | e in sub ensures e.depth > depth && Beneath(runs, root, e.id, c) {
      UnderHead(runs, root, c, depth, e);
    }
    forall i, j | 0 <= i < j < |part|
      ensures Beneath(runs, root, part[j].id, part[i].id) <==> StaysDeeper(part, i, j) {
      if i > 0 {
        ShiftDeeper(part, sub, i, j);
        assert Beneath(runs, root, sub[j - 1].id, sub[i - 1].id) <==> StaysDeeper(sub, i - 1, j - 1);
      }
    }
  }

  lemma HeadOnce(runs: Runs, root: RunId, c: RunId, depth: nat, sub: seq<Descendant>)
    requires c != root && depth > 0 && Chain(runs, root, c, root, depth)
    requires Lists(runs, root, Children(runs, c), depth + 1, sub) && Once(sub)
    ensures Once([Descendant(c, depth)] + sub)
  {
    forall e | e in sub ensures e.id != c {
      assert UnderTop(runs, root, Children(runs, c), depth + 1, e);
      if e.id == c { OneDistance(runs, root, c, depth, e.depth); }
    }
  }

  lemma HeadSiblings(runs: Runs, root: RunId, c: RunId, depth: nat, sub: seq<Descendant>)
    requires c != root && depth > 0 && Chain(runs, root, c, root, depth)
    requires Lists(runs, root, Children(runs, c), depth + 1, sub) && SiblingsInOrder(runs, sub)
    ensures SiblingsInOrder(runs, [Descendant(c, depth)] + sub)
  {
    forall e, p | e in sub && ChildOf(runs, c, p) ensures !ChildOf(runs, e.id, p) {
      assert UnderTop(runs, root, Children(runs, c), depth + 1, e);
      if ChildOf(runs, e.id, p) { SiblingDepths(runs, root, c, e.id, p, depth, e.depth); }
    }
    var part := [Descendant(c, depth)] + sub;
    assert forall k | 0 < k < |part| :: part[k] == sub[k - 1] && part[k] in sub;
  }

  lemma HeadForest(runs: Runs, root: RunId, c: RunId, depth: nat, sub: seq<Descendant>)
    requires c != root && depth > 0 && Chain(runs, root, c, root, depth)
    requires Forest(runs, root, Children(runs, c), depth + 1, sub)
    ensures Forest(runs, root, [c], depth, [Descendant(c, depth)] + sub)
  {
    HeadLists(runs, root, c, depth, sub);
    HeadOnce(runs, root, c, depth, sub);
    HeadOrder(runs, root, c, depth, sub);
    HeadSiblings(runs, root, c, depth, sub);
  }

  lemma ShiftDeeper(part: seq<Descendant>, sub: seq<Descendant>, i: nat, j: nat)
    requires |part| == |sub| + 1 && part[1..] == sub && 0 < i < j < |part|
    ensures StaysDeeper(part, i, j) <==> StaysDeeper(sub, i - 1, j - 1)
  {
  }

  // ----- One tree after another -----

  ghost predicate Level(runs: Runs, root: RunId, tops: seq<RunId>, depth: nat) {
    forall t | t in tops && t != root :: Chain(runs, root, t, root, depth)
  }

  lemma OneMoreTop(tops: seq<RunId>, k: nat)
    requires k <= |tops|
    ensures tops[..0] == [] && tops[..|tops|] == tops
    ensures k < |tops| ==> tops[..k + 1] == tops[..k] + [tops[k]]
  {
  }

  lemma NoTops(runs: Runs, root: RunId, depth: nat)
    ensures [] in Forests(runs, root, [], depth)
  {
  }

  /** Nothing beneath one top is at or beneath another. */
  lemma TopsApart(runs: Runs, root: RunId, tops: seq<RunId>, c: RunId, depth: nat, e: Descendant, x: RunId, n: nat,
                  m: nat)
    requires Level(runs, root, tops, depth) && c != root && c !in tops && Chain(runs, root, c, root, depth)
    requires UnderTop(runs, root, tops, depth, e)
    requires Chain(runs, root, x, e.id, n)
    ensures !Chain(runs, root, x, c, m)
  {
    var t :| t in tops && t != root && Chain(runs, root, e.id, t, e.depth - depth);
    ChainJoins(runs, root, x, e.id, n, t, e.depth - depth);
    if Chain(runs, root, x, c, m) {
      Apart(runs, root, x, t, n + (e.depth - depth), c, m, depth);
    }
  }

  lemma NotAcross(runs: Runs, root: RunId, tops: seq<RunId>, c: RunId, depth: nat, e: Descendant, f: Descendant)
    requires Level(runs, root, tops, depth) && c != root && c !in tops && Chain(runs, root, c, root, depth)
    requires UnderTop(runs, root, tops, depth, e) && UnderTop(runs, root, [c], depth, f)
    ensures e.id != f.id && !Beneath(runs, root, f.id, e.id)
  {
    forall n: nat ensures !Chain(runs, root, f.id, e.id, n) {
      if Chain(runs, root, f.id, e.id, n) {
        TopsApart(runs, root, tops, c, depth, e, f.id, n, f.depth - depth);
      }
    }
    assert !Chain(runs, root, f.id, e.id, 0);
  }

  lemma SiblingsAcross(runs: Runs, root: RunId, tops: seq<RunId>, c: RunId, depth: nat, e: Descendant, f: Descendant,
                       p: RunId)
    requires Level(runs, root, tops, depth) && c != root && c !in tops && Chain(runs, root, c, root, depth)
    requires UnderTop(runs, root, tops, depth, e) && UnderTop(runs, root, [c], depth, f)
    requires forall t | t in tops :: Precedes(runs, t, c)
    requires ChildOf(runs, e.id, p) && ChildOf(runs, f.id, p)
    ensures Precedes(runs, e.id, f.id)
  {
    SiblingDepths(runs, root, e.id, f.id, p, e.depth, f.depth);
    var t :| t in tops && t != root && Chain(runs, root, e.id, t, e.depth - depth);
    if e.depth > depth { CousinsDiffer(runs, root, t, c, depth, e.id, f.id, p, e.depth - depth); }
  }

  lemma CousinsDiffer(runs: Runs, root: RunId, t: RunId, c: RunId, depth: nat, x: RunId, y: RunId, p: RunId, n: nat)
    requires Chain(runs, root, t, root, depth) && Chain(runs, root, c, root, depth) && n > 0
    requires Chain(runs, root, x, t, n) && Chain(runs, root, y, c, n) && ChildOf(runs, x, p) && ChildOf(runs, y, p)
    ensures t == c
  {
    SameTop(runs, root, p, t, c, n - 1);
  }

  lemma ConcatLists(runs: Runs, root: RunId, tops: seq<RunId>, c: RunId, depth: nat, part: seq<Descendant>,
                    tree: seq<Descendant>)
    requires Lists(runs, root, tops, depth, part) && Lists(runs, root, [c], depth, tree)
    ensures Lists(runs, root, tops + [c], depth, part + tree)
  {
    forall e | e in part + tree ensures UnderTop(runs, root, tops + [c], depth, e) {
      if e in part {
        var t :| t in tops && t != root && Chain(runs, root, e.id, t, e.depth - depth);
        assert t in tops + [c];
      } else {
        assert UnderTop(runs, root, [c], depth, e);
        assert c in tops + [c];
      }
    }
    assert IdsOf(part + tree) == IdsOf(part) + IdsOf(tree);
    forall x, t, n: nat | t in tops + [c] && t != root && Chain(runs, root, x, t, n) ensures x in IdsOf(part + tree) {
      assert t in tops || t in [c];
    }
  }

  lemma ConcatOnce(runs: Runs, root: RunId, tops: seq<RunId>, c: RunId, depth: nat, part: seq<Descendant>,
                   tree: seq<Descendant>)
    requires Level(runs, root, tops, depth) && c != root && c !in tops && Chain(runs, root, c, root, depth)
    requires Lists(runs, root, tops, depth, part) && Lists(runs, root, [c], depth, tree)
    requires Once(part) && Once(tree)
    ensures Once(part + tree)
  {
    forall e, f | e in part && f in tree ensures e.id != f.id {
      NotAcross(runs, root, tops, c, depth, e, f);
    }
  }

  lemma ConcatOrder(runs: Runs, root: RunId, tops: seq<RunId>, c: RunId, depth: nat, part: seq<Descendant>,
                    tree: seq<Descendant>)
    requires Level(runs, root, tops, depth) && c != root && c !in tops && Chain(runs, root, c, root, depth)
    requires Lists(runs, root, tops, depth, part) && Lists(runs, root, [c], depth, tree)
    requires Preorder(runs, root, part) && Preorder(runs, root, tree)
    requires tree != [] && tree[0].depth == depth
    ensures Preorder(runs, root, part + tree)
  {
    var all := part + tree;
    assert forall e | e in part :: UnderTop(runs, root, tops, depth, e) && depth <= e.depth;
    forall e, f | e in part && f in tree ensures !Beneath(runs, root, f.id, e.id) {
      NotAcross(runs, root, tops, c, depth, e, f);
    }
    forall i, j | 0 <= i < j < |all|
      ensures Beneath(runs, root, all[j].id, all[i].id) <==> StaysDeeper(all, i, j) {
      ConcatOrderAt(runs, root, part, tree, i, j);
    }
  }

  lemma ConcatOrderAt(runs: Runs, root: RunId, part: seq<Descendant>, tree: seq<Descendant>, i: nat, j: nat)
    requires Preorder(runs, root, part) && Preorder(runs, root, tree) && i < j < |part| + |tree|
    requires forall e, f | e in part && f in tree :: !Beneath(runs, root, f.id, e.id)
    requires tree != [] && forall e | e in part :: tree[0].depth <= e.depth
    ensures Beneath(runs, root, (part + tree)[j].id, (part + tree)[i].id) <==> StaysDeeper(part + tree, i, j)
  {
    if j < |part| {
      KeepDeeper(part, tree, i, j);
    } else if i < |part| {
      assert part[i] in part && tree[j - |part|] in tree;
      NotDeeper(part, tree, i, j);
    } else {
      SlideDeeper(part, tree, i - |part|, j - |part|);
    }
  }

  lemma KeepDeeper(part: seq<Descendant>, tree: seq<Descendant>, i: nat, j: nat)
    requires i < j < |part|
    ensures StaysDeeper(part + tree, i, j) <==> StaysDeeper(part, i, j)
  {
    var all := part + tree;
    assert forall k | 0 <= k < |part| :: part[k] == all[k];
  }

  lemma NotDeeper(part: seq<Descendant>, tree: seq<Descendant>, i: nat, j: nat)
    requires i < |part| <= j < |part| + |tree| && tree[0].depth <= part[i].depth
    ensures !StaysDeeper(part + tree, i, j)
  {
    assert (part + tree)[|part|] == tree[0];
  }

  lemma SlideDeeper(part: seq<Descendant>, tree: seq<Descendant>, i: nat, j: nat)
    requires i < j < |tree|
    ensures StaysDeeper(part + tree, |part| + i, |part| + j) <==> StaysDeeper(tree, i, j)
  {
    var all := part + tree;
    assert forall k | 0 <= k < |tree| :: tree[k] == all[|part| + k];
    if StaysDeeper(tree, i, j) {
      forall k | |part| + i < k <= |part| + j ensures all[k].depth > all[|part| + i].depth {
        assert tree[k - |part|].depth > tree[i].depth;
      }
    }
  }

  lemma ConcatSiblings(runs: Runs, root: RunId, tops: seq<RunId>, c: RunId, depth: nat, part: seq<Descendant>,
                       tree: seq<Descendant>)
    requires Level(runs, root, tops, depth) && c != root && c !in tops && Chain(runs, root, c, root, depth)
    requires Lists(runs, root, tops, depth, part) && Lists(runs, root, [c], depth, tree)
    requires SiblingsInOrder(runs, part) && SiblingsInOrder(runs, tree)
    requires forall t | t in tops :: Precedes(runs, t, c)
    ensures SiblingsInOrder(runs, part + tree)
  {
    forall e, f, p | e in part && f in tree && ChildOf(runs, e.id, p) && ChildOf(runs, f.id, p)
      ensures Precedes(runs, e.id, f.id) {
      SiblingsAcross(runs, root, tops, c, depth, e, f, p);
    }
  }

  lemma ConcatForest(runs: Runs, root: RunId, tops: seq<RunId>, c: RunId, depth: nat, part: seq<Descendant>,
                     tree: seq<Descendant>)
    requires Level(runs, root, tops, depth) && c != root && c !in tops && Chain(runs, root, c, root, depth)
    requires Forest(runs, root, tops, depth, part) && Forest(runs, root, [c], depth, tree)
    requires tree != [] && tree[0].depth == depth
    requires forall t | t in tops :: Precedes(runs, t, c)
    ensures Forest(runs, root, tops + [c], depth, part + tree)
  {
    ConcatLists(runs, root, tops, c, depth, part, tree);
    ConcatOnce(runs, root, tops, c, depth, part, tree);
    ConcatOrder(runs, root, tops, c, depth, part, tree);
    ConcatSiblings(runs, root, tops, c, depth, part, tree);
  }

  lemma RootIsNoTop(runs: Runs, root: RunId, tops: seq<RunId>, depth: nat, part: seq<Descendant>)
    requires Lists(runs, root, tops, depth, part)
    ensures Lists(runs, root, tops + [root], depth, part)
  {
    forall e | e in part ensures UnderTop(runs, root, tops + [root], depth, e) {
      var t :| t in tops && t != root && Chain(runs, root, e.id, t, e.depth - depth);
      assert t in tops + [root];
    }
    forall x, t, n: nat | t in tops + [root] && t != root && Chain(runs, root, x, t, n) ensures x in IdsOf(part) {
      assert t in tops;
    }
  }

  // ----- The walk -----

  /** The closure of `getDescendantRuns`: `seen` and `out` grow as `Walk` recurs. */
  class Walker {
    const runs: Runs
    const root: RunId
    var seen: set<RunId>
    var out: seq<Descendant>

    constructor (runs: Runs, root: RunId)
      ensures this.runs == runs && this.root == root && seen == {root} && out == []
    {
      this.runs := runs;
      this.root := root;
      seen := {root};
      out := [];
    }

    /** `walk`: appends the forest under `id`; terminates because `seen` grows within the table. */
    method Walk(id: RunId, depth: nat, ghost above: nat) returns (ghost part: seq<Descendant>)
      requires depth == above + 1 && Chain(runs, root, id, root, above)
      requires root in seen && seen !! Below(runs, root, id)
      modifies this
      ensures out == old(out) + part && part in Forests(runs, root, Children(runs, id), depth)
      ensures seen == old(seen) + IdsOf(part)
      decreases Ids(runs) - seen, 1
    {
      var children := Children(runs, id);
      ghost var before, was := out, seen;
      part := [];
      TopsLevel(runs, root, id, depth);
      NoTops(runs, root, depth);
      OneMoreTop(children, 0);
      for k := 0 to |children|
        invariant out == before + part && seen == was + IdsOf(part)
        invariant part in Forests(runs, root, children[..k], depth)
      {
        var child := children[k];
        ChildTurn(runs, root, id, depth, k, part, was);
        if child !in seen {
          ghost var sub := Enter(child, depth);
          ChildIsGraftable(runs, root, id, depth, k);
          OneMoreTree(runs, root, children[..k], children[..k + 1], child, depth, part, sub);
          Appended(before, part, Descendant(child, depth), sub);
          part := part + ([Descendant(child, depth)] + sub);
        }
      }
    }

    /** One turn of the loop of `walk`, for a child not seen before. */
    method Enter(child: RunId, depth: nat) returns (ghost sub: seq<Descendant>)
      requires depth > 0 && child != root && child in Ids(runs) && Chain(runs, root, child, root, depth)
      requires root in seen && child !in seen && (seen + {child}) !! Below(runs, root, child)
      modifies this
      ensures out == old(out) + [Descendant(child, depth)] + sub
      ensures sub in Forests(runs, root, Children(runs, child), depth + 1)
      ensures seen == old(seen) + {child} + IdsOf(sub)
      decreases Ids(runs) - seen, 0
    {
      seen := seen + {child};
      out := out + [Descendant(child, depth)];
      sub := Walk(child, depth + 1, depth);
    }
  }

  /** A child whose tree may follow the trees of the tops before it. */
  ghost predicate Graftable(runs: Runs, root: RunId, tops: seq<RunId>, more: seq<RunId>, c: RunId, depth: nat) {
    && Level(runs, root, tops, depth) && depth > 0 && more == tops + [c]
    && c != root && c !in tops && Chain(runs, root, c, root, depth)
    && forall t | t in tops :: Precedes(runs, t, c)
  }

  /** The tree of a child joins the listing. */
  lemma OneMoreTree(runs: Runs, root: RunId, tops: seq<RunId>, more: seq<RunId>, c: RunId, depth: nat,
                    part: seq<Descendant>, sub: seq<Descendant>)
    requires Graftable(runs, root, tops, more, c, depth)
    requires part in Forests(runs, root, tops, depth) && sub in Forests(runs, root, Children(runs, c), depth + 1)
    ensures part + ([Descendant(c, depth)] + sub) in Forests(runs, root, more, depth)
  {
    HeadForest(runs, root, c, depth, sub);
    ConcatForest(runs, root, tops, c, depth, part, [Descendant(c, depth)] + sub);
  }

  lemma ChildIsGraftable(runs: Runs, root: RunId, id: RunId, depth: nat, k: nat)
    requires k < |Children(runs, id)| && Level(runs, root, Children(runs, id), depth) && depth > 0
    requires Children(runs, id)[k] != root
    ensures Graftable(runs, root, Children(runs, id)[..k], Children(runs, id)[..k + 1], Children(runs, id)[k], depth)
  {
    var children := Children(runs, id);
    assert children[k] in children && forall t | t in children[..k] :: t in children;
  }

  lemma Appended(before: seq<Descendant>, part: seq<Descendant>, head: Descendant, sub: seq<Descendant>)
    ensures before + part + [head] + sub == before + (part + ([head] + sub))
    ensures IdsOf(part + ([head] + sub)) == IdsOf(part) + {head.id} + IdsOf(sub)
  {
    assert forall e :: e in part + ([head] + sub) <==> e in part || e == head || e in sub;
  }

  lemma TopsLevel(runs: Runs, root: RunId, id: RunId, depth: nat)
    requires depth > 0 && Chain(runs, root, id, root, depth - 1)
    ensures Level(runs, root, Children(runs, id), depth)
  {
  }

  /** Only a cycle back to the root meets a run already seen; any other child is new with all beneath it. */
  lemma ChildTurn(runs: Runs, root: RunId, id: RunId, depth: nat, k: nat, part: seq<Descendant>, was: set<RunId>)
    requires k < |Children(runs, id)| && Level(runs, root, Children(runs, id), depth)
    requires part in Forests(runs, root, Children(runs, id)[..k], depth)
    requires root in was && was !! Below(runs, root, id)
    ensures var c := Children(runs, id)[k];
            && (c in was + IdsOf(part) <==> c == root)
            && (c == root ==> part in Forests(runs, root, Children(runs, id)[..k + 1], depth))
            && (c != root ==> c in Ids(runs) && Chain(runs, root, c, root, depth)
                              && (was + IdsOf(part) + {c}) !! Below(runs, root, c))
  {
    var c := Children(runs, id)[k];
    OneMoreTop(Children(runs, id), k);
    if c == root {
      RootIsNoTop(runs, root, Children(runs, id)[..k], depth, part);
    } else {
      assert c in Children(runs, id);
      assert Chain(runs, root, c, c, 0);
      UnseenBeneath(runs, root, id, depth, k, part, was, c, 0);
      ChildUnseen(runs, root, id, depth, k, part, was);
    }
  }

  lemma UnseenBeneath(runs: Runs, root: RunId, id: RunId, depth: nat, k: nat, part: seq<Descendant>, was: set<RunId>,
                      x: RunId, n: nat)
    requires k < |Children(runs, id)| && Level(runs, root, Children(runs, id), depth)
    requires Lists(runs, root, Children(runs, id)[..k], depth, part)
    requires was !! Below(runs, root, id)
    requires Children(runs, id)[k] != root && Chain(runs, root, x, Children(runs, id)[k], n)
    ensures x !in was + IdsOf(part)
  {
    var c := Children(runs, id)[k];
    ChildChain(runs, root, c, id);
    ChainJoins(runs, root, x, c, n, id, 1);
    assert x in Below(runs, root, id);
    forall e | e in part ensures e.id != x {
      if e.id == x {
        assert Chain(runs, root, x, e.id, 0);
        assert UnderTop(runs, root, Children(runs, id)[..k], depth, e);
        TopsApart(runs, root, Children(runs, id)[..k], c, depth, e, x, 0, n);
      }
    }
  }

  lemma ChildUnseen(runs: Runs, root: RunId, id: RunId, depth: nat, k: nat, part: seq<Descendant>, was: set<RunId>)
    requires k < |Children(runs, id)| && Level(runs, root, Children(runs, id), depth)
    requires Lists(runs, root, Children(runs, id)[..k], depth, part)
    requires was !! Below(runs, root, id)
    requires Children(runs, id)[k] != root && Chain(runs, root, Children(runs, id)[k], root, depth)
    ensures (was + IdsOf(part) + {Children(runs, id)[k]}) !! Below(runs, root, Children(runs, id)[k])
  {
    var c := Children(runs, id)[k];
    forall x | x in Below(runs, root, c) ensures x !in was + IdsOf(part) && x != c {
      var n: nat :| n > 0 && Chain(runs, root, x, c, n);
      UnseenBeneath(runs, root, id, depth, k, part, was, x, n);
      if x == c {
        ChainJoins(runs, root, c, c, n, root, depth);
        OneDistance(runs, root, c, n + depth, depth);
      }
    }
  }

  /** `getDescendantRuns`: on any lineage table, cycles included, the runs that reach the root, each once and
      without the root, at their distance from it, in preorder with siblings in query order. */
  method GetDescendantRuns(runs: Runs, root: RunId) returns (out: seq<Descendant>)
    ensures root !in IdsOf(out) && forall x :: x in IdsOf(out) <==> Beneath(runs, root, x, root)
    ensures forall e | e in out :: e.depth > 0 && Chain(runs, root, e.id, root, e.depth)
    ensures Once(out) && Preorder(runs, root, out) && SiblingsInOrder(runs, out)
  {
    var walker := new Walker(runs, root);
    assert Chain(runs, root, root, root, 0);
    assert root !in Below(runs, root, root);
    ghost var part := walker.Walk(root, 1, 0);
    out := walker.out;
    assert out == part;
    forall e | e in out ensures e.id != root && e.depth > 0 && Chain(runs, root, e.id, root, e.depth) {
      assert UnderTop(runs, root, Children(runs, root), 1, e);
    }
    forall x | Beneath(runs, root, x, root) ensures x in IdsOf(out) {
      var n: nat :| n > 0 && Chain(runs, root, x, root, n);
      var c := LastStep(runs, root, x, root, n);
    }
  }
}

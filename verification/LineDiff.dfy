/** The LCS line diff: a dynamic-programming table, a backtrack that pushes operations in reverse,
    and a double reverse. */
module LineDiff {
  import opened Wrappers

  datatype Kind = Keep | Add | Remove
  datatype Op = Op(kind: Kind, lines: seq<string>)

  /** One line of an edit script. */
  datatype Edit = Edit(kind: Kind, line: string)

  // ----- Edit scripts and what they mean -----

  function EditsOf(op: Op): seq<Edit> {
    seq(|op.lines|, i requires 0 <= i < |op.lines| => Edit(op.kind, op.lines[i]))
  }

  function Flatten(ops: seq<Op>): seq<Edit> {
    if ops == [] then [] else Flatten(ops[..|ops| - 1]) + EditsOf(ops[|ops| - 1])
  }

  /** The lines a script consumes from the old file. */
  function OldLines(edits: seq<Edit>): seq<string> {
    if edits == [] then []
    else OldLines(edits[..|edits| - 1]) + (if edits[|edits| - 1].kind != Add then [edits[|edits| - 1].line] else [])
  }

  /** The lines a script produces for the new file. */
  function NewLines(edits: seq<Edit>): seq<string> {
    if edits == [] then []
    else NewLines(edits[..|edits| - 1]) + (if edits[|edits| - 1].kind != Remove then [edits[|edits| - 1].line] else [])
  }

  function Count(edits: seq<Edit>, kind: Kind): nat {
    if edits == [] then 0
    else Count(edits[..|edits| - 1], kind) + (if edits[|edits| - 1].kind == kind then 1 else 0)
  }

  ghost predicate Transforms(edits: seq<Edit>, a: seq<string>, b: seq<string>) {
    OldLines(edits) == a && NewLines(edits) == b
  }

  /** Lines a script adds or removes. */
  function Cost(edits: seq<Edit>): nat {
    Count(edits, Add) + Count(edits, Remove)
  }

  /** Every operation is a maximal run, and inside a changed region removals come before additions. */
  ghost predicate WellShaped(ops: seq<Op>) {
    && (forall k | 0 <= k < |ops| :: ops[k].lines != [])
    && (forall k | 0 <= k < |ops| - 1 ::
          ops[k].kind != ops[k + 1].kind && !(ops[k].kind == Add && ops[k + 1].kind == Remove))
  }

  // ----- Longest common subsequence -----

  function Max(x: nat, y: nat): nat {
    if x >= y then x else y
  }

  /** The recurrence the table is filled with, for a[..i] against b[..j]. */
  function Lcs(a: seq<string>, b: seq<string>, i: nat, j: nat): nat
    requires i <= |a| && j <= |b|
    decreases i + j
  {
    if i == 0 || j == 0 then 0
    else if a[i - 1] == b[j - 1] then Lcs(a, b, i - 1, j - 1) + 1
    else Max(Lcs(a, b, i - 1, j), Lcs(a, b, i, j - 1))
  }

  ghost predicate Increasing(at: seq<nat>, bound: nat) {
    && (forall k | 0 <= k < |at| :: at[k] < bound)
    && (forall j, k | 0 <= j < k < |at| :: at[j] < at[k])
  }

  /** Positions `p` in a[..i] and `q` in b[..j] that pick out the same lines in order. */
  ghost predicate CommonAt(a: seq<string>, b: seq<string>, i: nat, j: nat, p: seq<nat>, q: seq<nat>)
    requires i <= |a| && j <= |b|
  {
    && |p| == |q| && Increasing(p, i) && Increasing(q, j)
    && forall k | 0 <= k < |p| :: a[p[k]] == b[q[k]]
  }

  /** One more line on either side adds at most one common line. */
  lemma {:induction false} LcsSteps(a: seq<string>, b: seq<string>, i: nat, j: nat)
    requires i <= |a| && j <= |b|
    ensures i > 0 ==> Lcs(a, b, i - 1, j) <= Lcs(a, b, i, j) <= Lcs(a, b, i - 1, j) + 1
    ensures j > 0 ==> Lcs(a, b, i, j - 1) <= Lcs(a, b, i, j) <= Lcs(a, b, i, j - 1) + 1
    decreases i + j
  {
    if i > 0 && j > 0 {
      LcsSteps(a, b, i - 1, j);
      LcsSteps(a, b, i, j - 1);
      LcsSteps(a, b, i - 1, j - 1);
    }
  }

  /** Lcs bounds every common subsequence. */
  lemma {:induction false} LcsIsBound(a: seq<string>, b: seq<string>, i: nat, j: nat, p: seq<nat>, q: seq<nat>)
    requires i <= |a| && j <= |b| && CommonAt(a, b, i, j, p, q)
    ensures |p| <= Lcs(a, b, i, j)
    decreases i + j
  {
    if p != [] {
      var n := |p| - 1;
      LcsSteps(a, b, i, j);
      if p[n] < i - 1 {
        LcsIsBound(a, b, i - 1, j, p, q);
      } else if q[n] < j - 1 {
        LcsIsBound(a, b, i, j - 1, p, q);
      } else {
        LcsIsBound(a, b, i - 1, j - 1, p[..n], q[..n]);
      }
    }
  }

  /** The kept lines of any script are a common subsequence of the two files. */
  lemma {:induction false} KeptIsCommon(edits: seq<Edit>) returns (p: seq<nat>, q: seq<nat>)
    ensures CommonAt(OldLines(edits), NewLines(edits), |OldLines(edits)|, |NewLines(edits)|, p, q)
    ensures |p| == Count(edits, Keep)
  {
    p, q := [], [];
    if edits != [] {
      var rest := edits[..|edits| - 1];
      p, q := KeptIsCommon(rest);
      if edits[|edits| - 1].kind == Keep {
        p, q := p + [|OldLines(rest)|], q + [|NewLines(rest)|];
      }
    }
  }

  lemma {:induction false} CountsAndLengths(edits: seq<Edit>)
    ensures |OldLines(edits)| == Count(edits, Keep) + Count(edits, Remove)
    ensures |NewLines(edits)| == Count(edits, Keep) + Count(edits, Add)
  {
    if edits != [] {
      CountsAndLengths(edits[..|edits| - 1]);
    }
  }

  /** Keeping Lcs lines is keeping as many as any pair of files allows, and then no script from a
      to b is cheaper. */
  lemma KeepingLcsIsShortest(edits: seq<Edit>, other: seq<Edit>, a: seq<string>, b: seq<string>)
    requires Transforms(edits, a, b) && Count(edits, Keep) == Lcs(a, b, |a|, |b|)
    requires Transforms(other, a, b)
    ensures Cost(edits) <= Cost(other)
    ensures Cost(edits) == |a| + |b| - 2 * Lcs(a, b, |a|, |b|)
  {
    CountsAndLengths(edits);
    CountsAndLengths(other);
    var p, q := KeptIsCommon(other);
    LcsIsBound(a, b, |a|, |b|, p, q);
  }

  // ----- The table -----

  method FillTable(a: seq<string>, b: seq<string>) returns (dp: array2<nat>)
    ensures fresh(dp) && dp.Length0 == |a| + 1 && dp.Length1 == |b| + 1
    ensures forall i, j {:trigger dp[i, j]} | 0 <= i <= |a| && 0 <= j <= |b| :: dp[i, j] == Lcs(a, b, i, j)
  {
    dp := new nat[|a| + 1, |b| + 1]((i, j) => 0);
    for i := 1 to |a| + 1
      invariant forall x, y {:trigger dp[x, y]} | 0 <= x < i && 0 <= y <= |b| :: dp[x, y] == Lcs(a, b, x, y)
      invariant forall x | i <= x <= |a| :: dp[x, 0] == 0
    {
      for j := 1 to |b| + 1
        invariant forall x, y {:trigger dp[x, y]} | 0 <= x < i && 0 <= y <= |b| :: dp[x, y] == Lcs(a, b, x, y)
        invariant forall y {:trigger dp[i, y]} | 0 <= y < j :: dp[i, y] == Lcs(a, b, i, y)
        invariant forall x | i <= x <= |a| :: dp[x, 0] == 0
      {
        if a[i - 1] == b[j - 1] {
          dp[i, j] := dp[i - 1, j - 1] + 1;
        } else {
          dp[i, j] := Max(dp[i - 1, j], dp[i, j - 1]);
        }
      }
    }
  }

  // ----- Backtrack and double reverse -----

  function PushOp(ops: seq<Op>, kind: Kind, line: string): (pushed: seq<Op>)
    ensures Flatten(pushed) == Flatten(ops) + [Edit(kind, line)]
  {
    var n := |ops| - 1;
    if ops != [] && ops[n].kind == kind then
      var tail := Op(kind, ops[n].lines + [line]);
      assert EditsOf(tail) == EditsOf(ops[n]) + [Edit(kind, line)];
      ops[..n] + [tail]
    else
      assert EditsOf(Op(kind, [line])) == [Edit(kind, line)];
      ops + [Op(kind, [line])]
  }

  function Reversed<T>(s: seq<T>): (r: seq<T>)
    ensures |r| == |s| && forall k | 0 <= k < |s| :: r[k] == s[|s| - 1 - k]
  {
    if s == [] then [] else [s[|s| - 1]] + Reversed(s[..|s| - 1])
  }

  lemma ReversedConcat<T>(s: seq<T>, t: seq<T>)
    ensures Reversed(s + t) == Reversed(t) + Reversed(s)
  {
  }

  function FlipLines(ops: seq<Op>): seq<Op> {
    seq(|ops|, k requires 0 <= k < |ops| => Op(ops[k].kind, Reversed(ops[k].lines)))
  }

  lemma FlipsFirst(init: seq<Op>, tail: Op)
    ensures FlipLines(Reversed(init + [tail])) == [Op(tail.kind, Reversed(tail.lines))] + FlipLines(Reversed(init))
  {
  }

  lemma ReversedEdits(op: Op)
    ensures EditsOf(Op(op.kind, Reversed(op.lines))) == Reversed(EditsOf(op))
  {
  }

  /** Reversing the operations and then the lines of each reverses the whole script. */
  lemma {:induction false} DoubleReverse(ops: seq<Op>)
    ensures Flatten(FlipLines(Reversed(ops))) == Reversed(Flatten(ops))
    decreases |ops|
  {
    if ops == [] {
      assert FlipLines(Reversed(ops)) == [] && Reversed(Flatten(ops)) == [];
    } else {
      var init, tail := ops[..|ops| - 1], ops[|ops| - 1];
      assert ops == init + [tail] && Flatten(ops) == Flatten(init) + EditsOf(tail);
      hide Flatten, FlipLines, Reversed, EditsOf;
      var flipped := Op(tail.kind, Reversed(tail.lines));
      DoubleReverse(init);
      FlipsFirst(init, tail);
      FlattenConcat([flipped], FlipLines(Reversed(init)));
      FlattenOne(flipped);
      ReversedEdits(tail);
      ReversedConcat(Flatten(init), EditsOf(tail));
      assert Flatten(FlipLines(Reversed(ops))) == Reversed(Flatten(ops));
    }
  }

  lemma {:induction false} FlattenConcat(x: seq<Op>, y: seq<Op>)
    ensures Flatten(x + y) == Flatten(x) + Flatten(y)
    decreases |y|
  {
    if y == [] {
      assert x + y == x;
    } else {
      var n := |y| - 1;
      hide EditsOf;
      assert (x + y)[..|x + y| - 1] == x + y[..n];
      FlattenConcat(x, y[..n]);
      Assoc(Flatten(x), Flatten(y[..n]), EditsOf(y[n]));
    }
  }

  lemma {:induction false} Prepend(e: Edit, edits: seq<Edit>)
    ensures OldLines([e] + edits) == (if e.kind != Add then [e.line] else []) + OldLines(edits)
    ensures NewLines([e] + edits) == (if e.kind != Remove then [e.line] else []) + NewLines(edits)
    ensures forall kind :: Count([e] + edits, kind) == (if e.kind == kind then 1 else 0) + Count(edits, kind)
    decreases |edits|
  {
    if edits == [] {
      assert [e] + edits == [e];
    } else {
      var init, last := edits[..|edits| - 1], edits[|edits| - 1];
      Prepend(e, init);
      assert edits == init + [last];
      assert [e] + edits == ([e] + init) + [last];
      LinesSnoc(init, last);
      LinesSnoc([e] + init, last);
      hide OldLines, NewLines, Count;
      Assoc(if e.kind != Add then [e.line] else [], OldLines(init), if last.kind != Add then [last.line] else []);
      Assoc(if e.kind != Remove then [e.line] else [], NewLines(init), if last.kind != Remove then [last.line] else []);
    }
  }

  lemma LinesSnoc(edits: seq<Edit>, last: Edit)
    ensures OldLines(edits + [last]) == OldLines(edits) + (if last.kind != Add then [last.line] else [])
    ensures NewLines(edits + [last]) == NewLines(edits) + (if last.kind != Remove then [last.line] else [])
    ensures forall kind :: Count(edits + [last], kind) == Count(edits, kind) + (if last.kind == kind then 1 else 0)
  {
    assert (edits + [last])[..|edits|] == edits;
  }

  /** The script read off the operations pushed so far, which come last line first. */
  function Script(ops: seq<Op>): seq<Edit> {
    Reversed(Flatten(ops))
  }

  /** With `edits` done, what is left to explain is a[..i] against b[..j]. */
  ghost predicate Explains(a: seq<string>, b: seq<string>, i: nat, j: nat, edits: seq<Edit>)
    requires i <= |a| && j <= |b|
  {
    && a[..i] + OldLines(edits) == a
    && b[..j] + NewLines(edits) == b
    && Lcs(a, b, i, j) + Count(edits, Keep) == Lcs(a, b, |a|, |b|)
  }

  /** Right after a removal the table is strictly better here than one row down and one to the
      left, so the next step cannot be an addition. */
  ghost predicate RemovalTight(a: seq<string>, b: seq<string>, i: nat, j: nat, ops: seq<Op>)
    requires i <= |a| && j <= |b|
  {
    ops != [] && ops[|ops| - 1].kind == Remove ==>
      i < |a| && (j == 0 || Lcs(a, b, i + 1, j - 1) < Lcs(a, b, i, j))
  }

  /** As pushed: maximal runs, and never a removal pushed right before an addition. */
  predicate PushedShape(ops: seq<Op>) {
    ops == [] ||
    var n := |ops|;
    && PushedShape(ops[..n - 1])
    && ops[n - 1].lines != []
    && (n > 1 ==> MayFollow(ops[n - 2].kind, ops[n - 1].kind))
  }

  predicate MayFollow(pushed: Kind, next: Kind) {
    pushed != next && !(pushed == Remove && next == Add)
  }

  lemma {:induction false} PushedShapeAt(ops: seq<Op>, k: nat)
    requires PushedShape(ops) && k < |ops|
    ensures ops[k].lines != [] && (k > 0 ==> MayFollow(ops[k - 1].kind, ops[k].kind))
    decreases |ops|
  {
    if k < |ops| - 1 {
      PushedShapeAt(ops[..|ops| - 1], k);
    }
  }

  lemma PushExtends(ops: seq<Op>, kind: Kind, line: string)
    ensures Script(PushOp(ops, kind, line)) == [Edit(kind, line)] + Script(ops)
  {
  }

  lemma ExplainOneMore(a: seq<string>, b: seq<string>, i: nat, j: nat, i': nat, j': nat, edits: seq<Edit>, e: Edit)
    requires i' <= i <= |a| && j' <= j <= |b| && Explains(a, b, i, j, edits)
    requires a[..i] == a[..i'] + (if e.kind != Add then [e.line] else [])
    requires b[..j] == b[..j'] + (if e.kind != Remove then [e.line] else [])
    requires Lcs(a, b, i, j) == Lcs(a, b, i', j') + (if e.kind == Keep then 1 else 0)
    ensures Explains(a, b, i', j', [e] + edits)
  {
    Prepend(e, edits);
    Assoc(a[..i'], if e.kind != Add then [e.line] else [], OldLines(edits));
    Assoc(b[..j'], if e.kind != Remove then [e.line] else [], NewLines(edits));
  }

  lemma NoAdditionAfterRemoval(a: seq<string>, b: seq<string>, i: nat, j: nat, ops: seq<Op>)
    requires i <= |a| && 0 < j <= |b| && RemovalTight(a, b, i, j, ops) && !(i > 0 && a[i - 1] == b[j - 1])
    requires i == 0 || Lcs(a, b, i, j - 1) >= Lcs(a, b, i - 1, j)
    ensures ops == [] || ops[|ops| - 1].kind != Remove
  {
    if i < |a| {
      LcsSteps(a, b, i + 1, j - 1);
    }
  }

  lemma PushedShapeGrows(ops: seq<Op>, kind: Kind, line: string)
    requires PushedShape(ops)
    requires ops != [] && ops[|ops| - 1].kind == Remove ==> kind != Add
    ensures PushedShape(PushOp(ops, kind, line))
    ensures PushOp(ops, kind, line) != [] && PushOp(ops, kind, line)[|PushOp(ops, kind, line)| - 1].kind == kind
  {
  }

  ghost predicate Backtracking(a: seq<string>, b: seq<string>, i: nat, j: nat, ops: seq<Op>) {
    i <= |a| && j <= |b| && Explains(a, b, i, j, Script(ops)) && PushedShape(ops) && RemovalTight(a, b, i, j, ops)
  }

  /** The table allows stepping from (i, j) back to (i', j') by an edit of this kind. */
  ghost predicate OnPath(a: seq<string>, b: seq<string>, i: nat, j: nat, i': nat, j': nat, kind: Kind, line: string)
    requires i' <= i <= |a| && j' <= j <= |b|
  {
    && a[..i] == a[..i'] + (if kind != Add then [line] else [])
    && b[..j] == b[..j'] + (if kind != Remove then [line] else [])
    && Lcs(a, b, i, j) == Lcs(a, b, i', j') + (if kind == Keep then 1 else 0)
    && (kind == Remove ==> i' < |a| && (j' == 0 || Lcs(a, b, i' + 1, j' - 1) < Lcs(a, b, i', j')))
  }

  /** The three branches of the backtrack follow the table. */
  lemma BranchesFollowTable(a: seq<string>, b: seq<string>, i: nat, j: nat)
    requires i <= |a| && j <= |b| && (i > 0 || j > 0)
    ensures i > 0 && j > 0 && a[i - 1] == b[j - 1] ==> OnPath(a, b, i, j, i - 1, j - 1, Keep, a[i - 1])
    ensures !(i > 0 && j > 0 && a[i - 1] == b[j - 1]) ==>
              if j > 0 && (i == 0 || Lcs(a, b, i, j - 1) >= Lcs(a, b, i - 1, j))
              then OnPath(a, b, i, j, i, j - 1, Add, b[j - 1])
              else i > 0 && OnPath(a, b, i, j, i - 1, j, Remove, a[i - 1])
  {
  }

  /** One line pushed by `pushOp`, one step back along the table. */
  lemma PushKeeps(ops: seq<Op>, kind: Kind, line: string, a: seq<string>, b: seq<string>, i: nat, j: nat, i': nat,
                  j': nat)
    requires Backtracking(a, b, i, j, ops) && i' <= i && j' <= j
    requires OnPath(a, b, i, j, i', j', kind, line)
    requires ops != [] && ops[|ops| - 1].kind == Remove ==> kind != Add
    ensures Backtracking(a, b, i', j', PushOp(ops, kind, line))
  {
    ExplainOneMore(a, b, i, j, i', j', Script(ops), Edit(kind, line));
    PushExtends(ops, kind, line);
    PushedShapeGrows(ops, kind, line);
  }

  /** The backtracking loop of `lcsDiff`. */
  method Backtrack(a: seq<string>, b: seq<string>, dp: array2<nat>) returns (ops: seq<Op>)
    requires dp.Length0 == |a| + 1 && dp.Length1 == |b| + 1
    requires forall i, j {:trigger dp[i, j]} | 0 <= i <= |a| && 0 <= j <= |b| :: dp[i, j] == Lcs(a, b, i, j)
    ensures Backtracking(a, b, 0, 0, ops)
  {
    ops := [];
    var i, j := |a|, |b|;
    assert a[..i] == a && b[..j] == b;
    while i > 0 || j > 0
      invariant 0 <= i && 0 <= j && Backtracking(a, b, i, j, ops)
      decreases i + j
    {
      if i > 0 && j > 0 && a[i - 1] == b[j - 1] {
        BranchesFollowTable(a, b, i, j);
        PushKeeps(ops, Keep, a[i - 1], a, b, i, j, i - 1, j - 1);
        ops := PushOp(ops, Keep, a[i - 1]);
        i, j := i - 1, j - 1;
      } else {
        i, j, ops := StepAside(a, b, i, j, dp, ops);
      }
    }
  }

  /** The two branches of the backtrack where the lines differ. */
  method StepAside(a: seq<string>, b: seq<string>, i: nat, j: nat, dp: array2<nat>, ops: seq<Op>)
    returns (i': nat, j': nat, pushed: seq<Op>)
    requires dp.Length0 == |a| + 1 && dp.Length1 == |b| + 1
    requires forall i, j {:trigger dp[i, j]} | 0 <= i <= |a| && 0 <= j <= |b| :: dp[i, j] == Lcs(a, b, i, j)
    requires Backtracking(a, b, i, j, ops) && (i > 0 || j > 0) && !(i > 0 && j > 0 && a[i - 1] == b[j - 1])
    ensures Backtracking(a, b, i', j', pushed) && i' + j' == i + j - 1
  {
    BranchesFollowTable(a, b, i, j);
    if j > 0 && (i == 0 || dp[i, j - 1] >= dp[i - 1, j]) {
      NoAdditionAfterRemoval(a, b, i, j, ops);
      i', j' := i, j - 1;
      PushKeeps(ops, Add, b[j - 1], a, b, i, j, i, j - 1);
      pushed := PushOp(ops, Add, b[j - 1]);
    } else {
      i', j' := i - 1, j;
      PushKeeps(ops, Remove, a[i - 1], a, b, i, j, i - 1, j);
      pushed := PushOp(ops, Remove, a[i - 1]);
    }
  }

  /** The closing loop of `lcsDiff`: after `ops.reverse()`, every line list is reversed too. */
  method FlipEach(turned: seq<Op>) returns (ops: seq<Op>)
    ensures ops == FlipLines(turned)
  {
    ops := turned;
    for k := 0 to |turned|
      invariant |ops| == |turned|
      invariant forall m | 0 <= m < k :: ops[m] == Op(turned[m].kind, Reversed(turned[m].lines))
      invariant forall m | k <= m < |turned| :: ops[m] == turned[m]
    {
      ops := ops[k := Op(ops[k].kind, Reversed(ops[k].lines))];
    }
  }

  lemma FlippedShape(pushed: seq<Op>)
    requires PushedShape(pushed)
    ensures WellShaped(FlipLines(Reversed(pushed)))
  {
    var ops := FlipLines(Reversed(pushed));
    forall k | 0 <= k < |ops|
      ensures |ops[k].lines| > 0
      ensures k < |ops| - 1 ==> ops[k].kind != ops[k + 1].kind && !(ops[k].kind == Add && ops[k + 1].kind == Remove)
    {
      PushedShapeAt(pushed, |pushed| - 1 - k);
    }
  }

  /** `lcsDiff`: the operations turn a into b, keep as many lines as possible, and are well shaped. */
  method LcsDiff(a: seq<string>, b: seq<string>) returns (ops: seq<Op>)
    ensures Transforms(Flatten(ops), a, b)
    ensures Count(Flatten(ops), Keep) == Lcs(a, b, |a|, |b|)
    ensures WellShaped(ops)
  {
    hide Flatten, FlipLines, Count, WellShaped;
    if |a| == 0 {
      ops := if |b| > 0 then [Op(Add, b)] else [];
      OneSided(Add, b);
      return;
    }
    if |b| == 0 {
      ops := [Op(Remove, a)];
      OneSided(Remove, a);
      return;
    }
    var dp := FillTable(a, b);
    var pushed := Backtrack(a, b, dp);
    ops := FlipEach(Reversed(pushed));
    DoubleReverse(pushed);
    FlippedShape(pushed);
  }

  /** When one file is empty, the script is the other file. */
  lemma OneSided(kind: Kind, lines: seq<string>)
    requires kind != Keep
    ensures var ops := if |lines| > 0 then [Op(kind, lines)] else [];
            && Transforms(Flatten(ops), if kind == Add then [] else lines, if kind == Remove then [] else lines)
            && Count(Flatten(ops), Keep) == 0 && WellShaped(ops)
  {
    hide EditsOf, Count, OldLines, NewLines;
    Uniform(kind, lines);
    assert lines == [] ==> EditsOf(Op(kind, lines)) == [] by {
      NoEdits(kind);
    }
    FlattenOne(Op(kind, lines));
  }

  lemma NoEdits(kind: Kind)
    ensures EditsOf(Op(kind, [])) == []
  {
  }

  lemma FlattenOne(op: Op)
    ensures Flatten([op]) == EditsOf(op)
  {
  }

  lemma {:induction false} Uniform(kind: Kind, lines: seq<string>)
    requires kind != Keep
    ensures var edits := EditsOf(Op(kind, lines));
            && OldLines(edits) == (if kind == Add then [] else lines)
            && NewLines(edits) == (if kind == Remove then [] else lines)
            && Count(edits, Keep) == 0
    decreases |lines|
  {
    if lines != [] {
      var n := |lines| - 1;
      var front := EditsOf(Op(kind, lines[..n]));
      Uniform(kind, lines[..n]);
      LastEdit(kind, lines);
      LinesSnoc(front, Edit(kind, lines[n]));
    }
  }

  lemma LastEdit(kind: Kind, lines: seq<string>)
    requires lines != []
    ensures var n := |lines| - 1;
            && EditsOf(Op(kind, lines)) == EditsOf(Op(kind, lines[..n])) + [Edit(kind, lines[n])]
            && lines == lines[..n] + [lines[n]]
  {
  }

  // ----- diffLines -----

  /** `split(/\r?\n/)`: line breaks are LF with at most one CR before it. */
  function SplitLines(text: string): (lines: seq<string>)
    ensures lines != []
  {
    var k := LineBreak(text, 0);
    if k == |text| then [text]
    else [if k > 0 && text[k - 1] == '\r' then text[..k - 1] else text[..k]] + SplitLines(text[k + 1..])
  }

  function LineBreak(text: string, from: nat): (k: nat)
    requires from <= |text|
    ensures from <= k <= |text| && (k < |text| ==> text[k] == '\n') && '\n' !in text[from..k]
    decreases |text| - from
  {
    if from == |text| || text[from] == '\n' then from else LineBreak(text, from + 1)
  }

  function Break(crlf: bool): string {
    if crlf then "\r\n" else "\n"
  }

  predicate EndsInCr(line: string) {
    line != "" && line[|line| - 1] == '\r'
  }

  /** Lines joined with LF, or with CRLF where `crlf` says so. */
  function Joined(lines: seq<string>, crlf: seq<bool>): string
    requires |lines| == |crlf| + 1
  {
    if crlf == [] then lines[0]
    else lines[0] + Break(crlf[0]) + Joined(lines[1..], crlf[1..])
  }

  /** No line holds a line break, and none ends in a CR that the LF after it would take along. */
  predicate Separable(lines: seq<string>, crlf: seq<bool>)
    requires |lines| == |crlf| + 1
  {
    && (forall k | 0 <= k < |lines| :: '\n' !in lines[k])
    && (forall k | 0 <= k < |crlf| && !crlf[k] :: !EndsInCr(lines[k]))
  }

  /** A line without the CR its break takes along. */
  function Stripped(line: string): string {
    if EndsInCr(line) then line[..|line| - 1] else line
  }

  lemma StrippedBack(line: string)
    ensures Stripped(line) + Break(EndsInCr(line)) == line + "\n"
    ensures '\n' !in line ==> '\n' !in Stripped(line)
    ensures EndsInCr(line) || !EndsInCr(Stripped(line))
  {
    assert EndsInCr(line) ==> line == line[..|line| - 1] + "\r";
  }

  /** The first line of a text, up to its break. */
  lemma SplitFirst(line: string, rest: string)
    requires '\n' !in line
    ensures SplitLines(line) == [line]
    ensures SplitLines(line + "\n" + rest) == [Stripped(line)] + SplitLines(rest)
  {
    hide LineBreak;
    var text := line + "\n" + rest;
    BreakAt(line, |line|);
    BreakAt(text, |line|);
    assert text[..|line|] == line && text[|line| + 1..] == rest;
    assert EndsInCr(line) ==> text[..|line| - 1] == line[..|line| - 1];
  }

  /** The first break is the first line feed. */
  lemma BreakAt(text: string, at: nat)
    requires at <= |text| && '\n' !in text[..at] && (at < |text| ==> text[at] == '\n')
    ensures LineBreak(text, 0) == at
  {
    var k := LineBreak(text, 0);
    assert text[0..k] == text[..k];
  }

  lemma JoinedCons(line: string, lines: seq<string>, cr: bool, crlf: seq<bool>)
    requires |lines| == |crlf| + 1
    ensures Joined([line] + lines, [cr] + crlf) == line + Break(cr) + Joined(lines, crlf)
    ensures '\n' !in line && (cr || !EndsInCr(line)) && Separable(lines, crlf) ==>
              Separable([line] + lines, [cr] + crlf)
  {
    var allLines, all := [line] + lines, [cr] + crlf;
    assert allLines[1..] == lines && all[1..] == crlf;
    assert forall k | 0 < k < |allLines| :: allLines[k] == lines[k - 1];
    assert forall k | 0 < k < |all| :: all[k] == crlf[k - 1];
  }

  lemma SeparableTail(lines: seq<string>, crlf: seq<bool>)
    requires |lines| == |crlf| + 1 && Separable(lines, crlf) && crlf != []
    ensures Separable(lines[1..], crlf[1..]) && '\n' !in lines[0] && (crlf[0] || !EndsInCr(lines[0]))
  {
  }

  lemma JoinedOne(line: string)
    ensures Joined([line], []) == line && (Separable([line], []) <==> '\n' !in line)
  {
  }

  /** A line followed by its break, and the text as the first line leaves it. */
  lemma SplitBroken(line: string, cr: bool, rest: string)
    requires '\n' !in line && (cr || !EndsInCr(line))
    ensures SplitLines(line + Break(cr) + rest) == [line] + SplitLines(rest)
  {
    hide SplitLines;
    if cr {
      SplitFirst(line + "\r", rest);
      assert line + Break(true) + rest == (line + "\r") + "\n" + rest;
      assert (line + "\r")[..|line|] == line;
    } else {
      SplitFirst(line, rest);
    }
  }

  /** Splitting what was joined gives the lines back, whatever mix of line breaks joined them. */
  lemma {:induction false} SplitJoined(lines: seq<string>, crlf: seq<bool>)
    requires |lines| == |crlf| + 1 && Separable(lines, crlf)
    ensures SplitLines(Joined(lines, crlf)) == lines
  {
    hide *;
    if crlf == [] {
      assert lines == [lines[0]];
      JoinedOne(lines[0]);
      SplitFirst(lines[0], "");
    } else {
      SeparableTail(lines, crlf);
      SplitJoined(lines[1..], crlf[1..]);
      assert lines == [lines[0]] + lines[1..] && crlf == [crlf[0]] + crlf[1..];
      JoinedCons(lines[0], lines[1..], crlf[0], crlf[1..]);
      SplitBroken(lines[0], crlf[0], Joined(lines[1..], crlf[1..]));
    }
  }

  lemma Cut(text: string) returns (line: string, rest: string)
    ensures '\n' !in line
    ensures '\n' in text ==> text == line + "\n" + rest && |rest| < |text|
    ensures '\n' !in text ==> text == line
  {
    var k := LineBreak(text, 0);
    line, rest := text[..k], if k < |text| then text[k + 1..] else "";
    assert text[0..k] == line;
  }

  /** Every text is its lines joined again: no line holds a break, and nothing of the text is lost. */
  lemma {:induction false} JoinedSplit(text: string) returns (crlf: seq<bool>)
    ensures |SplitLines(text)| == |crlf| + 1 && Separable(SplitLines(text), crlf)
    ensures Joined(SplitLines(text), crlf) == text
    decreases |text|
  {
    hide *;
    var line, rest := Cut(text);
    if '\n' !in text {
      crlf := [];
      SplitFirst(text, "");
      JoinedOne(text);
    } else {
      var breaks := JoinedSplit(rest);
      crlf := [EndsInCr(line)] + breaks;
      SplitFirst(line, rest);
      StrippedBack(line);
      JoinedCons(Stripped(line), SplitLines(rest), EndsInCr(line), breaks);
    }
  }

  /** A text has one line more than it has line feeds. */
  lemma {:induction false} LinesAreBreaksPlusOne(text: string)
    ensures |SplitLines(text)| == multiset(text)['\n'] + 1
  {
    var k := LineBreak(text, 0);
    assert text[0..k] == text[..k];
    assert '\n' !in multiset(text[..k]);
    if k == |text| {
      assert text[..k] == text;
    } else {
      assert text == text[..k] + "\n" + text[k + 1..];
      LinesAreBreaksPlusOne(text[k + 1..]);
    }
  }

  function Marked(e: Edit): string {
    (match e.kind case Keep => " " case Add => "+" case Remove => "-") + e.line
  }

  /** A rendered hunk: the two line counts of its header and its marked body lines. */
  datatype Hunk = Hunk(oldCount: nat, newCount: nat, body: seq<string>)

  /** The body lines carrying one of `marks`, without their mark. */
  function Unmarked(body: seq<string>, marks: set<char>): seq<string> {
    if body == [] then []
    else
      var line := body[|body| - 1];
      Unmarked(body[..|body| - 1], marks) + (if line != "" && line[0] in marks then [line[1..]] else [])
  }

  function Body(edits: seq<Edit>): (body: seq<string>)
    ensures |body| == |edits|
    ensures forall k | 0 <= k < |edits| :: body[k] == Marked(edits[k])
  {
    seq(|edits|, k requires 0 <= k < |edits| => Marked(edits[k]))
  }

  /** The rendered body carries the whole script: its ' ' and '-' lines are the old file, its ' '
      and '+' lines the new one. */
  lemma {:induction false} BodySpellsFiles(edits: seq<Edit>)
    ensures Unmarked(Body(edits), {' ', '-'}) == OldLines(edits)
    ensures Unmarked(Body(edits), {' ', '+'}) == NewLines(edits)
  {
    if edits != [] {
      BodySpellsFiles(edits[..|edits| - 1]);
      assert Body(edits)[..|edits| - 1] == Body(edits[..|edits| - 1]);
    }
  }

  lemma {:induction false} CostFreeIsIdentity(edits: seq<Edit>)
    requires Cost(edits) == 0
    ensures OldLines(edits) == NewLines(edits)
  {
    if edits != [] {
      CostFreeIsIdentity(edits[..|edits| - 1]);
    }
  }

  lemma {:induction false} LcsOfSame(a: seq<string>, n: nat)
    requires n <= |a|
    ensures Lcs(a, a, n, n) == n
  {
    if n != 0 {
      LcsOfSame(a, n - 1);
    }
  }

  /** A rendered body with its counts of added and removed lines. */
  ghost predicate Renders(edits: seq<Edit>, body: seq<string>, added: nat, removed: nat) {
    body == Body(edits) && added == Count(edits, Add) && removed == Count(edits, Remove)
  }

  /** The inner loop of `diffLines` over the lines of one op. */
  method RenderOp(op: Op, body0: seq<string>, added0: nat, removed0: nat, ghost edits: seq<Edit>)
    returns (body: seq<string>, added: nat, removed: nat)
    requires Renders(edits, body0, added0, removed0)
    ensures Renders(edits + EditsOf(op), body, added, removed)
  {
    body, added, removed := body0, added0, removed0;
    assert edits + EditsOf(op)[..0] == edits;
    for m := 0 to |op.lines|
      invariant Renders(edits + EditsOf(op)[..m], body, added, removed)
    {
      var e := Edit(op.kind, op.lines[m]);
      assert edits + EditsOf(op)[..m + 1] == edits + EditsOf(op)[..m] + [e];
      body := body + [Marked(e)];
      if op.kind == Add {
        added := added + 1;
      } else if op.kind == Remove {
        removed := removed + 1;
      }
    }
    assert EditsOf(op)[..|op.lines|] == EditsOf(op);
  }

  /** The loop of `diffLines` over the script. */
  method Render(ops: seq<Op>) returns (body: seq<string>, added: nat, removed: nat)
    ensures Renders(Flatten(ops), body, added, removed)
  {
    body, added, removed := [], 0, 0;
    for k := 0 to |ops|
      invariant Renders(Flatten(ops[..k]), body, added, removed)
    {
      assert ops[..k + 1][..k] == ops[..k];
      body, added, removed := RenderOp(ops[k], body, added, removed, Flatten(ops[..k]));
    }
    assert ops[..|ops|] == ops;
  }

  /** `diffLines`: the hunk of a shortest script, no hunk exactly when the lines agree, and stats
      that count the script's added and removed lines. */
  method DiffLines(before: string, after: string) returns (unified: Option<Hunk>, added: nat, removed: nat)
    ensures unified.None? <==> SplitLines(before) == SplitLines(after)
    ensures unified.None? <==> added == 0 && removed == 0
    ensures unified.Some? ==>
              && unified.value.oldCount == |SplitLines(before)| && unified.value.newCount == |SplitLines(after)|
              && Unmarked(unified.value.body, {' ', '-'}) == SplitLines(before)
              && Unmarked(unified.value.body, {' ', '+'}) == SplitLines(after)
    ensures |SplitLines(before)| + added == |SplitLines(after)| + removed
    ensures forall other | Transforms(other, SplitLines(before), SplitLines(after)) :: added + removed <= Cost(other)
  {
    var a, b := SplitLines(before), SplitLines(after);
    var ops := LcsDiff(a, b);
    ghost var edits := Flatten(ops);
    var body;
    body, added, removed := Render(ops);
    BodySpellsFiles(edits);
    CountsAndLengths(edits);
    if a == b {
      LcsOfSame(a, |a|);
    }
    if Cost(edits) == 0 {
      CostFreeIsIdentity(edits);
    }
    forall other | Transforms(other, a, b) ensures added + removed <= Cost(other) {
      KeepingLcsIsShortest(edits, other, a, b);
    }
    unified := if added == 0 && removed == 0 then None else Some(Hunk(|a|, |b|, body));
  }
}

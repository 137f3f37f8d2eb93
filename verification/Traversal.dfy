/** doctest's traversal of a test case's decisions: the rerun loop visits every leaf of the decision tree
    exactly once, in lexicographic order, and stops. */
module Traversal {
  import opened Options

  type Signature = string

  /** What a test case's body decides, in the order it runs: a GENERATE with a value per branch, or a group of
      sibling SUBCASEs ending the body. */
  datatype Body =
    | Leaf
    | Generate(branches: seq<Body>)
    | Group(signatures: seq<Signature>, branches: seq<Body>)

  /** The choices that lead to a leaf. */
  type Path = seq<nat>

  function Branches(t: Body): seq<Body> {
    if t.Leaf? then [] else t.branches
  }

  predicate Distinct(signatures: seq<Signature>) {
    forall i, j :: 0 <= i < j < |signatures| ==> signatures[i] != signatures[j]
  }

  /** Generators offer at least one value; sibling subcases are told apart by their signatures. */
  predicate WellFormed(t: Body) {
    && (t.Generate? ==> |t.branches| > 0)
    && (t.Group? ==> |t.signatures| == |t.branches| > 0 && Distinct(t.signatures))
    && forall i :: 0 <= i < |Branches(t)| ==> WellFormed(Branches(t)[i])
  }

  // ---- the leaves of a tree ----

  function Under(i: nat, ps: seq<Path>): seq<Path> {
    seq(|ps|, k requires 0 <= k < |ps| => [i] + ps[k])
  }

  /** All leaf paths, in lexicographic order. */
  function Leaves(t: Body): seq<Path>
    decreases t, 0
  {
    if Branches(t) == [] then [[]] else LeavesFrom(t, 0)
  }

  function LeavesFrom(t: Body, i: nat): seq<Path>
    requires i <= |Branches(t)|
    decreases t, 0, |Branches(t)| - i
  {
    if i == |Branches(t)| then [] else Under(i, Leaves(Branches(t)[i])) + LeavesFrom(t, i + 1)
  }

  /** p leads from t to a leaf. */
  predicate IsLeafPath(t: Body, p: Path) {
    if Branches(t) == [] then p == []
    else p != [] && p[0] < |Branches(t)| && IsLeafPath(Branches(t)[p[0]], p[1..])
  }

  /** q is the start of a path in t. */
  predicate IsPrefix(t: Body, q: Path)
    decreases |q|
  {
    q == [] || (q[0] < |Branches(t)| && IsPrefix(Branches(t)[q[0]], q[1..]))
  }

  /** The leaf reached by following q and then always the first branch. */
  function Complete(t: Body, q: Path): Path
    requires IsPrefix(t, q)
    decreases t
  {
    if Branches(t) == [] then []
    else if q == [] then [0] + Complete(Branches(t)[0], [])
    else [q[0]] + Complete(Branches(t)[q[0]], q[1..])
  }

  /** How many branches there are at each decision of a path. */
  function Counts(t: Body, p: Path): seq<nat>
    requires IsLeafPath(t, p)
  {
    if p == [] then [] else [|Branches(t)|] + Counts(Branches(t)[p[0]], p[1..])
  }

  lemma {:induction false} CompleteIsLeaf(t: Body, q: Path)
    requires IsPrefix(t, q)
    ensures IsLeafPath(t, Complete(t, q))
    decreases t
  {
    if Branches(t) != [] {
      if q == [] { CompleteIsLeaf(Branches(t)[0], []); } else { CompleteIsLeaf(Branches(t)[q[0]], q[1..]); }
    }
  }

  /** The path after p: bump the last decision that has a branch left and forget what follows it. */
  function Successor(p: Path, counts: seq<nat>): Option<Path>
    requires |p| == |counts|
  {
    if p == [] then None
    else
      match Successor(p[1..], counts[1..])
      case Some(q) => Some([p[0]] + q)
      case None => if p[0] + 1 < counts[0] then Some([p[0] + 1]) else None
  }

  lemma {:induction false} CountsLength(t: Body, p: Path)
    requires IsLeafPath(t, p)
    ensures |Counts(t, p)| == |p|
    decreases |p|
  {
    if p != [] { CountsLength(Branches(t)[p[0]], p[1..]); }
  }

  /** leaves[k] of a tree, followed by whatever comes next. */
  ghost predicate NextIs(t: Body, leaves: seq<Path>, k: nat, p: Path, next: Option<Path>)
    requires k < |leaves| && IsLeafPath(t, p)
  {
    && p == leaves[k]
    && |Counts(t, p)| == |p|
    && (next.None? ==> k + 1 == |leaves|)
    && (next.Some? ==> k + 1 < |leaves| && IsPrefix(t, next.value) && Complete(t, next.value) == leaves[k + 1])
  }

  lemma {:induction false} LeavesNonEmpty(t: Body)
    ensures |Leaves(t)| > 0 && IsPrefix(t, []) && Leaves(t)[0] == Complete(t, [])
    decreases t
  {
    if Branches(t) != [] {
      LeavesNonEmpty(Branches(t)[0]);
      assert LeavesFrom(t, 0)[0] == Under(0, Leaves(Branches(t)[0]))[0];
    }
  }

  /** leaves[k] is a leaf of t, and completing its successor gives leaves[k + 1], if there is one. */
  ghost predicate LeadsOn(t: Body, leaves: seq<Path>, k: nat) {
    && k < |leaves| && IsLeafPath(t, leaves[k]) && |Counts(t, leaves[k])| == |leaves[k]|
    && NextIs(t, leaves, k, leaves[k], Successor(leaves[k], Counts(t, leaves[k])))
  }

  /** Going from the k-th leaf to its successor and completing it gives the (k+1)-th leaf. */
  lemma {:induction false} SuccessorIsNext(t: Body, k: nat)
    requires k < |Leaves(t)|
    ensures LeadsOn(t, Leaves(t), k)
    decreases t, |Branches(t)|
  {
    if Branches(t) != [] { SuccessorFrom(t, 0, k); }
  }

  lemma {:induction false} SuccessorFrom(t: Body, i: nat, k: nat)
    requires i < |Branches(t)| && k < |LeavesFrom(t, i)|
    ensures LeadsOn(t, LeavesFrom(t, i), k)
    decreases t, |Branches(t)| - i - 1
  {
    var here := Leaves(Branches(t)[i]);
    if k < |here| {
      SuccessorIsNext(Branches(t)[i], k);
      SuccessorInBranch(t, i, k);
    } else {
      if i + 1 < |Branches(t)| { SuccessorFrom(t, i + 1, k - |here|); }
      SuccessorInRest(t, i, k);
    }
  }

  /** The successor of [i] + p in t, when p is a path of the i-th branch. */
  lemma PathDeeper(t: Body, i: nat, p: Path)
    requires i < |Branches(t)| && IsLeafPath(Branches(t)[i], p) && |Counts(Branches(t)[i], p)| == |p|
    ensures var q := [i] + p;
      && IsLeafPath(t, q) && Counts(t, q) == [|Branches(t)|] + Counts(Branches(t)[i], p)
      && Successor(q, Counts(t, q))
         == match Successor(p, Counts(Branches(t)[i], p))
            case Some(next) => Some([i] + next)
            case None => if i + 1 < |Branches(t)| then Some([i + 1]) else None
  {
    var q := [i] + p;
    var counts := Counts(Branches(t)[i], p);
    assert q[1..] == p;
    assert Counts(t, q) == [|Branches(t)|] + counts;
    assert Counts(t, q)[1..] == counts;
  }

  /** A list of leaves leads on at k when the next path, if there is one, completes to the next leaf. */
  lemma LeadsOnTo(t: Body, leaves: seq<Path>, k: nat, next: Option<Path>)
    requires k < |leaves| && IsLeafPath(t, leaves[k]) && |Counts(t, leaves[k])| == |leaves[k]|
    requires Successor(leaves[k], Counts(t, leaves[k])) == next
    requires next.None? ==> k + 1 == |leaves|
    requires next.Some? ==> k + 1 < |leaves| && IsPrefix(t, next.value) && Complete(t, next.value) == leaves[k + 1]
    ensures LeadsOn(t, leaves, k)
  {
  }

  lemma CompleteInBranch(t: Body, i: nat, q: Path)
    requires i < |Branches(t)| && IsPrefix(Branches(t)[i], q)
    ensures IsPrefix(t, [i] + q) && Complete(t, [i] + q) == [i] + Complete(Branches(t)[i], q)
  {
    assert ([i] + q)[1..] == q;
  }

  lemma FirstLeafFrom(t: Body, i: nat)
    requires i < |Branches(t)|
    ensures |LeavesFrom(t, i)| > 0 && IsPrefix(t, [i]) && Complete(t, [i]) == LeavesFrom(t, i)[0]
  {
    LeavesNonEmpty(Branches(t)[i]);
    CompleteInBranch(t, i, []);
    assert [i] + [] == [i];
    assert LeavesFrom(t, i)[0] == Under(i, Leaves(Branches(t)[i]))[0];
  }

  /** The k-th leaf of branch i as a leaf of t, with its successor. */
  lemma LeafInBranch(t: Body, i: nat, k: nat)
    requires i < |Branches(t)| && LeadsOn(Branches(t)[i], Leaves(Branches(t)[i]), k)
    ensures var child, all := Branches(t)[i], LeavesFrom(t, i);
      var here := Leaves(child);
      && k < |all| && IsLeafPath(t, all[k]) && |Counts(t, all[k])| == |all[k]|
      && Successor(all[k], Counts(t, all[k]))
         == match Successor(here[k], Counts(child, here[k]))
            case Some(next) => Some([i] + next)
            case None => if i + 1 < |Branches(t)| then Some([i + 1]) else None
  {
    var here := Leaves(Branches(t)[i]);
    PathDeeper(t, i, here[k]);
    assert LeavesFrom(t, i)[k] == [i] + here[k];
  }

  lemma NextInBranch(t: Body, i: nat, k: nat, next: Path)
    requires i < |Branches(t)| && LeadsOn(Branches(t)[i], Leaves(Branches(t)[i]), k)
    requires var here := Leaves(Branches(t)[i]); Successor(here[k], Counts(Branches(t)[i], here[k])) == Some(next)
    ensures LeadsOn(t, LeavesFrom(t, i), k)
  {
    LeafInBranch(t, i, k);
    CompleteInBranch(t, i, next);
    assert LeavesFrom(t, i)[k + 1] == [i] + Leaves(Branches(t)[i])[k + 1];
    LeadsOnTo(t, LeavesFrom(t, i), k, Some([i] + next));
  }

  lemma AfterBranch(t: Body, i: nat)
    requires i < |Branches(t)|
    ensures var n := |Leaves(Branches(t)[i])|;
      && |LeavesFrom(t, i)| == n + |LeavesFrom(t, i + 1)|
      && (i + 1 == |Branches(t)| ==> |LeavesFrom(t, i)| == n)
      && (i + 1 < |Branches(t)| ==> n < |LeavesFrom(t, i)| && LeavesFrom(t, i)[n] == LeavesFrom(t, i + 1)[0])
  {
    if i + 1 < |Branches(t)| { FirstLeafFrom(t, i + 1); }
  }

  lemma NextBranch(t: Body, i: nat, k: nat)
    requires i < |Branches(t)| && LeadsOn(Branches(t)[i], Leaves(Branches(t)[i]), k)
    requires var here := Leaves(Branches(t)[i]); Successor(here[k], Counts(Branches(t)[i], here[k])) == None
    requires i + 1 < |Branches(t)|
    ensures LeadsOn(t, LeavesFrom(t, i), k)
  {
    LeafInBranch(t, i, k);
    AfterBranch(t, i);
    FirstLeafFrom(t, i + 1);
    LeadsOnTo(t, LeavesFrom(t, i), k, Some([i + 1]));
  }

  lemma NoNextBranch(t: Body, i: nat, k: nat)
    requires i < |Branches(t)| && LeadsOn(Branches(t)[i], Leaves(Branches(t)[i]), k)
    requires var here := Leaves(Branches(t)[i]); Successor(here[k], Counts(Branches(t)[i], here[k])) == None
    requires i + 1 == |Branches(t)|
    ensures LeadsOn(t, LeavesFrom(t, i), k)
  {
    LeafInBranch(t, i, k);
    AfterBranch(t, i);
    LeadsOnTo(t, LeavesFrom(t, i), k, None);
  }

  lemma SuccessorInBranch(t: Body, i: nat, k: nat)
    requires i < |Branches(t)| && LeadsOn(Branches(t)[i], Leaves(Branches(t)[i]), k)
    ensures LeadsOn(t, LeavesFrom(t, i), k)
  {
    var here := Leaves(Branches(t)[i]);
    match Successor(here[k], Counts(Branches(t)[i], here[k]))
    case Some(next) => NextInBranch(t, i, k, next);
    case None => if i + 1 < |Branches(t)| { NextBranch(t, i, k); } else { NoNextBranch(t, i, k); }
  }

  /** A leaf below a later branch: as in the list that starts there. */
  lemma SuccessorInRest(t: Body, i: nat, k: nat)
    requires i < |Branches(t)| && |Leaves(Branches(t)[i])| <= k < |LeavesFrom(t, i)|
    requires LeadsOn(t, LeavesFrom(t, i + 1), k - |Leaves(Branches(t)[i])|)
    ensures LeadsOn(t, LeavesFrom(t, i), k)
  {
    var all, rest, n := LeavesFrom(t, i), LeavesFrom(t, i + 1), |Leaves(Branches(t)[i])|;
    assert all[k] == rest[k - n];
    assert k + 1 < |all| ==> all[k + 1] == rest[k + 1 - n];
  }

  // ---- order, and that nothing is missed or repeated ----

  predicate Lex(p: Path, q: Path) {
    p != [] && q != [] && (p[0] < q[0] || (p[0] == q[0] && Lex(p[1..], q[1..])))
  }

  lemma {:induction false} LeavesSorted(t: Body, j: nat, k: nat)
    requires j < k < |Leaves(t)|
    ensures Lex(Leaves(t)[j], Leaves(t)[k])
    decreases t, |Branches(t)|
  {
    if Branches(t) != [] { LeavesFromSorted(t, 0, j, k); }
  }

  lemma {:induction false} FirstChoice(t: Body, i: nat, k: nat)
    requires i <= |Branches(t)| && k < |LeavesFrom(t, i)|
    ensures LeavesFrom(t, i)[k] != [] && LeavesFrom(t, i)[k][0] >= i
    decreases |Branches(t)| - i
  {
    var here := Leaves(Branches(t)[i]);
    if k >= |here| { FirstChoice(t, i + 1, k - |here|); }
  }

  lemma {:induction false} LeavesFromSorted(t: Body, i: nat, j: nat, k: nat)
    requires i < |Branches(t)| && j < k < |LeavesFrom(t, i)|
    ensures Lex(LeavesFrom(t, i)[j], LeavesFrom(t, i)[k])
    decreases t, |Branches(t)| - i - 1
  {
    var here := Leaves(Branches(t)[i]);
    var all, rest := LeavesFrom(t, i), LeavesFrom(t, i + 1);
    if k < |here| {
      LeavesSorted(Branches(t)[i], j, k);
      assert all[j] == [i] + here[j] && all[k] == [i] + here[k];
      assert all[j][1..] == here[j] && all[k][1..] == here[k];
    } else {
      assert all[k] == rest[k - |here|];
      if j < |here| {
        FirstChoice(t, i + 1, k - |here|);
        assert all[j] == [i] + here[j];
      } else {
        assert all[j] == rest[j - |here|];
        LeavesFromSorted(t, i + 1, j - |here|, k - |here|);
      }
    }
  }

  lemma {:induction false} LexIrreflexive(p: Path)
    ensures !Lex(p, p)
    decreases |p|
  {
    if p != [] { LexIrreflexive(p[1..]); }
  }

  lemma {:induction false} LeavesComplete(t: Body, p: Path)
    requires IsLeafPath(t, p)
    ensures p in Leaves(t)
    decreases t, |Branches(t)|
  {
    if Branches(t) != [] { LeavesFromComplete(t, 0, p); }
  }

  lemma {:induction false} LeavesFromComplete(t: Body, i: nat, p: Path)
    requires IsLeafPath(t, p) && i < |Branches(t)| && p != [] && i <= p[0]
    ensures p in LeavesFrom(t, i)
    decreases t, |Branches(t)| - i - 1
  {
    if p[0] == i {
      var here := Leaves(Branches(t)[i]);
      LeavesComplete(Branches(t)[i], p[1..]);
      var k :| 0 <= k < |here| && here[k] == p[1..];
      assert Under(i, here)[k] == p;
      assert LeavesFrom(t, i)[k] == p;
    } else {
      LeavesFromComplete(t, i + 1, p);
    }
  }

  /** The list of leaves holds every leaf exactly once, in strictly increasing lexicographic order. */
  lemma EveryLeafOnce(t: Body)
    ensures forall p :: p in Leaves(t) <==> IsLeafPath(t, p)
    ensures forall j, k :: 0 <= j < k < |Leaves(t)| ==>
              Lex(Leaves(t)[j], Leaves(t)[k]) && Leaves(t)[j] != Leaves(t)[k]
  {
    forall p ensures p in Leaves(t) <==> IsLeafPath(t, p) {
      if IsLeafPath(t, p) { LeavesComplete(t, p); }
      if p in Leaves(t) {
        var k :| 0 <= k < |Leaves(t)| && Leaves(t)[k] == p;
        SuccessorIsNext(t, k);
      }
    }
    forall j, k | 0 <= j < k < |Leaves(t)|
      ensures Lex(Leaves(t)[j], Leaves(t)[k]) && Leaves(t)[j] != Leaves(t)[k]
    {
      LeavesSorted(t, j, k);
      LexIrreflexive(Leaves(t)[j]);
    }
  }

  // ---- the traversal state ----

  datatype DecisionPoint = DecisionPoint(branchCount: nat, subcases: seq<Signature>)

  function BranchCounts(points: seq<DecisionPoint>): (counts: seq<nat>)
    ensures |counts| == |points|
    ensures forall i :: 0 <= i < |points| ==> counts[i] == points[i].branchCount
  {
    seq(|points|, i requires 0 <= i < |points| => points[i].branchCount)
  }

  /** The position of a signature among the siblings met so far, or one past them. */
  function IndexOf(subcases: seq<Signature>, signature: Signature): (i: nat)
    ensures i <= |subcases|
    ensures i < |subcases| ==> subcases[i] == signature
    ensures forall j :: 0 <= j < i ==> subcases[j] != signature
  {
    if subcases == [] || subcases[0] == signature then 0 else 1 + IndexOf(subcases[1..], signature)
  }

  lemma {:induction false} SuccessorAt(p: Path, counts: seq<nat>, i: nat)
    requires |p| == |counts| && i < |p| && p[i] + 1 < counts[i]
    requires forall j :: i < j < |p| ==> p[j] + 1 >= counts[j]
    ensures Successor(p, counts) == Some(p[..i] + [p[i] + 1])
  {
    if i == 0 {
      NoSuccessor(p[1..], counts[1..]);
      assert p[..0] + [p[0] + 1] == [p[0] + 1];
    } else {
      SuccessorAt(p[1..], counts[1..], i - 1);
      assert p[1..][..i - 1] == p[1..i];
      assert [p[0]] + (p[1..i] + [p[i] + 1]) == p[..i] + [p[i] + 1];
    }
  }

  lemma {:induction false} NoSuccessor(p: Path, counts: seq<nat>)
    requires |p| == |counts|
    requires forall j :: 0 <= j < |p| ==> p[j] + 1 >= counts[j]
    ensures Successor(p, counts) == None
  {
    if p != [] { NoSuccessor(p[1..], counts[1..]); }
  }

  /** The branch of t that q asks for, and what q says below it. */
  function Choice(q: Path): nat { if q == [] then 0 else q[0] }
  function Below(q: Path): Path { if q == [] then [] else q[1..] }

  /** A run of t below the choices `at`, asked to follow q: it recorded the whole path it took, which leads to a
      leaf, and the number of branches at each decision of it. */
  ghost predicate Follows(t: Body, at: Path, q: Path, path: Path, points: seq<DecisionPoint>) {
    && IsPrefix(t, q)
    && var full := Complete(t, q);
    && IsLeafPath(t, full) && path == at + full
    && |points| == |path| && BranchCounts(points[|at|..]) == Counts(t, full)
  }

  lemma CompleteDeeper(t: Body, q: Path)
    requires IsPrefix(t, q) && Choice(q) < |Branches(t)|
    ensures IsPrefix(Branches(t)[Choice(q)], Below(q))
    ensures Complete(t, q) == [Choice(q)] + Complete(Branches(t)[Choice(q)], Below(q))
  {
  }

  lemma CountsDeeper(t: Body, i: nat, inner: Path)
    requires i < |Branches(t)| && IsLeafPath(Branches(t)[i], inner)
    ensures IsLeafPath(t, [i] + inner)
    ensures Counts(t, [i] + inner) == [|Branches(t)|] + Counts(Branches(t)[i], inner)
  {
    assert ([i] + inner)[1..] == inner;
  }

  lemma BranchCountsFrom(points: seq<DecisionPoint>, d: nat)
    requires d < |points|
    ensures BranchCounts(points[d..]) == [points[d].branchCount] + BranchCounts(points[d + 1..])
  {
  }

  lemma FollowsDeeper(t: Body, at: Path, q: Path, path: Path, points: seq<DecisionPoint>)
    requires IsPrefix(t, q) && Choice(q) < |Branches(t)|
    requires Follows(Branches(t)[Choice(q)], at + [Choice(q)], Below(q), path, points)
    requires points[|at|].branchCount == |Branches(t)|
    ensures Follows(t, at, q, path, points)
  {
    var i := Choice(q);
    var inner := Complete(Branches(t)[i], Below(q));
    CompleteDeeper(t, q);
    CountsDeeper(t, i, inner);
    assert (at + [i]) + inner == at + ([i] + inner);
    BranchCountsFrom(points, |at|);
  }

  function Min(a: nat, b: nat): nat { if a < b then a else b }

  class TraversalState {
    var discovered: seq<DecisionPoint>
    var decisionPath: seq<nat>
    var decisionDepth: nat
    var enteredSubcaseDepths: seq<nat>
    var activeSubcaseDepth: nat

    constructor ()
      ensures decisionPath == []
    {
      discovered, decisionPath, decisionDepth, enteredSubcaseDepths, activeSubcaseDepth := [], [], 0, [], 0;
    }

    /** The current depth is at most one past the decision points met in this run. */
    predicate Positioned() reads this {
      && decisionDepth <= |discovered| && decisionDepth <= |decisionPath|
      && (decisionDepth < |discovered| ==> decisionDepth < |decisionPath|)
    }

    method EnsureDecisionPointAtCurrentDepth()
      requires Positioned()
      modifies this`discovered, this`decisionPath
      ensures Positioned() && decisionDepth < |discovered| && decisionDepth < |decisionPath|
      ensures discovered == old(discovered)
        + if decisionDepth == |old(discovered)| then [DecisionPoint(0, [])] else []
      ensures decisionPath == old(decisionPath)
        + if decisionDepth == |old(discovered)| == |old(decisionPath)| then [0] else []
    {
      if |discovered| == decisionDepth {
        discovered := discovered + [DecisionPoint(0, [])];
        if |decisionPath| == decisionDepth {
          decisionPath := decisionPath + [0];
        }
      }
    }

    method ResetForTestCase()
      modifies this
      ensures discovered == [] && decisionPath == [] && decisionDepth == 0
      ensures enteredSubcaseDepths == [] && activeSubcaseDepth == 0
    {
      decisionPath := [];
      discovered := [];
      enteredSubcaseDepths := [];
      activeSubcaseDepth := 0;
      decisionDepth := 0;
    }

    /** Forgets the run but keeps the decisions to follow in the next one. */
    method ResetForRun()
      modifies this
      ensures discovered == [] && decisionPath == old(decisionPath) && decisionDepth == 0
      ensures enteredSubcaseDepths == [] && activeSubcaseDepth == 0
    {
      activeSubcaseDepth := 0;
      discovered := [];
      decisionDepth := 0;
      enteredSubcaseDepths := [];
    }

    /** Moves on to the successor of the path just followed, if it has one. */
    method Advance() returns (more: bool)
      modifies this`decisionPath
      ensures var n := Min(|old(decisionPath)|, |discovered|);
              var next := Successor(old(decisionPath)[..n], BranchCounts(discovered)[..n]);
              && more == next.Some?
              && decisionPath == if more then next.value else old(decisionPath)
    {
      var maxDepth := Min(|decisionPath|, |discovered|);
      ghost var p, counts := decisionPath[..maxDepth], BranchCounts(discovered)[..maxDepth];
      var depth := maxDepth;
      while depth > 0
        invariant depth <= maxDepth && decisionPath == old(decisionPath)
        invariant forall j :: depth <= j < maxDepth ==> p[j] + 1 >= counts[j]
      {
        var index := depth - 1;
        if decisionPath[index] + 1 < discovered[index].branchCount {
          SuccessorAt(p, counts, index);
          decisionPath := decisionPath[index := decisionPath[index] + 1];
          decisionPath := decisionPath[..index + 1];
          assert decisionPath == p[..index] + [p[index] + 1];
          return true;
        }
        depth := depth - 1;
      }
      NoSuccessor(p, counts);
      return false;
    }

    /** Registers the sibling at the current depth; enters it exactly when it is the one the path asks for. */
    method TryEnterSubcase(signature: Signature) returns (entered: bool)
      requires Positioned()
      modifies this
      ensures var d := old(decisionDepth);
        var known := if d < |old(discovered)| then old(discovered)[d].subcases else [];
        var i := IndexOf(known, signature);
        var subcases := if i == |known| then known + [signature] else known;
        && decisionPath == old(decisionPath) + (if d == |old(discovered)| == |old(decisionPath)| then [0] else [])
        && discovered == (if d < |old(discovered)| then old(discovered)[d := DecisionPoint(|subcases|, subcases)]
                          else old(discovered) + [DecisionPoint(|subcases|, subcases)])
        && entered == (i == decisionPath[d])
        && decisionDepth == (if entered then d + 1 else d)
        && enteredSubcaseDepths == old(enteredSubcaseDepths) + (if entered then [d] else [])
        && activeSubcaseDepth == old(activeSubcaseDepth) + (if entered then 1 else 0)
    {
      EnsureDecisionPointAtCurrentDepth();
      var subcases := discovered[decisionDepth].subcases;
      ghost var known := subcases;
      var siblingIndex := 0;
      while siblingIndex < |subcases|
        invariant siblingIndex <= |subcases|
        invariant forall j :: 0 <= j < siblingIndex ==> subcases[j] != signature
      {
        if subcases[siblingIndex] == signature {
          break;
        }
        siblingIndex := siblingIndex + 1;
      }
      assert siblingIndex == IndexOf(known, signature);
      if siblingIndex == |subcases| {
        subcases := subcases + [signature];
      }
      discovered := discovered[decisionDepth := DecisionPoint(|subcases|, subcases)];
      if siblingIndex != decisionPath[decisionDepth] {
        return false;
      }
      enteredSubcaseDepths := enteredSubcaseDepths + [decisionDepth];
      activeSubcaseDepth := activeSubcaseDepth + 1;
      decisionDepth := decisionDepth + 1;
      return true;
    }

    method LeaveSubcase()
      requires enteredSubcaseDepths != [] && activeSubcaseDepth > 0
      modifies this`decisionDepth, this`enteredSubcaseDepths, this`activeSubcaseDepth
      ensures decisionDepth == old(enteredSubcaseDepths)[|old(enteredSubcaseDepths)| - 1]
      ensures enteredSubcaseDepths == old(enteredSubcaseDepths)[..|old(enteredSubcaseDepths)| - 1]
      ensures activeSubcaseDepth == old(activeSubcaseDepth) - 1
    {
      decisionDepth := enteredSubcaseDepths[|enteredSubcaseDepths| - 1];
      enteredSubcaseDepths := enteredSubcaseDepths[..|enteredSubcaseDepths| - 1];
      activeSubcaseDepth := activeSubcaseDepth - 1;
    }

    /** The branch to take at a generator; 0 when the path asks for one that is not there. */
    method AcquireGeneratorIndex(count: nat) returns (index: nat)
      requires Positioned()
      modifies this`discovered, this`decisionPath, this`decisionDepth
      ensures var d := old(decisionDepth);
        && decisionPath == old(decisionPath) + (if d == |old(discovered)| == |old(decisionPath)| then [0] else [])
        && |discovered| == (if d == |old(discovered)| then d + 1 else |old(discovered)|)
        && discovered[d].branchCount == count
        && (forall i :: 0 <= i < |old(discovered)| && i != d ==> discovered[i] == old(discovered)[i])
        && decisionDepth == d + 1
        && index == (if decisionPath[d] < count then decisionPath[d] else 0)
    {
      EnsureDecisionPointAtCurrentDepth();
      discovered := discovered[decisionDepth := discovered[decisionDepth].(branchCount := count)];
      index := decisionPath[decisionDepth];
      decisionDepth := decisionDepth + 1;
      return if index < count then index else 0;
    }

    /** A run is about to enter a body: it has met exactly the decisions `at`, and the path to follow continues in t. */
    ghost predicate Entering(t: Body, at: Path) reads this {
      && WellFormed(t)
      && decisionDepth == |discovered| == |at| <= |decisionPath|
      && decisionPath[..|at|] == at && IsPrefix(t, decisionPath[|at|..])
    }

    /** One run of a body that sits below the choices `at`: visits exactly one leaf, the first one that
        continues the path to follow, and records that leaf's whole path and branch counts. */
    method RunBody(t: Body, at: Path) returns (visits: seq<Path>)
      requires Entering(t, at)
      modifies this
      ensures Follows(t, at, old(decisionPath)[|at|..], decisionPath, discovered)
      ensures visits == [decisionPath] && discovered[..|at|] == old(discovered)
      ensures enteredSubcaseDepths == old(enteredSubcaseDepths) && activeSubcaseDepth == old(activeSubcaseDepth)
      decreases t, 2
    {
      match t {
        case Leaf =>
          assert decisionPath == at + decisionPath[|at|..];
          assert at + [] == at;
          visits := [at];
        case Generate(_) =>
          visits := RunGenerate(t, at);
        case Group(_, _) =>
          visits := RunGroup(t, at);
      }
    }

    /** GENERATE picks the branch the path asks for and the body goes on there. */
    method RunGenerate(t: Body, at: Path) returns (visits: seq<Path>)
      requires Entering(t, at) && t.Generate?
      modifies this
      ensures Follows(t, at, old(decisionPath)[|at|..], decisionPath, discovered)
      ensures visits == [decisionPath] && discovered[..|at|] == old(discovered)
      ensures enteredSubcaseDepths == old(enteredSubcaseDepths) && activeSubcaseDepth == old(activeSubcaseDepth)
      decreases t, 1
    {
      ghost var d := |at|;
      ghost var q := decisionPath[d..];
      var i := AcquireGeneratorIndex(|t.branches|);
      ghost var met := discovered;
      assert decisionPath[..d + 1] == at + [i];
      assert decisionPath[d + 1..] == Below(q);
      visits := RunBody(t.branches[i], at + [i]);
      assert discovered[..d] == met[..d] == old(discovered) && discovered[d] == met[d];
      FollowsDeeper(t, at, q, decisionPath, discovered);
    }

    /** Where a group of siblings stands before its j-th: `start` and `path` are the decision points and the
        path on entry. The chosen sibling has run exactly when it lies behind. */
    ghost predicate AtSibling(t: Body, at: Path, j: nat, start: seq<DecisionPoint>, path: seq<nat>, visits: seq<Path>)
      requires t.Group? && WellFormed(t) && j <= |t.branches|
      requires |at| == |start| <= |path| && path[..|at|] == at && IsPrefix(t, path[|at|..])
      reads this
    {
      var d := |at|;
      var chosen := Choice(path[d..]);
      && decisionDepth == d
      && (j == 0 ==> discovered == start)
      && (j <= chosen ==> visits == [] && decisionPath == path)
      && (0 < j <= chosen ==> discovered == start + [DecisionPoint(j, t.signatures[..j])])
      && (j > chosen ==>
          && visits == [decisionPath]
          && Follows(t.branches[chosen], at + [chosen], Below(path[d..]), decisionPath, discovered)
          && discovered[..d] == start && discovered[d] == DecisionPoint(j, t.signatures[..j]))
    }

    /** Meeting the next sibling adds its signature at the group's depth, and enters it exactly when chosen. */
    method MeetSibling(t: Body, at: Path, j: nat, ghost visits: seq<Path>, ghost start: seq<DecisionPoint>, ghost path: seq<nat>)
      returns (entered: bool)
      requires t.Group? && WellFormed(t) && j < |t.branches|
      requires |at| == |start| <= |path| && path[..|at|] == at && IsPrefix(t, path[|at|..])
      requires AtSibling(t, at, j, start, path, visits)
      modifies this
      ensures var d := |at|;
        var chosen := Choice(path[d..]);
        && entered == (j == chosen)
        && decisionDepth == (if entered then d + 1 else d)
        && enteredSubcaseDepths == old(enteredSubcaseDepths) + (if entered then [d] else [])
        && activeSubcaseDepth == old(activeSubcaseDepth) + (if entered then 1 else 0)
        && (j <= chosen ==> discovered == start + [DecisionPoint(j + 1, t.signatures[..j + 1])])
        && (j > chosen ==> discovered == old(discovered)[d := DecisionPoint(j + 1, t.signatures[..j + 1])])
        && decisionPath == old(decisionPath) + (if |path| == d && j == 0 then [0] else [])
    {
      ghost var known := if decisionDepth < |discovered| then discovered[decisionDepth].subcases else [];
      assert known == t.signatures[..j];
      assert IndexOf(known, t.signatures[j]) == j;
      assert t.signatures[..j] + [t.signatures[j]] == t.signatures[..j + 1];
      entered := TryEnterSubcase(t.signatures[j]);
    }

    method RunSibling(t: Body, at: Path, j: nat, before: seq<Path>, ghost start: seq<DecisionPoint>, ghost path: seq<nat>)
      returns (visits: seq<Path>)
      requires t.Group? && WellFormed(t) && j < |t.branches|
      requires |at| == |start| <= |path| && path[..|at|] == at && IsPrefix(t, path[|at|..])
      requires AtSibling(t, at, j, start, path, before)
      modifies this
      ensures AtSibling(t, at, j + 1, start, path, visits)
      ensures enteredSubcaseDepths == old(enteredSubcaseDepths) && activeSubcaseDepth == old(activeSubcaseDepth)
      decreases t, 0
    {
      ghost var d := |at|;
      var entered := MeetSibling(t, at, j, before, start, path);
      visits := before;
      if entered {
        assert decisionPath[..d + 1] == at + [j];
        assert decisionPath[d + 1..] == Below(path[d..]);
        ghost var met := discovered;
        assert WellFormed(Branches(t)[j]);
        var inner := RunBody(t.branches[j], at + [j]);
        visits := visits + inner;
        assert visits == inner;
        LeaveSubcase();
        assert discovered[..d] == met[..d] == start && discovered[d] == met[d];
      } else {
        assert decisionPath == old(decisionPath);
        if j > Choice(path[d..]) { assert old(discovered)[d + 1..] == discovered[d + 1..]; }
      }
    }

    /** The siblings of a group, one after the other. */
    method RunGroup(t: Body, at: Path) returns (visits: seq<Path>)
      requires Entering(t, at) && t.Group?
      modifies this
      ensures Follows(t, at, old(decisionPath)[|at|..], decisionPath, discovered)
      ensures visits == [decisionPath] && discovered[..|at|] == old(discovered)
      ensures enteredSubcaseDepths == old(enteredSubcaseDepths) && activeSubcaseDepth == old(activeSubcaseDepth)
      decreases t, 1
    {
      ghost var start, path := discovered, decisionPath;
      visits := [];
      for j := 0 to |t.branches|
        invariant AtSibling(t, at, j, start, path, visits)
        invariant enteredSubcaseDepths == old(enteredSubcaseDepths) && activeSubcaseDepth == old(activeSubcaseDepth)
      {
        visits := RunSibling(t, at, j, visits, start, path);
      }
      FollowsDeeper(t, at, path[|at|..], decisionPath, discovered);
    }

    /** One round of the rerun loop, with the path set for the k-th leaf: visits that leaf, and sets the path for
        the next one if there is one. */
    method RunOnce(t: Body, ghost k: nat) returns (visits: seq<Path>, more: bool)
      requires WellFormed(t) && k < |Leaves(t)|
      requires IsPrefix(t, decisionPath) && Complete(t, decisionPath) == Leaves(t)[k]
      modifies this
      ensures visits == [Leaves(t)[k]] && more == (k + 1 < |Leaves(t)|)
      ensures more ==> IsPrefix(t, decisionPath) && Complete(t, decisionPath) == Leaves(t)[k + 1]
    {
      ResetForRun();
      ghost var q := decisionPath;
      assert decisionPath[0..] == q;
      visits := RunBody(t, []);
      assert [] + Complete(t, q) == Complete(t, q);
      assert discovered[0..] == discovered;
      SuccessorIsNext(t, k);
      ghost var n := |decisionPath|;
      assert decisionPath[..n] == decisionPath && BranchCounts(discovered)[..n] == BranchCounts(discovered);
      more := Advance();
    }

    /** The whole test case, rerun until no decision is left: every leaf is visited once, in order. */
    method RunTestCase(t: Body) returns (visits: seq<Path>)
      requires WellFormed(t)
      modifies this
      ensures visits == Leaves(t)
      ensures forall p :: p in visits <==> IsLeafPath(t, p)
      ensures forall j, k :: 0 <= j < k < |visits| ==> Lex(visits[j], visits[k]) && visits[j] != visits[k]
    {
      ResetForTestCase();
      LeavesNonEmpty(t);
      visits := [];
      var runTest := true;
      while runTest
        invariant |visits| <= |Leaves(t)| && visits == Leaves(t)[..|visits|]
        invariant runTest ==> |visits| < |Leaves(t)| && IsPrefix(t, decisionPath)
                              && Complete(t, decisionPath) == Leaves(t)[|visits|]
        invariant !runTest ==> |visits| == |Leaves(t)|
        decreases runTest, |Leaves(t)| - |visits|
      {
        var visit;
        visit, runTest := RunOnce(t, |visits|);
        visits := visits + visit;
      }
      EveryLeafOnce(t);
    }
  }
}

/**
 * The topological sort of `Value::build_topo` (micrograd/engine.cc:125-137):
 * a post-order depth-first walk from a node along its children, guarded by a
 * visited set keyed by node identity, appending each node after its children.
 *
 * `Dfs`/`DfsList` are the walk as functions; `BuildTopo` is the recursive
 * procedure, proved equal to them; the lemmas show that the walk from a root
 * lists every node reachable from it exactly once, children before parents,
 * with the root last.
 */
module Topo {
  import opened Values

  function Elems(s: seq<Id>): set<Id>
  {
    set x | x in s
  }

  predicate InRange(g: seq<Value>, s: seq<Id>)
  {
    forall j :: 0 <= j < |s| ==> s[j] < |g|
  }

  predicate Distinct(s: seq<Id>)
  {
    forall i, j :: 0 <= i < j < |s| ==> s[i] != s[j]
  }

  /** Every child of a listed node is listed before it. */
  predicate PostOrdered(g: seq<Value>, s: seq<Id>)
    requires InRange(g, s)
  {
    forall j, k :: 0 <= j < |s| && 0 <= k < |g[s[j]].children| ==> g[s[j]].children[k] in s[..j]
  }

  // ---------------------------------------------------------------------------
  // Reachability along children
  // ---------------------------------------------------------------------------

  /** The nodes reachable from `n` (including `n`). */
  ghost function Reach(g: seq<Value>, n: Id): (r: set<Id>)
    requires WF(g) && n < |g|
    ensures n in r
    ensures forall x :: x in r ==> x <= n
    decreases n, 1, 0
  {
    {n} + ReachList(g, g[n].children, n)
  }

  /** The nodes reachable from any of `cs`, all of them below `bound`. */
  ghost function ReachList(g: seq<Value>, cs: seq<Id>, bound: nat): (r: set<Id>)
    requires WF(g) && bound <= |g|
    requires forall k :: 0 <= k < |cs| ==> cs[k] < bound
    ensures forall x :: x in r ==> x < bound
    ensures forall k :: 0 <= k < |cs| ==> cs[k] in r
    decreases bound, 0, |cs|
  {
    if cs == [] then {} else Reach(g, cs[0]) + ReachList(g, cs[1..], bound)
  }

  /** A post-ordered list is closed under reachability. */
  lemma {:induction false} ReachClosed(g: seq<Value>, s: seq<Id>, n: Id)
    requires WF(g) && InRange(g, s) && PostOrdered(g, s) && n in s
    ensures n < |g| && Reach(g, n) <= Elems(s)
    decreases n, 1, 0
  {
    var j :| 0 <= j < |s| && s[j] == n;
    forall k | 0 <= k < |g[n].children| ensures g[n].children[k] in s {
      assert g[s[j]].children[k] in s[..j];
    }
    ReachListClosed(g, s, g[n].children, n);
  }

  lemma {:induction false} ReachListClosed(g: seq<Value>, s: seq<Id>, cs: seq<Id>, bound: nat)
    requires WF(g) && InRange(g, s) && PostOrdered(g, s) && bound <= |g|
    requires forall k :: 0 <= k < |cs| ==> cs[k] < bound && cs[k] in s
    ensures ReachList(g, cs, bound) <= Elems(s)
    decreases bound, 0, |cs|
  {
    if cs != [] {
      ReachClosed(g, s, cs[0]);
      ReachListClosed(g, s, cs[1..], bound);
    }
  }

  // ---------------------------------------------------------------------------
  // The walk
  // ---------------------------------------------------------------------------

  /** The two by-reference arguments of `build_topo`. */
  datatype Walk = Walk(sorted: seq<Id>, visited: set<Id>)

  /** `build_topo(sorted, visited, n)`. */
  function Dfs(g: seq<Value>, w: Walk, n: Id): Walk
    requires WF(g) && n < |g|
    decreases n, 1, 0
  {
    if n in w.visited then w
    else
      var w' := DfsList(g, Walk(w.sorted, w.visited + {n}), g[n].children, n);
      Walk(w'.sorted + [n], w'.visited)
  }

  /** The loop over a node's children, one recursive call per child, in order. */
  function DfsList(g: seq<Value>, w: Walk, cs: seq<Id>, bound: nat): Walk
    requires WF(g) && bound <= |g|
    requires forall k :: 0 <= k < |cs| ==> cs[k] < bound
    decreases bound, 0, |cs|
  {
    if cs == [] then w else DfsList(g, Dfs(g, w, cs[0]), cs[1..], bound)
  }

  /**
   * What holds of the walk's state at every call: the list is duplicate-free,
   * post-ordered and visited; a visited node that is not yet listed is one whose
   * call is still running (an ancestor of the current node), hence at least `above`.
   */
  ghost predicate DfsInv(g: seq<Value>, w: Walk, above: nat)
  {
    && InRange(g, w.sorted)
    && Distinct(w.sorted)
    && PostOrdered(g, w.sorted)
    && Elems(w.sorted) <= w.visited
    && forall x :: x in w.visited && x !in w.sorted ==> above <= x
  }

  lemma {:induction false} DfsCorrect(g: seq<Value>, w: Walk, n: Id, above: nat)
    requires WF(g) && n < |g| && n < above && DfsInv(g, w, above)
    ensures DfsInv(g, Dfs(g, w, n), above)
    ensures |w.sorted| <= |Dfs(g, w, n).sorted| && Dfs(g, w, n).sorted[..|w.sorted|] == w.sorted
    ensures Elems(Dfs(g, w, n).sorted) == Elems(w.sorted) + Reach(g, n)
    ensures Dfs(g, w, n).visited == w.visited + Reach(g, n)
    decreases n, 2, 0
  {
    if n in w.visited {
      assert n in w.sorted;
      ReachClosed(g, w.sorted, n);
    } else {
      DfsFresh(g, w, n, above);
    }
  }

  /** A call on a node not yet visited: walk its children, then list it. */
  lemma {:induction false} DfsFresh(g: seq<Value>, w: Walk, n: Id, above: nat)
    requires WF(g) && n < |g| && n < above && DfsInv(g, w, above) && n !in w.visited
    ensures DfsInv(g, Dfs(g, w, n), above)
    ensures |w.sorted| <= |Dfs(g, w, n).sorted| && Dfs(g, w, n).sorted[..|w.sorted|] == w.sorted
    ensures Elems(Dfs(g, w, n).sorted) == Elems(w.sorted) + Reach(g, n)
    ensures Dfs(g, w, n).visited == w.visited + Reach(g, n)
    decreases n, 1, 0
  {
    var w0 := Walk(w.sorted, w.visited + {n});
    var w1 := DfsList(g, w0, g[n].children, n);
    var rl := ReachList(g, g[n].children, n);
    FreshShape(g, w, n);
    StartNode(g, w, n, above);
    DfsListCorrect(g, w0, g[n].children, n);
    FinishNode(g, w, w1, n, rl, above);
    AppendKeepsPrefix(w.sorted, w1.sorted, n);
  }

  /** One unfolding of `Dfs` and of `Reach` at an unvisited node. */
  lemma FreshShape(g: seq<Value>, w: Walk, n: Id)
    requires WF(g) && n < |g| && n !in w.visited
    ensures var w1 := DfsList(g, Walk(w.sorted, w.visited + {n}), g[n].children, n);
      Dfs(g, w, n) == Walk(w1.sorted + [n], w1.visited)
    ensures Reach(g, n) == {n} + ReachList(g, g[n].children, n)
  {
  }

  /** Marking `n` visited on entry: the pending nodes are now `n` and those above it. */
  lemma StartNode(g: seq<Value>, w: Walk, n: Id, above: nat)
    requires n < above && DfsInv(g, w, above)
    ensures DfsInv(g, Walk(w.sorted, w.visited + {n}), n)
  {
  }

  /** A call on an unvisited node ends by listing that node. */
  lemma DfsLast(g: seq<Value>, w: Walk, n: Id)
    requires WF(g) && n < |g| && n !in w.visited
    ensures |Dfs(g, w, n).sorted| > 0 && Dfs(g, w, n).sorted[|Dfs(g, w, n).sorted| - 1] == n
  {
  }

  /**
   * The end of a call on an unvisited node `n`: its children's walk has listed
   * `rl` (everything reachable from the children, all below `n`), and `n` is
   * appended.
   */
  lemma FinishNode(g: seq<Value>, w: Walk, w1: Walk, n: Id, rl: set<Id>, above: nat)
    requires WF(g) && n < |g| && n < above && n !in w.visited
    requires forall x :: x in rl ==> x < n
    requires forall k :: 0 <= k < |g[n].children| ==> g[n].children[k] in rl
    requires Elems(w.sorted) <= w.visited && forall x :: x in w.visited && x !in w.sorted ==> above <= x
    requires InRange(g, w1.sorted) && Distinct(w1.sorted) && PostOrdered(g, w1.sorted)
    requires |w.sorted| <= |w1.sorted| && w1.sorted[..|w.sorted|] == w.sorted
    requires Elems(w1.sorted) == Elems(w.sorted) + rl
    requires w1.visited == w.visited + {n} + rl
    ensures DfsInv(g, Walk(w1.sorted + [n], w1.visited), above)
    ensures Elems(w1.sorted + [n]) == Elems(w.sorted) + ({n} + rl)
  {
    assert n !in rl;
    ChildrenListed(g, w1.sorted, n, rl);
    AppendKeepsOrder(g, w1.sorted, n);
    var s' := w1.sorted + [n];
    PendingAbove(w.sorted, w.visited, s', w1.visited, rl, n, above);
    MakeInv(g, s', w1.visited, above);
  }

  /** Appending keeps the earlier list as a prefix. */
  lemma AppendKeepsPrefix(s: seq<Id>, s1: seq<Id>, n: Id)
    requires |s| <= |s1| && s1[..|s|] == s
    ensures (s1 + [n])[..|s|] == s
  {
    assert (s1 + [n])[..|s|] == s1[..|s|];
  }

  lemma MakeInv(g: seq<Value>, s: seq<Id>, v: set<Id>, above: nat)
    requires InRange(g, s) && Distinct(s) && PostOrdered(g, s) && Elems(s) <= v
    requires forall x :: x in v && x !in s ==> above <= x
    ensures DfsInv(g, Walk(s, v), above)
  {
  }

  /** After its children's walk, every child of `n` is listed and `n` itself is not. */
  lemma ChildrenListed(g: seq<Value>, s: seq<Id>, n: Id, rl: set<Id>)
    requires WF(g) && n < |g| && n !in rl
    requires forall k :: 0 <= k < |g[n].children| ==> g[n].children[k] in rl
    requires rl <= Elems(s) && n !in Elems(s)
    ensures n !in s
    ensures forall k :: 0 <= k < |g[n].children| ==> g[n].children[k] in s
  {
    forall k | 0 <= k < |g[n].children| ensures g[n].children[k] in s {
      assert g[n].children[k] in Elems(s);
    }
  }

  /** The visited-but-unlisted nodes after appending `n` are those pending before the call. */
  lemma PendingAbove(s: seq<Id>, v: set<Id>, s': seq<Id>, v': set<Id>, rl: set<Id>, n: Id, above: nat)
    requires forall x :: x in v && x !in s ==> above <= x
    requires Elems(s') == Elems(s) + rl + {n} && v' == v + {n} + rl
    ensures forall x :: x in v' && x !in s' ==> above <= x
  {
    forall x | x in v' && x !in s' ensures above <= x {
      assert x !in Elems(s');
    }
  }

  /** Two consecutive stretches of the walk, each extending the list and both sets by its own reach. */
  lemma ChainWalks(w: Walk, w1: Walk, w2: Walk, a: set<Id>, b: set<Id>)
    requires |w.sorted| <= |w1.sorted| && w1.sorted[..|w.sorted|] == w.sorted
    requires |w1.sorted| <= |w2.sorted| && w2.sorted[..|w1.sorted|] == w1.sorted
    requires Elems(w1.sorted) == Elems(w.sorted) + a && w1.visited == w.visited + a
    requires Elems(w2.sorted) == Elems(w1.sorted) + b && w2.visited == w1.visited + b
    ensures |w.sorted| <= |w2.sorted| && w2.sorted[..|w.sorted|] == w.sorted
    ensures Elems(w2.sorted) == Elems(w.sorted) + (a + b) && w2.visited == w.visited + (a + b)
  {
    assert w2.sorted[..|w.sorted|] == w2.sorted[..|w1.sorted|][..|w.sorted|];
  }

  lemma {:induction false} DfsListCorrect(g: seq<Value>, w: Walk, cs: seq<Id>, bound: nat)
    requires WF(g) && bound <= |g| && DfsInv(g, w, bound)
    requires forall k :: 0 <= k < |cs| ==> cs[k] < bound
    ensures var w' := DfsList(g, w, cs, bound);
      && DfsInv(g, w', bound)
      && |w.sorted| <= |w'.sorted| && w'.sorted[..|w.sorted|] == w.sorted
      && Elems(w'.sorted) == Elems(w.sorted) + ReachList(g, cs, bound)
      && w'.visited == w.visited + ReachList(g, cs, bound)
    decreases bound, 0, |cs|
  {
    if cs != [] {
      var w1 := Dfs(g, w, cs[0]);
      DfsCorrect(g, w, cs[0], bound);
      DfsListCorrect(g, w1, cs[1..], bound);
      ChainWalks(w, w1, DfsList(g, w1, cs[1..], bound), Reach(g, cs[0]), ReachList(g, cs[1..], bound));
    }
  }

  /** Appending a node whose children are all listed, and which is not listed, keeps the invariants. */
  lemma AppendKeepsOrder(g: seq<Value>, s: seq<Id>, n: Id)
    requires WF(g) && n < |g| && InRange(g, s) && Distinct(s) && PostOrdered(g, s)
    requires n !in s
    requires forall k :: 0 <= k < |g[n].children| ==> g[n].children[k] in s
    ensures InRange(g, s + [n]) && Distinct(s + [n]) && PostOrdered(g, s + [n])
    ensures Elems(s + [n]) == Elems(s) + {n}
  {
    var s' := s + [n];
    forall j, k | 0 <= j < |s'| && 0 <= k < |g[s'[j]].children|
      ensures g[s'[j]].children[k] in s'[..j]
    {
      if j < |s| {
        assert s'[..j] == s[..j];
      } else {
        assert s'[..j] == s;
      }
    }
  }

  // ---------------------------------------------------------------------------
  // The walk from a root
  // ---------------------------------------------------------------------------

  /** The list `backward` builds: `build_topo` from the root with empty state. */
  function TopoSort(g: seq<Value>, root: Id): seq<Id>
    requires WF(g) && root < |g|
  {
    Dfs(g, Walk([], {}), root).sorted
  }

  /** Every reachable node exactly once, every child before its parent, the root last. */
  ghost predicate IsTopoOrder(g: seq<Value>, root: Id, s: seq<Id>)
    requires WF(g) && root < |g|
  {
    && InRange(g, s)
    && Distinct(s)
    && Elems(s) == Reach(g, root)
    && PostOrdered(g, s)
    && |s| > 0 && s[|s| - 1] == root
  }

  lemma TopoSortCorrect(g: seq<Value>, root: Id)
    requires WF(g) && root < |g|
    ensures IsTopoOrder(g, root, TopoSort(g, root))
    ensures Dfs(g, Walk([], {}), root).visited == Reach(g, root)
  {
    var w := Walk([], {});
    DfsCorrect(g, w, root, root + 1);
    DfsLast(g, w, root);
    assert Elems(w.sorted) == {};
  }

  /**
   * `build_topo` itself: a recursive procedure that threads `sorted` and
   * `visited` through one call per child and appends the node afterwards.
   */
  method BuildTopo(g: seq<Value>, sorted: seq<Id>, visited: set<Id>, node: Id)
    returns (sorted': seq<Id>, visited': set<Id>)
    requires WF(g) && node < |g|
    ensures Walk(sorted', visited') == Dfs(g, Walk(sorted, visited), node)
    ensures sorted == [] && visited == {} ==> IsTopoOrder(g, node, sorted') && visited' == Reach(g, node)
    decreases node
  {
    if node in visited {
      sorted', visited' := sorted, visited;
    } else {
      sorted', visited' := sorted, visited + {node};
      var children := g[node].children;
      ghost var start := Walk(sorted', visited');
      var k := 0;
      while k < |children|
        invariant 0 <= k <= |children|
        invariant DfsList(g, Walk(sorted', visited'), children[k..], node) == DfsList(g, start, children, node)
      {
        assert children[k..][1..] == children[k + 1..];
        sorted', visited' := BuildTopo(g, sorted', visited', children[k]);
        k := k + 1;
      }
      sorted' := sorted' + [node];
    }
    if sorted == [] && visited == {} {
      TopoSortCorrect(g, node);
    }
  }
}

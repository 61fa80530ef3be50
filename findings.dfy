/**
 * Two defects of micrograd/engine.cc, each modelled as written next to the
 * corrected form the rest of the model uses, and small worked backward passes.
 *
 * Unary minus (engine.cc:38-42) tags its node "-" with one child, but the "-"
 * rule of `backward_single` (engine.cc:146-148) updates `children[1]`: no
 * graph that reaches such a node satisfies `Gradient.BackwardReady`. The
 * correction builds `a * -1` (`Engine.Graph.Negate`).
 *
 * The compound assignments (engine.cc:44-66) overwrite `data` and `children`
 * of the left operand in place, making it its own child and keeping its old
 * tag. The correction binds a fresh node and rebinds the name
 * (`Engine.Graph.AddAssign`, `SubAssign`, `MulAssign`).
 */
module Findings {
  import opened Wrappers
  import opened Values
  import opened Topo
  import opened Gradient
  import Engine

  // ---------------------------------------------------------------------------
  // Unary minus
  // ---------------------------------------------------------------------------

  /** A reachable one-child "-" node (what unary minus builds) leaves `backward` without a rule it can run. */
  lemma NegBlocksBackward(g: seq<Value>, root: Id, n: Id)
    requires WF(g) && root < |g| && n in Reach(g, root)
    requires g[n].op == "-" && |g[n].children| == 1
    ensures !BackwardReady(g, root)
  {
    assert !RuleArity(g[n]);
  }

  /** `-a` for a leaf `a`: the graph is acyclic and well built, yet `backward` from `-a` cannot run. */
  lemma NegOfLeafBlocksBackward(x: real)
    ensures var g := [Leaf(x, "a")]; var h := g + [Neg(g, 0)];
      WF(h) && h[1].data == -x && !BackwardReady(h, 1)
  {
    var g := [Leaf(x, "a")];
    var h := g + [Neg(g, 0)];
    PushKeepsWF(g, Neg(g, 0));
    NegBlocksBackward(h, 1, 1);
  }

  /** The corrected negation `a * -1` hands `a` minus the gradient of the product. */
  lemma NegateRule(g: seq<Value>, p: Id, a: Id, m: Id, tanh: real -> real)
    requires WF(g) && p < |g| && g[p].op == "*" && g[p].children == [a, m] && a != m && m < |g|
    requires g[m].data == -1.0
    ensures Contribution(g, p, a, tanh) == -g[p].grad
  {
    assert Fits(g, g[p]);
  }

  /** The arena `Engine.Graph.Negate` builds from a leaf holding `x`. */
  function NegatedLeaf(x: real): (g: seq<Value>)
    ensures |g| == 3 && WF(g) && g[2].data == -x
  {
    var g0 := [Leaf(x, "a"), Leaf(-1.0, "")];
    var g := g0 + [Times(g0, 0, 1)];
    PushKeepsWF(g0, Times(g0, 0, 1));
    g
  }

  /** `backward` from `a * -1` runs, and gives the leaf `a` the gradient -1. */
  lemma NegateBackward(x: real, tanh: real -> real)
    ensures BackwardReady(NegatedLeaf(x), 2)
    ensures BackwardSpec(NegatedLeaf(x), 2, tanh).thrown.None?
    ensures BackwardSpec(NegatedLeaf(x), 2, tanh).nodes[0].grad == -1.0
  {
    var g := NegatedLeaf(x);
    NegatedSort(g);
    NegatedReach(g);
    assert BackwardReady(g, 2);
    BackwardStart(g, 2, tanh);
    NegatedPass(SetGrad(g, 2, 1.0), tanh);
  }

  /** The pass over `[0, 1, 2]` for `a * -1`: the product hands `a` minus its gradient, the leaves add nothing. */
  lemma NegatedPass(g: seq<Value>, tanh: real -> real)
    requires Runnable(g, [0, 1, 2]) && |g| == 3
    requires g[2].op == "*" && g[2].children == [0, 1] && g[1].data == -1.0 && g[2].grad == 1.0
    requires g[0].op == "" && g[1].op == "" && g[0].grad == 0.0
    ensures Backprop(g, [0, 1, 2], tanh).thrown.None?
    ensures Backprop(g, [0, 1, 2], tanh).nodes[0].grad == -1.0
  {
    var g1 := Propagate(g, 2, tanh).value;
    ProductStep(g, tanh);
    assert forall j :: 0 <= j < 2 ==> g1[[0, 1][j]].op == "";
    LeavesPass(g1, [0, 1], tanh);
  }

  /** The first turn of that pass: the product's rule. */
  lemma ProductStep(g: seq<Value>, tanh: real -> real)
    requires Runnable(g, [0, 1, 2]) && |g| == 3
    requires g[2].op == "*" && g[2].children == [0, 1] && g[1].data == -1.0 && g[2].grad == 1.0
    requires g[0].op == "" && g[1].op == "" && g[0].grad == 0.0
    ensures var g1 := Propagate(g, 2, tanh).value;
      && Runnable(g1, [0, 1]) && Backprop(g, [0, 1, 2], tanh) == Backprop(g1, [0, 1], tanh)
      && g1[0].grad == -1.0 && g1[0].op == "" && g1[1].op == ""
  {
    var s := [0, 1, 2];
    BackpropStep(g, s, tanh);
    assert s[..2] == [0, 1];
    ProductGrad(g, tanh);
  }

  /** What the product's rule hands the negated leaf. */
  lemma ProductGrad(g: seq<Value>, tanh: real -> real)
    requires WF(g) && |g| == 3
    requires g[2].op == "*" && g[2].children == [0, 1] && g[1].data == -1.0 && g[2].grad == 1.0 && g[0].grad == 0.0
    ensures Fits(g, g[2]) && RuleArity(g[2])
    ensures Propagate(g, 2, tanh).Some? && Propagate(g, 2, tanh).value[0].grad == -1.0
  {
    NegateRule(g, 2, 0, 1, tanh);
    var g1 := Propagate(g, 2, tanh).value;
    assert g1[0] == g[0].(grad := g[0].grad + Contribution(g, 2, 0, tanh));
  }

  /** The sort `backward` builds from `a * -1`: the two leaves in operand order, then the product. */
  lemma NegatedSort(g: seq<Value>)
    requires WF(g) && |g| == 3 && g[0].children == [] && g[1].children == [] && g[2].children == [0, 1]
    ensures TopoSort(g, 2) == [0, 1, 2]
  {
    var w := Walk([0], {2, 0});
    LeafDfs(g, 0, Walk([], {2}));
    var w' := Walk([0, 1], {2, 0, 1});
    LeafDfs(g, 1, w);
    assert DfsList(g, Walk([], {2}), [0, 1], 2) == w' by {
      assert [0, 1][1..] == [1];
      assert DfsList(g, w', [], 2) == w';
    }
    var none: set<Id> := {};
    assert none + {2} == {2};
  }

  /** Everything in that arena is reachable from the product. */
  lemma NegatedReach(g: seq<Value>)
    requires WF(g) && |g| == 3 && g[0].children == [] && g[1].children == [] && g[2].children == [0, 1]
    ensures Reach(g, 2) == {0, 1, 2}
  {
    assert Reach(g, 0) == {0} by {
      assert ReachList(g, [], 0) == {};
    }
    assert Reach(g, 1) == {1} by {
      assert ReachList(g, [], 1) == {};
    }
    assert ReachList(g, [0, 1], 2) == {0, 1} by {
      assert [0, 1][1..] == [1] && [1][1..] == [];
    }
  }

  // ---------------------------------------------------------------------------
  // Compound assignment
  // ---------------------------------------------------------------------------

  /** `a += b`, `a -= b`, `a *= b` as written: `a` changes in place, becomes its own child, keeps its tag. */
  function InPlaceAssign(g: seq<Value>, a: Id, b: Id, op: string): (r: seq<Value>)
    requires a < |g| && b < |g| && (op == "+" || op == "-" || op == "*")
    ensures |r| == |g| && r[a].children == [a, b] && r[a].op == g[a].op && r[a].grad == g[a].grad
    ensures op == "+" ==> r[a].data == g[a].data + g[b].data
    ensures op == "-" ==> r[a].data == g[a].data - g[b].data
    ensures op == "*" ==> r[a].data == g[a].data * g[b].data
    ensures forall i :: 0 <= i < |g| && i != a ==> r[i] == g[i]
  {
    var d := if op == "+" then g[a].data + g[b].data
             else if op == "-" then g[a].data - g[b].data
             else g[a].data * g[b].data;
    g[a := g[a].(data := d, children := [a, b])]
  }

  /** The in-place form always leaves a cycle: the graph is no longer acyclic. */
  lemma InPlaceAssignMakesCycle(g: seq<Value>, a: Id, b: Id, op: string)
    requires a < |g| && b < |g| && (op == "+" || op == "-" || op == "*")
    ensures !WF(InPlaceAssign(g, a, b, op))
  {
    var r := InPlaceAssign(g, a, b, op);
    assert r[a].children[0] == a;
  }

  /** Node `i` holds what its tag says of its operands' scalars. */
  predicate Holds(g: seq<Value>, i: Id)
    requires i < |g| && Fits(g, g[i])
  {
    var v := g[i];
    && (v.op == "+" && |v.children| == 2 ==> v.data == g[v.children[0]].data + g[v.children[1]].data)
    && (v.op == "-" && |v.children| == 2 ==> v.data == g[v.children[0]].data - g[v.children[1]].data)
    && (v.op == "*" && |v.children| == 2 ==> v.data == g[v.children[0]].data * g[v.children[1]].data)
  }

  /**
   * The in-place form rewrites history: after `c = a + b` with 5 and 2, `a += b`
   * leaves `c` at 7 while its operands now add up to 9, and the leaf `a`, still
   * tagged as a leaf, passes no gradient to its new child `b`.
   */
  lemma InPlaceAssignBreaksCapturedNode(tanh: real -> real)
    ensures var g0 := [Leaf(5.0, "a"), Leaf(2.0, "b")]; var g := g0 + [Plus(g0, 0, 1)];
      var h := InPlaceAssign(g, 0, 1, "+");
      && Holds(g, 2) && !Holds(h, 2)
      && h[1] == g[1] && h[2] == g[2]
      && RuleArity(h[0]) && Fits(h, h[0]) && 1 in h[0].children && Contribution(h, 0, 1, tanh) == 0.0
  {
    var g0 := [Leaf(5.0, "a"), Leaf(2.0, "b")];
    var g := g0 + [Plus(g0, 0, 1)];
    var h := InPlaceAssign(g, 0, 1, "+");
    assert h[0].data == 7.0;
    assert h[2].children == [0, 1];
    assert h[2].data == 7.0 && h[0].data + h[1].data == 9.0;
  }

  /**
   * The corrected form binds `a + b` as a fresh node: the arena stays acyclic,
   * every existing node stays exactly as it was (so keeps holding what its tag
   * says), and the fresh node holds the sum.
   */
  lemma RebindKeepsCapturedNodes(g: seq<Value>, a: Id, b: Id, i: Id)
    requires WF(g) && a < |g| && b < |g| && i < |g| && Holds(g, i)
    ensures var h := g + [Plus(g, a, b)];
      && WF(h) && h[..|g|] == g
      && Fits(h, h[i]) && Holds(h, i)
      && Fits(h, h[|g|]) && Holds(h, |g|)
  {
    var h := g + [Plus(g, a, b)];
    PushKeepsWF(g, Plus(g, a, b));
    assert h[i] == g[i];
    assert forall k :: 0 <= k < |g[i].children| ==> h[g[i].children[k]] == g[g[i].children[k]];
  }

  // ---------------------------------------------------------------------------
  // Worked backward passes
  // ---------------------------------------------------------------------------

  /** A pass over leaves only completes and changes nothing: a leaf's rule adds nothing. */
  lemma {:induction false} LeavesPass(g: seq<Value>, s: seq<Id>, tanh: real -> real)
    requires Runnable(g, s) && forall j :: 0 <= j < |s| ==> g[s[j]].op == ""
    ensures Backprop(g, s, tanh) == Outcome(g, None)
    decreases |s|
  {
    if s != [] {
      var s1 := s[..|s| - 1];
      Engine.PropagateLeaf(g, s[|s| - 1], tanh);
      assert forall j :: 0 <= j < |s1| ==> s1[j] == s[j];
      LeavesPass(g, s1, tanh);
    }
  }

  /** A leaf under one node that uses it once or twice: sorted leaf first, root last. */
  lemma TwoNodeSort(g: seq<Value>)
    requires WF(g) && |g| == 2 && g[0].children == [] && (g[1].children == [0] || g[1].children == [0, 0])
    ensures TopoSort(g, 1) == [0, 1] && Reach(g, 1) == {0, 1}
  {
    TwoNodeChildren(g);
    var none: set<Id> := {};
    assert none + {1} == {1};
    assert Dfs(g, Walk([], {}), 1) == Walk([0, 1], {1, 0});
    TwoNodeReach(g);
  }

  /** The walk over the root's children lists the leaf once, however often it is used. */
  lemma TwoNodeChildren(g: seq<Value>)
    requires WF(g) && |g| == 2 && g[0].children == [] && (g[1].children == [0] || g[1].children == [0, 0])
    ensures DfsList(g, Walk([], {1}), g[1].children, 1) == Walk([0], {1, 0})
  {
    var w := Walk([0], {1, 0});
    LeafDfs(g, 0, Walk([], {1}));
    var cs := g[1].children;
    assert DfsList(g, w, [], 1) == w;
    if cs == [0, 0] {
      assert Dfs(g, w, 0) == w;
      assert cs[1..] == [0];
      assert DfsList(g, w, cs[1..], 1) == w;
    } else {
      assert cs[1..] == [];
    }
  }

  /** The walk reaching an unvisited leaf lists it. */
  lemma LeafDfs(g: seq<Value>, n: Id, w: Walk)
    requires WF(g) && n < |g| && g[n].children == [] && n !in w.visited
    ensures Dfs(g, w, n) == Walk(w.sorted + [n], w.visited + {n})
  {
    assert DfsList(g, Walk(w.sorted, w.visited + {n}), [], n) == Walk(w.sorted, w.visited + {n});
  }

  lemma TwoNodeReach(g: seq<Value>)
    requires WF(g) && |g| == 2 && g[0].children == [] && (g[1].children == [0] || g[1].children == [0, 0])
    ensures Reach(g, 1) == {0, 1}
  {
    assert Reach(g, 0) == {0} by {
      assert ReachList(g, [], 0) == {};
    }
    var cs := g[1].children;
    assert ReachList(g, cs, 1) == {0} by {
      if cs == [0, 0] {
        assert cs[1..] == [0];
        assert ReachList(g, [0], 1) == {0} by { assert [0][1..] == []; }
      } else {
        assert cs[1..] == [];
      }
    }
  }

  /** The "tanh" rule hands its operand the gradient times `1 - tanh(operand)^2`. */
  lemma TanhRule(g: seq<Value>, p: Id, a: Id, tanh: real -> real)
    requires WF(g) && p < |g| && g[p].op == "tanh" && g[p].children == [a] && a < |g|
    ensures Contribution(g, p, a, tanh) == g[p].grad * (1.0 - tanh(g[a].data) * tanh(g[a].data))
  {
    assert Fits(g, g[p]);
  }

  /** `c = a + a`: the leaf is sorted once and gets both contributions, 2 in all. */
  lemma DiamondAccumulates(x: real, tanh: real -> real)
    ensures var g0 := [Leaf(x, "a")]; var g := g0 + [Plus(g0, 0, 0)];
      && WF(g) && BackwardReady(g, 1)
      && TopoSort(g, 1) == [0, 1]
      && BackwardSpec(g, 1, tanh).thrown.None?
      && BackwardSpec(g, 1, tanh).nodes[0].grad == 2.0
  {
    var g0 := [Leaf(x, "a")];
    var g := g0 + [Plus(g0, 0, 0)];
    PushKeepsWF(g0, Plus(g0, 0, 0));
    TwoNodeSort(g);
    assert BackwardReady(g, 1);
    BackwardStart(g, 1, tanh);
    var gs := SetGrad(g, 1, 1.0);
    BackpropStep(gs, [0, 1], tanh);
    var g1 := Propagate(gs, 1, tanh).value;
    assert Contribution(gs, 1, 0, tanh) == 2.0;
    assert g1[0].grad == 2.0;
    assert [0, 1][..1] == [0];
    LeavesPass(g1, [0], tanh);
  }

  /** `y = tanh(x)`: the leaf gets `1 - tanh(x)^2`. */
  lemma TanhBackward(x: real, tanh: real -> real)
    ensures var g0 := [Leaf(x, "x")]; var g := g0 + [Values.Tanh(g0, 0, tanh)];
      && WF(g) && BackwardReady(g, 1)
      && BackwardSpec(g, 1, tanh).thrown.None?
      && BackwardSpec(g, 1, tanh).nodes[0].grad == 1.0 - tanh(x) * tanh(x)
  {
    var g0 := [Leaf(x, "x")];
    var g := g0 + [Values.Tanh(g0, 0, tanh)];
    PushKeepsWF(g0, Values.Tanh(g0, 0, tanh));
    TwoNodeSort(g);
    assert BackwardReady(g, 1);
    BackwardStart(g, 1, tanh);
    var gs := SetGrad(g, 1, 1.0);
    BackpropStep(gs, [0, 1], tanh);
    var g1 := Propagate(gs, 1, tanh).value;
    TanhRule(gs, 1, 0, tanh);
    assert g1[0].grad == 1.0 - tanh(x) * tanh(x);
    assert [0, 1][..1] == [0];
    LeavesPass(g1, [0], tanh);
  }
}

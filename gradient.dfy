/**
 * The backward pass as functions (micrograd/engine.cc:139-174).
 *
 * `Contribution(g, p, i)` is what the rule of node `p` adds to node `i`'s
 * gradient; `Propagate` is `backward_single` on `p`; `Backprop` applies it to a
 * list of nodes from its last element to its first, stopping at the first
 * unknown op tag; `BackwardSpec` is `backward`. The main theorem, `ChainRule`,
 * states that after the pass every node's gradient is its initial gradient plus
 * the sum, over all listed nodes, of what each one's rule adds to it, computed
 * from that node's final gradient: the adjoint equations of reverse-mode
 * differentiation, shared operands included.
 */
module Gradient {
  import opened Wrappers
  import opened Values
  import opened Topo

  /** The `std::runtime_error("Unknown op " + op)` of `backward_single`. */
  datatype Error = UnknownOp(op: string)

  /** The arena after a pass and the error it threw, if any (updates made before the throw stay). */
  datatype Outcome = Outcome(nodes: seq<Value>, thrown: Option<Error>)

  /** The amount `x` if child slot `k` of `v` is node `i`, else nothing. */
  function Share(v: Value, k: nat, i: Id, x: real): real
    requires k < |v.children|
  {
    if v.children[k] == i then x else 0.0
  }

  /** What the backward rule of node `p` adds to the gradient of node `i`. */
  function Contribution(g: seq<Value>, p: Id, i: Id, tanh: real -> real): real
    requires p < |g| && RuleArity(g[p]) && Fits(g, g[p])
  {
    var v := g[p];
    var d := v.grad;
    if v.op == "+" then
      Share(v, 0, i, d) + Share(v, 1, i, d)
    else if v.op == "-" then
      Share(v, 0, i, d) + Share(v, 1, i, -d)
    else if v.op == "*" then
      Share(v, 0, i, d * g[v.children[1]].data) + Share(v, 1, i, d * g[v.children[0]].data)
    else if v.op == "tanh" then
      var t := tanh(g[v.children[0]].data);
      Share(v, 0, i, d * (1.0 - t * t))
    else
      0.0
  }

  /** A node contributes only to its own children. */
  lemma ContributionToNonChild(g: seq<Value>, p: Id, i: Id, tanh: real -> real)
    requires p < |g| && RuleArity(g[p]) && Fits(g, g[p])
    requires forall k :: 0 <= k < |g[p].children| ==> g[p].children[k] != i
    ensures Contribution(g, p, i, tanh) == 0.0
  {
  }

  /** The contribution depends only on the shape of the arena and the node's own gradient. */
  lemma ContributionSameShape(g: seq<Value>, h: seq<Value>, p: Id, i: Id, tanh: real -> real)
    requires p < |g| && RuleArity(g[p]) && Fits(g, g[p]) && SameShape(g, h) && g[p].grad == h[p].grad
    ensures Fits(h, h[p]) && RuleArity(h[p])
    ensures Contribution(g, p, i, tanh) == Contribution(h, p, i, tanh)
  {
    var v := g[p];
    if v.op == "*" || v.op == "tanh" {
      assert g[v.children[0]].data == h[v.children[0]].data;
    }
    if v.op == "*" {
      assert g[v.children[1]].data == h[v.children[1]].data;
    }
  }

  /** `backward_single` on node `n`: `None` when its tag has no rule. */
  function Propagate(g: seq<Value>, n: Id, tanh: real -> real): (r: Option<seq<Value>>)
    requires n < |g| && RuleArity(g[n]) && Fits(g, g[n])
    ensures r.Some? ==> SameShape(g, r.value)
  {
    if !KnownOp(g[n].op) then None
    else Some(seq(|g|, i requires 0 <= i < |g| => g[i].(grad := g[i].grad + Contribution(g, n, i, tanh))))
  }

  /** The rules of the listed nodes can be applied: the arena is acyclic and each rule finds its children. */
  predicate Runnable(g: seq<Value>, s: seq<Id>)
  {
    WF(g) && InRange(g, s) && forall j :: 0 <= j < |s| ==> RuleArity(g[s[j]])
  }

  lemma RunnableSameShape(g: seq<Value>, h: seq<Value>, s: seq<Id>)
    requires Runnable(g, s) && SameShape(g, h)
    ensures Runnable(h, s)
  {
    forall i, k | 0 <= i < |h| && 0 <= k < |h[i].children| ensures h[i].children[k] < i {
      assert h[i].children == g[i].children;
    }
  }

  /** All listed nodes carry a tag `backward_single` knows. */
  predicate AllKnown(g: seq<Value>, s: seq<Id>)
    requires InRange(g, s)
  {
    forall j :: 0 <= j < |s| ==> KnownOp(g[s[j]].op)
  }

  /** The reverse-iterator loop of `backward`: the last listed node first. */
  function Backprop(g: seq<Value>, s: seq<Id>, tanh: real -> real): (r: Outcome)
    requires Runnable(g, s)
    ensures SameShape(g, r.nodes)
    decreases |s|
  {
    if s == [] then Outcome(g, None)
    else
      var n := s[|s| - 1];
      match Propagate(g, n, tanh)
      case None => Outcome(g, Some(UnknownOp(g[n].op)))
      case Some(g') =>
        RunnableSameShape(g, g', s[..|s| - 1]);
        Backprop(g', s[..|s| - 1], tanh)
  }

  /** Sum, over the listed nodes, of what each one's rule adds to node `i`. */
  function Incoming(g: seq<Value>, s: seq<Id>, i: Id, tanh: real -> real): real
    requires Runnable(g, s)
    decreases |s|
  {
    if s == [] then 0.0
    else Incoming(g, s[..|s| - 1], i, tanh) + Contribution(g, s[|s| - 1], i, tanh)
  }

  lemma {:induction false} IncomingFromNonParents(g: seq<Value>, s: seq<Id>, i: Id, tanh: real -> real)
    requires Runnable(g, s)
    requires forall j, k :: 0 <= j < |s| && 0 <= k < |g[s[j]].children| ==> g[s[j]].children[k] != i
    ensures Incoming(g, s, i, tanh) == 0.0
    decreases |s|
  {
    if s != [] {
      var n := s[|s| - 1];
      ContributionToNonChild(g, n, i, tanh);
      IncomingFromNonParents(g, s[..|s| - 1], i, tanh);
    }
  }

  // ---------------------------------------------------------------------------
  // Properties of the pass over a list
  // ---------------------------------------------------------------------------

  /** The pass throws exactly when some listed node has an unknown tag, and then names that tag. */
  lemma {:induction false} BackpropThrows(g: seq<Value>, s: seq<Id>, tanh: real -> real)
    requires Runnable(g, s)
    ensures Backprop(g, s, tanh).thrown.None? <==> AllKnown(g, s)
    ensures Backprop(g, s, tanh).thrown.Some? ==> !KnownOp(Backprop(g, s, tanh).thrown.value.op)
    decreases |s|
  {
    if s != [] {
      var n := s[|s| - 1];
      var s1 := s[..|s| - 1];
      if KnownOp(g[n].op) {
        var g' := Propagate(g, n, tanh).value;
        RunnableSameShape(g, g', s1);
        BackpropThrows(g', s1, tanh);
        assert AllKnown(g', s1) <==> AllKnown(g, s1) by {
          forall j | 0 <= j < |s1| ensures g'[s1[j]].op == g[s1[j]].op {}
        }
        assert AllKnown(g, s) <==> AllKnown(g, s1) by {
          if AllKnown(g, s1) {
            forall j | 0 <= j < |s| ensures KnownOp(g[s[j]].op) {
              if j < |s1| { assert s[j] == s1[j]; }
            }
          }
        }
      } else {
        assert !KnownOp(g[s[|s| - 1]].op);
      }
    }
  }

  /** A node that is no listed node's child keeps its gradient (and everything else). */
  lemma {:induction false} BackpropUntouched(g: seq<Value>, s: seq<Id>, i: Id, tanh: real -> real)
    requires Runnable(g, s) && i < |g|
    requires forall j, k :: 0 <= j < |s| && 0 <= k < |g[s[j]].children| ==> g[s[j]].children[k] != i
    ensures Backprop(g, s, tanh).nodes[i] == g[i]
    decreases |s|
  {
    if s != [] {
      var n := s[|s| - 1];
      var s1 := s[..|s| - 1];
      if KnownOp(g[n].op) {
        var g' := Propagate(g, n, tanh).value;
        ContributionToNonChild(g, n, i, tanh);
        assert g'[i] == g[i];
        RunnableSameShape(g, g', s1);
        forall j, k | 0 <= j < |s1| && 0 <= k < |g'[s1[j]].children| ensures g'[s1[j]].children[k] != i {
          assert g'[s1[j]].children == g[s[j]].children;
        }
        BackpropUntouched(g', s1, i, tanh);
      }
    }
  }

  /** Dropping the last node of a sorted list, after an arena update that keeps the shape, keeps it sorted. */
  lemma DropLastKeepsOrder(g: seq<Value>, g': seq<Value>, s: seq<Id>)
    requires Runnable(g, s) && Distinct(s) && PostOrdered(g, s) && AllKnown(g, s) && s != []
    requires SameShape(g, g')
    ensures var s1 := s[..|s| - 1];
      Runnable(g', s1) && Distinct(s1) && PostOrdered(g', s1) && AllKnown(g', s1)
  {
    var s1 := s[..|s| - 1];
    RunnableSameShape(g, g', s1);
    forall j, k | 0 <= j < |s1| && 0 <= k < |g'[s1[j]].children|
      ensures g'[s1[j]].children[k] in s1[..j]
    {
      assert g'[s1[j]].children == g[s[j]].children;
      assert s1[..j] == s[..j];
    }
    forall j | 0 <= j < |s1| ensures KnownOp(g'[s1[j]].op) {
      assert g'[s1[j]].op == g[s[j]].op;
    }
  }

  /** The last node of a sorted list is no child of any earlier one, nor of itself. */
  lemma LastIsNoChild(g: seq<Value>, h: seq<Value>, s: seq<Id>)
    requires Runnable(g, s) && Distinct(s) && PostOrdered(g, s) && s != [] && SameShape(g, h)
    ensures var n := s[|s| - 1]; var s1 := s[..|s| - 1];
      && (forall k :: 0 <= k < |g[n].children| ==> g[n].children[k] != n)
      && (forall j, k :: 0 <= j < |s1| && 0 <= k < |h[s1[j]].children| ==> h[s1[j]].children[k] != n)
  {
    var n := s[|s| - 1];
    var s1 := s[..|s| - 1];
    forall j, k | 0 <= j < |s1| && 0 <= k < |h[s1[j]].children| ensures h[s1[j]].children[k] != n {
      assert h[s1[j]].children == g[s[j]].children;
      assert g[s[j]].children[k] in s[..j];
      assert s[|s| - 1] !in s[..j];
    }
  }

  /**
   * The chain rule. Over a duplicate-free, post-ordered list of nodes with known
   * tags, the pass completes, and each node ends with its initial gradient plus
   * what every listed node's rule adds to it, using that node's final gradient.
   */
  lemma {:induction false} ChainRule(g: seq<Value>, s: seq<Id>, tanh: real -> real)
    requires Runnable(g, s) && Distinct(s) && PostOrdered(g, s) && AllKnown(g, s)
    ensures var r := Backprop(g, s, tanh);
      && r.thrown.None?
      && Runnable(r.nodes, s)
      && forall i :: 0 <= i < |g| ==> r.nodes[i].grad == g[i].grad + Incoming(r.nodes, s, i, tanh)
    decreases |s|
  {
    var r := Backprop(g, s, tanh);
    RunnableSameShape(g, r.nodes, s);
    if s != [] {
      var n := s[|s| - 1];
      var s1 := s[..|s| - 1];
      var g' := Propagate(g, n, tanh).value;
      assert r == Backprop(g', s1, tanh);
      DropLastKeepsOrder(g, g', s);
      ChainRule(g', s1, tanh);
      // n is nobody's child in s1, and not its own child: its gradient is final once its turn comes
      LastIsNoChild(g, r.nodes, s);
      ContributionToNonChild(g, n, n, tanh);
      RunnableSameShape(g, r.nodes, s1);
      IncomingFromNonParents(r.nodes, s1, n, tanh);
      assert r.nodes[n].grad == g[n].grad;
      forall i | 0 <= i < |g|
        ensures r.nodes[i].grad == g[i].grad + Incoming(r.nodes, s, i, tanh)
      {
        ContributionSameShape(g, r.nodes, n, i, tanh);
      }
    }
  }

  // ---------------------------------------------------------------------------
  // `backward` from a root
  // ---------------------------------------------------------------------------

  /** `set_grad` as a function: overwrite one node's gradient. */
  function SetGrad(g: seq<Value>, n: Id, d: real): (r: seq<Value>)
    requires n < |g|
    ensures SameShape(g, r) && r[n].grad == d
    ensures forall i :: 0 <= i < |g| && i != n ==> r[i] == g[i]
  {
    g[n := g[n].(grad := d)]
  }

  /** Every rule reached from `root` finds the children it reads. */
  ghost predicate BackwardReady(g: seq<Value>, root: Id)
  {
    WF(g) && root < |g| && forall x :: x in Reach(g, root) ==> RuleArity(g[x])
  }

  /** The sorted list, once the root's gradient is one: every listed rule finds its children. */
  lemma SortedRunnable(g: seq<Value>, root: Id)
    requires BackwardReady(g, root)
    ensures Runnable(SetGrad(g, root, 1.0), TopoSort(g, root))
  {
    var s := TopoSort(g, root);
    TopoSortCorrect(g, root);
    var g0 := SetGrad(g, root, 1.0);
    RunnableSameShape(g, g0, []);
    forall j | 0 <= j < |s| ensures RuleArity(g0[s[j]]) {
      assert s[j] in Elems(s);
      assert RuleArity(g[s[j]]);
      assert g0[s[j]].op == g[s[j]].op && g0[s[j]].children == g[s[j]].children;
    }
  }

  /** The sorted list is still duplicate-free and post-ordered once the root's gradient is set. */
  lemma SortedOrdered(g: seq<Value>, root: Id)
    requires BackwardReady(g, root)
    ensures InRange(g, TopoSort(g, root))
    ensures Distinct(TopoSort(g, root)) && PostOrdered(SetGrad(g, root, 1.0), TopoSort(g, root))
  {
    var s := TopoSort(g, root);
    TopoSortCorrect(g, root);
    var g0 := SetGrad(g, root, 1.0);
    forall j, k | 0 <= j < |s| && 0 <= k < |g0[s[j]].children| ensures g0[s[j]].children[k] in s[..j] {
      assert g0[s[j]].children == g[s[j]].children;
    }
  }

  /** The listed tags are all known exactly when every reachable node's tag is. */
  lemma SortedKnown(g: seq<Value>, root: Id)
    requires BackwardReady(g, root)
    ensures InRange(SetGrad(g, root, 1.0), TopoSort(g, root))
    ensures AllKnown(SetGrad(g, root, 1.0), TopoSort(g, root)) <==> forall x :: x in Reach(g, root) ==> KnownOp(g[x].op)
  {
    var s := TopoSort(g, root);
    TopoSortCorrect(g, root);
    var g0 := SetGrad(g, root, 1.0);
    if AllKnown(g0, s) {
      forall x | x in Reach(g, root) ensures KnownOp(g[x].op) {
        assert x in Elems(s);
        var j :| 0 <= j < |s| && s[j] == x;
        assert g0[s[j]].op == g[x].op;
      }
    }
    if forall x :: x in Reach(g, root) ==> KnownOp(g[x].op) {
      forall j | 0 <= j < |s| ensures KnownOp(g0[s[j]].op) {
        assert s[j] in Elems(s);
      }
    }
  }

  /** A reachable node's children are below the root, so the root is nobody's child on the list. */
  lemma SortedParents(g: seq<Value>, root: Id, i: Id)
    requires BackwardReady(g, root) && i < |g|
    requires i == root || i !in Reach(g, root)
    ensures var s := TopoSort(g, root); var g0 := SetGrad(g, root, 1.0);
      InRange(g0, s) &&
      forall j, k :: 0 <= j < |s| && 0 <= k < |g0[s[j]].children| ==> g0[s[j]].children[k] != i
  {
    var s := TopoSort(g, root);
    TopoSortCorrect(g, root);
    var g0 := SetGrad(g, root, 1.0);
    forall j, k | 0 <= j < |s| && 0 <= k < |g0[s[j]].children| ensures g0[s[j]].children[k] != i {
      assert g0[s[j]].children == g[s[j]].children;
      assert s[j] in Elems(s);
      assert g[s[j]].children[k] in s[..j];
      assert g[s[j]].children[k] in Elems(s);
    }
  }

  /** `backward`: sort from the root, set the root's gradient to one, apply the rules in reverse order. */
  ghost function BackwardSpec(g: seq<Value>, root: Id, tanh: real -> real): Outcome
    requires BackwardReady(g, root)
  {
    SortedRunnable(g, root);
    Backprop(SetGrad(g, root, 1.0), TopoSort(g, root), tanh)
  }

  /** `backward` changes gradients only: data, children, tags and labels stay. */
  lemma BackwardOnlyGrads(g: seq<Value>, root: Id, tanh: real -> real)
    requires BackwardReady(g, root)
    ensures SameShape(g, BackwardSpec(g, root, tanh).nodes)
  {
  }

  /** After `backward` the root's gradient is one, whatever the graph holds. */
  lemma BackwardRootGradIsOne(g: seq<Value>, root: Id, tanh: real -> real)
    requires BackwardReady(g, root)
    ensures BackwardSpec(g, root, tanh).nodes[root].grad == 1.0
  {
    SortedRunnable(g, root);
    SortedParents(g, root, root);
    BackpropUntouched(SetGrad(g, root, 1.0), TopoSort(g, root), root, tanh);
  }

  /** A node that is not reachable from the root is left exactly as it was. */
  lemma BackwardUnreachableUntouched(g: seq<Value>, root: Id, i: Id, tanh: real -> real)
    requires BackwardReady(g, root) && i < |g| && i !in Reach(g, root)
    ensures BackwardSpec(g, root, tanh).nodes[i] == g[i]
  {
    assert i != root;
    SortedRunnable(g, root);
    SortedParents(g, root, i);
    BackpropUntouched(SetGrad(g, root, 1.0), TopoSort(g, root), i, tanh);
  }

  /** `backward` throws exactly when a reachable node carries a tag without a rule. */
  lemma BackwardThrowsIffUnknownTag(g: seq<Value>, root: Id, tanh: real -> real)
    requires BackwardReady(g, root)
    ensures BackwardSpec(g, root, tanh).thrown.None? <==> forall x :: x in Reach(g, root) ==> KnownOp(g[x].op)
    ensures BackwardSpec(g, root, tanh).thrown.Some? ==> !KnownOp(BackwardSpec(g, root, tanh).thrown.value.op)
  {
    SortedRunnable(g, root);
    SortedKnown(g, root);
    BackpropThrows(SetGrad(g, root, 1.0), TopoSort(g, root), tanh);
  }

  /**
   * `backward` from a root with known tags completes; the root's gradient
   * becomes one, and every other node's gradient is what it held before
   * (it is not zeroed) plus what every reachable node's rule adds to it.
   */
  lemma BackwardChainRule(g: seq<Value>, root: Id, tanh: real -> real)
    requires BackwardReady(g, root)
    requires forall x :: x in Reach(g, root) ==> KnownOp(g[x].op)
    ensures var r := BackwardSpec(g, root, tanh);
      && r.thrown.None?
      && Runnable(r.nodes, TopoSort(g, root))
      && forall i :: 0 <= i < |g| ==>
           r.nodes[i].grad == (if i == root then 1.0 else g[i].grad) + Incoming(r.nodes, TopoSort(g, root), i, tanh)
  {
    var g0 := SetGrad(g, root, 1.0);
    SortedRunnable(g, root);
    SortedOrdered(g, root);
    SortedKnown(g, root);
    ChainRule(g0, TopoSort(g, root), tanh);
  }

  // ---------------------------------------------------------------------------
  // One step of the loop, and its start, for the imperative `backward`
  // ---------------------------------------------------------------------------

  /** One turn of the reverse loop: the rule of the last listed node, then the rest (or the throw). */
  lemma BackpropStep(g: seq<Value>, s: seq<Id>, tanh: real -> real)
    requires Runnable(g, s) && s != []
    ensures var n := s[|s| - 1];
      && RuleArity(g[n]) && Fits(g, g[n])
      && (KnownOp(g[n].op) ==> var g' := Propagate(g, n, tanh).value;
            Runnable(g', s[..|s| - 1]) && Backprop(g, s, tanh) == Backprop(g', s[..|s| - 1], tanh))
      && (!KnownOp(g[n].op) ==> Backprop(g, s, tanh) == Outcome(g, Some(UnknownOp(g[n].op))))
  {
    var n := s[|s| - 1];
    if KnownOp(g[n].op) {
      RunnableSameShape(g, Propagate(g, n, tanh).value, s[..|s| - 1]);
    }
  }

  /** The pass `backward` runs: over the sorted list, once the root's gradient is one. */
  lemma BackwardStart(g: seq<Value>, root: Id, tanh: real -> real)
    requires BackwardReady(g, root)
    ensures var s := TopoSort(g, root); var g0 := SetGrad(g, root, 1.0);
      && |s| > 0 && s[|s| - 1] == root
      && Runnable(g0, s)
      && BackwardSpec(g, root, tanh) == Backprop(g0, s, tanh)
  {
    TopoSortCorrect(g, root);
    SortedRunnable(g, root);
  }
}

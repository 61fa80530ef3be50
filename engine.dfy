/**
 * The engine as the program runs it (micrograd/engine.cc): a `Graph` owns the
 * arena of nodes, every operator binds a fresh node into it, and `Backward`
 * walks the sorted list in reverse, updating children's gradients in place.
 *
 * Each method is proved against the functions of `Values`, `Topo` and
 * `Gradient`: `BackwardSingle` against `Gradient.Propagate`, `Backward`
 * against `Gradient.BackwardSpec`.
 */
module Engine {
  import opened Wrappers
  import opened Values
  import opened Topo
  import opened Gradient

  /** `update_grad(x)` on node `i` as a function: add `x` to its gradient. */
  function AddGrad(g: seq<Value>, i: Id, x: real): (r: seq<Value>)
    requires i < |g|
    ensures SameShape(g, r)
    ensures r[i].grad == g[i].grad + x
    ensures forall j :: 0 <= j < |g| && j != i ==> r[j] == g[j]
  {
    g[i := g[i].(grad := g[i].grad + x)]
  }

  /** `set(d)` as a function: overwrite one node's scalar. */
  function SetData(g: seq<Value>, n: Id, d: real): (r: seq<Value>)
    requires n < |g|
    ensures |r| == |g| && r[n].data == d
    ensures r[n].grad == g[n].grad && r[n].children == g[n].children && r[n].op == g[n].op && r[n].name == g[n].name
    ensures forall j :: 0 <= j < |g| && j != n ==> r[j] == g[j]
  {
    g[n := g[n].(data := d)]
  }

  /** `set_label(l)` as a function: overwrite one node's label. */
  function SetName(g: seq<Value>, n: Id, l: string): (r: seq<Value>)
    requires n < |g|
    ensures |r| == |g| && r[n].name == l
    ensures r[n].data == g[n].data && r[n].grad == g[n].grad && r[n].children == g[n].children && r[n].op == g[n].op
    ensures forall j :: 0 <= j < |g| && j != n ==> r[j] == g[j]
  {
    g[n := g[n].(name := l)]
  }

  /** Two successive gradient updates add both amounts; a node named twice receives both. */
  lemma AddGradTwice(g: seq<Value>, c0: Id, x0: real, c1: Id, x1: real)
    requires c0 < |g| && c1 < |g|
    ensures var r := AddGrad(AddGrad(g, c0, x0), c1, x1);
      && |r| == |g|
      && forall i :: 0 <= i < |g| ==>
           r[i] == g[i].(grad := g[i].grad + ((if i == c0 then x0 else 0.0) + (if i == c1 then x1 else 0.0)))
  {
  }

  /** A rule that adds `x0` to child slot 0 and `x1` to child slot 1 is two `update_grad` calls. */
  lemma PropagateTwoUpdates(g: seq<Value>, n: Id, tanh: real -> real, x0: real, x1: real)
    requires n < |g| && Fits(g, g[n]) && RuleArity(g[n]) && KnownOp(g[n].op) && |g[n].children| >= 2
    requires forall i :: 0 <= i < |g| ==>
      Contribution(g, n, i, tanh) == (if i == g[n].children[0] then x0 else 0.0) + (if i == g[n].children[1] then x1 else 0.0)
    ensures Propagate(g, n, tanh) == Some(AddGrad(AddGrad(g, g[n].children[0], x0), g[n].children[1], x1))
  {
    var p := Propagate(g, n, tanh).value;
    var r := AddGrad(AddGrad(g, g[n].children[0], x0), g[n].children[1], x1);
    AddGradTwice(g, g[n].children[0], x0, g[n].children[1], x1);
    forall i | 0 <= i < |g| ensures p[i] == r[i] {
      assert p[i] == g[i].(grad := g[i].grad + Contribution(g, n, i, tanh));
    }
    assert p == r;
  }

  /** A rule that adds `x0` to child slot 0 only is one `update_grad` call. */
  lemma PropagateOneUpdate(g: seq<Value>, n: Id, tanh: real -> real, x0: real)
    requires n < |g| && Fits(g, g[n]) && RuleArity(g[n]) && KnownOp(g[n].op) && |g[n].children| >= 1
    requires forall i :: 0 <= i < |g| ==> Contribution(g, n, i, tanh) == (if i == g[n].children[0] then x0 else 0.0)
    ensures Propagate(g, n, tanh) == Some(AddGrad(g, g[n].children[0], x0))
  {
    var p := Propagate(g, n, tanh).value;
    var r := AddGrad(g, g[n].children[0], x0);
    forall i | 0 <= i < |g| ensures p[i] == r[i] {
      assert p[i] == g[i].(grad := g[i].grad + Contribution(g, n, i, tanh));
    }
    assert p == r;
  }

  /** A rule that adds nothing leaves the arena as it is. */
  lemma PropagateNoUpdate(g: seq<Value>, n: Id, tanh: real -> real)
    requires n < |g| && Fits(g, g[n]) && RuleArity(g[n]) && KnownOp(g[n].op)
    requires forall i :: 0 <= i < |g| ==> Contribution(g, n, i, tanh) == 0.0
    ensures Propagate(g, n, tanh) == Some(g)
  {
    var p := Propagate(g, n, tanh).value;
    forall i | 0 <= i < |g| ensures p[i] == g[i] {
      assert p[i] == g[i].(grad := g[i].grad + Contribution(g, n, i, tanh));
    }
    assert p == g;
  }

  /** `backward_single` on a "+" node: `update_grad(grad)` on both children. */
  lemma PropagatePlus(g: seq<Value>, n: Id, tanh: real -> real)
    requires WF(g) && n < |g| && g[n].op == "+" && |g[n].children| >= 2
    ensures var v := g[n];
      Propagate(g, n, tanh) == Some(AddGrad(AddGrad(g, v.children[0], v.grad), v.children[1], v.grad))
  {
    PropagateTwoUpdates(g, n, tanh, g[n].grad, g[n].grad);
  }

  /** `backward_single` on a "-" node with two children: `update_grad(grad)`, then `update_grad(-grad)`. */
  lemma PropagateMinus(g: seq<Value>, n: Id, tanh: real -> real)
    requires WF(g) && n < |g| && g[n].op == "-" && |g[n].children| >= 2
    ensures var v := g[n];
      Propagate(g, n, tanh) == Some(AddGrad(AddGrad(g, v.children[0], v.grad), v.children[1], -v.grad))
  {
    PropagateTwoUpdates(g, n, tanh, g[n].grad, -g[n].grad);
  }

  /** `backward_single` on a "*" node: each child gets the gradient times the other child's data. */
  lemma PropagateTimes(g: seq<Value>, n: Id, tanh: real -> real, x0: real, x1: real)
    requires WF(g) && n < |g| && g[n].op == "*" && |g[n].children| >= 2
    requires x0 == g[n].grad * g[g[n].children[1]].data && x1 == g[n].grad * g[g[n].children[0]].data
    ensures Propagate(g, n, tanh) == Some(AddGrad(AddGrad(g, g[n].children[0], x0), g[n].children[1], x1))
  {
    PropagateTwoUpdates(g, n, tanh, x0, x1);
  }

  /** `backward_single` on a "tanh" node: the child gets the gradient times `1 - tanh(child)^2`. */
  lemma PropagateTanh(g: seq<Value>, n: Id, tanh: real -> real, x0: real)
    requires WF(g) && n < |g| && g[n].op == "tanh" && |g[n].children| >= 1
    requires x0 == g[n].grad * (1.0 - tanh(g[g[n].children[0]].data) * tanh(g[g[n].children[0]].data))
    ensures Propagate(g, n, tanh) == Some(AddGrad(g, g[n].children[0], x0))
  {
    PropagateOneUpdate(g, n, tanh, x0);
  }

  /** `backward_single` on a leaf changes nothing. */
  lemma PropagateLeaf(g: seq<Value>, n: Id, tanh: real -> real)
    requires WF(g) && n < |g| && g[n].op == ""
    ensures Propagate(g, n, tanh) == Some(g)
  {
    PropagateNoUpdate(g, n, tanh);
  }

  class Graph {
    /** The arena: node `i` is `nodes[i]`, and an id is the node's identity. */
    var nodes: seq<Value>
    /** The platform's `std::tanh`, left uninterpreted. */
    const tanh: real -> real

    ghost predicate Valid()
      reads this
    {
      WF(nodes)
    }

    constructor (tanh: real -> real)
      ensures Valid() && nodes == [] && this.tanh == tanh
    {
      nodes := [];
      this.tanh := tanh;
    }

    /** Bind a node built from existing nodes; its id is the next free one. */
    method Push(v: Value) returns (id: Id)
      requires Valid() && Fits(nodes, v)
      modifies this
      ensures Valid()
      ensures id == |old(nodes)| && nodes == old(nodes) + [v]
    {
      PushKeepsWF(nodes, v);
      id := |nodes|;
      nodes := nodes + [v];
    }

    // -------------------------------------------------------------------------
    // Constructors and operators: each binds one fresh node (or a fresh leaf
    // and then a fresh node, for a scalar operand) and leaves the others alone
    // -------------------------------------------------------------------------

    /** `Value(data, children, op, label)`. */
    method NewValue(data: real, children: seq<Id>, op: string, name: string) returns (id: Id)
      requires Valid() && forall k :: 0 <= k < |children| ==> children[k] < |nodes|
      modifies this
      ensures Valid() && id == |old(nodes)|
      ensures nodes == old(nodes) + [MakeValue(data, children, op, name)]
    {
      id := Push(MakeValue(data, children, op, name));
    }

    /** `Value(data, label)`: a leaf. */
    method NewLeaf(data: real, name: string) returns (id: Id)
      requires Valid()
      modifies this
      ensures Valid() && id == |old(nodes)|
      ensures nodes == old(nodes) + [Leaf(data, name)]
    {
      id := Push(Leaf(data, name));
    }

    /** `a + b`. */
    method Add(a: Id, b: Id) returns (id: Id)
      requires Valid() && a < |nodes| && b < |nodes|
      modifies this
      ensures Valid() && id == |old(nodes)|
      ensures nodes == old(nodes) + [Plus(old(nodes), a, b)]
    {
      id := Push(Plus(nodes, a, b));
    }

    /** `a - b`. */
    method Sub(a: Id, b: Id) returns (id: Id)
      requires Valid() && a < |nodes| && b < |nodes|
      modifies this
      ensures Valid() && id == |old(nodes)|
      ensures nodes == old(nodes) + [Minus(old(nodes), a, b)]
    {
      id := Push(Minus(nodes, a, b));
    }

    /** `a * b`. */
    method Mul(a: Id, b: Id) returns (id: Id)
      requires Valid() && a < |nodes| && b < |nodes|
      modifies this
      ensures Valid() && id == |old(nodes)|
      ensures nodes == old(nodes) + [Times(old(nodes), a, b)]
    {
      id := Push(Times(nodes, a, b));
    }

    /** `-a` as written: tag "-" with a single child (see `Findings.NegBlocksBackward`). */
    method NegAsWritten(a: Id) returns (id: Id)
      requires Valid() && a < |nodes|
      modifies this
      ensures Valid() && id == |old(nodes)|
      ensures nodes == old(nodes) + [Neg(old(nodes), a)]
    {
      id := Push(Neg(nodes, a));
    }

    /** `-a` as corrected: `a * -1`, a node the "*" rule differentiates. */
    method Negate(a: Id) returns (id: Id)
      requires Valid() && a < |nodes|
      modifies this
      ensures Valid() && id == |old(nodes)| + 1
      ensures nodes == old(nodes) + [Leaf(-1.0, ""), Times(old(nodes) + [Leaf(-1.0, "")], a, |old(nodes)|)]
      ensures nodes[id].data == -old(nodes)[a].data
    {
      var m := NewLeaf(-1.0, "");
      id := Mul(a, m);
    }

    /** `a.tanh()`. */
    method Tanh(a: Id) returns (id: Id)
      requires Valid() && a < |nodes|
      modifies this
      ensures Valid() && id == |old(nodes)|
      ensures nodes == old(nodes) + [Values.Tanh(old(nodes), a, tanh)]
    {
      id := Push(Values.Tanh(nodes, a, tanh));
    }

    /** `a + x` for a plain scalar `x`: `x` becomes a fresh unlabelled leaf. */
    method AddScalar(a: Id, x: real) returns (id: Id)
      requires Valid() && a < |nodes|
      modifies this
      ensures Valid() && id == |old(nodes)| + 1
      ensures nodes == old(nodes) + [Leaf(x, ""), Plus(old(nodes) + [Leaf(x, "")], a, |old(nodes)|)]
      ensures nodes[id].data == old(nodes)[a].data + x
    {
      var c := NewLeaf(x, "");
      id := Add(a, c);
    }

    /** `a - x` for a plain scalar `x`. */
    method SubScalar(a: Id, x: real) returns (id: Id)
      requires Valid() && a < |nodes|
      modifies this
      ensures Valid() && id == |old(nodes)| + 1
      ensures nodes == old(nodes) + [Leaf(x, ""), Minus(old(nodes) + [Leaf(x, "")], a, |old(nodes)|)]
      ensures nodes[id].data == old(nodes)[a].data - x
    {
      var c := NewLeaf(x, "");
      id := Sub(a, c);
    }

    /** `a * x` for a plain scalar `x`. */
    method MulScalar(a: Id, x: real) returns (id: Id)
      requires Valid() && a < |nodes|
      modifies this
      ensures Valid() && id == |old(nodes)| + 1
      ensures nodes == old(nodes) + [Leaf(x, ""), Times(old(nodes) + [Leaf(x, "")], a, |old(nodes)|)]
      ensures nodes[id].data == old(nodes)[a].data * x
    {
      var c := NewLeaf(x, "");
      id := Mul(a, c);
    }

    /**
     * `a += b`, `a -= b`, `a *= b` as corrected: bind a fresh node and return
     * it as the new binding of `a`; the node `a` named before is untouched, so
     * a node that captured it keeps what it captured.
     */
    method AddAssign(a: Id, b: Id) returns (a': Id)
      requires Valid() && a < |nodes| && b < |nodes|
      modifies this
      ensures Valid() && a' == |old(nodes)| && |nodes| == a' + 1 && nodes[..a'] == old(nodes)
      ensures nodes[a'].data == old(nodes)[a].data + old(nodes)[b].data
      ensures nodes[a'].children == [a, b] && nodes[a'].op == "+"
    {
      a' := Add(a, b);
    }

    method SubAssign(a: Id, b: Id) returns (a': Id)
      requires Valid() && a < |nodes| && b < |nodes|
      modifies this
      ensures Valid() && a' == |old(nodes)| && |nodes| == a' + 1 && nodes[..a'] == old(nodes)
      ensures nodes[a'].data == old(nodes)[a].data - old(nodes)[b].data
      ensures nodes[a'].children == [a, b] && nodes[a'].op == "-"
    {
      a' := Sub(a, b);
    }

    method MulAssign(a: Id, b: Id) returns (a': Id)
      requires Valid() && a < |nodes| && b < |nodes|
      modifies this
      ensures Valid() && a' == |old(nodes)| && |nodes| == a' + 1 && nodes[..a'] == old(nodes)
      ensures nodes[a'].data == old(nodes)[a].data * old(nodes)[b].data
      ensures nodes[a'].children == [a, b] && nodes[a'].op == "*"
    {
      a' := Mul(a, b);
    }

    // -------------------------------------------------------------------------
    // Accessors: the getters read, the setters overwrite exactly one field
    // -------------------------------------------------------------------------

    /** `set(d)`. */
    method Set(n: Id, d: real)
      requires Valid() && n < |nodes|
      modifies this
      ensures Valid() && nodes == SetData(old(nodes), n, d)
    {
      nodes := SetData(nodes, n, d);
    }

    /** `set_label(l)`. */
    method SetLabel(n: Id, l: string)
      requires Valid() && n < |nodes|
      modifies this
      ensures Valid() && nodes == SetName(old(nodes), n, l)
    {
      nodes := SetName(nodes, n, l);
    }

    /** `set_grad(d)`. */
    method SetGradOf(n: Id, d: real)
      requires Valid() && n < |nodes|
      modifies this
      ensures Valid() && nodes == SetGrad(old(nodes), n, d)
    {
      nodes := SetGrad(nodes, n, d);
    }

    /** `update_grad(x)`: add to the gradient, never overwrite it. */
    method UpdateGrad(n: Id, x: real)
      requires Valid() && n < |nodes|
      modifies this
      ensures Valid() && nodes == AddGrad(old(nodes), n, x)
    {
      nodes := AddGrad(nodes, n, x);
    }

    /** `get()` (also `get_data()`). */
    method Get(n: Id) returns (d: real)
      requires n < |nodes|
      ensures d == nodes[n].data
    {
      d := nodes[n].data;
    }

    /** `grad`. */
    method GetGrad(n: Id) returns (d: real)
      requires n < |nodes|
      ensures d == nodes[n].grad
    {
      d := nodes[n].grad;
    }

    /** `get_label()`. */
    method GetLabel(n: Id) returns (l: string)
      requires n < |nodes|
      ensures l == nodes[n].name
    {
      l := nodes[n].name;
    }

    /** `get_children()`: the operands' identities, each an existing node older than `n`. */
    method GetChildren(n: Id) returns (cs: seq<Id>)
      requires Valid() && n < |nodes|
      ensures cs == nodes[n].children
      ensures forall k :: 0 <= k < |cs| ==> cs[k] < n
    {
      cs := nodes[n].children;
    }

    /** `get_op()`. */
    method GetOp(n: Id) returns (op: string)
      requires n < |nodes|
      ensures op == nodes[n].op
    {
      op := nodes[n].op;
    }

    // -------------------------------------------------------------------------
    // The backward pass
    // -------------------------------------------------------------------------

    /**
     * `backward_single` on node `n`: one `update_grad` per child slot its rule
     * names; an unknown tag throws before anything changes.
     */
    method BackwardSingle(n: Id) returns (thrown: Option<Error>)
      requires Valid() && n < |nodes| && RuleArity(nodes[n])
      modifies this
      ensures Valid() && Fits(old(nodes), old(nodes)[n])
      ensures KnownOp(old(nodes)[n].op) ==> thrown.None? && nodes == Propagate(old(nodes), n, tanh).value
      ensures !KnownOp(old(nodes)[n].op) ==> thrown == Some(UnknownOp(old(nodes)[n].op)) && nodes == old(nodes)
    {
      ghost var g := nodes;
      var v := nodes[n];
      assert Fits(g, v);
      thrown := None;
      if v.op == "" {
        PropagateLeaf(g, n, tanh);
      } else if v.op == "+" {
        assert v.children[0] < n;
        UpdateGrad(v.children[0], nodes[n].grad);
        UpdateGrad(v.children[1], nodes[n].grad);
        PropagatePlus(g, n, tanh);
        assert nodes == AddGrad(AddGrad(g, v.children[0], v.grad), v.children[1], v.grad);
      } else if v.op == "-" {
        assert v.children[0] < n;
        UpdateGrad(v.children[0], nodes[n].grad);
        UpdateGrad(v.children[1], -nodes[n].grad);
        PropagateMinus(g, n, tanh);
        assert nodes == AddGrad(AddGrad(g, v.children[0], v.grad), v.children[1], -v.grad);
      } else if v.op == "*" {
        assert v.children[0] < n;
        ghost var x0, x1 := v.grad * g[v.children[1]].data, v.grad * g[v.children[0]].data;
        assert x0 == nodes[n].grad * nodes[v.children[1]].data;
        UpdateGrad(v.children[0], nodes[n].grad * nodes[v.children[1]].data);
        ghost var g1 := nodes;
        assert g1 == AddGrad(g, v.children[0], x0);
        assert nodes[n] == v && nodes[v.children[0]].data == g[v.children[0]].data;
        assert x1 == nodes[n].grad * nodes[v.children[0]].data;
        UpdateGrad(v.children[1], nodes[n].grad * nodes[v.children[0]].data);
        assert nodes == AddGrad(g1, v.children[1], x1);
        PropagateTimes(g, n, tanh, x0, x1);
      } else if v.op == "tanh" {
        var t := tanh(nodes[v.children[0]].data);
        assert t == tanh(g[g[n].children[0]].data);
        ghost var x := nodes[n].grad * (1.0 - t * t);
        assert x == v.grad * (1.0 - t * t);
        UpdateGrad(v.children[0], nodes[n].grad * (1.0 - t * t));
        assert nodes == AddGrad(g, v.children[0], x);
        PropagateTanh(g, n, tanh, x);
      } else {
        thrown := Some(UnknownOp(v.op));
      }
    }

    /**
     * The reverse-iterator loop of `backward()`: `backward_single` on each
     * listed node, the last one first; a throw ends the loop with the updates
     * made so far.
     */
    method BackwardLoop(sorted: seq<Id>) returns (thrown: Option<Error>)
      requires Valid() && Runnable(nodes, sorted)
      modifies this
      ensures Valid()
      ensures Outcome(nodes, thrown) == Backprop(old(nodes), sorted, tanh)
    {
      var i := |sorted|;
      assert sorted[..i] == sorted;
      while i > 0
        invariant 0 <= i <= |sorted|
        invariant Valid() && Runnable(nodes, sorted[..i])
        invariant Backprop(nodes, sorted[..i], tanh) == Backprop(old(nodes), sorted, tanh)
        decreases i
      {
        ghost var s := sorted[..i];
        assert s[|s| - 1] == sorted[i - 1] && s[..|s| - 1] == sorted[..i - 1];
        BackpropStep(nodes, s, tanh);
        thrown := BackwardSingle(sorted[i - 1]);
        if thrown.Some? {
          return;
        }
        i := i - 1;
      }
      thrown := None;
    }

    /**
     * `backward()` on `root`: sort from the root, set the gradient of the last
     * sorted node (the root) to one, then run the reverse loop.
     */
    method Backward(root: Id) returns (thrown: Option<Error>)
      requires Valid() && BackwardReady(nodes, root)
      modifies this
      ensures Valid()
      ensures Outcome(nodes, thrown) == BackwardSpec(old(nodes), root, tanh)
    {
      BackwardStart(nodes, root, tanh);
      var sorted, visited := BuildTopo(nodes, [], {}, root);
      SetGradOf(sorted[|sorted| - 1], 1.0);
      thrown := BackwardLoop(sorted);
    }
  }
}

/**
 * The data model of the engine: a `Value` node and the pure operators that
 * build new nodes from existing ones (micrograd/engine.h, micrograd/engine.cc).
 *
 * Nodes live in an arena (a sequence of `Value`) and refer to their children by
 * index. Every operator reads its operands from the arena and returns a fresh,
 * not yet bound node whose children are the operands' ids; binding it (pushing
 * it into the arena) is `Engine.Graph.Push`. A child's id is always smaller than
 * its parent's, so the graph is acyclic by construction.
 */
module Values {

  /** Index of a node in the arena; it plays the role of the `Value*` identity. */
  type Id = nat

  /** A node: its scalar, its accumulated gradient, its operands, its op tag and its label (`name`). */
  datatype Value = Value(data: real, grad: real, children: seq<Id>, op: string, name: string)

  /** All children of `v` already exist in the arena `g`. */
  predicate Fits(g: seq<Value>, v: Value)
  {
    forall k :: 0 <= k < |v.children| ==> v.children[k] < |g|
  }

  /** Acyclicity by construction: every child id is smaller than its parent's id. */
  predicate WF(g: seq<Value>)
  {
    forall i, k :: 0 <= i < |g| && 0 <= k < |g[i].children| ==> g[i].children[k] < i
  }

  /** The op tags `backward_single` has a rule for. */
  predicate KnownOp(op: string)
  {
    op == "" || op == "+" || op == "-" || op == "*" || op == "tanh"
  }

  /** The children the backward rule for `v.op` indexes actually exist. */
  predicate RuleArity(v: Value)
  {
    && (v.op == "+" || v.op == "-" || v.op == "*" ==> |v.children| >= 2)
    && (v.op == "tanh" ==> |v.children| >= 1)
  }

  /** `a` and `b` differ at most in their `grad` fields. */
  predicate SameShape(a: seq<Value>, b: seq<Value>)
  {
    && |a| == |b|
    && forall i :: 0 <= i < |a| ==>
         a[i].data == b[i].data && a[i].children == b[i].children &&
         a[i].op == b[i].op && a[i].name == b[i].name
  }

  /** Pushing a node whose children exist keeps the arena acyclic. */
  lemma PushKeepsWF(g: seq<Value>, v: Value)
    requires WF(g) && Fits(g, v)
    ensures WF(g + [v])
  {
    forall i, k | 0 <= i < |g + [v]| && 0 <= k < |(g + [v])[i].children|
      ensures (g + [v])[i].children[k] < i
    {
      if i < |g| {
        assert (g + [v])[i] == g[i];
      }
    }
  }

  // ---------------------------------------------------------------------------
  // Constructors
  // ---------------------------------------------------------------------------

  /** The full constructor: the node records its operands and tag, and starts with no gradient. */
  function MakeValue(data: real, children: seq<Id>, op: string, name: string): (v: Value)
    ensures v.grad == 0.0
    ensures v.data == data && v.children == children && v.op == op && v.name == name
  {
    Value(data, 0.0, children, op, name)
  }

  /** The leaf constructor: no operands, the empty tag, a zero gradient. */
  function Leaf(data: real, name: string): (v: Value)
    ensures v.children == [] && v.op == "" && v.grad == 0.0
    ensures v.data == data && v.name == name
    ensures RuleArity(v) && KnownOp(v.op)
  {
    MakeValue(data, [], "", name)
  }

  // ---------------------------------------------------------------------------
  // Operators: each returns a new node and leaves its operands alone
  // ---------------------------------------------------------------------------

  function Plus(g: seq<Value>, a: Id, b: Id): (v: Value)
    requires a < |g| && b < |g|
    ensures v.data == g[a].data + g[b].data
    ensures v.children == [a, b] && v.op == "+" && v.grad == 0.0 && v.name == ""
    ensures Fits(g, v) && RuleArity(v) && KnownOp(v.op)
  {
    MakeValue(g[a].data + g[b].data, [a, b], "+", "")
  }

  function Minus(g: seq<Value>, a: Id, b: Id): (v: Value)
    requires a < |g| && b < |g|
    ensures v.data == g[a].data - g[b].data
    ensures v.children == [a, b] && v.op == "-" && v.grad == 0.0 && v.name == ""
    ensures Fits(g, v) && RuleArity(v) && KnownOp(v.op)
  {
    MakeValue(g[a].data - g[b].data, [a, b], "-", "")
  }

  function Times(g: seq<Value>, a: Id, b: Id): (v: Value)
    requires a < |g| && b < |g|
    ensures v.data == g[a].data * g[b].data
    ensures v.children == [a, b] && v.op == "*" && v.grad == 0.0 && v.name == ""
    ensures Fits(g, v) && RuleArity(v) && KnownOp(v.op)
  {
    MakeValue(g[a].data * g[b].data, [a, b], "*", "")
  }

  /**
   * Unary minus as written: it reuses the binary tag "-" with a single child,
   * so the backward rule for "-" (which reads a second child) cannot apply to it.
   */
  function Neg(g: seq<Value>, a: Id): (v: Value)
    requires a < |g|
    ensures v.data == -g[a].data
    ensures v.children == [a] && v.op == "-" && v.grad == 0.0 && v.name == ""
    ensures Fits(g, v) && KnownOp(v.op)
    ensures !RuleArity(v)
  {
    MakeValue(-g[a].data, [a], "-", "")
  }

  /** `tanh` of a node; `tanh` stands for the platform's `std::tanh`. */
  function Tanh(g: seq<Value>, a: Id, tanh: real -> real): (v: Value)
    requires a < |g|
    ensures v.data == tanh(g[a].data)
    ensures v.children == [a] && v.op == "tanh" && v.grad == 0.0 && v.name == ""
    ensures Fits(g, v) && RuleArity(v) && KnownOp(v.op)
  {
    MakeValue(tanh(g[a].data), [a], "tanh", "")
  }

  // ---------------------------------------------------------------------------
  // Comparisons: they compare `data` only, never node identity
  // ---------------------------------------------------------------------------

  predicate Equal(g: seq<Value>, a: Id, b: Id) requires a < |g| && b < |g| { g[a].data == g[b].data }
  predicate NotEqual(g: seq<Value>, a: Id, b: Id) requires a < |g| && b < |g| { g[a].data != g[b].data }
  predicate Less(g: seq<Value>, a: Id, b: Id) requires a < |g| && b < |g| { g[a].data < g[b].data }
  predicate LessEq(g: seq<Value>, a: Id, b: Id) requires a < |g| && b < |g| { g[a].data <= g[b].data }
  predicate Greater(g: seq<Value>, a: Id, b: Id) requires a < |g| && b < |g| { g[a].data > g[b].data }
  predicate GreaterEq(g: seq<Value>, a: Id, b: Id) requires a < |g| && b < |g| { g[a].data >= g[b].data }

  /** The six comparisons are one total order on `data`, whatever the nodes' identities. */
  lemma ComparisonsOrderData(g: seq<Value>, a: Id, b: Id)
    requires a < |g| && b < |g|
    ensures NotEqual(g, a, b) <==> !Equal(g, a, b)
    ensures LessEq(g, a, b) <==> Less(g, a, b) || Equal(g, a, b)
    ensures Greater(g, a, b) <==> Less(g, b, a)
    ensures GreaterEq(g, a, b) <==> LessEq(g, b, a)
    ensures Less(g, a, b) || Equal(g, a, b) || Greater(g, a, b)
    ensures !(Less(g, a, b) && Greater(g, a, b))
  {
  }

  /** Two distinct leaves holding the same scalar compare equal. */
  lemma EqualIsNotIdentity(x: real)
    ensures var g := [Leaf(x, "a"), Leaf(x, "b")]; Equal(g, 0, 1)
  {
  }

  /** The operator results for 5 and 2. */
  lemma OperatorsOnFiveAndTwo()
    ensures var g := [Leaf(5.0, ""), Leaf(2.0, "")];
      && Plus(g, 0, 1).data == 7.0
      && Minus(g, 0, 1).data == 3.0
      && Times(g, 0, 1).data == 10.0
      && Neg(g, 0).data == -5.0
  {
  }
}

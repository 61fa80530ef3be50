/**
 * The network layer (micrograd/nn.cc): a `Neuron` holds weight and bias leaves,
 * a `Layer` a row of neurons, an `Mlp` a chain of layers. They never change
 * after construction, so they are values holding node ids; their constructors
 * and forward passes bind new nodes into the engine's arena and are methods.
 *
 * The random draws of the constructors are parameters (`NeuronInit`). Each
 * forward pass is proved against a function on reals (`NeuronOut`,
 * `LayerOut`, `MlpOut`), and each `get_parameters` against a function on ids.
 */
module Nn {
  import opened Values
  import opened Engine
  import Topo

  /** How many times a C++ loop `for (int i = 0; i < n; i++)` runs. */
  function Width(n: int): (w: nat)
    ensures n >= 0 ==> w == n
    ensures n < 0 ==> w == 0
  {
    if n < 0 then 0 else n
  }

  // ---------------------------------------------------------------------------
  // `std::to_string` of a loop index, for the labels "w0", "w1", ...
  // ---------------------------------------------------------------------------

  function Digit(d: nat): (c: char)
    requires d < 10
    ensures '0' <= c <= '9'
  {
    ('0' as int + d) as char
  }

  /** The decimal spelling of `n`, most significant digit first. */
  function NatToString(n: nat): (s: string)
    ensures |s| >= 1
    ensures forall k :: 0 <= k < |s| ==> '0' <= s[k] <= '9'
    ensures n < 10 <==> |s| == 1
  {
    if n < 10 then [Digit(n)] else NatToString(n / 10) + [Digit(n % 10)]
  }

  /** The number a string of decimal digits spells. */
  function ParseNat(s: string): nat
    requires forall k :: 0 <= k < |s| ==> '0' <= s[k] <= '9'
  {
    if s == [] then 0 else 10 * ParseNat(s[..|s| - 1]) + (s[|s| - 1] - '0') as nat
  }

  /** Spelling an index and reading it back gives the index: distinct indices get distinct labels. */
  lemma {:induction false} NatToStringRoundTrip(n: nat)
    ensures ParseNat(NatToString(n)) == n
  {
    var s := NatToString(n);
    if n >= 10 {
      NatToStringRoundTrip(n / 10);
      assert s[..|s| - 1] == NatToString(n / 10);
      assert (s[|s| - 1] - '0') as nat == n % 10;
    }
  }

  // ---------------------------------------------------------------------------
  // Neurons, layers and networks
  // ---------------------------------------------------------------------------

  /** `Neuron`: its `n_inputs`, its weight leaves and its bias leaf. */
  datatype Neuron = Neuron(nInputs: int, weights: seq<Id>, bias: Id)

  /** `Layer`: its `n_inputs`, its `n_neurons` and its neurons. */
  datatype Layer = Layer(nInputs: int, nNeurons: int, neurons: seq<Neuron>)

  /** `MLP`: its `n_inputs`, its `n_neurons_per_layer` and its layers. */
  datatype Mlp = Mlp(nInputs: int, sizes: seq<int>, layers: seq<Layer>)

  /** The uniform draws a neuron's constructor makes: one per weight, then the bias. */
  datatype NeuronInit = NeuronInit(weights: seq<real>, bias: real)

  /** The number of inputs of layer `i`: the network's inputs, or the previous layer's size. */
  function LayerInputs(nInputs: int, sizes: seq<int>, i: nat): int
    requires i < |sizes|
  {
    if i == 0 then nInputs else sizes[i - 1]
  }

  predicate NeuronShaped(n: Neuron)
  {
    |n.weights| == Width(n.nInputs)
  }

  predicate LayerShaped(l: Layer)
  {
    && |l.neurons| == Width(l.nNeurons)
    && forall j :: 0 <= j < |l.neurons| ==> l.neurons[j].nInputs == l.nInputs && NeuronShaped(l.neurons[j])
  }

  predicate MlpShaped(m: Mlp)
  {
    && |m.layers| == |m.sizes|
    && forall i :: 0 <= i < |m.layers| ==>
         && LayerShaped(m.layers[i])
         && m.layers[i].nInputs == LayerInputs(m.nInputs, m.sizes, i)
         && m.layers[i].nNeurons == m.sizes[i]
  }

  predicate IdsIn(g: seq<Value>, xs: seq<Id>)
  {
    forall k :: 0 <= k < |xs| ==> xs[k] < |g|
  }

  /** Every parameter of the neuron is a node of the arena. */
  predicate NeuronLive(g: seq<Value>, n: Neuron)
  {
    IdsIn(g, n.weights) && n.bias < |g|
  }

  predicate LayerLive(g: seq<Value>, l: Layer)
  {
    forall j :: 0 <= j < |l.neurons| ==> NeuronLive(g, l.neurons[j])
  }

  predicate LayersLive(g: seq<Value>, ls: seq<Layer>)
  {
    forall i :: 0 <= i < |ls| ==> LayerLive(g, ls[i])
  }

  /** `h` is `g` with nodes bound after it: what every operator leaves behind. */
  predicate Extends(g: seq<Value>, h: seq<Value>)
  {
    |g| <= |h| && h[..|g|] == g
  }

  lemma ExtendsTrans(g: seq<Value>, h: seq<Value>, k: seq<Value>)
    requires Extends(g, h) && Extends(h, k)
    ensures Extends(g, k)
  {
    assert k[..|g|] == k[..|h|][..|g|];
  }

  // ---------------------------------------------------------------------------
  // The forward passes on reals
  // ---------------------------------------------------------------------------

  /** The scalars of the listed nodes. */
  function Data(g: seq<Value>, xs: seq<Id>): (r: seq<real>)
    requires IdsIn(g, xs)
    ensures |r| == |xs| && forall k :: 0 <= k < |xs| ==> r[k] == g[xs[k]].data
  {
    seq(|xs|, k requires 0 <= k < |xs| => g[xs[k]].data)
  }

  /** `0 + x[0]*w[0] + x[1]*w[1] + ...`, summed left to right over the inputs. */
  function Dot(xs: seq<real>, ws: seq<real>): real
    requires |xs| <= |ws|
  {
    if xs == [] then 0.0 else Dot(xs[..|xs| - 1], ws) + xs[|xs| - 1] * ws[|xs| - 1]
  }

  /** One more input adds one more product to the sum. */
  lemma DotStep(xs: seq<real>, ws: seq<real>, i: nat)
    requires i < |xs| <= |ws|
    ensures Dot(xs[..i + 1], ws) == Dot(xs[..i], ws) + xs[i] * ws[i]
  {
    assert xs[..i + 1][..i] == xs[..i];
  }

  /** Weights beyond the inputs take no part in the sum. */
  lemma {:induction false} DotIgnoresUnusedWeights(xs: seq<real>, ws: seq<real>)
    requires |xs| <= |ws|
    ensures Dot(xs, ws) == Dot(xs, ws[..|xs|])
  {
    if xs != [] {
      var xs' := xs[..|xs| - 1];
      DotIgnoresUnusedWeights(xs', ws);
      DotIgnoresUnusedWeights(xs', ws[..|xs|]);
      assert ws[..|xs|][..|xs'|] == ws[..|xs'|];
    }
  }

  /** What a neuron outputs for inputs `xs`: `tanh` of the weighted sum plus the bias. */
  function NeuronOut(g: seq<Value>, n: Neuron, xs: seq<real>, tanh: real -> real): real
    requires NeuronLive(g, n) && |xs| <= |n.weights|
  {
    tanh(Dot(xs, Data(g, n.weights)) + g[n.bias].data)
  }

  /** Every neuron of the layer has a weight for each of `k` inputs. */
  predicate LayerAccepts(l: Layer, k: nat)
  {
    forall j :: 0 <= j < |l.neurons| ==> k <= |l.neurons[j].weights|
  }

  /** What a layer outputs: one value per neuron, output `j` from neuron `j`. */
  function LayerOut(g: seq<Value>, l: Layer, xs: seq<real>, tanh: real -> real): (r: seq<real>)
    requires LayerLive(g, l) && LayerAccepts(l, |xs|)
    ensures |r| == |l.neurons|
    ensures forall j :: 0 <= j < |l.neurons| ==> r[j] == NeuronOut(g, l.neurons[j], xs, tanh)
  {
    seq(|l.neurons|, j requires 0 <= j < |l.neurons| => NeuronOut(g, l.neurons[j], xs, tanh))
  }

  /** Each layer accepts as many inputs as the previous one (or the network) hands it. */
  predicate Chain(ls: seq<Layer>, k: nat)
    decreases |ls|
  {
    ls == [] || (LayerAccepts(ls[0], k) && Chain(ls[1..], |ls[0].neurons|))
  }

  /** What the network outputs: the inputs threaded through the layers in order. */
  function MlpOut(g: seq<Value>, ls: seq<Layer>, xs: seq<real>, tanh: real -> real): (r: seq<real>)
    requires LayersLive(g, ls) && Chain(ls, |xs|)
    ensures ls == [] ==> r == xs
    ensures ls != [] ==> |r| == |ls[|ls| - 1].neurons|
    decreases |ls|
  {
    if ls == [] then xs
    else
      assert LayersLive(g, ls[1..]) by {
        forall i | 0 <= i < |ls[1..]| ensures LayerLive(g, ls[1..][i]) { assert ls[1..][i] == ls[i + 1]; }
      }
      MlpOut(g, ls[1..], LayerOut(g, ls[0], xs, tanh), tanh)
  }

  /** A well-shaped network accepts its declared number of inputs, layer after layer. */
  lemma {:induction false} MlpChains(m: Mlp, i: nat, k: nat)
    requires MlpShaped(m) && i <= |m.layers|
    requires i < |m.layers| ==> k <= Width(LayerInputs(m.nInputs, m.sizes, i))
    ensures Chain(m.layers[i..], k)
    decreases |m.layers| - i
  {
    if i < |m.layers| {
      MlpChains(m, i + 1, |m.layers[i].neurons|);
      assert m.layers[i..][1..] == m.layers[i + 1..];
    }
  }

  // The parts of the arena a network reads do not change when nodes are bound after them.

  lemma DataExtends(g: seq<Value>, h: seq<Value>, xs: seq<Id>)
    requires Extends(g, h) && IdsIn(g, xs)
    ensures IdsIn(h, xs) && Data(h, xs) == Data(g, xs)
  {
    forall k | 0 <= k < |xs| ensures h[xs[k]] == g[xs[k]] {
      assert h[..|g|][xs[k]] == h[xs[k]];
    }
  }

  lemma NeuronOutExtends(g: seq<Value>, h: seq<Value>, n: Neuron, xs: seq<real>, tanh: real -> real)
    requires Extends(g, h) && NeuronLive(g, n) && |xs| <= |n.weights|
    ensures NeuronLive(h, n) && NeuronOut(h, n, xs, tanh) == NeuronOut(g, n, xs, tanh)
  {
    DataExtends(g, h, n.weights);
    assert h[..|g|][n.bias] == h[n.bias];
  }

  lemma LayerOutExtends(g: seq<Value>, h: seq<Value>, l: Layer, xs: seq<real>, tanh: real -> real)
    requires Extends(g, h) && LayerLive(g, l) && LayerAccepts(l, |xs|)
    ensures LayerLive(h, l) && LayerOut(h, l, xs, tanh) == LayerOut(g, l, xs, tanh)
  {
    forall j | 0 <= j < |l.neurons|
      ensures NeuronLive(h, l.neurons[j]) && NeuronOut(h, l.neurons[j], xs, tanh) == NeuronOut(g, l.neurons[j], xs, tanh)
    {
      NeuronOutExtends(g, h, l.neurons[j], xs, tanh);
    }
  }

  // ---------------------------------------------------------------------------
  // Constructors
  // ---------------------------------------------------------------------------

  /** One more weight leaf keeps the list of weight leaves in step with the draws. */
  lemma LeavesSnoc(ls: seq<Value>, ws: seq<real>, i: nat)
    requires i < |ws| && |ls| == i
    requires forall k :: 0 <= k < i ==> ls[k] == Leaf(ws[k], "w" + NatToString(k))
    ensures forall k :: 0 <= k < i + 1 ==>
      (ls + [Leaf(ws[i], "w" + NatToString(i))])[k] == Leaf(ws[k], "w" + NatToString(k))
  {
  }

  /**
   * `Neuron(n_inputs)`: one weight leaf per input, labelled "w0", "w1", ...,
   * then one bias leaf labelled "b", holding the given draws.
   */
  method NewNeuron(g: Graph, nInputs: int, init: NeuronInit) returns (n: Neuron)
    requires g.Valid() && |init.weights| == Width(nInputs)
    modifies g
    ensures g.Valid() && Extends(old(g.nodes), g.nodes)
    ensures |g.nodes| == |old(g.nodes)| + Width(nInputs) + 1
    ensures n.nInputs == nInputs && NeuronShaped(n) && NeuronLive(g.nodes, n)
    ensures forall i :: 0 <= i < |n.weights| ==>
      n.weights[i] == |old(g.nodes)| + i && g.nodes[n.weights[i]] == Leaf(init.weights[i], "w" + NatToString(i))
    ensures n.bias == |old(g.nodes)| + Width(nInputs) && g.nodes[n.bias] == Leaf(init.bias, "b")
    ensures Data(g.nodes, n.weights) == init.weights
    ensures NeuronIn(n, |old(g.nodes)|, |g.nodes|) && NeuronHolds(g.nodes, n, init)
  {
    ghost var g0 := g.nodes;
    ghost var ls: seq<Value> := [];
    var weights: seq<Id> := [];
    var i := 0;
    while i < nInputs
      invariant 0 <= i <= Width(nInputs) && |weights| == i && |ls| == i
      invariant g.Valid() && g.nodes == g0 + ls
      invariant forall k :: 0 <= k < i ==> weights[k] == |g0| + k
      invariant forall k :: 0 <= k < i ==> ls[k] == Leaf(init.weights[k], "w" + NatToString(k))
    {
      var w := g.NewLeaf(init.weights[i], "w" + NatToString(i));
      LeavesSnoc(ls, init.weights, i);
      ls := ls + [Leaf(init.weights[i], "w" + NatToString(i))];
      weights := weights + [w];
      i := i + 1;
    }
    var b := g.NewLeaf(init.bias, "b");
    n := Neuron(nInputs, weights, b);
    NeuronLayout(g0, ls, g.nodes, init, weights);
  }

  /** Where a new neuron's leaves sit: the weights in order after the old nodes, then the bias. */
  lemma NeuronLayout(g0: seq<Value>, ls: seq<Value>, h: seq<Value>, init: NeuronInit, weights: seq<Id>)
    requires |ls| == |init.weights| && forall k :: 0 <= k < |ls| ==> ls[k] == Leaf(init.weights[k], "w" + NatToString(k))
    requires h == g0 + ls + [Leaf(init.bias, "b")]
    requires |weights| == |init.weights| && forall k :: 0 <= k < |weights| ==> weights[k] == |g0| + k
    ensures Extends(g0, h) && |h| == |g0| + |weights| + 1 && IdsIn(h, weights)
    ensures forall i :: 0 <= i < |weights| ==> h[weights[i]] == Leaf(init.weights[i], "w" + NatToString(i))
    ensures h[|g0| + |weights|] == Leaf(init.bias, "b")
    ensures Data(h, weights) == init.weights
  {
    AppendedAt(g0, ls, Leaf(init.bias, "b"));
    WeightsData(h, weights, init.weights);
  }

  /** Indexing into `a + b + [c]`. */
  lemma AppendedAt(a: seq<Value>, b: seq<Value>, c: Value)
    ensures Extends(a, a + b + [c]) && |a + b + [c]| == |a| + |b| + 1
    ensures forall k :: 0 <= k < |b| ==> (a + b + [c])[|a| + k] == b[k]
    ensures (a + b + [c])[|a| + |b|] == c
  {
    assert (a + b + [c])[..|a|] == a;
  }

  /** Leaves holding the draws, read back in order. */
  lemma WeightsData(h: seq<Value>, ids: seq<Id>, ws: seq<real>)
    requires |ids| == |ws| && IdsIn(h, ids) && forall k :: 0 <= k < |ids| ==> h[ids[k]].data == ws[k]
    ensures Data(h, ids) == ws
  {
  }

  // Where the constructors put the parameters: each neuron's weights and bias
  // are consecutive new leaves, and each neuron's block follows the previous one.

  /** The id of a neuron's first weight (its bias when it has none). */
  function Base(n: Neuron): int
  {
    n.bias - |n.weights|
  }

  /** Weight `i` is the node `Base(n) + i`, so the bias comes right after the last weight. */
  predicate Consecutive(n: Neuron)
  {
    forall i :: 0 <= i < |n.weights| ==> n.weights[i] == Base(n) + i
  }

  /** All of the neuron's parameters are nodes of `[lo, hi)`, bound in a row. */
  predicate NeuronIn(n: Neuron, lo: int, hi: int)
  {
    Consecutive(n) && lo <= Base(n) && n.bias < hi
  }

  /** Each neuron lies in `[lo, hi)`, and each one's bias comes before the next one's first weight. */
  predicate Ascending(ns: seq<Neuron>, lo: int, hi: int)
  {
    && (forall j :: 0 <= j < |ns| ==> NeuronIn(ns[j], lo, hi))
    && (forall j, j' :: 0 <= j < j' < |ns| ==> ns[j].bias < Base(ns[j']))
  }

  /** Each layer is `Ascending` in `[lo, hi)`, and every neuron of a layer comes before every neuron of a later one. */
  predicate LayersAscending(ls: seq<Layer>, lo: int, hi: int)
  {
    && (forall i :: 0 <= i < |ls| ==> Ascending(ls[i].neurons, lo, hi))
    && (forall i, i', j, j' :: 0 <= i < i' < |ls| && 0 <= j < |ls[i].neurons| && 0 <= j' < |ls[i'].neurons| ==>
          ls[i].neurons[j].bias < Base(ls[i'].neurons[j']))
  }

  /** The neuron's weights are leaves "w0", "w1", ... holding the draws, and its bias a leaf "b". */
  predicate NeuronHolds(g: seq<Value>, n: Neuron, init: NeuronInit)
  {
    && NeuronLive(g, n) && |n.weights| == |init.weights|
    && (forall i :: 0 <= i < |n.weights| ==> g[n.weights[i]] == Leaf(init.weights[i], "w" + NatToString(i)))
    && g[n.bias] == Leaf(init.bias, "b")
  }

  /** Neuron `j` holds draw `j`. */
  predicate LayerHolds(g: seq<Value>, ns: seq<Neuron>, init: seq<NeuronInit>)
  {
    |ns| <= |init| && forall j :: 0 <= j < |ns| ==> NeuronHolds(g, ns[j], init[j])
  }

  /** Neuron `j` of layer `i` holds draw `j` of layer `i`. */
  predicate LayersHold(g: seq<Value>, ls: seq<Layer>, init: seq<seq<NeuronInit>>)
  {
    |ls| <= |init| && forall i :: 0 <= i < |ls| ==> LayerHolds(g, ls[i].neurons, init[i])
  }

  /** Binding more nodes leaves the leaves a neuron holds as they were. */
  lemma HoldsExtends(g: seq<Value>, h: seq<Value>, n: Neuron, init: NeuronInit)
    requires Extends(g, h) && NeuronHolds(g, n, init)
    ensures NeuronHolds(h, n, init)
  {
    forall i | 0 <= i < |n.weights| ensures h[n.weights[i]] == g[n.weights[i]] {
      assert h[..|g|][n.weights[i]] == h[n.weights[i]];
    }
    assert h[..|g|][n.bias] == h[n.bias];
  }

  lemma LayerHoldsExtends(g: seq<Value>, h: seq<Value>, ns: seq<Neuron>, init: seq<NeuronInit>)
    requires Extends(g, h) && LayerHolds(g, ns, init)
    ensures LayerHolds(h, ns, init)
  {
    forall j | 0 <= j < |ns| ensures NeuronHolds(h, ns[j], init[j]) {
      HoldsExtends(g, h, ns[j], init[j]);
    }
  }

  /** A neuron holding its draws reads them back as its data. */
  lemma HoldsData(g: seq<Value>, n: Neuron, init: NeuronInit)
    requires NeuronHolds(g, n, init)
    ensures Data(g, n.weights) == init.weights && g[n.bias].data == init.bias
  {
  }

  /** The next neuron, bound after the others and holding the next draw. */
  lemma LayerSnoc(g: seq<Value>, h: seq<Value>, ns: seq<Neuron>, n: Neuron, init: seq<NeuronInit>, lo: int)
    requires Extends(g, h) && |ns| < |init| && lo <= |g|
    requires LayerHolds(g, ns, init) && Ascending(ns, lo, |g|)
    requires NeuronHolds(h, n, init[|ns|]) && NeuronIn(n, |g|, |h|)
    ensures LayerHolds(h, ns + [n], init) && Ascending(ns + [n], lo, |h|)
  {
    LayerHoldsExtends(g, h, ns, init);
    var ns' := ns + [n];
    forall j | 0 <= j < |ns'| ensures NeuronIn(ns'[j], lo, |h|) {
      if j < |ns| { assert ns'[j] == ns[j] && NeuronIn(ns[j], lo, |g|); }
    }
  }

  /** Narrowing or widening the range of an ascending row of neurons. */
  lemma AscendingWithin(ns: seq<Neuron>, lo: int, hi: int, lo': int, hi': int)
    requires Ascending(ns, lo, hi)
    requires forall j :: 0 <= j < |ns| ==> lo' <= Base(ns[j]) && ns[j].bias < hi'
    ensures Ascending(ns, lo', hi')
  {
  }

  /** The next layer, bound after the others and holding the next draws. */
  lemma LayersSnocFresh(g: seq<Value>, h: seq<Value>, ls: seq<Layer>, l: Layer, init: seq<seq<NeuronInit>>, lo: int)
    requires Extends(g, h) && |ls| < |init| && lo <= |g|
    requires LayersHold(g, ls, init) && LayersAscending(ls, lo, |g|)
    requires LayerHolds(h, l.neurons, init[|ls|]) && Ascending(l.neurons, |g|, |h|)
    ensures LayersHold(h, ls + [l], init) && LayersAscending(ls + [l], lo, |h|)
  {
    var ls' := ls + [l];
    forall i | 0 <= i < |ls'| ensures LayerHolds(h, ls'[i].neurons, init[i]) && Ascending(ls'[i].neurons, lo, |h|) {
      if i < |ls| {
        assert ls'[i] == ls[i];
        LayerHoldsExtends(g, h, ls[i].neurons, init[i]);
        AscendingWithin(ls[i].neurons, lo, |g|, lo, |h|);
      } else {
        AscendingWithin(l.neurons, |g|, |h|, lo, |h|);
      }
    }
    forall i, i', j, j' | 0 <= i < i' < |ls'| && 0 <= j < |ls'[i].neurons| && 0 <= j' < |ls'[i'].neurons|
      ensures ls'[i].neurons[j].bias < Base(ls'[i'].neurons[j'])
    {
      assert ls'[i] == ls[i] && NeuronIn(ls[i].neurons[j], lo, |g|);
      if i' == |ls| {
        assert NeuronIn(l.neurons[j'], |g|, |h|);
      } else {
        assert ls'[i'] == ls[i'];
      }
    }
  }

  /** `Layer(n_inputs, n_neurons)`: `n_neurons` neurons of `n_inputs` inputs each, in draw order. */
  method NewLayer(g: Graph, nInputs: int, nNeurons: int, init: seq<NeuronInit>) returns (l: Layer)
    requires g.Valid() && |init| == Width(nNeurons)
    requires forall j :: 0 <= j < |init| ==> |init[j].weights| == Width(nInputs)
    modifies g
    ensures g.Valid() && Extends(old(g.nodes), g.nodes)
    ensures l.nInputs == nInputs && l.nNeurons == nNeurons && LayerShaped(l) && LayerLive(g.nodes, l)
    ensures forall j :: 0 <= j < |l.neurons| ==>
      Data(g.nodes, l.neurons[j].weights) == init[j].weights && g.nodes[l.neurons[j].bias].data == init[j].bias
    ensures LayerHolds(g.nodes, l.neurons, init)
    ensures Ascending(l.neurons, |old(g.nodes)|, |g.nodes|)
    ensures Topo.Distinct(LayerParams(l.neurons))
    ensures forall p :: 0 <= p < |LayerParams(l.neurons)| ==> |old(g.nodes)| <= LayerParams(l.neurons)[p] < |g.nodes|
  {
    ghost var g0 := g.nodes;
    var neurons: seq<Neuron> := [];
    var j := 0;
    while j < nNeurons
      invariant 0 <= j <= Width(nNeurons) && |neurons| == j
      invariant g.Valid() && Extends(g0, g.nodes)
      invariant forall k :: 0 <= k < j ==> neurons[k].nInputs == nInputs && NeuronShaped(neurons[k])
      invariant LayerHolds(g.nodes, neurons, init) && Ascending(neurons, |g0|, |g.nodes|)
    {
      ghost var before := g.nodes;
      var n := NewNeuron(g, nInputs, init[j]);
      ExtendsTrans(g0, before, g.nodes);
      LayerSnoc(before, g.nodes, neurons, n, init, |g0|);
      neurons := neurons + [n];
      j := j + 1;
    }
    l := Layer(nInputs, nNeurons, neurons);
    forall k | 0 <= k < |neurons|
      ensures NeuronLive(g.nodes, neurons[k])
      ensures Data(g.nodes, neurons[k].weights) == init[k].weights && g.nodes[neurons[k].bias].data == init[k].bias
    {
      HoldsData(g.nodes, neurons[k], init[k]);
    }
    LayerParamsFresh(neurons, |g0|, |g.nodes|);
  }

  /** The first `|layers|` layers of an MLP over `sizes` are in place and shaped. */
  predicate LayersBuilt(nInputs: int, sizes: seq<int>, layers: seq<Layer>)
  {
    && |layers| <= |sizes|
    && forall k :: 0 <= k < |layers| ==>
         && LayerShaped(layers[k])
         && layers[k].nInputs == LayerInputs(nInputs, sizes, k)
         && layers[k].nNeurons == sizes[k]
  }

  /** Appending the next layer of the right shape keeps the prefix built and live. */
  lemma LayersSnoc(g: seq<Value>, nInputs: int, sizes: seq<int>, layers: seq<Layer>, l: Layer)
    requires LayersBuilt(nInputs, sizes, layers) && |layers| < |sizes| && LayersLive(g, layers)
    requires LayerShaped(l) && LayerLive(g, l)
    requires l.nInputs == LayerInputs(nInputs, sizes, |layers|) && l.nNeurons == sizes[|layers|]
    ensures LayersBuilt(nInputs, sizes, layers + [l]) && LayersLive(g, layers + [l])
  {
  }

  /**
   * `MLP(n_inputs, sizes)`: one layer per entry of `sizes`; layer 0 takes the
   * network's inputs, layer `i` the outputs of layer `i - 1`.
   */
  method NewMlp(g: Graph, nInputs: int, sizes: seq<int>, init: seq<seq<NeuronInit>>) returns (m: Mlp)
    requires g.Valid() && |init| == |sizes|
    requires forall i :: 0 <= i < |sizes| ==> |init[i]| == Width(sizes[i])
    requires forall i, j :: 0 <= i < |sizes| && 0 <= j < |init[i]| ==>
      |init[i][j].weights| == Width(LayerInputs(nInputs, sizes, i))
    modifies g
    ensures g.Valid() && Extends(old(g.nodes), g.nodes)
    ensures m.nInputs == nInputs && m.sizes == sizes && MlpShaped(m) && LayersLive(g.nodes, m.layers)
    ensures LayersHold(g.nodes, m.layers, init)
    ensures LayersAscending(m.layers, |old(g.nodes)|, |g.nodes|)
    ensures Topo.Distinct(MlpParams(m.layers))
    ensures forall p :: 0 <= p < |MlpParams(m.layers)| ==> |old(g.nodes)| <= MlpParams(m.layers)[p] < |g.nodes|
  {
    ghost var g0 := g.nodes;
    var layers: seq<Layer> := [];
    var i := 0;
    while i < |sizes|
      invariant 0 <= i <= |sizes| && |layers| == i
      invariant g.Valid() && Extends(g0, g.nodes)
      invariant LayersBuilt(nInputs, sizes, layers) && LayersLive(g.nodes, layers)
      invariant LayersHold(g.nodes, layers, init) && LayersAscending(layers, |g0|, |g.nodes|)
    {
      ghost var before := g.nodes;
      var l;
      if i == 0 {
        l := NewLayer(g, nInputs, sizes[i], init[i]);
      } else {
        l := NewLayer(g, sizes[i - 1], sizes[i], init[i]);
      }
      ExtendsTrans(g0, before, g.nodes);
      LayersLiveExtends(before, g.nodes, layers);
      LayersSnoc(g.nodes, nInputs, sizes, layers, l);
      LayersSnocFresh(before, g.nodes, layers, l, init, |g0|);
      layers := layers + [l];
      i := i + 1;
    }
    m := Mlp(nInputs, sizes, layers);
    MlpParamsFresh(layers, |g0|, |g.nodes|);
  }

  // ---------------------------------------------------------------------------
  // Forward passes
  // ---------------------------------------------------------------------------

  /**
   * `Neuron::forward`: a zero leaf, then for each input a product node and a
   * fresh sum node (the `+=`, as a rebinding), then the bias, then `tanh`.
   * It reads `weights[i]` for every input, so the neuron needs at least as
   * many weights as there are inputs.
   */
  method NeuronForward(g: Graph, n: Neuron, inputs: seq<Id>) returns (out: Id)
    requires g.Valid() && NeuronLive(g.nodes, n) && IdsIn(g.nodes, inputs) && |inputs| <= |n.weights|
    modifies g
    ensures g.Valid() && Extends(old(g.nodes), g.nodes) && out == |g.nodes| - 1
    ensures g.nodes[out].op == "tanh"
    ensures g.nodes[out].data == NeuronOut(old(g.nodes), n, Data(old(g.nodes), inputs), g.tanh)
  {
    ghost var g0 := g.nodes;
    ghost var xs := Data(g0, inputs);
    ghost var ws := Data(g0, n.weights);
    var sum: Id := g.NewLeaf(0.0, "");
    var i := 0;
    assert xs[..0] == [];
    while i < |inputs|
      invariant 0 <= i <= |inputs|
      invariant g.Valid() && Extends(g0, g.nodes) && sum < |g.nodes|
      invariant g.nodes[sum].data == Dot(xs[..i], ws)
    {
      ghost var before := g.nodes;
      ghost var s0 := sum;
      var p := g.Mul(inputs[i], n.weights[i]);
      ghost var mid := g.nodes;
      sum := g.AddAssign(sum, p);
      ForwardStep(g0, before, mid, g.nodes, inputs, n.weights, i, s0, p, sum);
      i := i + 1;
    }
    assert xs[..i] == xs;
    assert g.nodes[..|g0|][n.bias] == g.nodes[n.bias];
    sum := g.AddAssign(sum, n.bias);
    out := g.Tanh(sum);
  }

  /**
   * One turn of the loop in `Neuron::forward`: after `p = x_i * w_i` and
   * `sum += p`, the new sum node holds the dot product of one more input.
   */
  lemma ForwardStep(g0: seq<Value>, before: seq<Value>, mid: seq<Value>, h: seq<Value>,
                    inputs: seq<Id>, weights: seq<Id>, i: nat, s0: Id, p: Id, s1: Id)
    requires IdsIn(g0, inputs) && IdsIn(g0, weights) && i < |inputs| <= |weights|
    requires Extends(g0, before) && s0 < |before|
    requires before[s0].data == Dot(Data(g0, inputs)[..i], Data(g0, weights))
    requires p == |before| && mid == before + [Times(before, inputs[i], weights[i])]
    requires |mid| < |h| && h[..|mid|] == mid && s1 < |h|
    requires h[s1].data == mid[s0].data + mid[p].data
    ensures Extends(g0, h)
    ensures h[s1].data == Dot(Data(g0, inputs)[..i + 1], Data(g0, weights))
  {
    var xs, ws := Data(g0, inputs), Data(g0, weights);
    assert before[..|g0|][inputs[i]] == before[inputs[i]];
    assert before[..|g0|][weights[i]] == before[weights[i]];
    assert mid[p].data == xs[i] * ws[i];
    assert mid[s0] == before[s0];
    assert mid[..|before|] == before;
    ExtendsTrans(g0, before, mid);
    ExtendsTrans(g0, mid, h);
    DotStep(xs, ws, i);
  }

  /** `Layer::forward`: neuron `j`'s output is output `j`. */
  method LayerForward(g: Graph, l: Layer, inputs: seq<Id>) returns (outs: seq<Id>)
    requires g.Valid() && LayerLive(g.nodes, l) && IdsIn(g.nodes, inputs) && LayerAccepts(l, |inputs|)
    modifies g
    ensures g.Valid() && Extends(old(g.nodes), g.nodes) && IdsIn(g.nodes, outs)
    ensures Data(g.nodes, outs) == LayerOut(old(g.nodes), l, Data(old(g.nodes), inputs), g.tanh)
  {
    ghost var g0 := g.nodes;
    ghost var xs := Data(g0, inputs);
    outs := [];
    var j := 0;
    while j < |l.neurons|
      invariant 0 <= j <= |l.neurons| && |outs| == j
      invariant g.Valid() && Extends(g0, g.nodes) && IdsIn(g.nodes, outs)
      invariant forall k :: 0 <= k < j ==> g.nodes[outs[k]].data == NeuronOut(g0, l.neurons[k], xs, g.tanh)
    {
      ghost var before := g.nodes;
      DataExtends(g0, before, inputs);
      NeuronOutExtends(g0, before, l.neurons[j], xs, g.tanh);
      var o := NeuronForward(g, l.neurons[j], inputs);
      ExtendsTrans(g0, before, g.nodes);
      forall k | 0 <= k < j ensures g.nodes[outs[k]] == before[outs[k]] {
        assert g.nodes[..|before|][outs[k]] == g.nodes[outs[k]];
      }
      outs := outs + [o];
      j := j + 1;
    }
  }

  /** `MLP::forward`: the outputs of each layer are the inputs of the next. */
  method MlpForward(g: Graph, m: Mlp, inputs: seq<Id>) returns (outs: seq<Id>)
    requires g.Valid() && MlpShaped(m) && LayersLive(g.nodes, m.layers) && IdsIn(g.nodes, inputs)
    requires m.layers != [] ==> |inputs| <= Width(m.nInputs)
    modifies g
    ensures g.Valid() && Extends(old(g.nodes), g.nodes) && IdsIn(g.nodes, outs)
    ensures Chain(m.layers, |inputs|)
    ensures Data(g.nodes, outs) == MlpOut(old(g.nodes), m.layers, Data(old(g.nodes), inputs), g.tanh)
    ensures m.layers == [] ==> outs == inputs
    ensures m.layers != [] ==> |outs| == Width(m.sizes[|m.sizes| - 1])
  {
    ghost var g0 := g.nodes;
    ghost var xs := Data(g0, inputs);
    MlpChains(m, 0, |inputs|);
    assert m.layers[0..] == m.layers;
    outs := inputs;
    var i := 0;
    while i < |m.layers|
      invariant 0 <= i <= |m.layers|
      invariant g.Valid() && Extends(g0, g.nodes) && IdsIn(g.nodes, outs)
      invariant LayersLive(g.nodes, m.layers)
      invariant i == 0 ==> outs == inputs
      invariant i > 0 ==> |outs| == |m.layers[i - 1].neurons|
      invariant LayersLive(g0, m.layers[i..]) && Chain(m.layers[i..], |outs|)
      invariant MlpOut(g0, m.layers[i..], Data(g.nodes, outs), g.tanh) == MlpOut(g0, m.layers, xs, g.tanh)
    {
      ghost var before := g.nodes;
      ghost var ys := Data(before, outs);
      MlpOutStep(g0, m.layers, i, ys, g.tanh);
      LayerOutExtends(g0, before, m.layers[i], ys, g.tanh);
      outs := LayerForward(g, m.layers[i], outs);
      ExtendsTrans(g0, before, g.nodes);
      LayersLiveExtends(before, g.nodes, m.layers);
      i := i + 1;
    }
    assert m.layers[|m.layers|..] == [];
    DataExtends(g0, g.nodes, inputs);
    if m.layers != [] {
      LastLayerWidth(m);
    }
  }

  /** The last layer has as many neurons as the last entry of `sizes` asks for. */
  lemma LastLayerWidth(m: Mlp)
    requires MlpShaped(m) && m.layers != []
    ensures |m.layers[|m.layers| - 1].neurons| == Width(m.sizes[|m.sizes| - 1])
  {
    assert LayerShaped(m.layers[|m.layers| - 1]);
  }

  /** One layer of the network's pass: layer `i` maps its inputs, the rest of the chain takes over. */
  lemma MlpOutStep(g: seq<Value>, ls: seq<Layer>, i: nat, xs: seq<real>, tanh: real -> real)
    requires i < |ls| && LayersLive(g, ls[i..]) && Chain(ls[i..], |xs|)
    ensures LayerLive(g, ls[i]) && LayerAccepts(ls[i], |xs|)
    ensures LayersLive(g, ls[i + 1..]) && Chain(ls[i + 1..], |ls[i].neurons|)
    ensures MlpOut(g, ls[i..], xs, tanh) == MlpOut(g, ls[i + 1..], LayerOut(g, ls[i], xs, tanh), tanh)
  {
    assert ls[i..][0] == ls[i] && ls[i..][1..] == ls[i + 1..];
  }

  lemma LayersLiveExtends(g: seq<Value>, h: seq<Value>, ls: seq<Layer>)
    requires Extends(g, h) && LayersLive(g, ls)
    ensures LayersLive(h, ls)
  {
    forall k, j | 0 <= k < |ls| && 0 <= j < |ls[k].neurons| ensures NeuronLive(h, ls[k].neurons[j]) {
      NeuronOutExtends(g, h, ls[k].neurons[j], [], x => x);
    }
  }

  // ---------------------------------------------------------------------------
  // Parameters
  // ---------------------------------------------------------------------------

  /** A neuron's parameters: its weights in index order, then its bias. */
  function NeuronParams(n: Neuron): seq<Id>
  {
    n.weights + [n.bias]
  }

  /** A layer's parameters: its neurons' parameters, neuron after neuron. */
  function LayerParams(ns: seq<Neuron>): seq<Id>
  {
    if ns == [] then [] else LayerParams(ns[..|ns| - 1]) + NeuronParams(ns[|ns| - 1])
  }

  /** A network's parameters: its layers' parameters, layer after layer. */
  function MlpParams(ls: seq<Layer>): seq<Id>
  {
    if ls == [] then [] else MlpParams(ls[..|ls| - 1]) + LayerParams(ls[|ls| - 1].neurons)
  }

  /** `Neuron::get_parameters`: `n_inputs` weights, then the bias. */
  method NeuronGetParameters(n: Neuron) returns (ps: seq<Id>)
    requires NeuronShaped(n)
    ensures ps == NeuronParams(n)
    ensures |ps| == Width(n.nInputs) + 1 && ps[|ps| - 1] == n.bias
    ensures forall i :: 0 <= i < Width(n.nInputs) ==> ps[i] == n.weights[i]
  {
    ps := [];
    var i := 0;
    while i < n.nInputs
      invariant 0 <= i <= Width(n.nInputs) && ps == n.weights[..i]
    {
      ps := ps + [n.weights[i]];
      i := i + 1;
    }
    assert n.weights[..i] == n.weights;
    ps := ps + [n.bias];
  }

  /** `Layer::get_parameters`. */
  method LayerGetParameters(l: Layer) returns (ps: seq<Id>)
    requires LayerShaped(l)
    ensures ps == LayerParams(l.neurons)
  {
    ps := [];
    var j := 0;
    while j < |l.neurons|
      invariant 0 <= j <= |l.neurons| && ps == LayerParams(l.neurons[..j])
    {
      var nps := NeuronGetParameters(l.neurons[j]);
      assert l.neurons[..j + 1][..j] == l.neurons[..j];
      ps := ps + nps;
      j := j + 1;
    }
    assert l.neurons[..j] == l.neurons;
  }

  /** `MLP::get_parameters`. */
  method MlpGetParameters(m: Mlp) returns (ps: seq<Id>)
    requires MlpShaped(m)
    ensures ps == MlpParams(m.layers)
  {
    ps := [];
    var i := 0;
    while i < |m.layers|
      invariant 0 <= i <= |m.layers| && ps == MlpParams(m.layers[..i])
    {
      var lps := LayerGetParameters(m.layers[i]);
      assert m.layers[..i + 1][..i] == m.layers[..i];
      ps := ps + lps;
      i := i + 1;
    }
    assert m.layers[..i] == m.layers;
  }

  /** A neuron bound in a row has distinct parameters, from `Base(n)` to its bias. */
  lemma NeuronParamsFresh(n: Neuron)
    requires Consecutive(n)
    ensures Topo.Distinct(NeuronParams(n))
    ensures forall p :: 0 <= p < |NeuronParams(n)| ==> NeuronParams(n)[p] == Base(n) + p
  {
  }

  /** Two duplicate-free lists of ids from disjoint ranges, one after the other. */
  lemma DisjointConcat(a: seq<Id>, b: seq<Id>, lo: int, mid: int, hi: int)
    requires Topo.Distinct(a) && Topo.Distinct(b) && lo <= mid <= hi
    requires forall p :: 0 <= p < |a| ==> lo <= a[p] < mid
    requires forall p :: 0 <= p < |b| ==> mid <= b[p] < hi
    ensures Topo.Distinct(a + b)
    ensures forall p :: 0 <= p < |a + b| ==> lo <= (a + b)[p] < hi
  {
  }

  /**
   * The parameters `Layer(n_in, k)` binds are `k * (n_in + 1)` different
   * nodes, all among those it bound: no leaf is shared by two neurons.
   */
  lemma {:induction false} LayerParamsFresh(ns: seq<Neuron>, lo: int, hi: int)
    requires Ascending(ns, lo, hi)
    ensures Topo.Distinct(LayerParams(ns))
    ensures forall p :: 0 <= p < |LayerParams(ns)| ==> lo <= LayerParams(ns)[p] < hi
  {
    if ns != [] {
      var init, n := ns[..|ns| - 1], ns[|ns| - 1];
      assert Ascending(init, lo, Base(n)) by {
        forall j | 0 <= j < |init| ensures NeuronIn(init[j], lo, Base(n)) {
          assert init[j] == ns[j] && NeuronIn(ns[j], lo, hi);
        }
      }
      LayerParamsFresh(init, lo, Base(n));
      assert NeuronIn(n, lo, hi);
      NeuronParamsFresh(n);
      DisjointConcat(LayerParams(init), NeuronParams(n), lo, Base(n), hi);
    }
  }

  /** The first id a layer's parameters can take: its first neuron's first weight. */
  function LayerBase(l: Layer, hi: int): int
  {
    if l.neurons == [] then hi else Base(l.neurons[0])
  }

  /**
   * The parameters `MLP(n_in, sizes)` binds are different nodes, all among
   * those it bound: no leaf is shared by two neurons, in one layer or in two.
   */
  lemma {:induction false} MlpParamsFresh(ls: seq<Layer>, lo: int, hi: int)
    requires lo <= hi && LayersAscending(ls, lo, hi)
    ensures Topo.Distinct(MlpParams(ls))
    ensures forall p :: 0 <= p < |MlpParams(ls)| ==> lo <= MlpParams(ls)[p] < hi
  {
    if ls != [] {
      var init, l := ls[..|ls| - 1], ls[|ls| - 1];
      var mid := LayerBase(l, hi);
      LastLayerWithin(ls, lo, hi);
      assert LayersAscending(init, lo, mid) by {
        forall i | 0 <= i < |init| ensures Ascending(init[i].neurons, lo, mid) {
          assert init[i] == ls[i];
          forall j | 0 <= j < |init[i].neurons| ensures init[i].neurons[j].bias < mid {
            if l.neurons != [] {
              assert ls[i].neurons[j].bias < Base(ls[|ls| - 1].neurons[0]);
            } else {
              assert NeuronIn(ls[i].neurons[j], lo, hi);
            }
          }
          AscendingWithin(init[i].neurons, lo, hi, lo, mid);
        }
        forall i, i', j, j' | 0 <= i < i' < |init| && 0 <= j < |init[i].neurons| && 0 <= j' < |init[i'].neurons|
          ensures init[i].neurons[j].bias < Base(init[i'].neurons[j'])
        {
          assert init[i] == ls[i] && init[i'] == ls[i'];
        }
      }
      MlpParamsFresh(init, lo, mid);
      LayerParamsFresh(l.neurons, mid, hi);
      DisjointConcat(MlpParams(init), LayerParams(l.neurons), lo, mid, hi);
    }
  }

  /** The last layer lies in `[LayerBase, hi)`, and `LayerBase` in `[lo, hi]`. */
  lemma LastLayerWithin(ls: seq<Layer>, lo: int, hi: int)
    requires lo <= hi && LayersAscending(ls, lo, hi) && ls != []
    ensures var l := ls[|ls| - 1]; lo <= LayerBase(l, hi) <= hi && Ascending(l.neurons, LayerBase(l, hi), hi)
  {
    var l := ls[|ls| - 1];
    assert Ascending(l.neurons, lo, hi);
    if l.neurons != [] {
      assert NeuronIn(l.neurons[0], lo, hi) && Base(l.neurons[0]) <= l.neurons[0].bias;
      forall j | 0 <= j < |l.neurons| ensures Base(l.neurons[0]) <= Base(l.neurons[j]) {
        if j > 0 { assert NeuronIn(l.neurons[0], lo, hi); }
      }
      AscendingWithin(l.neurons, lo, hi, Base(l.neurons[0]), hi);
    }
  }

  lemma MulStep(j: nat, c: nat, k: nat, m: nat)
    requires j < m && k < c
    ensures j * c + k < m * c
  {
    assert (j + 1) * c <= m * c;
  }

  lemma {:induction false} LayerParamsLength(ns: seq<Neuron>, c: nat)
    requires forall j :: 0 <= j < |ns| ==> |NeuronParams(ns[j])| == c
    ensures |LayerParams(ns)| == |ns| * c
  {
    if ns != [] {
      var init := ns[..|ns| - 1];
      LayerParamsLength(init, c);
      assert |ns| * c == |init| * c + c;
    }
  }

  /**
   * When every neuron has `c` parameters, the layer has `|ns| * c`, and
   * parameter `k` of neuron `j` sits at position `j * c + k`.
   */
  lemma {:induction false} LayerParamsLayout(ns: seq<Neuron>, c: nat, j: nat, k: nat)
    requires forall j :: 0 <= j < |ns| ==> |NeuronParams(ns[j])| == c
    requires j < |ns| && k < c
    ensures |LayerParams(ns)| == |ns| * c
    ensures j * c + k < |LayerParams(ns)| && LayerParams(ns)[j * c + k] == NeuronParams(ns[j])[k]
  {
    LayerParamsLength(ns, c);
    var init := ns[..|ns| - 1];
    LayerParamsLength(init, c);
    var ps := LayerParams(ns);
    assert ps == LayerParams(init) + NeuronParams(ns[|ns| - 1]);
    if j < |init| {
      MulStep(j, c, k, |init|);
      LayerParamsLayout(init, c, j, k);
      assert ns[j] == init[j];
    } else {
      assert j * c == |init| * c;
    }
  }

  /** `n_neurons * (n_inputs + 1)`: the parameters of one layer. */
  function LayerCount(nNeurons: int, nInputs: int): nat
  {
    Width(nNeurons) * (Width(nInputs) + 1)
  }

  /** `Layer(n_in, k)` has `k * (n_in + 1)` parameters. */
  lemma LayerParamsCount(l: Layer)
    requires LayerShaped(l)
    ensures |LayerParams(l.neurons)| == LayerCount(l.nNeurons, l.nInputs)
  {
    LayerParamsLength(l.neurons, Width(l.nInputs) + 1);
  }

  /** `sizes[i] * (in_i + 1)` summed over the first `k` layers. */
  function ParamCount(nInputs: int, sizes: seq<int>, k: nat): nat
    requires k <= |sizes|
  {
    if k == 0 then 0
    else ParamCount(nInputs, sizes, k - 1) + LayerCount(sizes[k - 1], LayerInputs(nInputs, sizes, k - 1))
  }

  /** The network has `Σ sizes[i] * (in_i + 1)` parameters. */
  lemma {:induction false} MlpParamsCount(m: Mlp, k: nat)
    requires MlpShaped(m) && k <= |m.layers|
    ensures |MlpParams(m.layers[..k])| == ParamCount(m.nInputs, m.sizes, k)
  {
    if k > 0 {
      MlpParamsCount(m, k - 1);
      MlpCountStep(m, k);
    }
  }

  lemma MlpCountStep(m: Mlp, k: nat)
    requires MlpShaped(m) && 0 < k <= |m.layers|
    ensures |MlpParams(m.layers[..k])|
         == |MlpParams(m.layers[..k - 1])| + LayerCount(m.sizes[k - 1], LayerInputs(m.nInputs, m.sizes, k - 1))
  {
    var l := m.layers[k - 1];
    assert m.layers[..k][..k - 1] == m.layers[..k - 1];
    assert MlpParams(m.layers[..k]) == MlpParams(m.layers[..k - 1]) + LayerParams(l.neurons);
    LayerParamsCount(l);
  }
}

# micrograd (C++) in Dafny

A model of the core of the C++ port of micrograd: a scalar reverse-mode
automatic-differentiation engine (`Value`, its operators, `build_topo`,
`backward_single`, `backward`) and the small neural-network library on top of
it (`Neuron`, `Layer`, `MLP`: construction, forward pass, parameter lists).

The C++ objects point at each other (`std::vector<Value*> children`). Here all
values live in one arena, `seq<Value>`. A node's identity is its index, and a
child address becomes a child index. Every operator binds its result after its
operands, so every child index is below its parent's (`Values.WF`). That keeps
the graph acyclic by construction, and it gives `build_topo` and `backward` a
natural termination measure.

| file | module | what it holds |
|---|---|---|
| `wrappers.dfy` | `Wrappers` | `Option` |
| `values.dfy` | `Values` | the node record, the arena invariant, the operators as pure node builders, the six comparisons |
| `topo.dfy` | `Topo` | `build_topo` as a function (`Dfs`) and as a recursive method (`BuildTopo`), proved to be a topological order of exactly the reachable nodes |
| `gradient.dfy` | `Gradient` | the backward rules (`Contribution`, `Propagate`), the reverse pass (`Backprop`), `backward` (`BackwardSpec`) and its chain-rule theorem |
| `engine.dfy` | `Engine` | class `Graph`: the arena as a mutable object, with one method per operator, accessor and gradient routine; `BackwardSingle`, `BackwardLoop` and `Backward` are proved equal to the functions of `Gradient` |
| `nn.dfy` | `Nn` | `Neuron`, `Layer` and `Mlp` as records of node ids; constructors, forward passes and `get_parameters` as methods on a `Graph`, proved against `NeuronOut`/`LayerOut`/`MlpOut` and `NeuronParams`/`LayerParams`/`MlpParams` |
| `findings.dfy` | `Findings` | the two defects below, as written and corrected, plus worked backward passes |

How the source is represented:

- `float` is `real`, so rounding is not modelled.
- `std::tanh` is an uninterpreted function `tanh: real -> real`. It is fixed when a `Graph` is built and passed to every pure function that needs it.
- `std::pow(t, 2)` is `t * t`.
- The `std::runtime_error` thrown for an unknown tag is an `Option<Error>` result. Gradient updates made before the throw are kept (`Gradient.Outcome`), as they are in C++, where nothing rolls them back.
- The random draws of `Neuron::Neuron` are a parameter (`Nn.NeuronInit`).

## Model

| member | source | states |
|---|---|---|
| Values.MakeValue | micrograd/engine.cc:7-8 | a new node holds exactly the given data, operands, tag and label, and its gradient starts at 0 |
| Values.Leaf | micrograd/engine.cc:9-13 | a leaf has no operands and the empty tag; its gradient starts at 0 and it keeps the given data and label |
| Values.PushKeepsWF | micrograd/engine.cc:7-8 | binding a node whose operands are already bound keeps every operand older than its consumer |
| Values.Plus | micrograd/engine.cc:20-24 | `a + b` holds the sum of the operands' data, records the operands `[a, b]` in that order, carries tag "+" and a zero gradient, and has the two operands its rule reads |
| Values.Minus | micrograd/engine.cc:26-30 | `a - b`: the difference, operands `[a, b]`, tag "-" |
| Values.Times | micrograd/engine.cc:32-36 | `a * b`: the product, operands `[a, b]`, tag "*" |
| Values.Neg | micrograd/engine.cc:38-42 | unary `-a` holds `-data` with the single operand `[a]` and tag "-", the tag of binary minus, so it lacks the second operand the "-" rule reads |
| Values.Tanh | micrograd/engine.cc:118-122 | `tanh()` holds `tanh(data)` with operand `[a]` and tag "tanh" |
| Values.ComparisonsOrderData | micrograd/engine.cc:86-115 | the six comparisons look at data only and form one total order: `!=` is the negation of `==`, `<=` is `<` or `==`, `>` and `>=` swap `<` and `<=`, and exactly one of `<`, `==`, `>` holds |
| Values.EqualIsNotIdentity | micrograd/engine.cc:86-90 | two different nodes with the same data compare equal |
| Values.OperatorsOnFiveAndTwo | micrograd/engine_test.cc:34-40 | with 5 and 2: `+` gives 7, `-` gives 3, `*` gives 10 and unary minus gives -5 |
| Topo.Reach | micrograd/engine.cc:133-135 | the nodes reachable from `n` along operand edges include `n` and are all no newer than `n` |
| Topo.ReachClosed | micrograd/engine.cc:133-136 | a list where every node comes after its operands and which contains `n` contains everything reachable from `n` |
| Topo.DfsCorrect | micrograd/engine.cc:125-137 | a visit of `n` keeps the sorted list duplicate-free with operands first. It only appends to the list, and it adds exactly the nodes reachable from `n` to both the list and the visited set |
| Topo.DfsListCorrect | micrograd/engine.cc:133-135 | the same for the loop over a node's children: it adds exactly the union of what each child reaches |
| Topo.TopoSortCorrect | micrograd/engine.cc:163-167 | from an empty list and visited set, the walk lists every reachable node exactly once, each after its operands, with the root last, and marks exactly the reachable nodes visited |
| Topo.BuildTopo | micrograd/engine.cc:125-137 | the recursive procedure computes exactly the walk; started empty, it returns a topological order of the reachable nodes and visits exactly them |
| Gradient.ContributionToNonChild | micrograd/engine.cc:142-153 | a node's rule adds nothing to a node that is not one of its operands |
| Gradient.ContributionSameShape | micrograd/engine.cc:150-153 | a rule's contribution depends only on the node's gradient and its operands' data, not on other gradients |
| Gradient.Propagate | micrograd/engine.cc:139-157 | one node's rule, when its tag is known, changes gradients only: data, operands, tags and labels stay |
| Gradient.Backprop | micrograd/engine.cc:171-173 | the reverse pass over a list changes gradients only |
| Gradient.IncomingFromNonParents | micrograd/engine.cc:171-173 | a node that no listed node uses as an operand receives nothing from the pass |
| Gradient.BackpropThrows | micrograd/engine.cc:154-156 | the pass throws if and only if some listed node carries an unknown tag, and the tag it reports is unknown |
| Gradient.BackpropUntouched | micrograd/engine.cc:171-173 | a node that no listed node uses as an operand leaves the pass exactly as it entered |
| Gradient.ChainRule | micrograd/engine.cc:139-157 | over a duplicate-free list with operands before consumers and known tags, the pass does not throw. Every node's final gradient is its initial gradient plus, summed over the listed consumers, each consumer's final gradient times the local derivative |
| Gradient.SetGrad | micrograd/engine.cc:170 | `set_grad` sets one node's gradient and changes nothing else |
| Gradient.BackwardStart | micrograd/engine.cc:167-170 | the sorted list is non-empty and ends with the root, so `sorted.back()` is the node `backward` was called on |
| Gradient.BackwardOnlyGrads | micrograd/engine.cc:159-174 | `backward` changes gradients only |
| Gradient.BackwardRootGradIsOne | micrograd/engine.cc:170-173 | after `backward` the root's gradient is 1 |
| Gradient.BackwardUnreachableUntouched | micrograd/engine.cc:163-173 | a node not reachable from the root is unchanged by `backward` |
| Gradient.BackwardThrowsIffUnknownTag | micrograd/engine.cc:154-156 | `backward` throws if and only if a node reachable from the root carries an unknown tag, and it reports an unknown tag |
| Gradient.BackwardChainRule | micrograd/engine.cc:159-174 | when every reachable tag is known, `backward` does not throw. The root's gradient is 1 plus what it receives, and every other node's gradient is its old gradient plus the sum over its consumers of consumer gradient times local derivative |
| Engine.AddGrad | micrograd/engine.cc:144 | `update_grad` adds the amount to one node's gradient and changes nothing else |
| Engine.SetData | micrograd/engine.h:19 | `set` replaces one node's data and keeps everything else |
| Engine.SetName | micrograd/engine.h:20 | `set_label` replaces one node's label and keeps everything else |
| Engine.AddGradTwice | micrograd/engine.cc:144-145 | two updates add up, also when both hit the same node (`a + a` gives `a` both shares) |
| Engine.PropagateLeaf | micrograd/engine.cc:142 | the rule of a leaf changes nothing |
| Engine.PropagatePlus | micrograd/engine.cc:143-145 | the "+" rule adds the node's gradient to both operands |
| Engine.PropagateMinus | micrograd/engine.cc:146-148 | the "-" rule adds the gradient to the first operand and its negation to the second |
| Engine.PropagateTimes | micrograd/engine.cc:149-151 | the "*" rule adds gradient times the other operand's data to each operand |
| Engine.PropagateTanh | micrograd/engine.cc:152-153 | the "tanh" rule adds `grad * (1 - tanh(x)^2)` to the operand |
| Engine.Graph.NewValue | micrograd/engine.cc:7-8 | binds a node built by the full constructor, after the nodes it names as operands |
| Engine.Graph.NewLeaf | micrograd/engine.cc:9-13 | binds a new leaf as the newest node and leaves the rest of the arena alone |
| Engine.Graph.Add | micrograd/engine.cc:20-24 | binds `a + b` as a new node and returns its id; the operands are not touched |
| Engine.Graph.Sub | micrograd/engine.cc:26-30 | binds `a - b` |
| Engine.Graph.Mul | micrograd/engine.cc:32-36 | binds `a * b` |
| Engine.Graph.NegAsWritten | micrograd/engine.cc:38-42 | binds unary minus as written: one operand under the tag "-" |
| Engine.Graph.Negate | micrograd/engine.cc:38-42 | the corrected unary minus binds a leaf -1 and the product `a * -1`, whose data is `-a` |
| Engine.Graph.Tanh | micrograd/engine.cc:118-122 | binds `tanh(a)` |
| Engine.Graph.AddScalar | micrograd/engine.cc:69-73 | `a + x` for a float binds a leaf `x`, then the sum, whose data is `a + x` |
| Engine.Graph.SubScalar | micrograd/engine.cc:74-78 | `a - x`: a leaf `x`, then the difference |
| Engine.Graph.MulScalar | micrograd/engine.cc:79-83 | `a * x`: a leaf `x`, then the product |
| Engine.Graph.AddAssign | micrograd/engine.cc:44-50 | the corrected `a += b` binds a fresh node holding the sum, with operands `[a, b]`, and leaves every existing node as it was |
| Engine.Graph.SubAssign | micrograd/engine.cc:52-58 | the corrected `a -= b`, by the same rebinding |
| Engine.Graph.MulAssign | micrograd/engine.cc:60-66 | the corrected `a *= b`, by the same rebinding |
| Engine.Graph.Set | micrograd/engine.h:19 | `set` changes one node's data only |
| Engine.Graph.SetLabel | micrograd/engine.h:20 | `set_label` changes one node's label only |
| Engine.Graph.SetGradOf | micrograd/engine.cc:170 | `set_grad` changes one node's gradient only |
| Engine.Graph.UpdateGrad | micrograd/engine.cc:144-153 | `update_grad` adds to one node's gradient only |
| Engine.Graph.Get | micrograd/engine.h:22 | `get` returns the node's data |
| Engine.Graph.GetGrad | micrograd/engine.cc:8 | reading the `grad` member returns the node's gradient and changes nothing |
| Engine.Graph.GetLabel | micrograd/engine.h:23 | `get_label` returns the label |
| Engine.Graph.GetChildren | micrograd/engine.h:24 | `get_children` returns the operands, all of them older than the node |
| Engine.Graph.GetOp | micrograd/engine.h:25 | `get_op` returns the tag |
| Engine.Graph.BackwardSingle | micrograd/engine.cc:139-157 | applying the node's rule by successive `update_grad` calls equals the rule as one function. An unknown tag throws and changes nothing |
| Engine.Graph.BackwardLoop | micrograd/engine.cc:171-173 | the reverse-iterator loop over the sorted list ends in the state and error of the reverse pass |
| Engine.Graph.Backward | micrograd/engine.cc:159-174 | `backward` ends in the state and error that `Gradient.BackwardSpec` gives, so every `Gradient.Backward*` lemma holds of it |
| Nn.NatToString | micrograd/nn.cc:20 | `std::to_string` of a non-negative index is a non-empty string of decimal digits, a single digit exactly below 10 |
| Nn.NatToStringRoundTrip | micrograd/nn.cc:20 | reading the digits back gives the index, so the labels `w0`, `w1`, ... are pairwise distinct |
| Nn.DotIgnoresUnusedWeights | micrograd/nn.cc:36-38 | the weighted sum runs over the inputs only; weights beyond them play no part |
| Nn.LayerOut | micrograd/nn.cc:76-82 | a layer's output has one entry per neuron, and entry `j` is neuron `j`'s output |
| Nn.MlpOut | micrograd/nn.cc:118-124 | with no layers the outputs are the inputs; otherwise there is one output per neuron of the last layer |
| Nn.MlpChains | micrograd/nn.cc:98-107 | the constructor's wiring makes every layer accept the previous layer's outputs (the first accepts at most `n_inputs`) |
| Nn.NeuronOutExtends | micrograd/nn.cc:32-45 | binding further nodes does not change what a neuron computes from the nodes it holds |
| Nn.LayerOutExtends | micrograd/nn.cc:76-82 | binding further nodes does not change a layer's outputs |
| Nn.NewNeuron | micrograd/nn.cc:11-24 | binds `n_inputs` weight leaves labelled `w0`, `w1`, ... with the drawn values, then the bias leaf "b". No earlier node changes, and the weights' data is exactly the draws |
| Nn.NewLayer | micrograd/nn.cc:60-68 | binds `n_neurons` neurons of `n_inputs` weights each, in order: neuron `j` holds draw `j` as leaves `w0`, `w1`, ..., `b`, its parameters are consecutive new nodes after those of neuron `j - 1`, and all the layer's parameters are distinct nodes bound by this call |
| Nn.NewMlp | micrograd/nn.cc:98-110 | builds one layer per size; layer 0 takes `n_inputs` inputs and layer `i` takes the size of layer `i - 1`. Neuron `j` of layer `i` holds draw `j` of layer `i`; every neuron's parameters come after those of the neurons built before it, and all the network's parameters are distinct nodes bound by this call |
| Nn.LayerParamsFresh | micrograd/nn.cc:60-68 | neurons bound one after another in a range have pairwise distinct parameters, all in that range: no two neurons share a leaf |
| Nn.MlpParamsFresh | micrograd/nn.cc:98-110 | the same for a network: no leaf is shared by two neurons, in one layer or in two |
| Nn.NeuronForward | micrograd/nn.cc:32-45 | binds the weighted sum and the tanh node; the result is `tanh(Σ x_i·w_i + b)` over the inputs given, and no earlier node changes |
| Nn.LayerForward | micrograd/nn.cc:76-83 | output `j` holds neuron `j`'s output on the inputs |
| Nn.MlpForward | micrograd/nn.cc:118-125 | the outputs hold the layers' composition applied to the inputs. With no layers they are the inputs; otherwise there is one per neuron of the last layer |
| Nn.NeuronGetParameters | micrograd/nn.cc:48-56 | the `n_inputs` weights in order, then the bias |
| Nn.LayerGetParameters | micrograd/nn.cc:86-94 | the neurons' parameters, neuron after neuron |
| Nn.MlpGetParameters | micrograd/nn.cc:128-136 | the layers' parameters, layer after layer |
| Nn.LayerParamsLayout | micrograd/nn.cc:86-93 | when every neuron has `c` parameters, parameter `k` of neuron `j` is at position `j * c + k` |
| Nn.LayerParamsCount | micrograd/nn.cc:86-93 | `Layer(n_in, k)` has `k * (n_in + 1)` parameters |
| Nn.MlpParamsCount | micrograd/nn.cc:128-135 | an MLP has `Σ_i sizes[i] * (in_i + 1)` parameters, where `in_0 = n_inputs` and `in_i = sizes[i - 1]` |
| Findings.NegBlocksBackward | micrograd/engine.cc:38-42 | a unary minus reachable from the root leaves the graph unfit for `backward`, because the "-" rule reads a second operand the node does not have |
| Findings.NegOfLeafBlocksBackward | micrograd/engine.cc:146-148 | `-x` of a leaf already does this |
| Findings.NegateRule | micrograd/engine.cc:149-151 | a product with a leaf holding -1 passes `-grad` to its other operand: the derivative of negation |
| Findings.NegatedLeaf | micrograd/engine.cc:38-42 | the corrected `-x` of a leaf is a well-formed three-node graph holding `-x` |
| Findings.NegateBackward | micrograd/engine.cc:159-174 | `backward` from the corrected `-x` runs without throwing and gives `x` the gradient -1 |
| Findings.InPlaceAssign | micrograd/engine.cc:44-66 | the compound assignments as written: the node's data becomes the sum, difference or product, its operands become `[a, b]`, and its tag and gradient stay |
| Findings.InPlaceAssignMakesCycle | micrograd/engine.cc:48 | the node becomes its own operand, so the graph is no longer acyclic |
| Findings.InPlaceAssignBreaksCapturedNode | micrograd/engine.cc:44-50 | after `c = a + b` and `a += b` with 5 and 2: `c` no longer holds the sum of its operands; `a`, still tagged a leaf, passes nothing to its new operand `b` |
| Findings.RebindKeepsCapturedNodes | micrograd/engine.cc:44-50 | the corrected `+=` keeps the graph acyclic and every existing node, and both old consumers and the new node hold what their tags say |
| Findings.LeavesPass | micrograd/engine.cc:142 | a pass over leaves only changes nothing and does not throw |
| Findings.TanhRule | micrograd/engine.cc:152-153 | the tanh rule passes `grad * (1 - tanh(x)^2)` to its operand |
| Findings.DiamondAccumulates | micrograd/engine.cc:143-145 | for `x + x`, `backward` visits `x` once and gives it the gradient 2, one share per operand slot |
| Findings.TanhBackward | micrograd/engine.cc:152-153 | `backward` from `tanh(x)` gives `x` the gradient `1 - tanh(x)^2` |

## Left out

- Floating point: `float` is `real`. There is no rounding, overflow, NaN or infinity, and `std::tanh` is an arbitrary function `real -> real`.
- The `std::cout` line in `build_topo` (micrograd/engine.cc:131) writes output only and is not modelled.
- `to_string` (micrograd/engine.h:27-32) prints data to two decimals and is not modelled. `std::to_string` of an index is modelled by `Nn.NatToString` for non-negative indices only.
- micrograd/graph_system.cc (the Graphviz dump) is not part of this model.
- `operator/` and `operator/=` are declared in micrograd/engine.h:38 and :43 but never defined, so they are not modelled.
- `loss` (micrograd/nn.h:75), `Optimizer` (micrograd/nn.h:79-82) and `MLP::zero_grad` (micrograd/nn.h:67) are declared but not defined in micrograd/nn.cc, so they are not modelled.
- The random draws of `Neuron::Neuron` (micrograd/nn.cc:16-18) are a parameter: the constructor receives the values it would have drawn. The range [-1, 1] is not modelled.
- The unused local `Value weight(1.0, "weight")` (micrograd/nn.cc:14) is not modelled.
- micrograd/engine.h declares the children as `std::vector<Value>` held by value, while micrograd/engine.cc stores `Value*` addresses. The model follows engine.cc, where a node refers to its operands by identity.
- C++ object lifetimes are not modelled. In C++, operators capture the addresses of temporaries and `std::vector<Value>` copies values, so a stored `Value*` may dangle or name a copy. In the model every node is bound once in the arena and referred to by id, so neurons, layers and inputs share nodes instead of copying them.
- `std::pow(t, 2)` is `t * t`.
- Engine.Graph.BackwardSingle and Engine.Graph.Backward require every rule they run to find its operands (`Values.RuleArity`). In C++, unary minus reaching the "-" rule reads `children[1]` out of bounds (undefined behaviour). The model states that such graphs are excluded (Findings.NegBlocksBackward) and does not model the out-of-bounds read.
- Nn.NeuronForward uses the corrected `+=` (rebinding, Engine.Graph.AddAssign). The in-place form as written is modelled separately, in Findings.InPlaceAssign.
- Nn.Width: a negative `n_inputs` or `n_neurons` gives zero loop iterations, as the `for` loops do. The stored `n_inputs` is kept as given, so `get_parameters` of such a neuron returns the bias only.
- `backward_single` (micrograd/engine.cc:139-157) has gradient rules only for the tags "", "+", "-", "*" and "tanh"; unary minus reuses the "-" tag. `operator/` and `operator/=` are declared (micrograd/engine.h:38, 43) but defined nowhere, so there is no division, power or exponential operator or rule to model.
- micrograd/engine.cc:154-156 throws after the `update_grad` calls of the nodes handled earlier in the pass have been applied, and nothing undoes them. The model keeps those updates in the state that comes with the error (`Gradient.Outcome`).
- `update_grad`, `set_grad`, `get_data` and the `grad` member are used (micrograd/engine.cc:8, 12, 144-153, 170) but declared in neither micrograd/engine.h nor any other file, so their meaning is read from their uses: `update_grad(x)` adds `x` to the node's gradient (Engine.AddGrad, Engine.Graph.UpdateGrad), `set_grad(x)` overwrites it (Gradient.SetGrad, Engine.Graph.SetGradOf), `get_data()` reads the node's data, and reading `grad` reads the gradient (Engine.Graph.GetGrad).

## Findings

| source | as written | input that shows it | evidently intended | confidence | as-written member | corrected member |
|---|---|---|---|---|---|---|
| micrograd/engine.cc:38-42 | unary minus builds a node with the single operand `[a]` under the tag "-", which `backward_single` treats as binary minus and reads `children[1]` | `Value x(1.0); Value y = -x; y.backward();` | the derivative of negation, `-grad` to the one operand, e.g. by building `a * -1` as the Python original does | high (not executed) | Findings.NegOfLeafBlocksBackward | Findings.NegateBackward |
| micrograd/engine.cc:44-66 | `+=`, `-=` and `*=` overwrite the left operand's data and make it its own operand, without changing its tag | `a = 5, b = 2, c = a + b; a += b;` leaves `c` at 7 while its operands add up to 9, and `a` is now its own child | build a fresh node and rebind the variable, leaving nodes other nodes have captured untouched | high (not executed) | Findings.InPlaceAssignBreaksCapturedNode | Findings.RebindKeepsCapturedNodes |

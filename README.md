# micrograd, modelled in Dafny

This project models micrograd, a scalar reverse-mode automatic differentiation
engine (class `Value` in `micrograd/engine.py`), and the small neural-network
layer built on it (`micrograd/nn.py`). It proves what the model does.

**The engine.**
- Every `Value` object lives on a *tape*, the class `Engine.Tape`. A `Value` is
  an index into the tape.
- The tape holds the nodes (`data` and the operator that made it) and, beside
  them, the mutable `grad` of each node. Operands always have smaller indices
  than their results, so the graph is acyclic by construction.
- The operators (`+`, `*`, `**` with an integer exponent, `relu`, and the
  derived `neg`, `radd`, `sub`, `rsub`, `rmul`, `truediv`, `rtruediv`) append
  nodes. A number operand is first wrapped in a leaf of its own.

**`backward`.**
- `Topo.BuildTopo` is the recursive depth-first `build_topo`, with its
  `visited` set and `topo` list.
- `backward` assigns 1 to the root's gradient, then runs each node's
  `_backward` closure (`Engine.Tape.RunRule`) in reverse topological order.
- The main theorem is the ensures of `Engine.Tape.Backward`. Every node `w`
  the root reaches ends up with `Chain.Gradient`: the sum, over the nodes `u`
  the root reaches, of `u`'s gradient before the call (with the root's
  replaced by 1) times `u`'s derivative with respect to `w`. That derivative
  is `Chain.PathSum`: the sum, over all paths from `u` down to `w`, of the
  products of the local derivatives along the path. So the root ends at exactly 1,
  and a node whose consumers already held gradients passes those on again.
  Nodes the root does not reach are left alone.
- Starting from zero gradients, every reachable node ends up with exactly
  `PathSum(root, node)` (`Chain.FreshGradients`).
- The proof goes through a loop invariant on the reverse sweep (`Sweep.SweepInv`).

**The network.**
- A `Neuron`, `Layer` or `MLP` is a value that holds the tape indices of its
  parameters. Calling one appends nodes to the tape.
- The forward computation is stated by functions over the tape's values:
  `Nn.NeuronOut`, `Nn.LayerOut` and `Nn.MlpOut`. The methods that build the
  graph are proved to produce exactly those values.
- The graph they build is stated too. The output of an active `Neuron` is
  the expression tree `act(((w0*x0 + 0) + w1*x1) + ... + b)` (`Nn.Fired`),
  so it reaches the bias, every weight `zip` pairs with an input, and every
  input `Value` so paired (`Nn.FiredReaches`): `backward` from it reaches
  them. A layer's outputs are each `Fired` (`Nn.LayerWired`), and the number
  of nodes every call appends is exact.
- An active `RBFNeuron` given a list takes a square root, which the model
  does not compute. The specification functions give the outcome
  `Err(Unmodelled)` for it, never a value.

Two facts about the code's results are worth stating outright:
- For `a = -2`, `b = 3`, `e = a * b + a ** 2` gives `e.data == -2` (`-6 + 4`),
  and `backward` gives `a.grad == -1` and `b.grad == -2`
  (`Examples.WorkedExample`).
- Calling `backward` twice does not double every gradient. The root's
  gradient is *assigned* 1 rather than accumulated, and intermediate nodes
  pass on what they already hold. For `z = (x * 3) * 2` with `x = 1`,
  `x.grad` goes from 6 to 18 and `z.grad` stays 1 (`Examples.BackwardTwice`).

Two consequences of the code are worth knowing:
- A layer with exactly one neuron returns that neuron's output itself, not a
  list. So an `MLP` with a hidden layer of width 1 hands the next layer a
  single `Value`. When the next layer has an active neuron, that neuron
  iterates over it and raises `TypeError`, so every call of such a network
  fails (`Nn.WidthOneFails`). A next layer with no neurons, or with only
  inactive ones, never iterates over its input, so the call does not fail
  there. The model shows that `TypeError`
  once the `RBFNeuron`s up to the narrow layer are switched off
  (`Nn.ShapedWidthOneFails`).
- The closure of `x ** 0` evaluates `0 * x.data ** -1`, which raises
  `ZeroDivisionError` when `x.data == 0`. `backward` then stops
  (`Chain.RuleDefined`, `Engine.Tape.Backward`).

## Model

| member | source | states |
|---|---|---|
| Graph.Operands | micrograd/engine.py:17 | the `_children` tuple, in order: two operands for `+` and `*`, one for `**` and `relu`, none for a leaf |
| Graph.OperandsBelow | micrograd/engine.py:15-17 | a node's operands precede it exactly when every entry of its `_children` tuple does; an operator can only combine `Value`s that already exist |
| Graph.Prev | micrograd/engine.py:12 | `_prev` is the set of the operands: a node is a child exactly when it is an operand, and `x + x` has one child |
| Graph.Power | micrograd/engine.py:39 | `x ** k` for an integer `k` (defined only for a nonzero base when `k < 0`) is nonzero when `x` is |
| Graph.Rectify | micrograd/engine.py:48 | `relu`'s forward value is never negative, and it equals the input exactly when the input is not negative (0 otherwise) |
| Engine.Tape.Append | micrograd/engine.py:7-13 | a new node is appended with `grad == 0`; every existing node and gradient is kept |
| Engine.Tape.Value | micrograd/engine.py:7-13 | `Value(data)` appends a leaf with that data and gradient 0 |
| Engine.Tape.Lift | micrograd/engine.py:16 | a `Value` operand is used as is; a number is wrapped in a new leaf |
| Engine.Tape.Add | micrograd/engine.py:15-24 | `a + b` appends a node with `data == a.data + b.data` whose operands are `(a, b)`, after a leaf for a number operand; gradients start at 0 |
| Engine.Tape.Mul | micrograd/engine.py:26-35 | `a * b` appends a node with `data == a.data * b.data`, operands `(a, b)` |
| Engine.Tape.Pow | micrograd/engine.py:37-45 | `a ** k` appends `a.data ** k`; 0 to a negative power is a `ZeroDivisionError` that appends nothing, and is the only error |
| Engine.Tape.Relu | micrograd/engine.py:47-55 | `relu` appends `0 if a.data < 0 else a.data` with operand `a` |
| Engine.Tape.Neg | micrograd/engine.py:123-124 | `-a` is `a * -1`: a leaf `-1`, then the product holding `-a.data` |
| Engine.Tape.RAdd | micrograd/engine.py:126-127 | `x + a` for a number `x` is `a + x`: a leaf `x`, then `a.data + x` |
| Engine.Tape.Sub | micrograd/engine.py:129-130 | `a - b` is `a + (-b)`: for a `Value` `b`, the nodes of `-b` and then the sum; for a number, a leaf holding `-b` and then the sum |
| Engine.Tape.RSub | micrograd/engine.py:132-133 | `x - a` is `(-a) + x`: the nodes of `-a`, a leaf `x`, then `x - a.data` |
| Engine.Tape.RMul | micrograd/engine.py:135-136 | `x * a` is `a * x`: a leaf `x`, then the product |
| Engine.Tape.TrueDiv | micrograd/engine.py:138-139 | `a / b` is `a * b ** -1`; it fails with `ZeroDivisionError`, appending nothing, exactly when `b` is 0 |
| Engine.Tape.RTrueDiv | micrograd/engine.py:141-142 | `x / a` is `a ** -1 * x`; it fails exactly when `a.data` is 0 |
| Engine.Reciprocal | micrograd/engine.py:138-139 | `x ** -1 == 1 / x` for nonzero `x` |
| Rules.LeafRule | micrograd/engine.py:11 | a leaf's closure `lambda: None` changes no gradient |
| Rules.AddRule | micrograd/engine.py:19-21 | the `+` closure adds `out.grad` to both operands; for `x + x`, `x` receives `2 * out.grad`; no other gradient changes |
| Rules.MulRule | micrograd/engine.py:30-32 | the `*` closure adds `b.data * out.grad` to `a` and `a.data * out.grad` to `b`; for `x * x`, `x` receives `2 * x.data * out.grad`; nothing else changes |
| Rules.PowRule | micrograd/engine.py:41-42 | the `**` closure adds `k * a.data ** (k - 1) * out.grad` to `a`, and nothing when `k == 0`; nothing else changes |
| Rules.ReluRule | micrograd/engine.py:50-51 | the `relu` closure passes `out.grad` on only when `out.data > 0`, so an input of exactly 0 receives nothing |
| Rules.LeafSlope | micrograd/engine.py:11 | the derivative of a leaf with respect to any other node is 0 |
| Rules.AddSlope | micrograd/engine.py:19-21 | chain rule at `a + b`: the derivative is the sum of the operands' derivatives |
| Rules.MulSlope | micrograd/engine.py:30-32 | chain rule at `a * b`: `b.data * da + a.data * db` |
| Rules.PowSlopeRule | micrograd/engine.py:41-42 | chain rule at `a ** k`: `k * a.data ** (k - 1) * da` |
| Rules.ReluSlope | micrograd/engine.py:50-51 | chain rule at `relu`: the operand's derivative when the result is positive, 0 otherwise |
| Chain.Edges | micrograd/engine.py:17 | the operand occurrences a closure updates are the `_children` tuple, in order, each a smaller index and a member of `_prev` |
| Chain.PowSlope | micrograd/engine.py:42 | the local derivative of `x ** k` is 0 for `k == 0`, 1 for `k == 1` and `2x` for `k == 2` |
| Chain.Propagate | micrograd/engine.py:19-21 | a closure `child.grad += weight * out.grad`, edge by edge, keeps one gradient per node |
| Chain.PropagateAdds | micrograd/engine.py:19-51 | after a closure, each node holds its old gradient plus `out.grad` times the sum of the local derivatives on the edges to it: twice the weight for `x + x`, and nothing for a node that is not an operand |
| Chain.PropagateFrame | micrograd/engine.py:19-21 | a closure changes only the gradients of its own operands |
| Chain.PathSumSelf | micrograd/engine.py:119 | the derivative of a node with respect to itself is 1 (the value `backward` assigns to the root) |
| Chain.PathSumUnreachable | micrograd/engine.py:110-116 | the derivative with respect to a node that cannot be reached is 0 |
| Chain.PathSumUnfold | micrograd/engine.py:118-121 | the chain rule at one node: its derivative is 1 at itself plus, over its operand occurrences, each local derivative times that operand's derivative |
| Chain.GradientFromZero | micrograd/engine.py:119-121 | when every node the root reaches (except the root) starts at gradient 0, the gradient `backward` leaves is the root's derivative |
| Chain.FreshGradients | micrograd/engine.py:105-121 | after `backward` on zero gradients, every reachable node's `grad` is the root's derivative with respect to it (sum over paths) |
| Chain.GradientRoot | micrograd/engine.py:119 | `self.grad = 1` before the sweep: `Gradient` at the root is exactly 1 whatever the root held before, since no node the root reaches reaches it back |
| Topo.BuildTopo | micrograd/engine.py:108-116 | `build_topo` lists exactly the nodes reachable from its start, none twice, each after all of its children, the start node last; `visited` is what it listed |
| Topo.TopoDistinct | micrograd/engine.py:110-115 | no node appears twice in the topological list |
| Topo.TopoReach | micrograd/engine.py:110-115 | everything a listed node reaches is listed |
| Topo.NoReachForward | micrograd/engine.py:110-115 | a node listed earlier never reaches one listed later |
| Topo.ConsumersFirst | micrograd/engine.py:120-121 | in reverse order, every node's closure runs after the closures of all its consumers |
| Sweep.SweepStart | micrograd/engine.py:119-120 | before any closure runs, the sweep invariant holds |
| Sweep.SweepStep | micrograd/engine.py:120-121 | running the next closure in reverse order keeps the sweep invariant |
| Sweep.SweepDone | micrograd/engine.py:119-121 | at the end of the sweep, every reachable node holds `Gradient` and every other node keeps its gradient |
| Engine.Tape.RunRule | micrograd/engine.py:121 | one `_backward` call: the gradients become `Propagate` of the old ones by the node's local derivatives, or stay unchanged when the closure raises |
| Engine.Tape.RunSweep | micrograd/engine.py:120-121 | the reverse loop runs every closure unless one raises; without a failure it ends with the sweep invariant at 0 |
| Engine.Tape.Backward | micrograd/engine.py:105-121 | `backward` leaves every reachable node `w` holding `Gradient`: the sum over reachable `u` of `u`'s old gradient (the root's replaced by 1) times `u`'s chain-rule derivative with respect to `w`; on success the root holds exactly 1; unreachable nodes and all `data` are unchanged; it fails exactly when a reachable `x ** 0` has `x.data == 0` |
| Examples.WorkedSlopes | micrograd/engine.py:15-45 | for `e = a * b + a ** 2` with `a = -2`, `b = 3`: `e.data == -2`, `de/da == -1`, `de/db == -2` |
| Examples.WorkedExample | micrograd/engine.py:105-121 | building that graph and calling `backward` gives `e.data == -2`, `a.grad == -1`, `b.grad == -2` |
| Examples.CubeExample | micrograd/engine.py:37-45 | `Value(2) ** 3` has data 8, and `backward` gives the leaf grad 12 |
| Examples.SharedSum | micrograd/engine.py:15-24 | `y = x + x`, `y.backward()`: `x.grad == 2` although `_prev` holds `x` once |
| Examples.SharedProduct | micrograd/engine.py:26-35 | `y = x * x`, `y.backward()`: `x.grad == 2 * x.data` |
| Examples.ReluGate | micrograd/engine.py:47-55 | `relu(x)` is `0` for negative `x` and `x` otherwise; its backward gives `x.grad == 1` for positive `x` and 0 otherwise, including at 0 |
| Examples.ChainSecondPass | micrograd/engine.py:119-121 | a second `backward` from `z = (x * 3) * 2` on gradients `[6, 2, 2, 3, 1]` gives `x.grad == 18` and `z.grad == 1` |
| Examples.BackwardTwice | micrograd/engine.py:105-121 | two `backward` calls without resetting give `x.grad` 6, then 18, not twice 6; the root stays at 1 |
| Nn.ZeroGrad | micrograd/nn.py:9-11 | `zero_grad` sets the gradient of every listed parameter to 0 and changes no other gradient and no `data` |
| Nn.NeuronParameters | micrograd/nn.py:36-37 | a neuron's parameters are its weights in order, followed by the bias: `nin + 1` of them |
| Nn.LayerParameters | micrograd/nn.py:73-74 | an index is in `Layer.parameters()` exactly when it is a parameter of one of the layer's neurons |
| Nn.MlpParameters | micrograd/nn.py:107-108 | an index is in `MLP.parameters()` exactly when it is a parameter of one of the network's layers |
| Nn.LayerParametersConcat | micrograd/nn.py:73-74 | the parameter list of a layer splits where its neuron list does (concatenation in neuron order) |
| Nn.LayerParameterCount | micrograd/nn.py:73-74 | a layer of neurons with `nin` inputs each has `len(neurons) * (nin + 1)` parameters |
| Nn.MlpParametersConcat | micrograd/nn.py:107-108 | the parameter list of a network splits where its layer list does (concatenation in layer order) |
| Nn.LayersParameterCount | micrograd/nn.py:107-108 | layers sized by `sz` have `ParamCount(sz)` parameters between them |
| Nn.MlpParameterCount | micrograd/nn.py:81-108 | `MLP(nin, nouts)` has `sum of nouts[i] * (sz[i] + 1)` parameters |
| Nn.NewNeuron | micrograd/nn.py:22-26 | a new neuron appends `nin` weight leaves and then its bias leaf (0 for `Neuron`, a draw for `RBFNeuron`); it starts active; its parameters are exactly the appended indices, in order |
| Nn.SumProducts | micrograd/nn.py:30 | the generator sum over the zipped pairs appends `SumSize` nodes and returns the node that is the sum tree `((w0*x0 + 0) + w1*x1) + ...` (`SumTree`), holding the sum of `w[i].data * x[i]` |
| Nn.AddProduct | micrograd/nn.py:30 | one step of that sum appends the product `w * x` (after a leaf for a number), then the sum with the running node, or with a leaf 0 on the first step (Python's start value, via `__radd__`): exactly that many nodes, and the sum holds `acc + w * x` |
| Nn.AddBias | micrograd/nn.py:31 | `wx + self.b` appends exactly `Add(acc, b)` holding the sum plus the bias, or a leaf 0 and `Add(b, leaf)` when there are no pairs |
| Nn.Apply | micrograd/nn.py:32 | `relu` appends exactly `Relu(u)` holding `Rectify(u.data)`; the identity appends nothing and returns `u` |
| Nn.Preactivation | micrograd/nn.py:30-31 | `wx + self.b` appends exactly the sum tree over the zipped pairs and the bias node (`Biased`), holding the weighted sum plus the bias |
| Nn.Evaluate | micrograd/nn.py:29-32 | an active `Neuron` called on a list appends exactly `FireSize` nodes and returns a node that is the tree `act(sum of w[i] * x[i] + b)` (`Wired`) and holds `NeuronOut`'s value |
| Nn.Fire | micrograd/nn.py:28-34 | an inactive neuron appends exactly a fresh leaf 0 whatever its input; an active one given a single `Value` raises `TypeError`, appending nothing; otherwise the result is `Fired` (the tree `act(sum of w[i] * x[i] + b)`), `FireSize` nodes are appended, and it holds `NeuronOut` |
| Nn.FiredReaches | micrograd/nn.py:28-32 | the output of an active neuron reaches its bias, every weight `zip` pairs with an input, and every input `Value` so paired, so `backward` from it reaches them |
| Nn.NeuronOut | micrograd/nn.py:28-54 | a neuron's output on numbers: 0 when inactive, `TypeError` exactly when active and given a single number, never negative after `relu`; an active `RBFNeuron` on a list gives the distinct outcome `Unmodelled`, never a value |
| Nn.NeuronOutZip | micrograd/nn.py:30 | `zip` stops at the shorter list: inputs past the neuron's weights do not change its output |
| Nn.Outputs | micrograd/nn.py:70 | `[n(x) for n in neurons]` fails exactly when some neuron fails, with an error some neuron gives, and otherwise lists each neuron's output in order |
| Nn.LayerOutCases | micrograd/nn.py:69-71 | `Layer.__call__` raises `TypeError` exactly when handed a single number while one of its neurons is active, and reaches `Unmodelled` exactly when handed a list with an active `RBFNeuron`; on success it gives a single output exactly for a one-neuron layer, else one output per neuron, each the neuron's own |
| Nn.FireAll | micrograd/nn.py:70 | the list comprehension on the tape fires the neurons in order; it fails exactly when some neuron fails, having appended only the `Value(0.)` leaves of the inactive neurons before it, and otherwise returns one `Fired` output node per neuron holding its value, appending exactly `LayerSize` nodes |
| Nn.Wrap | micrograd/nn.py:71 | `out[0] if len(out) == 1 else out`: a single node exactly when there is one output |
| Nn.WrapOutputs | micrograd/nn.py:69-71 | the wrapped outputs are `LayerWired` and carry `LayerOut`'s values |
| Nn.LayerCall | micrograd/nn.py:69-71 | calling a layer on the tape fails exactly when `LayerOut` does, having appended only `Value(0.)` leaves; otherwise its result is `LayerWired` (each output `Fired` by its neuron, a single node exactly for one neuron), `LayerSize` nodes are appended, and it carries `LayerOut`'s values |
| Nn.MlpErrSticks | micrograd/nn.py:102-105 | once a layer fails, the network call fails with that same error |
| Nn.QuietFault | micrograd/nn.py:28-34 | while no layer holds an active `RBFNeuron`, the only error the first `k` layers can give is the `TypeError` of iterating over a single `Value` |
| Nn.MlpOutShape | micrograd/nn.py:102-105 | `MLP.__call__`'s result is what the last layer gives on the previous layers' result: a single number exactly when that layer has one neuron, else one number per neuron |
| Nn.MlpOutNext | micrograd/nn.py:103-104 | one round of the `for layer in self.layers: x = layer(x)` loop: the first `k + 1` layers give what layer `k` makes of the first `k` layers' result, and an error passes through unchanged |
| Nn.WidthOneFails | micrograd/nn.py:69-105 | a layer with one neuron (which returns `out[0]`, a single `Value`) followed by a layer with an active neuron makes every call fail; when no layer up to the narrow one holds an active `RBFNeuron`, the error is exactly `TypeError` |
| Nn.MlpCall | micrograd/nn.py:102-105 | calling the network threads `x` through the layers and fails exactly when `MlpOut` does; otherwise a trace of signals from `x` to the result has layer `k` `LayerWired` from `trace[k]` to `trace[k + 1]`, `MlpSize` nodes are appended, and the result carries `MlpOut`'s values |
| Nn.Style | micrograd/nn.py:85-93 | `generate_neurons` makes a plain `Neuron` with the default activation in the last layer; elsewhere `relu`, an `RBFNeuron` at even positions and a `Neuron` at odd ones |
| Nn.NewLayer | micrograd/nn.py:85-93 | `generate_neurons` yields `nout` active neurons with `nin` weights each: plain with the default activation in the last layer, else `Neuron`+relu at odd and `RBFNeuron`+relu at even positions; their parameters are exactly the appended leaves |
| Nn.NewMlp | micrograd/nn.py:81-100 | `MLP(nin, nouts)` has `len(nouts)` layers, layer `i` with `nouts[i]` neurons of `sz[i]` inputs, laid out as `generate_neurons` says; `parameters()` is exactly the appended leaves, in order |
| Nn.ShapedWidthOneFails | micrograd/nn.py:85-105 | in `MLP(nin, nouts)` with hidden layer `j` of width 1, once only `active` flags are reassigned, with the `RBFNeuron`s of layers `0..j` off and some neuron of layer `j + 1` on, every call raises `TypeError` |

## Left out

- `tanh`, `sin` and `softplus` (micrograd/engine.py:57-96) need transcendental functions over floats. `softplus`'s printing and catch-all `except` go with it.
- `fact` (micrograd/engine.py:99-102) compares `Value`s with `<=`, which `Value` does not define, so it cannot run.
- `__repr__` in both files is formatting only.
- `init_learning_rate` (micrograd/nn.py:13-15) only attaches an unused attribute.
- Neuron names and the `_op` label strings are debugging labels.
- Floating point: values are exact reals. Rounding, overflow, infinities and NaN are not modelled.
- Engine.Tape.Pow: non-integer exponents are not modelled, and `int` and `float` exponents are not distinguished. The assertion that rejects a non-numeric exponent is not modelled: the exponent is an `int` by type.
- Python's `int` 0 and 1 (the initial `grad` and the root's `grad`) are the reals 0.0 and 1.0.
- Object identity and hash-based `set` membership are replaced by tape indices. The recursion depth limit of `build_topo` is not modelled.
- Engine.Tape.Backward: when a closure raises part way through, the model states only that unreachable nodes are untouched, not which reachable gradients were already updated.
- Engine.Tape.RunSweep: when a closure raises, it states only that nodes outside the order keep their seeded gradients, not which closures already ran.
- Nn.NewNeuron: `random.uniform` draws are replaced by an arbitrary function `draw` from tape index to value, so the ranges [-1, 1] and [1, 2] are not stated.
- Nn.NeuronOut: an active `RBFNeuron` (micrograd/nn.py:49-54) takes a square root (`** 0.5`), a non-integer power. Given a list, NeuronOut gives it the outcome `Err(Unmodelled)` instead of `act(b - sqrt(sum of (w[i] + x[i]) ** 2))`.
- Nn.Outputs: passes `Unmodelled` on from an active `RBFNeuron`, so a layer holding one has no modelled output.
- Nn.MlpOut: passes `Unmodelled` on in the same way. A freshly built `MLP` with hidden layers has an active `RBFNeuron` in position 0 of each hidden layer, so its output is modelled only once those are switched off.
- Nn.ShapedWidthOneFails: requires the `RBFNeuron`s of layers `0..j` to be switched off. A freshly built network has them on, and the model stops at `Unmodelled` in its first hidden layer, while Python goes on to the same `TypeError`.
- Nn.WidthOneFails: without the `RBFNeuron` hypothesis it states only that the call fails, since the failure may be `Unmodelled` from an earlier layer.
- Nn.Fire: requires an `RBFNeuron` to be inactive, since the nodes an active one appends (`Add`, `** 2`, `** 0.5`) are not modelled.
- Nn.FireAll: requires every `RBFNeuron` to be inactive, for the same reason as Nn.Fire.
- Nn.LayerCall: requires every `RBFNeuron` of the layer to be inactive, for the same reason.
- Nn.MlpCall: requires every `RBFNeuron` of the network to be inactive, for the same reason.
- The default activation: `nn.py` names it `Value.noop`, but `engine.py` defines no `noop`. As written, evaluating that default argument when `nn.py` is imported raises `AttributeError`. The model takes the default activation to be the identity.
- A `Module`'s `parameters()` returning `[]` has no counterpart: every modelled module defines its own parameters.
- A network input must be a `Value` or a list of `Value`s and numbers. Other Python objects, and type errors beyond iterating over a `Value`, are not modelled.

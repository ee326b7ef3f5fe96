/**
 * The neural-network layer built on the engine: neurons, layers and the
 * multi-layer perceptron, whose parameters are leaf `Value`s on the tape.
 * A neuron, layer or network is a value holding the tape indices of its
 * parameters; what changes in place is the tape.
 */
module Nn {
  import opened Graph
  import opened Engine

  /** The activation a neuron applies: the default (the identity) or `Value.relu`. */
  datatype Activation = Noop | Relu

  /** `Neuron` (a weighted sum) or `RBFNeuron` (a distance to the weights). */
  datatype Kind = Plain | Rbf

  /** A neuron: its weights `w`, its bias `b`, its activation and the `active` flag of `Module`. */
  datatype Neuron = Neuron(kind: Kind, w: seq<nat>, b: nat, act: Activation, active: bool)

  datatype Layer = Layer(neurons: seq<Neuron>)

  datatype Mlp = Mlp(layers: seq<Layer>)

  /** What a layer returns and the next one receives: a single `Value`, or a list of operands. */
  datatype Signal = One(v: nat) | Many(xs: seq<Operand>)

  /** `Neuron.parameters()` and `RBFNeuron.parameters()`: the weights, then the bias. */
  function NeuronParameters(n: Neuron): (ps: seq<nat>)
    ensures |ps| == |n.w| + 1
    ensures ps[..|n.w|] == n.w && ps[|n.w|] == n.b
  {
    n.w + [n.b]
  }

  /**
   * `Layer.parameters()`: the parameters of each neuron, neuron after neuron.
   * An index is listed exactly when it is a parameter of one of the neurons.
   */
  function LayerParameters(ns: seq<Neuron>): (ps: seq<nat>)
    ensures forall p :: p in ps <==> exists j | 0 <= j < |ns| :: p in NeuronParameters(ns[j])
  {
    if ns == [] then []
    else
      var init := ns[..|ns| - 1];
      assert forall j | 0 <= j < |init| :: init[j] == ns[j];
      LayerParameters(init) + NeuronParameters(ns[|ns| - 1])
  }

  /**
   * `MLP.parameters()`: the parameters of each layer, layer after layer.
   * An index is listed exactly when it is a parameter of one of the layers.
   */
  function MlpParameters(ls: seq<Layer>): (ps: seq<nat>)
    ensures forall p :: p in ps <==> exists i | 0 <= i < |ls| :: p in LayerParameters(ls[i].neurons)
  {
    if ls == [] then []
    else
      var init := ls[..|ls| - 1];
      assert forall i | 0 <= i < |init| :: init[i] == ls[i];
      MlpParameters(init) + LayerParameters(ls[|ls| - 1].neurons)
  }

  /** The parameter list of a layer splits where its neuron list does. */
  lemma {:induction false} LayerParametersConcat(ns: seq<Neuron>, ms: seq<Neuron>)
    ensures LayerParameters(ns + ms) == LayerParameters(ns) + LayerParameters(ms)
    decreases |ms|
  {
    if ms == [] {
      assert ns + ms == ns;
    } else {
      var ms', last := ms[..|ms| - 1], ms[|ms| - 1];
      var all := ns + ms;
      assert all[..|all| - 1] == ns + ms' && all[|all| - 1] == last;
      LayerParametersConcat(ns, ms');
      calc {
        LayerParameters(all);
        LayerParameters(all[..|all| - 1]) + NeuronParameters(all[|all| - 1]);
        LayerParameters(ns + ms') + NeuronParameters(last);
        LayerParameters(ns) + LayerParameters(ms') + NeuronParameters(last);
        LayerParameters(ns) + (LayerParameters(ms') + NeuronParameters(last));
        LayerParameters(ns) + LayerParameters(ms);
      }
    }
  }

  /** The parameter list of a network splits where its layer list does. */
  lemma {:induction false} MlpParametersConcat(ls: seq<Layer>, ks: seq<Layer>)
    ensures MlpParameters(ls + ks) == MlpParameters(ls) + MlpParameters(ks)
    decreases |ks|
  {
    if ks == [] {
      assert ls + ks == ls;
    } else {
      var ks', last := ks[..|ks| - 1], ks[|ks| - 1];
      var all := ls + ks;
      assert all[..|all| - 1] == ls + ks' && all[|all| - 1] == last;
      MlpParametersConcat(ls, ks');
      calc {
        MlpParameters(all);
        MlpParameters(all[..|all| - 1]) + LayerParameters(all[|all| - 1].neurons);
        MlpParameters(ls + ks') + LayerParameters(last.neurons);
        MlpParameters(ls) + MlpParameters(ks') + LayerParameters(last.neurons);
        MlpParameters(ls) + (MlpParameters(ks') + LayerParameters(last.neurons));
        MlpParameters(ls) + MlpParameters(ks);
      }
    }
  }

  /** With `nin` weights per neuron, a layer of `m` neurons has `m * (nin + 1)` parameters. */
  lemma {:induction false} LayerParameterCount(ns: seq<Neuron>, nin: nat)
    requires forall j | 0 <= j < |ns| :: |ns[j].w| == nin
    ensures |LayerParameters(ns)| == |ns| * (nin + 1)
    decreases |ns|
  {
    if ns != [] {
      var init, last := ns[..|ns| - 1], ns[|ns| - 1];
      LayerParameterCount(init, nin);
      assert LayerParameters(ns) == LayerParameters(init) + NeuronParameters(last);
      assert |NeuronParameters(last)| == nin + 1;
      assert |ns| * (nin + 1) == |init| * (nin + 1) + (nin + 1);
    }
  }

  /** The indices `lo, lo + 1, ..., hi - 1`, in order. */
  function Range(lo: nat, hi: nat): (r: seq<nat>)
    requires lo <= hi
    ensures |r| == hi - lo && forall i | 0 <= i < |r| :: r[i] == lo + i
  {
    seq(hi - lo, i requires 0 <= i < hi - lo => lo + i)
  }

  /**
   * `Module.zero_grad()` over the parameter list `ps`: every parameter's
   * gradient is set to 0; no other gradient and no node changes.
   */
  method ZeroGrad(t: Tape, ps: seq<nat>)
    requires t.Valid() && forall i | 0 <= i < |ps| :: ps[i] < |t.nodes|
    modifies t
    ensures t.Valid() && t.nodes == old(t.nodes) && |t.grad| == |old(t.grad)|
    ensures forall u | 0 <= u < |t.grad| :: t.grad[u] == if u in ps then 0.0 else old(t.grad)[u]
  {
    for k := 0 to |ps|
      invariant t.Valid() && t.nodes == old(t.nodes) && |t.grad| == |old(t.grad)|
      invariant forall u | 0 <= u < |t.grad| :: t.grad[u] == if u in ps[..k] then 0.0 else old(t.grad)[u]
    {
      assert ps[..k + 1] == ps[..k] + [ps[k]];
      t.grad := t.grad[ps[k] := 0.0];
    }
    assert ps[..|ps|] == ps;
  }

  /** Every parameter of `n` is a node of `g`. */
  predicate NeuronFits(g: Arena, n: Neuron)
  {
    n.b < |g| && forall i | 0 <= i < |n.w| :: n.w[i] < |g|
  }

  /** Every `Value` in `s` is a node of `g`. */
  predicate SignalFits(g: Arena, s: Signal)
  {
    match s
    case One(v) => v < |g|
    case Many(xs) => forall i | 0 <= i < |xs| :: xs[i].Ref? ==> xs[i].i < |g|
  }

  /** The numbers a signal carries: a single number, or a list. */
  datatype Vals = Single(x: real) | List(xs: seq<real>)

  /** The numbers signal `s` carries on tape `g`. */
  function Data(g: Arena, s: Signal): (v: Vals)
    requires SignalFits(g, s)
    ensures s.One? <==> v.Single?
    ensures s.Many? ==> |v.xs| == |s.xs| && forall i | 0 <= i < |s.xs| :: v.xs[i] == OperandData(g, s.xs[i])
  {
    match s
    case One(v) => Single(g[v].data)
    case Many(xs) => List(seq(|xs|, i requires 0 <= i < |xs| => OperandData(g, xs[i])))
  }

  /** `sum(wi.data * xi for wi, xi in zip(w, x))` over the first `k` pairs, added left to right from 0. */
  function WeightedSum(g: Arena, w: seq<nat>, xs: seq<real>, k: nat): real
    requires k <= |w| && k <= |xs| && forall i | 0 <= i < |w| :: w[i] < |g|
  {
    if k == 0 then 0.0 else WeightedSum(g, w, xs, k - 1) + Times(g[w[k - 1]].data, xs[k - 1])
  }

  /** The activation applied to a number. */
  function Activate(a: Activation, x: real): real
  {
    match a
    case Noop => x
    case Relu => Rectify(x)
  }

  /** `len(zip(w, x))`: the number of pairs, the shorter of the two lengths. */
  function Pairs(a: nat, b: nat): (m: nat)
    ensures m <= a && m <= b && (m == a || m == b)
  {
    if a < b then a else b
  }

  /**
   * `Neuron.__call__(x)` and `RBFNeuron.__call__(x)` on numbers: 0 when
   * inactive; `TypeError` when active and `x` is a single number, which
   * `zip` cannot iterate; for an active `Neuron`, the activation of the
   * weighted sum over the zipped pairs plus the bias. An active `RBFNeuron`
   * given a list takes a square root, which this model does not compute:
   * that outcome is `Err(Unmodelled)`, not a value.
   */
  function NeuronOut(g: Arena, n: Neuron, v: Vals): (r: Result<real>)
    requires NeuronFits(g, n)
    ensures !n.active ==> r == Ok(0.0)
    ensures r == Err(NotIterable) <==> n.active && v.Single?
    ensures r == Err(Unmodelled) <==> n.active && v.List? && n.kind.Rbf?
    ensures r.Ok? && n.active && n.act.Relu? ==> r.value >= 0.0
  {
    if !n.active then Ok(0.0)
    else if v.Single? then Err(NotIterable)
    else if n.kind.Rbf? then Err(Unmodelled)
    else Ok(Activate(n.act, WeightedSum(g, n.w, v.xs, Pairs(|n.w|, |v.xs|)) + g[n.b].data))
  }

  /** A weighted sum over `k` pairs reads only the first `k` inputs. */
  lemma {:induction false} WeightedSumPrefix(g: Arena, w: seq<nat>, xs: seq<real>, ys: seq<real>, k: nat)
    requires k <= |w| && k <= |xs| && k <= |ys| && forall i | 0 <= i < |w| :: w[i] < |g|
    requires xs[..k] == ys[..k]
    ensures WeightedSum(g, w, xs, k) == WeightedSum(g, w, ys, k)
  {
    if k > 0 {
      var j := k - 1;
      assert xs[..j] == xs[..k][..j] && ys[..j] == ys[..k][..j];
      assert xs[j] == xs[..k][j] && ys[j] == ys[..k][j];
      WeightedSumPrefix(g, w, xs, ys, j);
    }
  }

  /**
   * `zip` stops at the shorter list: inputs beyond the neuron's weights are
   * ignored, so a neuron gives the same output on any input that agrees on
   * its first `len(w)` entries.
   */
  lemma NeuronOutZip(g: Arena, n: Neuron, xs: seq<real>, ys: seq<real>)
    requires NeuronFits(g, n) && |n.w| <= |xs| && |n.w| <= |ys| && xs[..|n.w|] == ys[..|n.w|]
    ensures NeuronOut(g, n, List(xs)) == NeuronOut(g, n, List(ys))
  {
    WeightedSumPrefix(g, n.w, xs, ys, |n.w|);
  }

  /** Tape `h` extends tape `g`: every node of `g` is still there, unchanged. */
  ghost predicate Extends(g: Arena, h: Arena)
  {
    |g| <= |h| && forall i | 0 <= i < |g| :: h[i] == g[i]
  }

  /** Node `z` is a leaf holding 0: Python's start value `0`, wrapped by `__radd__`. */
  predicate Zero(g: Arena, z: nat)
  {
    z < |g| && g[z] == Node(0.0, Leaf)
  }

  /** Node `p` is `w * x`: a `Mul` node of weight `w` and input `x`, a number wrapped in a leaf. */
  predicate Product(g: Arena, p: nat, w: nat, x: Operand)
  {
    && p < |g| && g[p].op.Mul? && g[p].op.a == w
    && (x.Ref? ==> g[p].op.b == x.i)
    && (x.Num? ==> g[p].op.b < |g| && g[g[p].op.b] == Node(x.x, Leaf))
  }

  /** Node `s` is `acc + w * x`, or, for the first term of the sum, `w * x + 0`. */
  predicate Term(g: Arena, s: nat, acc: nat, first: bool, w: nat, x: Operand)
  {
    && s < |g| && g[s].op.Add?
    && if first then Product(g, g[s].op.a, w, x) && Zero(g, g[s].op.b)
       else g[s].op.a == acc && Product(g, g[s].op.b, w, x)
  }

  /** Node `s` is the generator sum of the first `k` products `w[i] * xs[i]`, added left to right. */
  predicate SumTree(g: Arena, s: nat, w: seq<nat>, xs: seq<Operand>, k: nat)
    requires 0 < k <= |w| && k <= |xs|
    decreases k
  {
    && s < |g| && g[s].op.Add?
    && Term(g, s, g[s].op.a, k == 1, w[k - 1], xs[k - 1])
    && (k > 1 ==> SumTree(g, g[s].op.a, w, xs, k - 1))
  }

  /** Node `u` is `wx + b` over the first `m` pairs, or `b + 0` when there are none. */
  predicate Biased(g: Arena, u: nat, n: Neuron, xs: seq<Operand>, m: nat)
    requires m <= |n.w| && m <= |xs|
  {
    && u < |g| && g[u].op.Add?
    && if m == 0 then g[u].op.a == n.b && Zero(g, g[u].op.b)
       else g[u].op.b == n.b && SumTree(g, g[u].op.a, n.w, xs, m)
  }

  /** Node `y` is what an active `Neuron` `n` builds from the list `xs`: its activation of `Biased`. */
  predicate Wired(g: Arena, y: nat, n: Neuron, xs: seq<Operand>)
  {
    var m := Pairs(|n.w|, |xs|);
    match n.act
    case Noop => Biased(g, y, n, xs, m)
    case Relu => y < |g| && g[y].op.Relu? && Biased(g, g[y].op.a, n, xs, m)
  }

  /**
   * Node `y` is what calling `n` on `x` returns: a leaf 0 when `n` is
   * inactive; otherwise `n` is a `Neuron`, `x` a list, and `y` is `Wired`.
   */
  predicate Fired(g: Arena, n: Neuron, x: Signal, y: nat)
  {
    && y < |g|
    && if !n.active then g[y] == Node(0.0, Leaf)
       else n.kind.Plain? && x.Many? && Wired(g, y, n, x.xs)
  }

  /** The nodes the first `k` terms of the sum append: `Mul` and `Add`, a leaf per number, the first term's leaf 0. */
  function SumSize(xs: seq<Operand>, k: nat): nat
    requires k <= |xs|
  {
    if k == 0 then 0 else SumSize(xs, k - 1) + (if xs[k - 1].Num? then 3 else 2) + (if k == 1 then 1 else 0)
  }

  /** The nodes a successful call of `n` on `x` appends. */
  function FireSize(n: Neuron, x: Signal): nat
  {
    if !n.active then 1
    else if x.One? then 0
    else
      var m := Pairs(|n.w|, |x.xs|);
      SumSize(x.xs, m) + (if m == 0 then 2 else 1) + (if n.act.Relu? then 1 else 0)
  }

  lemma ProductFrame(g: Arena, h: Arena, p: nat, w: nat, x: Operand)
    requires Extends(g, h) && Product(g, p, w, x)
    ensures Product(h, p, w, x)
  {
    assert h[p] == g[p];
    if x.Num? {
      assert h[g[p].op.b] == g[g[p].op.b];
    }
  }

  lemma TermFrame(g: Arena, h: Arena, s: nat, acc: nat, first: bool, w: nat, x: Operand)
    requires Extends(g, h) && Term(g, s, acc, first, w, x)
    ensures Term(h, s, acc, first, w, x)
  {
    assert h[s] == g[s];
    if first {
      ProductFrame(g, h, g[s].op.a, w, x);
      assert h[g[s].op.b] == g[g[s].op.b];
    } else {
      ProductFrame(g, h, g[s].op.b, w, x);
    }
  }

  lemma {:induction false} SumTreeFrame(g: Arena, h: Arena, s: nat, w: seq<nat>, xs: seq<Operand>, k: nat)
    requires Extends(g, h) && 0 < k <= |w| && k <= |xs| && SumTree(g, s, w, xs, k)
    ensures SumTree(h, s, w, xs, k)
    decreases k
  {
    assert h[s] == g[s];
    TermFrame(g, h, s, g[s].op.a, k == 1, w[k - 1], xs[k - 1]);
    if k > 1 {
      var j := k - 1;
      SumTreeFrame(g, h, g[s].op.a, w, xs, j);
    }
  }

  lemma BiasedFrame(g: Arena, h: Arena, u: nat, n: Neuron, xs: seq<Operand>, m: nat)
    requires Extends(g, h) && m <= |n.w| && m <= |xs| && Biased(g, u, n, xs, m)
    ensures Biased(h, u, n, xs, m)
  {
    assert h[u] == g[u];
    if m == 0 {
      assert h[g[u].op.b] == g[g[u].op.b];
    } else {
      SumTreeFrame(g, h, g[u].op.a, n.w, xs, m);
    }
  }

  /** What a neuron call built stays as it is while the tape grows. */
  lemma FiredFrame(g: Arena, h: Arena, n: Neuron, x: Signal, y: nat)
    requires Extends(g, h) && Fired(g, n, x, y)
    ensures Fired(h, n, x, y)
  {
    assert h[y] == g[y];
    if n.active {
      var m := Pairs(|n.w|, |x.xs|);
      if n.act.Relu? {
        BiasedFrame(g, h, g[y].op.a, n, x.xs, m);
      } else {
        BiasedFrame(g, h, y, n, x.xs, m);
      }
    }
  }

  /** One more term on top of the sum of the first `k` products is the sum of the first `k + 1`. */
  lemma SumTreeStep(g: Arena, h: Arena, acc: nat, v: nat, w: seq<nat>, xs: seq<Operand>, k: nat)
    requires Extends(g, h) && k < |w| && k < |xs|
    requires k > 0 ==> SumTree(g, acc, w, xs, k)
    requires Term(h, v, acc, k == 0, w[k], xs[k])
    ensures SumTree(h, v, w, xs, k + 1)
    ensures SumSize(xs, k + 1) == SumSize(xs, k) + (if xs[k].Num? then 1 else 0) + (if k == 0 then 3 else 2)
  {
    if k > 0 {
      SumTreeFrame(g, h, acc, w, xs, k);
    }
  }

  /** A product reaches its weight and its input node. */
  lemma ProductReaches(g: Arena, p: nat, w: nat, x: Operand)
    requires WellFormed(g) && Product(g, p, w, x)
    ensures Reachable(g, p, w) && (x.Ref? ==> Reachable(g, p, x.i))
  {
    assert NodeOk(g, p);
    var b := g[p].op.b;
    assert Reachable(g, w, w) && Reachable(g, b, b);
    ReachableStep(g, p, w, w);
    ReachableStep(g, p, b, b);
  }

  /** The sum of the first `k` products reaches every weight and every input node it multiplies. */
  lemma {:induction false} SumTreeReaches(g: Arena, s: nat, w: seq<nat>, xs: seq<Operand>, k: nat)
    requires WellFormed(g) && 0 < k <= |w| && k <= |xs| && SumTree(g, s, w, xs, k)
    ensures forall i | 0 <= i < k :: Reachable(g, s, w[i]) && (xs[i].Ref? ==> Reachable(g, s, xs[i].i))
    decreases k
  {
    assert NodeOk(g, s);
    var a, b := g[s].op.a, g[s].op.b;
    var j := k - 1;
    var p := if k == 1 then a else b;
    ProductReaches(g, p, w[j], xs[j]);
    ReachableStep(g, s, p, w[j]);
    if xs[j].Ref? {
      ReachableStep(g, s, p, xs[j].i);
    }
    if k > 1 {
      SumTreeReaches(g, a, w, xs, j);
      forall i | 0 <= i < j ensures Reachable(g, s, w[i]) && (xs[i].Ref? ==> Reachable(g, s, xs[i].i)) {
        ReachableStep(g, s, a, w[i]);
        if xs[i].Ref? {
          ReachableStep(g, s, a, xs[i].i);
        }
      }
    }
  }

  /** `wx + b` reaches the bias, every zipped weight and every zipped input node. */
  lemma BiasedReaches(g: Arena, u: nat, n: Neuron, xs: seq<Operand>, m: nat)
    requires WellFormed(g) && m <= |n.w| && m <= |xs| && Biased(g, u, n, xs, m)
    ensures Reachable(g, u, n.b)
    ensures forall i | 0 <= i < m :: Reachable(g, u, n.w[i]) && (xs[i].Ref? ==> Reachable(g, u, xs[i].i))
  {
    assert NodeOk(g, u);
    var a, b := g[u].op.a, g[u].op.b;
    assert Reachable(g, n.b, n.b);
    ReachableStep(g, u, n.b, n.b);
    if m > 0 {
      SumTreeReaches(g, a, n.w, xs, m);
      forall i | 0 <= i < m ensures Reachable(g, u, n.w[i]) && (xs[i].Ref? ==> Reachable(g, u, xs[i].i)) {
        ReachableStep(g, u, a, n.w[i]);
        if xs[i].Ref? {
          ReachableStep(g, u, a, xs[i].i);
        }
      }
    }
  }

  /**
   * The output of an active neuron is connected to what it computed from:
   * it reaches the bias, every weight `zip` paired with an input, and every
   * input `Value` so paired. So `backward` from the output (or from anything
   * built on it) reaches these parameters and inputs.
   */
  lemma FiredReaches(g: Arena, n: Neuron, x: Signal, y: nat)
    requires WellFormed(g) && Fired(g, n, x, y) && n.active
    ensures x.Many? && Reachable(g, y, n.b)
    ensures forall i | 0 <= i < Pairs(|n.w|, |x.xs|) ::
      Reachable(g, y, n.w[i]) && (x.xs[i].Ref? ==> Reachable(g, y, x.xs[i].i))
  {
    var m := Pairs(|n.w|, |x.xs|);
    if n.act.Relu? {
      assert NodeOk(g, y);
      var u := g[y].op.a;
      BiasedReaches(g, u, n, x.xs, m);
      ReachableStep(g, y, u, n.b);
      forall i | 0 <= i < m ensures Reachable(g, y, n.w[i]) && (x.xs[i].Ref? ==> Reachable(g, y, x.xs[i].i)) {
        ReachableStep(g, y, u, n.w[i]);
        if x.xs[i].Ref? {
          ReachableStep(g, y, u, x.xs[i].i);
        }
      }
    } else {
      BiasedReaches(g, y, n, x.xs, m);
    }
  }

  /**
   * One term of the generator sum: `acc + w * x`, where the first term is
   * added to Python's start value `0`, which `__radd__` turns into `w * x + 0`.
   * It appends the product (after a leaf for a number `x`), the leaf 0 of
   * the first term, and the sum.
   */
  method AddProduct(t: Tape, acc: nat, first: bool, w: nat, x: Operand) returns (v: nat)
    requires t.Valid() && (!first ==> acc < |t.nodes|) && w < |t.nodes| && t.Fits(x)
    modifies t
    ensures t.Valid() && v < |t.nodes| && Grown(old(t.nodes), old(t.grad), t.nodes, t.grad)
    ensures |t.nodes| == |old(t.nodes)| + (if x.Num? then 1 else 0) + (if first then 3 else 2)
    ensures Term(t.nodes, v, acc, first, w, x)
    ensures t.nodes[v].data == (if first then 0.0 else old(t.nodes)[acc].data) + Times(old(t.nodes)[w].data, OperandData(old(t.nodes), x))
  {
    ghost var g0, grad0 := t.nodes, t.grad;
    var p := t.Mul(w, x);
    ghost var g1, grad1 := t.nodes, t.grad;
    assert Product(g1, p, w, x);
    if first {
      v := t.Add(p, Num(0.0));
    } else {
      v := t.Add(acc, Ref(p));
    }
    ProductFrame(g1, t.nodes, p, w, x);
    GrownTrans(g0, grad0, g1, grad1, t.nodes, t.grad);
  }

  /** `wx + self.b`, where `wx` is Python's `0` when there are no pairs (`__radd__` makes it `b + 0`). */
  method AddBias(t: Tape, acc: nat, empty: bool, b: nat) returns (v: nat)
    requires t.Valid() && (!empty ==> acc < |t.nodes|) && b < |t.nodes|
    modifies t
    ensures t.Valid() && v == |t.nodes| - 1 && Grown(old(t.nodes), old(t.grad), t.nodes, t.grad)
    ensures empty ==> t.nodes == old(t.nodes) + [Node(0.0, Leaf), Node(old(t.nodes)[b].data + 0.0, Op.Add(b, |old(t.nodes)|))]
    ensures !empty ==> t.nodes == old(t.nodes) + [Node(old(t.nodes)[acc].data + old(t.nodes)[b].data, Op.Add(acc, b))]
  {
    if empty {
      v := t.Add(b, Num(0.0));
    } else {
      v := t.Add(acc, Ref(b));
    }
  }

  /** The neuron's activation function applied to node `u`: `relu`, which appends a node, or the identity. */
  method Apply(t: Tape, a: Activation, u: nat) returns (v: nat)
    requires t.Valid() && u < |t.nodes|
    modifies t
    ensures t.Valid() && v < |t.nodes| && Grown(old(t.nodes), old(t.grad), t.nodes, t.grad)
    ensures t.nodes[v].data == Activate(a, old(t.nodes)[u].data)
    ensures a.Relu? ==> v == |old(t.nodes)| && t.nodes == old(t.nodes) + [Node(Rectify(old(t.nodes)[u].data), Op.Relu(u))]
    ensures a.Noop? ==> v == u && t.nodes == old(t.nodes) && t.grad == old(t.grad)
  {
    if a.Relu? {
      v := t.Relu(u);
    } else {
      v := u;
    }
  }

  /**
   * Step `k` of the generator sum on a tape grown from `g0`: `acc` is the
   * sum of the first `k` products; the node returned is the sum of the
   * first `k + 1`.
   */
  method SumNext(t: Tape, ghost g0: Arena, ghost grad0: seq<real>, w: seq<nat>, xs: seq<Operand>, k: nat, acc: nat) returns (v: nat)
    requires t.Valid() && Grown(g0, grad0, t.nodes, t.grad) && SignalFits(g0, Many(xs)) && k < |w| && k < |xs|
    requires forall i | 0 <= i < |w| :: w[i] < |g0|
    requires |t.nodes| == |g0| + SumSize(xs, k)
    requires k > 0 ==> acc < |t.nodes| && SumTree(t.nodes, acc, w, xs, k)
    requires k > 0 ==> t.nodes[acc].data == WeightedSum(g0, w, Data(g0, Many(xs)).xs, k)
    modifies t
    ensures t.Valid() && Grown(g0, grad0, t.nodes, t.grad)
    ensures |t.nodes| == |g0| + SumSize(xs, k + 1)
    ensures v < |t.nodes| && SumTree(t.nodes, v, w, xs, k + 1)
    ensures t.nodes[v].data == WeightedSum(g0, w, Data(g0, Many(xs)).xs, k + 1)
  {
    ghost var g1, grad1 := t.nodes, t.grad;
    assert OperandData(g1, xs[k]) == Data(g0, Many(xs)).xs[k];
    v := AddProduct(t, acc, k == 0, w[k], xs[k]);
    GrownTrans(g0, grad0, g1, grad1, t.nodes, t.grad);
    SumTreeStep(g1, t.nodes, acc, v, w, xs, k);
  }

  /**
   * `sum(wi * xi for wi, xi in zip(w, xs))` over the first `m` pairs: the
   * node returned is the sum of the products, left to right, and holds the
   * weighted sum of the inputs' values.
   */
  method SumProducts(t: Tape, w: seq<nat>, xs: seq<Operand>, m: nat) returns (acc: nat)
    requires t.Valid() && SignalFits(t.nodes, Many(xs)) && m <= |w| && m <= |xs|
    requires forall i | 0 <= i < |w| :: w[i] < |t.nodes|
    modifies t
    ensures t.Valid() && Grown(old(t.nodes), old(t.grad), t.nodes, t.grad)
    ensures |t.nodes| == |old(t.nodes)| + SumSize(xs, m)
    ensures m > 0 ==> acc < |t.nodes| && SumTree(t.nodes, acc, w, xs, m)
    ensures m > 0 ==> t.nodes[acc].data == WeightedSum(old(t.nodes), w, Data(old(t.nodes), Many(xs)).xs, m)
  {
    ghost var g0, grad0 := t.nodes, t.grad;
    acc := 0;
    for k := 0 to m
      invariant t.Valid() && Grown(g0, grad0, t.nodes, t.grad)
      invariant |t.nodes| == |g0| + SumSize(xs, k)
      invariant k > 0 ==> acc < |t.nodes| && SumTree(t.nodes, acc, w, xs, k)
      invariant k > 0 ==> t.nodes[acc].data == WeightedSum(g0, w, Data(g0, Many(xs)).xs, k)
    {
      acc := SumNext(t, g0, grad0, w, xs, k, acc);
    }
  }

  /**
   * `wx + self.b` as `AddBias` appends it is `Biased`: `acc + b` over the sum
   * of the first `m` products, or `b + 0` when there are none.
   */
  lemma BiasStep(g: Arena, h: Arena, acc: nat, u: nat, n: Neuron, xs: seq<Operand>, m: nat)
    requires Extends(g, h) && m <= |n.w| && m <= |xs| && n.b < |g| && u == |h| - 1
    requires m > 0 ==> acc < |g| && SumTree(g, acc, n.w, xs, m)
    requires m == 0 ==> h == g + [Node(0.0, Leaf), Node(g[n.b].data + 0.0, Op.Add(n.b, |g|))]
    requires m > 0 ==> h == g + [Node(g[acc].data + g[n.b].data, Op.Add(acc, n.b))]
    ensures Biased(h, u, n, xs, m)
  {
    if m > 0 {
      SumTreeFrame(g, h, acc, n.w, xs, m);
    }
  }

  /**
   * `wx + self.b` for an active `Neuron` on a list: the generator sum over
   * the zipped pairs, then the bias added. The node returned is `Biased` and
   * holds the weighted sum plus the bias.
   */
  method Preactivation(t: Tape, n: Neuron, xs: seq<Operand>) returns (u: nat)
    requires t.Valid() && NeuronFits(t.nodes, n) && SignalFits(t.nodes, Many(xs))
    modifies t
    ensures t.Valid() && Grown(old(t.nodes), old(t.grad), t.nodes, t.grad)
    ensures u < |t.nodes| && Biased(t.nodes, u, n, xs, Pairs(|n.w|, |xs|))
    ensures |t.nodes| == |old(t.nodes)| + SumSize(xs, Pairs(|n.w|, |xs|)) + (if Pairs(|n.w|, |xs|) == 0 then 2 else 1)
    ensures t.nodes[u].data == WeightedSum(old(t.nodes), n.w, Data(old(t.nodes), Many(xs)).xs, Pairs(|n.w|, |xs|)) + old(t.nodes)[n.b].data
  {
    ghost var g0, grad0 := t.nodes, t.grad;
    var m := Pairs(|n.w|, |xs|);
    var acc := SumProducts(t, n.w, xs, m);
    ghost var g1, grad1 := t.nodes, t.grad;
    u := AddBias(t, acc, m == 0, n.b);
    GrownTrans(g0, grad0, g1, grad1, t.nodes, t.grad);
    BiasStep(g1, t.nodes, acc, u, n, xs, m);
  }

  /**
   * The body of an active `Neuron` called on a list: `Preactivation`, then
   * the activation. The node returned is `Wired` and holds the neuron's
   * output.
   */
  method Evaluate(t: Tape, n: Neuron, xs: seq<Operand>) returns (y: nat)
    requires t.Valid() && NeuronFits(t.nodes, n) && SignalFits(t.nodes, Many(xs)) && n.active && n.kind.Plain?
    modifies t
    ensures t.Valid() && Grown(old(t.nodes), old(t.grad), t.nodes, t.grad)
    ensures y < |t.nodes| && Wired(t.nodes, y, n, xs) && |t.nodes| == |old(t.nodes)| + FireSize(n, Many(xs))
    ensures t.nodes[y].data == NeuronOut(old(t.nodes), n, Data(old(t.nodes), Many(xs))).value
  {
    ghost var g0, grad0 := t.nodes, t.grad;
    ghost var m := Pairs(|n.w|, |xs|);
    ghost var sum := WeightedSum(g0, n.w, Data(g0, Many(xs)).xs, m) + g0[n.b].data;
    assert NeuronOut(g0, n, Data(g0, Many(xs))) == Ok(Activate(n.act, sum));
    var u := Preactivation(t, n, xs);
    ghost var g1, grad1 := t.nodes, t.grad;
    y := Apply(t, n.act, u);
    GrownTrans(g0, grad0, g1, grad1, t.nodes, t.grad);
    BiasedFrame(g1, t.nodes, u, n, xs, m);
  }


  /**
   * `Neuron.__call__(x)` on the tape. An inactive neuron appends a leaf 0.
   * An active one given a single `Value` raises `TypeError` and appends
   * nothing. Otherwise it appends the products, their sum, the bias added
   * and the activation, and returns a node that is `Fired` and holds
   * `NeuronOut`.
   */
  method Fire(t: Tape, n: Neuron, x: Signal) returns (r: Result<nat>)
    requires t.Valid() && NeuronFits(t.nodes, n) && SignalFits(t.nodes, x)
    requires n.kind.Rbf? ==> !n.active
    modifies t
    ensures t.Valid() && Grown(old(t.nodes), old(t.grad), t.nodes, t.grad)
    ensures r.Err? <==> NeuronOut(old(t.nodes), n, Data(old(t.nodes), x)).Err?
    ensures r.Err? ==> r.fault == NotIterable && t.nodes == old(t.nodes)
    ensures !n.active ==> r == Ok(|old(t.nodes)|) && t.nodes == old(t.nodes) + [Node(0.0, Leaf)]
    ensures r.Ok? ==> Fired(t.nodes, n, x, r.value) && |t.nodes| == |old(t.nodes)| + FireSize(n, x)
    ensures r.Ok? ==> t.nodes[r.value].data == NeuronOut(old(t.nodes), n, Data(old(t.nodes), x)).value
  {
    if !n.active {
      var z := t.Value(0.0);
      return Ok(z);
    }
    if x.One? {
      return Err(NotIterable);
    }
    var y := Evaluate(t, n, x.xs);
    r := Ok(y);
  }

  /** A weighted sum reads only the weights' nodes, so a longer tape gives the same sum. */
  lemma {:induction false} WeightedSumFrame(g: Arena, h: Arena, w: seq<nat>, xs: seq<real>, k: nat)
    requires Extends(g, h) && k <= |w| && k <= |xs| && forall i | 0 <= i < |w| :: w[i] < |g|
    ensures WeightedSum(h, w, xs, k) == WeightedSum(g, w, xs, k)
  {
    if k > 0 {
      var j := k - 1;
      WeightedSumFrame(g, h, w, xs, j);
    }
  }

  /** What a neuron computes does not change as the tape grows. */
  lemma NeuronOutFrame(g: Arena, h: Arena, n: Neuron, v: Vals)
    requires Extends(g, h) && NeuronFits(g, n)
    ensures NeuronFits(h, n) && NeuronOut(h, n, v) == NeuronOut(g, n, v)
  {
    if n.active && v.List? {
      WeightedSumFrame(g, h, n.w, v.xs, Pairs(|n.w|, |v.xs|));
    }
  }

  /** The numbers a signal carries do not change as the tape grows. */
  lemma DataFrame(g: Arena, h: Arena, s: Signal)
    requires Extends(g, h) && SignalFits(g, s)
    ensures SignalFits(h, s) && Data(h, s) == Data(g, s)
  {
    if s.Many? {
      assert Data(h, s).xs == Data(g, s).xs;
    }
  }

  /** Every neuron of `l` has its parameters on tape `g`. */
  predicate LayerFits(g: Arena, l: Layer)
  {
    forall i | 0 <= i < |l.neurons| :: NeuronFits(g, l.neurons[i])
  }

  /** Every layer of `ls` has its parameters on tape `g`. */
  predicate LayersFit(g: Arena, ls: seq<Layer>)
  {
    forall i | 0 <= i < |ls| :: LayerFits(g, ls[i])
  }

  /** The neurons of `l` that `Fire` can run: no `RBFNeuron` is switched on. */
  predicate Quiet(l: Layer)
  {
    forall i | 0 <= i < |l.neurons| :: l.neurons[i].kind.Rbf? ==> !l.neurons[i].active
  }

  /** `[n(x) for n in ns]`: each neuron's output, or the error one of them raises. */
  function Outputs(g: Arena, ns: seq<Neuron>, v: Vals): (r: Result<seq<real>>)
    requires forall i | 0 <= i < |ns| :: NeuronFits(g, ns[i])
    ensures r.Err? <==> exists i | 0 <= i < |ns| :: NeuronOut(g, ns[i], v).Err?
    ensures r.Err? ==> exists i | 0 <= i < |ns| :: NeuronOut(g, ns[i], v) == Err(r.fault)
    ensures r.Ok? ==> |r.value| == |ns| && forall i | 0 <= i < |ns| :: NeuronOut(g, ns[i], v) == Ok(r.value[i])
    decreases |ns|
  {
    if ns == [] then Ok([])
    else
      var init, last := ns[..|ns| - 1], ns[|ns| - 1];
      match Outputs(g, init, v)
      case Err(f) => Err(f)
      case Ok(os) =>
        match NeuronOut(g, last, v)
        case Err(f) => Err(f)
        case Ok(y) => Ok(os + [y])
  }

  /** The outputs of a layer do not change as the tape grows. */
  lemma {:induction false} OutputsFrame(g: Arena, h: Arena, ns: seq<Neuron>, v: Vals)
    requires Extends(g, h) && forall i | 0 <= i < |ns| :: NeuronFits(g, ns[i])
    ensures forall i | 0 <= i < |ns| :: NeuronFits(h, ns[i])
    ensures Outputs(h, ns, v) == Outputs(g, ns, v)
    decreases |ns|
  {
    forall i | 0 <= i < |ns| ensures NeuronFits(h, ns[i]) && NeuronOut(h, ns[i], v) == NeuronOut(g, ns[i], v) {
      NeuronOutFrame(g, h, ns[i], v);
    }
    if ns != [] {
      var init := ns[..|ns| - 1];
      OutputsFrame(g, h, init, v);
    }
  }

  /**
   * `Layer.__call__`: the list of outputs, or the output itself when the
   * layer has exactly one neuron.
   */
  function LayerOut(g: Arena, l: Layer, v: Vals): Result<Vals>
    requires LayerFits(g, l)
  {
    match Outputs(g, l.neurons, v)
    case Err(f) => Err(f)
    case Ok(os) => Ok(if |os| == 1 then Single(os[0]) else List(os))
  }

  /**
   * A layer raises `TypeError` exactly when it is handed a single number and
   * one of its neurons is active. Given a list, it reaches an outcome the
   * model does not compute exactly when one of its active neurons is an
   * `RBFNeuron`; otherwise it succeeds.
   */
  lemma LayerOutCases(g: Arena, l: Layer, v: Vals)
    requires LayerFits(g, l)
    ensures LayerOut(g, l, v) == Err(NotIterable) <==> v.Single? && exists i | 0 <= i < |l.neurons| :: l.neurons[i].active
    ensures LayerOut(g, l, v) == Err(Unmodelled) <==>
      v.List? && exists i | 0 <= i < |l.neurons| :: l.neurons[i].active && l.neurons[i].kind.Rbf?
    ensures LayerOut(g, l, v).Err? ==> LayerOut(g, l, v) in {Err(NotIterable), Err(Unmodelled)}
    ensures LayerOut(g, l, v).Ok? ==> (LayerOut(g, l, v).value.Single? <==> |l.neurons| == 1)
    ensures LayerOut(g, l, v).Ok? && |l.neurons| == 1 ==> NeuronOut(g, l.neurons[0], v) == Ok(LayerOut(g, l, v).value.x)
    ensures LayerOut(g, l, v).Ok? && |l.neurons| != 1 ==>
      forall i | 0 <= i < |l.neurons| :: NeuronOut(g, l.neurons[i], v) == Ok(LayerOut(g, l, v).value.xs[i])
  {
    var ns := l.neurons;
    if v.Single? && exists i | 0 <= i < |ns| :: ns[i].active {
      var i :| 0 <= i < |ns| && ns[i].active;
      assert NeuronOut(g, ns[i], v).Err?;
    }
    if v.List? && exists i | 0 <= i < |ns| :: ns[i].active && ns[i].kind.Rbf? {
      var i :| 0 <= i < |ns| && ns[i].active && ns[i].kind.Rbf?;
      assert NeuronOut(g, ns[i], v).Err?;
    }
  }

  /** The output of a layer does not change as the tape grows. */
  lemma LayerOutFrame(g: Arena, h: Arena, l: Layer, v: Vals)
    requires Extends(g, h) && LayerFits(g, l)
    ensures LayerFits(h, l) && LayerOut(h, l, v) == LayerOut(g, l, v)
  {
    OutputsFrame(g, h, l.neurons, v);
  }

  /** `MLP.__call__`: the input passed through the layers in order, or the first error. */
  function MlpOut(g: Arena, ls: seq<Layer>, v: Vals): Result<Vals>
    requires LayersFit(g, ls)
    decreases |ls|
  {
    if ls == [] then Ok(v)
    else
      match MlpOut(g, ls[..|ls| - 1], v)
      case Err(f) => Err(f)
      case Ok(u) => LayerOut(g, ls[|ls| - 1], u)
  }

  /**
   * A network's result is what its last layer gives on the previous layers'
   * result, so it is shaped by that layer: a single number when it has one
   * neuron, else one number per neuron.
   */
  lemma MlpOutShape(g: Arena, ls: seq<Layer>, v: Vals)
    requires LayersFit(g, ls) && ls != [] && MlpOut(g, ls, v).Ok?
    ensures MlpOut(g, ls[..|ls| - 1], v).Ok?
    ensures MlpOut(g, ls, v) == LayerOut(g, ls[|ls| - 1], MlpOut(g, ls[..|ls| - 1], v).value)
    ensures MlpOut(g, ls, v).value.Single? <==> |ls[|ls| - 1].neurons| == 1
    ensures MlpOut(g, ls, v).value.List? ==> |MlpOut(g, ls, v).value.xs| == |ls[|ls| - 1].neurons|
  {
    LayerOutCases(g, ls[|ls| - 1], MlpOut(g, ls[..|ls| - 1], v).value);
  }

  /** Running the first `k + 1` layers is running layer `k` on what the first `k` layers give. */
  lemma MlpOutNext(g: Arena, ls: seq<Layer>, v: Vals, k: nat)
    requires LayersFit(g, ls) && k < |ls|
    ensures LayersFit(g, ls[..k]) && LayersFit(g, ls[..k + 1])
    ensures MlpOut(g, ls[..k + 1], v) == match MlpOut(g, ls[..k], v) case Err(f) => Err(f) case Ok(u) => LayerOut(g, ls[k], u)
  {
    assert ls[..k + 1][..k] == ls[..k] && ls[..k + 1][k] == ls[k];
  }

  /** Once a layer fails, the network fails with that same error: no later layer recovers. */
  lemma {:induction false} MlpErrSticks(g: Arena, ls: seq<Layer>, v: Vals, k: nat)
    requires LayersFit(g, ls) && k <= |ls|
    requires MlpOut(g, ls[..k], v).Err?
    ensures MlpOut(g, ls, v) == MlpOut(g, ls[..k], v)
    decreases |ls| - k
  {
    if k < |ls| {
      MlpOutNext(g, ls, v, k);
      MlpErrSticks(g, ls, v, k + 1);
    } else {
      assert ls[..k] == ls;
    }
  }

  /**
   * While no layer holds an active `RBFNeuron`, the only way the first `k`
   * layers can fail is the `TypeError` of iterating over a single `Value`.
   */
  lemma {:induction false} QuietFault(g: Arena, ls: seq<Layer>, v: Vals, k: nat)
    requires LayersFit(g, ls) && k <= |ls|
    requires forall i | 0 <= i < k :: Quiet(ls[i])
    ensures LayersFit(g, ls[..k])
    ensures MlpOut(g, ls[..k], v).Err? ==> MlpOut(g, ls[..k], v) == Err(NotIterable)
    decreases k
  {
    if k > 0 {
      QuietFault(g, ls, v, k - 1);
      MlpOutNext(g, ls, v, k - 1);
      match MlpOut(g, ls[..k - 1], v)
      case Err(_) =>
      case Ok(u) => LayerOutCases(g, ls[k - 1], u);
    }
  }

  /**
   * A hidden layer with exactly one neuron hands the next layer a single
   * `Value`, which no active neuron can iterate over: the whole network
   * fails, whatever its input. When no layer up to that one holds an active
   * `RBFNeuron`, the failure is exactly that `TypeError`.
   */
  lemma WidthOneFails(g: Arena, ls: seq<Layer>, v: Vals, j: nat, i: nat)
    requires LayersFit(g, ls) && j + 1 < |ls| && |ls[j].neurons| == 1
    requires i < |ls[j + 1].neurons| && ls[j + 1].neurons[i].active
    ensures MlpOut(g, ls, v).Err?
    ensures (forall k | 0 <= k <= j :: Quiet(ls[k])) ==> MlpOut(g, ls, v) == Err(NotIterable)
  {
    var k := j + 1;
    MlpOutNext(g, ls, v, j);
    MlpOutNext(g, ls, v, k);
    if forall k | 0 <= k <= j :: Quiet(ls[k]) {
      QuietFault(g, ls, v, k);
    }
    match MlpOut(g, ls[..k], v)
    case Err(_) =>
      MlpErrSticks(g, ls, v, k);
    case Ok(u) =>
      LayerOutCases(g, ls[j], MlpOut(g, ls[..j], v).value);
      LayerOutCases(g, ls[k], u);
      MlpErrSticks(g, ls, v, k + 1);
  }

  /** `[Value, ...]` of tape indices, as the next layer receives them. */
  function Refs(us: seq<nat>): (xs: seq<Operand>)
    ensures |xs| == |us| && forall i | 0 <= i < |us| :: xs[i] == Ref(us[i])
  {
    seq(|us|, i requires 0 <= i < |us| => Ref(us[i]))
  }

  /**
   * Signal `y` is what calling layer `l` on `x` returns: the output node of
   * a one-neuron layer, else a list holding each neuron's output node in
   * order, each `Fired` by its neuron.
   */
  predicate LayerWired(g: Arena, l: Layer, x: Signal, y: Signal)
  {
    match y
    case One(v) => |l.neurons| == 1 && Fired(g, l.neurons[0], x, v)
    case Many(ys) =>
      && |l.neurons| != 1 && |ys| == |l.neurons|
      && forall i | 0 <= i < |ys| :: ys[i].Ref? && Fired(g, l.neurons[i], x, ys[i].i)
  }

  /** What a layer call built stays as it is while the tape grows. */
  lemma LayerWiredFrame(g: Arena, h: Arena, l: Layer, x: Signal, y: Signal)
    requires Extends(g, h) && LayerWired(g, l, x, y)
    ensures LayerWired(h, l, x, y)
  {
    match y
    case One(v) => FiredFrame(g, h, l.neurons[0], x, v);
    case Many(ys) =>
      forall i | 0 <= i < |ys| ensures Fired(h, l.neurons[i], x, ys[i].i) {
        FiredFrame(g, h, l.neurons[i], x, ys[i].i);
      }
  }

  /** The nodes a successful call of the neurons `ns` on `x` appends. */
  function LayerSize(ns: seq<Neuron>, x: Signal): nat
    decreases |ns|
  {
    if ns == [] then 0 else LayerSize(ns[..|ns| - 1], x) + FireSize(ns[|ns| - 1], x)
  }

  /**
   * One more neuron fired on `x` keeps what the earlier ones built and the
   * values their outputs hold (`os[i]` for neuron `i`).
   */
  lemma FiredStep(g: Arena, h: Arena, ns: seq<Neuron>, x: Signal, os: seq<real>, outs: seq<nat>, k: nat, y: nat)
    requires Extends(g, h) && k < |ns| && |outs| == k && |os| == |ns|
    requires forall i | 0 <= i < k :: outs[i] < |g| && g[outs[i]].data == os[i]
    requires forall i | 0 <= i < k :: Fired(g, ns[i], x, outs[i])
    requires Fired(h, ns[k], x, y) && h[y].data == os[k]
    ensures forall i | 0 <= i < k + 1 :: (outs + [y])[i] < |h| && h[(outs + [y])[i]].data == os[i]
    ensures forall i | 0 <= i < k + 1 :: Fired(h, ns[i], x, (outs + [y])[i])
    ensures LayerSize(ns[..k + 1], x) == LayerSize(ns[..k], x) + FireSize(ns[k], x)
  {
    forall i | 0 <= i < k + 1 ensures Fired(h, ns[i], x, (outs + [y])[i]) {
      if i < k {
        FiredFrame(g, h, ns[i], x, outs[i]);
      }
    }
    assert ns[..k + 1][..k] == ns[..k];
  }

  /** The value neuron `n` gives on `v`, or 0 where it gives none. */
  function OutputValue(g: Arena, n: Neuron, v: Vals): real
    requires NeuronFits(g, n)
  {
    if NeuronOut(g, n, v).Ok? then NeuronOut(g, n, v).value else 0.0
  }

  /** Every node from index `lo` on is a `Value(0.)` leaf, what an inactive neuron returns. */
  predicate ZeroLeaves(g: Arena, lo: nat)
  {
    forall i | lo <= i < |g| :: g[i] == Node(0.0, Leaf)
  }

  /**
   * Step `k` of `[n(x) for n in neurons]`: fire neuron `k` after the first
   * `k` have been fired (their outputs are `outs`), on the tape grown from
   * `g0`.
   */
  method FireNext(t: Tape, ghost g0: Arena, ghost grad0: seq<real>, ns: seq<Neuron>, x: Signal, outs: seq<nat>) returns (y: Result<nat>)
    requires t.Valid() && Grown(g0, grad0, t.nodes, t.grad) && |outs| < |ns|
    requires forall i | 0 <= i < |ns| :: NeuronFits(g0, ns[i]) && (ns[i].kind.Rbf? ==> !ns[i].active)
    requires SignalFits(g0, x)
    requires forall i | 0 <= i < |outs| :: outs[i] < |t.nodes| && t.nodes[outs[i]].data == OutputValue(g0, ns[i], Data(g0, x))
    requires forall i | 0 <= i < |outs| :: Fired(t.nodes, ns[i], x, outs[i])
    requires |t.nodes| == |g0| + LayerSize(ns[..|outs|], x)
    requires x.One? ==> ZeroLeaves(t.nodes, |g0|)
    modifies t
    ensures t.Valid() && Grown(g0, grad0, t.nodes, t.grad)
    ensures y.Err? <==> NeuronOut(g0, ns[|outs|], Data(g0, x)).Err?
    ensures y.Err? ==> y.fault == NotIterable && x.One?
    ensures x.One? ==> ZeroLeaves(t.nodes, |g0|)
    ensures y.Ok? ==> forall i | 0 <= i < |outs| + 1 ::
      (outs + [y.value])[i] < |t.nodes| && t.nodes[(outs + [y.value])[i]].data == OutputValue(g0, ns[i], Data(g0, x))
    ensures y.Ok? ==> forall i | 0 <= i < |outs| + 1 :: Fired(t.nodes, ns[i], x, (outs + [y.value])[i])
    ensures y.Ok? ==> |t.nodes| == |g0| + LayerSize(ns[..|outs| + 1], x)
  {
    var k := |outs|;
    ghost var g1, grad1 := t.nodes, t.grad;
    ghost var v := Data(g0, x);
    ghost var os := seq(|ns|, i requires 0 <= i < |ns| => OutputValue(g0, ns[i], v));
    DataFrame(g0, g1, x);
    NeuronOutFrame(g0, g1, ns[k], v);
    y := Fire(t, ns[k], x);
    GrownTrans(g0, grad0, g1, grad1, t.nodes, t.grad);
    if y.Ok? {
      FiredStep(g1, t.nodes, ns, x, os, outs, k, y.value);
    }
  }

  /** `[n(x) for n in neurons]` on the tape: each neuron fired on `x` in turn, or the first error. */
  method FireAll(t: Tape, ns: seq<Neuron>, x: Signal) returns (r: Result<seq<nat>>)
    requires t.Valid() && SignalFits(t.nodes, x)
    requires forall i | 0 <= i < |ns| :: NeuronFits(t.nodes, ns[i]) && (ns[i].kind.Rbf? ==> !ns[i].active)
    modifies t
    ensures t.Valid() && Grown(old(t.nodes), old(t.grad), t.nodes, t.grad)
    ensures r.Err? <==> exists i | 0 <= i < |ns| :: NeuronOut(old(t.nodes), ns[i], Data(old(t.nodes), x)).Err?
    ensures r.Err? ==> r.fault == NotIterable && ZeroLeaves(t.nodes, |old(t.nodes)|)
    ensures r.Ok? ==> |r.value| == |ns|
    ensures r.Ok? ==> forall i | 0 <= i < |ns| ::
      r.value[i] < |t.nodes| && t.nodes[r.value[i]].data == OutputValue(old(t.nodes), ns[i], Data(old(t.nodes), x))
    ensures r.Ok? ==> forall i | 0 <= i < |ns| :: Fired(t.nodes, ns[i], x, r.value[i])
    ensures r.Ok? ==> |t.nodes| == |old(t.nodes)| + LayerSize(ns, x)
  {
    ghost var g0, grad0 := t.nodes, t.grad;
    ghost var v := Data(g0, x);
    var outs: seq<nat> := [];
    assert ns[..0] == [];
    for k := 0 to |ns|
      invariant t.Valid() && Grown(g0, grad0, t.nodes, t.grad) && |outs| == k
      invariant forall i | 0 <= i < k :: NeuronOut(g0, ns[i], v).Ok?
      invariant forall i | 0 <= i < k :: outs[i] < |t.nodes| && t.nodes[outs[i]].data == OutputValue(g0, ns[i], v)
      invariant forall i | 0 <= i < k :: Fired(t.nodes, ns[i], x, outs[i])
      invariant |t.nodes| == |g0| + LayerSize(ns[..k], x)
      invariant x.One? ==> ZeroLeaves(t.nodes, |g0|)
    {
      var y := FireNext(t, g0, grad0, ns, x, outs);
      if y.Err? {
        return Err(y.fault);
      }
      outs := outs + [y.value];
    }
    assert ns[..|ns|] == ns;
    r := Ok(outs);
  }

  /** `out[0] if len(out) == 1 else out`: what a layer returns for its output nodes. */
  function Wrap(outs: seq<nat>): (y: Signal)
    ensures y.One? <==> |outs| == 1
  {
    if |outs| == 1 then One(outs[0]) else Many(Refs(outs))
  }

  /** The wrapped outputs of a layer are `LayerWired` and carry `LayerOut`'s values. */
  lemma WrapOutputs(g0: Arena, g: Arena, l: Layer, x: Signal, outs: seq<nat>)
    requires LayerFits(g0, l) && SignalFits(g0, x) && Outputs(g0, l.neurons, Data(g0, x)).Ok?
    requires |outs| == |l.neurons|
    requires forall i | 0 <= i < |outs| :: outs[i] < |g| && g[outs[i]].data == OutputValue(g0, l.neurons[i], Data(g0, x))
    requires forall i | 0 <= i < |outs| :: Fired(g, l.neurons[i], x, outs[i])
    ensures LayerWired(g, l, x, Wrap(outs)) && SignalFits(g, Wrap(outs))
    ensures LayerOut(g0, l, Data(g0, x)) == Ok(Data(g, Wrap(outs)))
  {
    var os := Outputs(g0, l.neurons, Data(g0, x)).value;
    if |outs| != 1 {
      assert Data(g, Wrap(outs)).xs == os;
    }
  }

  /**
   * `Layer.__call__` on the tape: each neuron is fired on `x` in turn; the
   * result is the output node of a one-neuron layer, else the list of output
   * nodes. It is `LayerWired` and carries what `LayerOut` says.
   */
  method LayerCall(t: Tape, l: Layer, x: Signal) returns (r: Result<Signal>)
    requires t.Valid() && LayerFits(t.nodes, l) && SignalFits(t.nodes, x) && Quiet(l)
    modifies t
    ensures t.Valid() && Grown(old(t.nodes), old(t.grad), t.nodes, t.grad)
    ensures r.Err? <==> LayerOut(old(t.nodes), l, Data(old(t.nodes), x)).Err?
    ensures r.Err? ==> r.fault == NotIterable && ZeroLeaves(t.nodes, |old(t.nodes)|)
    ensures r.Ok? ==> LayerWired(t.nodes, l, x, r.value) && |t.nodes| == |old(t.nodes)| + LayerSize(l.neurons, x)
    ensures r.Ok? ==> SignalFits(t.nodes, r.value) && Data(t.nodes, r.value) == LayerOut(old(t.nodes), l, Data(old(t.nodes), x)).value
  {
    ghost var g0 := t.nodes;
    var outs := FireAll(t, l.neurons, x);
    if outs.Err? {
      return Err(outs.fault);
    }
    WrapOutputs(g0, t.nodes, l, x, outs.value);
    r := Ok(Wrap(outs.value));
  }

  /** Every layer of `m` can be run by `LayerCall`. */
  predicate AllQuiet(ls: seq<Layer>)
  {
    forall i | 0 <= i < |ls| :: Quiet(ls[i])
  }

  /** The nodes a successful call of the first `k` layers appends, layer `i` called on `trace[i]`. */
  function MlpSize(ls: seq<Layer>, trace: seq<Signal>, k: nat): nat
    requires k <= |ls| && k <= |trace|
  {
    if k == 0 then 0 else MlpSize(ls, trace, k - 1) + LayerSize(ls[k - 1].neurons, trace[k - 1])
  }

  /** The size of the first `k` layer calls reads only the first `k` signals of the trace. */
  lemma {:induction false} MlpSizeExtend(ls: seq<Layer>, trace: seq<Signal>, y: Signal, k: nat)
    requires k <= |ls| && k <= |trace|
    ensures MlpSize(ls, trace + [y], k) == MlpSize(ls, trace, k)
  {
    if k > 0 {
      var j := k - 1;
      MlpSizeExtend(ls, trace, y, j);
      assert (trace + [y])[j] == trace[j];
    }
  }

  /** One more layer called on the last signal of the trace extends the trace. */
  lemma TraceStep(g: Arena, h: Arena, ls: seq<Layer>, trace: seq<Signal>, k: nat, y: Signal)
    requires Extends(g, h) && k < |ls| && |trace| == k + 1
    requires forall j | 0 <= j < k :: LayerWired(g, ls[j], trace[j], trace[j + 1])
    requires LayerWired(h, ls[k], trace[k], y)
    ensures forall j | 0 <= j < k + 1 :: LayerWired(h, ls[j], (trace + [y])[j], (trace + [y])[j + 1])
    ensures MlpSize(ls, trace + [y], k + 1) == MlpSize(ls, trace, k) + LayerSize(ls[k].neurons, trace[k])
  {
    var tr := trace + [y];
    forall j | 0 <= j < k + 1 ensures LayerWired(h, ls[j], tr[j], tr[j + 1]) {
      if j < k {
        assert tr[j] == trace[j] && tr[j + 1] == trace[j + 1];
        LayerWiredFrame(g, h, ls[j], trace[j], trace[j + 1]);
      }
    }
    MlpSizeExtend(ls, trace, y, k);
  }

  /**
   * One round of `MLP.__call__`'s loop: layer `k` called on `s`, the signal
   * the first `k` layers produced. It keeps the loop's invariants from `k`
   * to `k + 1`, the trace growing by the layer's result.
   */
  method LayerNext(t: Tape, ls: seq<Layer>, k: nat, s: Signal, ghost g0: Arena, ghost grad0: seq<real>, ghost v: Vals, ghost trace: seq<Signal>)
    returns (y: Result<Signal>, ghost trace': seq<Signal>)
    requires t.Valid() && k < |ls| && LayersFit(g0, ls) && AllQuiet(ls)
    requires Grown(g0, grad0, t.nodes, t.grad) && SignalFits(t.nodes, s)
    requires MlpOut(g0, ls[..k], v) == Ok(Data(t.nodes, s))
    requires |trace| == k + 1 && trace[k] == s
    requires forall j | 0 <= j < k :: LayerWired(t.nodes, ls[j], trace[j], trace[j + 1])
    requires |t.nodes| == |g0| + MlpSize(ls, trace, k)
    modifies t
    ensures t.Valid() && Grown(g0, grad0, t.nodes, t.grad)
    ensures y.Err? ==> MlpOut(g0, ls, v).Err?
    ensures y.Ok? ==> SignalFits(t.nodes, y.value) && MlpOut(g0, ls[..k + 1], v) == Ok(Data(t.nodes, y.value))
    ensures y.Ok? ==> trace' == trace + [y.value]
    ensures y.Ok? ==> forall j | 0 <= j < k + 1 :: LayerWired(t.nodes, ls[j], trace'[j], trace'[j + 1])
    ensures y.Ok? ==> |t.nodes| == |g0| + MlpSize(ls, trace', k + 1)
  {
    ghost var g1, grad1 := t.nodes, t.grad;
    var k' := k + 1;
    LayerOutFrame(g0, g1, ls[k], Data(g1, s));
    MlpOutNext(g0, ls, v, k);
    y := LayerCall(t, ls[k], s);
    GrownTrans(g0, grad0, g1, grad1, t.nodes, t.grad);
    trace' := trace;
    if y.Err? {
      MlpErrSticks(g0, ls, v, k');
      return;
    }
    TraceStep(g1, t.nodes, ls, trace, k, y.value);
    trace' := trace + [y.value];
  }

  /**
   * `MLP.__call__` on the tape: `x = layer(x)` for each layer in turn. The
   * ghost `trace` lists the signal each layer received, then the result:
   * layer `k` is `LayerWired` from `trace[k]` to `trace[k + 1]`. The result
   * carries what `MlpOut` says.
   */
  method MlpCall(t: Tape, m: Mlp, x: Signal) returns (r: Result<Signal>, ghost trace: seq<Signal>)
    requires t.Valid() && LayersFit(t.nodes, m.layers) && SignalFits(t.nodes, x) && AllQuiet(m.layers)
    modifies t
    ensures t.Valid() && Grown(old(t.nodes), old(t.grad), t.nodes, t.grad)
    ensures r.Err? <==> MlpOut(old(t.nodes), m.layers, Data(old(t.nodes), x)).Err?
    ensures r.Ok? ==> |trace| == |m.layers| + 1 && trace[0] == x && trace[|m.layers|] == r.value
    ensures r.Ok? ==> forall k | 0 <= k < |m.layers| :: LayerWired(t.nodes, m.layers[k], trace[k], trace[k + 1])
    ensures r.Ok? ==> |t.nodes| == |old(t.nodes)| + MlpSize(m.layers, trace, |m.layers|)
    ensures r.Ok? ==> SignalFits(t.nodes, r.value) && Data(t.nodes, r.value) == MlpOut(old(t.nodes), m.layers, Data(old(t.nodes), x)).value
  {
    ghost var g0, grad0 := t.nodes, t.grad;
    ghost var v := Data(g0, x);
    var ls := m.layers;
    var s := x;
    trace := [x];
    assert ls[..0] == [];
    for k := 0 to |ls|
      invariant t.Valid() && Grown(g0, grad0, t.nodes, t.grad) && SignalFits(t.nodes, s)
      invariant MlpOut(g0, ls[..k], v) == Ok(Data(t.nodes, s))
      invariant |trace| == k + 1 && trace[0] == x && trace[k] == s
      invariant forall j | 0 <= j < k :: LayerWired(t.nodes, ls[j], trace[j], trace[j + 1])
      invariant |t.nodes| == |g0| + MlpSize(ls, trace, k)
    {
      var y;
      y, trace := LayerNext(t, ls, k, s, g0, grad0, v, trace);
      if y.Err? {
        return Err(y.fault), trace;
      }
      s := y.value;
    }
    assert ls[..|ls|] == ls;
    r := Ok(s);
  }

  /** Appending index ranges end to end gives the whole range. */
  lemma RangeConcat(lo: nat, mid: nat, hi: nat)
    requires lo <= mid <= hi
    ensures Range(lo, mid) + Range(mid, hi) == Range(lo, hi)
  {
    assert forall i | 0 <= i < hi - lo :: (Range(lo, mid) + Range(mid, hi))[i] == lo + i;
  }

  /**
   * The parameters of `n` on tape `g` are as construction leaves them: leaves
   * whose values come from `draw` (indexed by tape position), except that a
   * plain `Neuron`'s bias starts at 0.
   */
  ghost predicate Drawn(g: Arena, n: Neuron, draw: nat -> real)
  {
    && NeuronFits(g, n)
    && (forall i | 0 <= i < |n.w| :: g[n.w[i]] == Node(draw(n.w[i]), Leaf))
    && g[n.b] == Node(if n.kind.Rbf? then draw(n.b) else 0.0, Leaf)
  }

  /** A neuron's parameters keep their nodes as the tape grows. */
  lemma DrawnFrame(g: Arena, h: Arena, n: Neuron, draw: nat -> real)
    requires Extends(g, h) && Drawn(g, n, draw)
    ensures Drawn(h, n, draw)
  {
    assert h[n.b] == g[n.b];
    forall i | 0 <= i < |n.w| ensures h[n.w[i]] == g[n.w[i]] {
    }
  }

  /**
   * `Neuron(nin)` or `RBFNeuron(nin)`: `nin` weight leaves, then the bias
   * leaf, appended to the tape; the neuron starts active.
   */
  method NewNeuron(t: Tape, nin: nat, kind: Kind, act: Activation, draw: nat -> real) returns (n: Neuron)
    requires t.Valid()
    modifies t
    ensures t.Valid() && Grown(old(t.nodes), old(t.grad), t.nodes, t.grad)
    ensures n.kind == kind && n.act == act && n.active && |n.w| == nin
    ensures NeuronParameters(n) == Range(|old(t.nodes)|, |t.nodes|)
    ensures Drawn(t.nodes, n, draw)
  {
    ghost var g0, grad0 := t.nodes, t.grad;
    var lo := |t.nodes|;
    var ws: seq<nat> := [];
    for i := 0 to nin
      invariant t.Valid() && Grown(g0, grad0, t.nodes, t.grad) && |t.nodes| == lo + i
      invariant ws == Range(lo, lo + i)
      invariant forall j | 0 <= j < i :: t.nodes[ws[j]] == Node(draw(ws[j]), Leaf)
    {
      ghost var g1, grad1 := t.nodes, t.grad;
      var u := t.Value(draw(|t.nodes|));
      GrownTrans(g0, grad0, g1, grad1, t.nodes, t.grad);
      ws := ws + [u];
    }
    ghost var g1, grad1 := t.nodes, t.grad;
    var b := t.Value(if kind.Rbf? then draw(|t.nodes|) else 0.0);
    GrownTrans(g0, grad0, g1, grad1, t.nodes, t.grad);
    n := Neuron(kind, ws, b, act, true);
    assert NeuronParameters(n) == Range(lo, lo + nin) + [b];
  }

  /**
   * The neuron `generate_neurons` makes at position `j`: a plain `Neuron`
   * with the default activation in the last layer; elsewhere `Neuron` with
   * `relu` at odd positions and `RBFNeuron` with `relu` at even ones.
   */
  function Style(j: nat, last: bool): (s: (Kind, Activation))
    ensures last ==> s == (Plain, Noop)
    ensures !last ==> s.1 == Activation.Relu && (s.0 == Rbf <==> j % 2 == 0)
  {
    if last then (Plain, Noop) else if j % 2 == 1 then (Plain, Activation.Relu) else (Rbf, Activation.Relu)
  }

  /** Layer `l` is what `generate_neurons(nin, nout, ..., last)` yields, untouched since. */
  predicate Laid(l: Layer, nin: nat, nout: nat, last: bool)
  {
    && |l.neurons| == nout
    && forall j | 0 <= j < nout ::
         var n := l.neurons[j];
         |n.w| == nin && (n.kind, n.act) == Style(j, last) && n.active
  }

  /** Every neuron of `l` is as construction leaves it. */
  ghost predicate LayerDrawn(g: Arena, l: Layer, draw: nat -> real)
  {
    forall j | 0 <= j < |l.neurons| :: Drawn(g, l.neurons[j], draw)
  }

  /** Every layer of `ls` is as construction leaves it. */
  ghost predicate MlpDrawn(g: Arena, ls: seq<Layer>, draw: nat -> real)
  {
    forall i | 0 <= i < |ls| :: LayerDrawn(g, ls[i], draw)
  }

  /** A layer's parameters keep their nodes as the tape grows. */
  lemma LayerDrawnFrame(g: Arena, h: Arena, l: Layer, draw: nat -> real)
    requires Extends(g, h) && LayerDrawn(g, l, draw)
    ensures LayerDrawn(h, l, draw)
  {
    forall j | 0 <= j < |l.neurons| ensures Drawn(h, l.neurons[j], draw) {
      DrawnFrame(g, h, l.neurons[j], draw);
    }
  }

  /** One more neuron, built on a tape that extends the one the others were built on. */
  lemma LayerGrows(g: Arena, h: Arena, ns: seq<Neuron>, n: Neuron, nin: nat, j: nat, last: bool, lo: nat, draw: nat -> real)
    requires Extends(g, h) && lo <= |g|
    requires Laid(Layer(ns), nin, j, last) && LayerParameters(ns) == Range(lo, |g|) && LayerDrawn(g, Layer(ns), draw)
    requires |n.w| == nin && (n.kind, n.act) == Style(j, last) && n.active
    requires NeuronParameters(n) == Range(|g|, |h|) && Drawn(h, n, draw)
    ensures Laid(Layer(ns + [n]), nin, j + 1, last)
    ensures LayerParameters(ns + [n]) == Range(lo, |h|)
    ensures LayerDrawn(h, Layer(ns + [n]), draw)
  {
    LayerDrawnFrame(g, h, Layer(ns), draw);
    assert (ns + [n])[..j] == ns;
    RangeConcat(lo, |g|, |h|);
  }

  /** `Layer(name, list(generate_neurons(nin, nout, name, last, ...)))`, built on the tape. */
  method NewLayer(t: Tape, nin: nat, nout: nat, last: bool, draw: nat -> real) returns (l: Layer)
    requires t.Valid()
    modifies t
    ensures t.Valid() && Grown(old(t.nodes), old(t.grad), t.nodes, t.grad)
    ensures Laid(l, nin, nout, last)
    ensures LayerParameters(l.neurons) == Range(|old(t.nodes)|, |t.nodes|)
    ensures LayerDrawn(t.nodes, l, draw)
  {
    ghost var g0, grad0 := t.nodes, t.grad;
    var lo := |t.nodes|;
    var ns: seq<Neuron> := [];
    for j := 0 to nout
      invariant t.Valid() && Grown(g0, grad0, t.nodes, t.grad)
      invariant Laid(Layer(ns), nin, j, last)
      invariant LayerParameters(ns) == Range(lo, |t.nodes|)
      invariant LayerDrawn(t.nodes, Layer(ns), draw)
    {
      ghost var g1, grad1 := t.nodes, t.grad;
      var style := Style(j, last);
      var n := NewNeuron(t, nin, style.0, style.1, draw);
      GrownTrans(g0, grad0, g1, grad1, t.nodes, t.grad);
      LayerGrows(g1, t.nodes, ns, n, nin, j, last, lo, draw);
      ns := ns + [n];
    }
    l := Layer(ns);
  }

  /** `MLP(nin, nouts)` is laid out as `MLP.__init__` lays it out, with `sz = [nin] + nouts`. */
  predicate Shaped(m: Mlp, nin: nat, nouts: seq<nat>)
  {
    && |m.layers| == |nouts|
    && forall i | 0 <= i < |nouts| :: Laid(m.layers[i], ([nin] + nouts)[i], nouts[i], i + 1 == |nouts|)
  }

  /** One more layer laid out by `generate_neurons` extends the layout. */
  lemma LayoutGrows(ls: seq<Layer>, l: Layer, nin: nat, nouts: seq<nat>, i: nat)
    requires i < |nouts| && |ls| == i
    requires forall a | 0 <= a < i :: Laid(ls[a], ([nin] + nouts)[a], nouts[a], a + 1 == |nouts|)
    requires Laid(l, ([nin] + nouts)[i], nouts[i], i + 1 == |nouts|)
    ensures forall a | 0 <= a < i + 1 :: Laid((ls + [l])[a], ([nin] + nouts)[a], nouts[a], a + 1 == |nouts|)
  {
    forall a | 0 <= a < i + 1 ensures Laid((ls + [l])[a], ([nin] + nouts)[a], nouts[a], a + 1 == |nouts|) {
      if a < i {
        assert (ls + [l])[a] == ls[a];
      }
    }
  }

  /** The parameters of one more layer, appended after the others on the tape, extend the range. */
  lemma ParametersGrow(ls: seq<Layer>, l: Layer, lo: nat, mid: nat, hi: nat)
    requires lo <= mid <= hi
    requires MlpParameters(ls) == Range(lo, mid) && LayerParameters(l.neurons) == Range(mid, hi)
    ensures MlpParameters(ls + [l]) == Range(lo, hi)
  {
    assert (ls + [l])[..|ls|] == ls;
    RangeConcat(lo, mid, hi);
  }

  /** One more layer, built on a tape that extends the one the others were built on. */
  lemma DrawnGrows(g: Arena, h: Arena, ls: seq<Layer>, l: Layer, draw: nat -> real)
    requires Extends(g, h) && MlpDrawn(g, ls, draw) && LayerDrawn(h, l, draw)
    ensures MlpDrawn(h, ls + [l], draw)
  {
    forall a | 0 <= a < |ls| + 1 ensures LayerDrawn(h, (ls + [l])[a], draw) {
      if a < |ls| {
        LayerDrawnFrame(g, h, ls[a], draw);
      }
    }
  }

  /**
   * `MLP.__init__`: one layer per entry of `nouts`, appended in order; the
   * network's parameters are exactly the leaves appended, in tape order.
   */
  method NewMlp(t: Tape, nin: nat, nouts: seq<nat>, draw: nat -> real) returns (m: Mlp)
    requires t.Valid()
    modifies t
    ensures t.Valid() && Grown(old(t.nodes), old(t.grad), t.nodes, t.grad)
    ensures Shaped(m, nin, nouts)
    ensures MlpParameters(m.layers) == Range(|old(t.nodes)|, |t.nodes|)
    ensures MlpDrawn(t.nodes, m.layers, draw)
  {
    ghost var g0, grad0 := t.nodes, t.grad;
    var lo := |t.nodes|;
    var sz := [nin] + nouts;
    var ls: seq<Layer> := [];
    for i := 0 to |nouts|
      invariant t.Valid() && Grown(g0, grad0, t.nodes, t.grad) && |ls| == i
      invariant forall a | 0 <= a < i :: Laid(ls[a], sz[a], nouts[a], a + 1 == |nouts|)
      invariant MlpParameters(ls) == Range(lo, |t.nodes|)
      invariant MlpDrawn(t.nodes, ls, draw)
    {
      ghost var g1, grad1 := t.nodes, t.grad;
      var l := NewLayer(t, sz[i], sz[i + 1], i + 1 == |nouts|, draw);
      GrownTrans(g0, grad0, g1, grad1, t.nodes, t.grad);
      LayoutGrows(ls, l, nin, nouts, i);
      ParametersGrow(ls, l, lo, |g1|, |t.nodes|);
      DrawnGrows(g1, t.nodes, ls, l, draw);
      ls := ls + [l];
    }
    m := Mlp(ls);
  }

  /** The number of parameters of a network with layer sizes `sz`: `sz[i + 1]` neurons of `sz[i] + 1` each. */
  function ParamCount(sz: seq<nat>): nat
    decreases |sz|
  {
    if |sz| < 2 then 0 else ParamCount(sz[..|sz| - 1]) + sz[|sz| - 1] * (sz[|sz| - 2] + 1)
  }

  /** Layers whose sizes follow `sz` have `ParamCount(sz)` parameters between them. */
  lemma {:induction false} LayersParameterCount(ls: seq<Layer>, sz: seq<nat>)
    requires |sz| == |ls| + 1
    requires forall a | 0 <= a < |ls| :: |ls[a].neurons| == sz[a + 1]
    requires forall a, j | 0 <= a < |ls| && 0 <= j < |ls[a].neurons| :: |ls[a].neurons[j].w| == sz[a]
    ensures |MlpParameters(ls)| == ParamCount(sz)
    decreases |ls|
  {
    if ls != [] {
      var n := |ls| - 1;
      var ls', sz' := ls[..n], sz[..n + 1];
      assert ls[..|ls| - 1] == ls' && sz[..|sz| - 1] == sz';
      LayersParameterCount(ls', sz');
      LayerParameterCount(ls[n].neurons, sz[n]);
      assert MlpParameters(ls) == MlpParameters(ls') + LayerParameters(ls[n].neurons);
      assert ParamCount(sz) == ParamCount(sz') + sz[n + 1] * (sz[n] + 1);
    }
  }

  /** `MLP(nin, nouts)` has `ParamCount([nin] + nouts)` parameters: `nouts[i] * (sz[i] + 1)` per layer. */
  lemma MlpParameterCount(m: Mlp, nin: nat, nouts: seq<nat>)
    requires Shaped(m, nin, nouts)
    ensures |MlpParameters(m.layers)| == ParamCount([nin] + nouts)
  {
    var sz := [nin] + nouts;
    forall a | 0 <= a < |m.layers| ensures |m.layers[a].neurons| == sz[a + 1] {
      assert Laid(m.layers[a], sz[a], nouts[a], a + 1 == |nouts|);
    }
    forall a, j | 0 <= a < |m.layers| && 0 <= j < |m.layers[a].neurons| ensures |m.layers[a].neurons[j].w| == sz[a] {
      assert Laid(m.layers[a], sz[a], nouts[a], a + 1 == |nouts|);
    }
    LayersParameterCount(m.layers, sz);
  }

  /**
   * `l` is `k` with nothing changed but neurons' `active` flags: `active` is
   * a plain attribute of every `Module`, which a caller may reassign.
   */
  predicate Switched(k: Layer, l: Layer)
  {
    && |l.neurons| == |k.neurons|
    && forall i | 0 <= i < |k.neurons| :: l.neurons[i] == k.neurons[i].(active := l.neurons[i].active)
  }

  /**
   * In a network `MLP(nin, nouts)` whose hidden layer `j` has exactly one
   * neuron, every call raises `TypeError` once a neuron of layer `j + 1` is
   * active: layer `j` returns a single `Value` and that neuron iterates over
   * it. The `RBFNeuron`s of layers `0..j` are taken to be switched off, so
   * that no square root stands between the input and the failure.
   */
  lemma ShapedWidthOneFails(g: Arena, m0: Mlp, m: Mlp, nin: nat, nouts: seq<nat>, v: Vals, j: nat, i: nat)
    requires Shaped(m0, nin, nouts) && |m.layers| == |m0.layers|
    requires forall k | 0 <= k < |m.layers| :: Switched(m0.layers[k], m.layers[k])
    requires LayersFit(g, m.layers) && j + 1 < |nouts| && nouts[j] == 1
    requires i < |m.layers[j + 1].neurons| && m.layers[j + 1].neurons[i].active
    requires forall k | 0 <= k <= j :: Quiet(m.layers[k])
    ensures MlpOut(g, m.layers, v) == Err(NotIterable)
  {
    assert Laid(m0.layers[j], ([nin] + nouts)[j], nouts[j], j + 1 == |nouts|);
    assert Switched(m0.layers[j], m.layers[j]);
    WidthOneFails(g, m.layers, v, j, i);
  }
}

/**
 * Class `Value` of the scalar autograd engine, as a tape: the arena of
 * nodes every `Value` object lives in, with the gradient of each node
 * stored beside it. A `Value` object is its index in the tape. The
 * operators append the nodes they create (a wrapped constant first, then
 * the result), each with gradient 0; `backward` updates gradients in place.
 */
module Engine {
  import opened Graph
  import opened Topo
  import opened Chain
  import opened Sweep
  import opened Rules

  /** The right-hand operand of an operator: a `Value` already on the tape, or a plain number. */
  datatype Operand = Ref(i: nat) | Num(x: real)

  /**
   * The error Python would raise: `ZeroDivisionError` from an operator, or
   * the `TypeError` of iterating over a single `Value` (a model's input).
   * `Unmodelled` marks an outcome this model does not compute: the square
   * root an active `RBFNeuron` takes.
   */
  datatype Fault = ZeroDivision | NotIterable | Unmodelled

  datatype Result<T> = Ok(value: T) | Err(fault: Fault)

  /** `x ** -1` is `1 / x`. */
  lemma Reciprocal(x: real)
    requires x != 0.0
    ensures Power(x, -1) == 1.0 / x
  {
  }

  /** The value of an operand on tape `g`: the node's `data`, or the number itself. */
  function OperandData(g: Arena, o: Operand): real
    requires o.Ref? ==> o.i < |g|
  {
    if o.Ref? then g[o.i].data else o.x
  }

  /**
   * The tape grew from `g0`, `grad0` to `g`, `grad`: the old nodes and
   * gradients are kept, and every new node has gradient 0.
   */
  ghost predicate Grown(g0: Arena, grad0: seq<real>, g: Arena, grad: seq<real>)
  {
    && |grad0| == |g0| <= |g| == |grad|
    && (forall i | 0 <= i < |g0| :: g[i] == g0[i] && grad[i] == grad0[i])
    && (forall i | |g0| <= i < |g| :: grad[i] == 0.0)
  }

  /** Growing twice is growing. */
  lemma GrownTrans(g0: Arena, grad0: seq<real>, g1: Arena, grad1: seq<real>, g2: Arena, grad2: seq<real>)
    requires Grown(g0, grad0, g1, grad1) && Grown(g1, grad1, g2, grad2)
    ensures Grown(g0, grad0, g2, grad2)
  {
  }

  class Tape {
    /** Every node created so far, operands before results. */
    var nodes: seq<Node>
    /** `grad` of each node, by index. */
    var grad: seq<real>

    ghost predicate Valid()
      reads this
    {
      WellFormed(nodes) && |grad| == |nodes|
    }

    /** Whether `o` names a node of the tape or is a number. */
    predicate Fits(o: Operand)
      reads this
    {
      o.Ref? ==> o.i < |nodes|
    }

    constructor ()
      ensures Valid() && nodes == [] && grad == []
    {
      nodes, grad := [], [];
    }

    /** `Value.__init__`: a node whose gradient starts at 0. */
    method Append(n: Node) returns (v: nat)
      requires Valid() && Below(n.op, |nodes|) && Sound(nodes + [n], |nodes|)
      modifies this
      ensures Valid() && nodes == old(nodes) + [n] && grad == old(grad) + [0.0] && v == |old(nodes)|
      ensures Grown(old(nodes), old(grad), nodes, grad)
    {
      Extend(nodes, n);
      v := |nodes|;
      nodes, grad := nodes + [n], grad + [0.0];
    }

    /** `Value(data)`: a new leaf. */
    method Value(data: real) returns (v: nat)
      requires Valid()
      modifies this
      ensures Valid() && nodes == old(nodes) + [Node(data, Leaf)] && grad == old(grad) + [0.0] && v == |old(nodes)|
      ensures Grown(old(nodes), old(grad), nodes, grad)
    {
      v := Append(Node(data, Leaf));
    }

    /** `other if isinstance(other, Value) else Value(other)`. */
    method Lift(o: Operand) returns (b: nat)
      requires Valid() && Fits(o)
      modifies this
      ensures Valid() && b < |nodes|
      ensures o.Ref? ==> nodes == old(nodes) && grad == old(grad) && b == o.i
      ensures o.Num? ==> nodes == old(nodes) + [Node(o.x, Leaf)] && grad == old(grad) + [0.0] && b == |old(nodes)|
      ensures Grown(old(nodes), old(grad), nodes, grad) && nodes[b].data == OperandData(old(nodes), o)
    {
      if o.Ref? {
        b := o.i;
      } else {
        b := Value(o.x);
      }
    }

    /** `self + other` (`__add__`). */
    method Add(a: nat, o: Operand) returns (v: nat)
      requires Valid() && a < |nodes| && Fits(o)
      modifies this
      ensures Valid() && v == |nodes| - 1
      ensures o.Ref? ==> nodes == old(nodes) + [Node(old(nodes)[a].data + old(nodes)[o.i].data, Op.Add(a, o.i))]
      ensures o.Ref? ==> grad == old(grad) + [0.0]
      ensures o.Num? ==> nodes == old(nodes) + [Node(o.x, Leaf), Node(old(nodes)[a].data + o.x, Op.Add(a, |old(nodes)|))]
      ensures o.Num? ==> grad == old(grad) + [0.0, 0.0]
      ensures Grown(old(nodes), old(grad), nodes, grad) && nodes[v].data == old(nodes)[a].data + OperandData(old(nodes), o)
    {
      ghost var g0, grad0 := nodes, grad;
      var x, y := nodes[a].data, if o.Ref? then nodes[o.i].data else o.x;
      var b := Lift(o);
      ghost var g1, grad1 := nodes, grad;
      assert nodes[a].data == x && nodes[b].data == y;
      v := Append(Node(x + y, Op.Add(a, b)));
      GrownTrans(g0, grad0, g1, grad1, nodes, grad);
    }

    /** `self * other` (`__mul__`); `__rmul__` is the same with a number. */
    method Mul(a: nat, o: Operand) returns (v: nat)
      requires Valid() && a < |nodes| && Fits(o)
      modifies this
      ensures Valid() && v == |nodes| - 1
      ensures o.Ref? ==> nodes == old(nodes) + [Node(Times(old(nodes)[a].data, old(nodes)[o.i].data), Op.Mul(a, o.i))]
      ensures o.Ref? ==> grad == old(grad) + [0.0]
      ensures o.Num? ==> nodes == old(nodes) + [Node(o.x, Leaf), Node(Times(old(nodes)[a].data, o.x), Op.Mul(a, |old(nodes)|))]
      ensures o.Num? ==> grad == old(grad) + [0.0, 0.0]
      ensures Grown(old(nodes), old(grad), nodes, grad) && nodes[v].data == Times(old(nodes)[a].data, OperandData(old(nodes), o))
    {
      ghost var g0, grad0 := nodes, grad;
      var x, y := nodes[a].data, if o.Ref? then nodes[o.i].data else o.x;
      var b := Lift(o);
      ghost var g1, grad1 := nodes, grad;
      assert nodes[a].data == x && nodes[b].data == y;
      v := Append(Node(Times(x, y), Op.Mul(a, b)));
      GrownTrans(g0, grad0, g1, grad1, nodes, grad);
    }

    /**
     * `self ** k` for an integer `k`. Raising 0 to a negative power raises
     * `ZeroDivisionError`, and nothing is appended.
     */
    method Pow(a: nat, k: int) returns (r: Result<nat>)
      requires Valid() && a < |nodes|
      modifies this
      ensures Valid()
      ensures r.Err? <==> k < 0 && old(nodes)[a].data == 0.0
      ensures r.Err? ==> nodes == old(nodes) && grad == old(grad)
      ensures r.Ok? ==> k < 0 ==> old(nodes)[a].data != 0.0
      ensures r.Ok? ==> r.value == |old(nodes)| && grad == old(grad) + [0.0]
      ensures r.Ok? ==> nodes == old(nodes) + [Node(Power(old(nodes)[a].data, k), Op.Pow(a, k))]
    {
      if k < 0 && nodes[a].data == 0.0 {
        return Err(ZeroDivision);
      }
      var v := Append(Node(Power(nodes[a].data, k), Op.Pow(a, k)));
      r := Ok(v);
    }

    /** `relu()`: 0 for a negative value, the value otherwise. */
    method Relu(a: nat) returns (v: nat)
      requires Valid() && a < |nodes|
      modifies this
      ensures Valid() && v == |old(nodes)| && grad == old(grad) + [0.0]
      ensures nodes == old(nodes) + [Node(Rectify(old(nodes)[a].data), Op.Relu(a))]
      ensures Grown(old(nodes), old(grad), nodes, grad)
    {
      v := Append(Node(Rectify(nodes[a].data), Op.Relu(a)));
    }

    /** `-self`, which is `self * -1`. */
    method Neg(a: nat) returns (v: nat)
      requires Valid() && a < |nodes|
      modifies this
      ensures Valid() && v == |old(nodes)| + 1 && grad == old(grad) + [0.0, 0.0]
      ensures nodes == old(nodes) + [Node(-1.0, Leaf), Node(-old(nodes)[a].data, Op.Mul(a, |old(nodes)|))]
    {
      v := Mul(a, Num(-1.0));
    }

    /** `other + self` for a number `other` (`__radd__`), which is `self + other`: the number is the second operand. */
    method RAdd(a: nat, x: real) returns (v: nat)
      requires Valid() && a < |nodes|
      modifies this
      ensures Valid() && v == |old(nodes)| + 1 && grad == old(grad) + [0.0, 0.0]
      ensures nodes == old(nodes) + [Node(x, Leaf), Node(old(nodes)[a].data + x, Op.Add(a, |old(nodes)|))]
    {
      v := Add(a, Num(x));
    }

    /** `self - other`, which is `self + (-other)`; a number is negated before it is wrapped. */
    method Sub(a: nat, o: Operand) returns (v: nat)
      requires Valid() && a < |nodes| && Fits(o)
      modifies this
      ensures Valid() && v == |nodes| - 1
      ensures o.Ref? ==> grad == old(grad) + [0.0, 0.0, 0.0]
      ensures o.Num? ==> grad == old(grad) + [0.0, 0.0]
      ensures o.Ref? ==> nodes == old(nodes) + [
        Node(-1.0, Leaf),
        Node(-old(nodes)[o.i].data, Op.Mul(o.i, |old(nodes)|)),
        Node(old(nodes)[a].data - old(nodes)[o.i].data, Op.Add(a, |old(nodes)| + 1))]
      ensures o.Num? ==> nodes == old(nodes) + [Node(-o.x, Leaf), Node(old(nodes)[a].data - o.x, Op.Add(a, |old(nodes)|))]
    {
      if o.Ref? {
        var n := Neg(o.i);
        v := Add(a, Ref(n));
      } else {
        v := Add(a, Num(-o.x));
      }
    }

    /** `other - self` for a number `other`, which is `(-self) + other`. */
    method RSub(a: nat, x: real) returns (v: nat)
      requires Valid() && a < |nodes|
      modifies this
      ensures Valid() && v == |old(nodes)| + 3 && grad == old(grad) + [0.0, 0.0, 0.0, 0.0]
      ensures nodes == old(nodes) + [
        Node(-1.0, Leaf),
        Node(-old(nodes)[a].data, Op.Mul(a, |old(nodes)|)),
        Node(x, Leaf),
        Node(x - old(nodes)[a].data, Op.Add(|old(nodes)| + 1, |old(nodes)| + 2))]
    {
      var n := Neg(a);
      v := Add(n, Num(x));
    }

    /** `other * self` for a number `other` (`__rmul__`), which is `self * other`. */
    method RMul(a: nat, x: real) returns (v: nat)
      requires Valid() && a < |nodes|
      modifies this
      ensures Valid() && v == |old(nodes)| + 1 && grad == old(grad) + [0.0, 0.0]
      ensures nodes == old(nodes) + [Node(x, Leaf), Node(Times(old(nodes)[a].data, x), Op.Mul(a, |old(nodes)|))]
    {
      v := Mul(a, Num(x));
    }

    /**
     * `self / other`, which is `self * other ** -1`. A zero divisor raises
     * `ZeroDivisionError` (from `**` on a `Value`, or from Python's own `**`
     * on a number) and nothing is appended.
     */
    method TrueDiv(a: nat, o: Operand) returns (r: Result<nat>)
      requires Valid() && a < |nodes| && Fits(o)
      modifies this
      ensures Valid()
      ensures r.Err? <==> (if o.Ref? then old(nodes)[o.i].data else o.x) == 0.0
      ensures r.Err? ==> nodes == old(nodes) && grad == old(grad)
      ensures r.Ok? ==> r.value == |nodes| - 1 && grad == old(grad) + [0.0, 0.0]
      ensures r.Ok? && o.Ref? ==> nodes == old(nodes) + [
        Node(1.0 / old(nodes)[o.i].data, Op.Pow(o.i, -1)),
        Node(Times(old(nodes)[a].data, 1.0 / old(nodes)[o.i].data), Op.Mul(a, |old(nodes)|))]
      ensures r.Ok? && o.Num? ==> nodes == old(nodes) + [
        Node(1.0 / o.x, Leaf),
        Node(Times(old(nodes)[a].data, 1.0 / o.x), Op.Mul(a, |old(nodes)|))]
    {
      if o.Ref? {
        var p := Pow(o.i, -1);
        if p.Err? {
          return Err(ZeroDivision);
        }
        Reciprocal(old(nodes)[o.i].data);
        var v := Mul(a, Ref(p.value));
        r := Ok(v);
      } else {
        if o.x == 0.0 {
          return Err(ZeroDivision);
        }
        Reciprocal(o.x);
        var v := Mul(a, Num(Power(o.x, -1)));
        r := Ok(v);
      }
    }

    /** `other / self` for a number `other`, which is `self ** -1 * other`. */
    method RTrueDiv(a: nat, x: real) returns (r: Result<nat>)
      requires Valid() && a < |nodes|
      modifies this
      ensures Valid()
      ensures r.Err? <==> old(nodes)[a].data == 0.0
      ensures r.Err? ==> nodes == old(nodes) && grad == old(grad)
      ensures r.Ok? ==> r.value == |old(nodes)| + 2 && grad == old(grad) + [0.0, 0.0, 0.0]
      ensures r.Ok? ==> nodes == old(nodes) + [
        Node(1.0 / old(nodes)[a].data, Op.Pow(a, -1)),
        Node(x, Leaf),
        Node(Times(1.0 / old(nodes)[a].data, x), Op.Mul(|old(nodes)|, |old(nodes)| + 1))]
    {
      var p := Pow(a, -1);
      if p.Err? {
        return Err(ZeroDivision);
      }
      Reciprocal(old(nodes)[a].data);
      var v := Mul(p.value, Num(x));
      r := Ok(v);
    }

    /**
     * The `_backward` closure of node `u`: each operand's gradient grows by
     * its local derivative times `u`'s gradient. For `x ** 0` with
     * `x.data == 0` the closure raises `ZeroDivisionError` before changing
     * anything.
     */
    method RunRule(u: nat) returns (ok: bool)
      requires Valid() && u < |nodes|
      modifies this
      ensures Valid() && nodes == old(nodes)
      ensures ok == RuleDefined(nodes, u)
      ensures ok ==> grad == Propagate(old(grad), Edges(nodes, u), old(grad)[u])
      ensures !ok ==> grad == old(grad)
    {
      assert NodeOk(nodes, u);
      ok := RuleDefined(nodes, u);
      if !ok {
        return;
      }
      var out := grad[u];
      match nodes[u].op
      case Leaf =>
      case Add(a, b) =>
        grad := grad[a := grad[a] + Times(1.0, out)];
        grad := grad[b := grad[b] + Times(1.0, out)];
        PropagatePair(old(grad), Edge(a, 1.0), Edge(b, 1.0), out);
      case Mul(a, b) =>
        grad := grad[a := grad[a] + Times(nodes[b].data, out)];
        grad := grad[b := grad[b] + Times(nodes[a].data, out)];
        PropagatePair(old(grad), Edge(a, nodes[b].data), Edge(b, nodes[a].data), out);
      case Pow(a, k) =>
        grad := grad[a := grad[a] + Times(PowSlope(nodes[a].data, k), out)];
        PropagateOne(old(grad), Edge(a, PowSlope(nodes[a].data, k)), out);
      case Relu(a) =>
        grad := grad[a := grad[a] + Times(if nodes[u].data > 0.0 then 1.0 else 0.0, out)];
        PropagateOne(old(grad), Edge(a, if nodes[u].data > 0.0 then 1.0 else 0.0), out);
    }

    /**
     * The loop of `backward()`: run the closures of `topo` from last to
     * first, stopping at the first one that raises. Without a failure the
     * sweep invariant reaches its end; either way the nodes outside `topo`
     * are untouched.
     */
    method RunSweep(topo: seq<nat>, ghost seed: seq<real>) returns (ok: bool)
      requires Valid() && TopoOrder(nodes, topo) && |seed| == |nodes|
      requires SweepInv(nodes, topo, seed, grad, |topo|)
      modifies this
      ensures Valid() && nodes == old(nodes)
      ensures ok <==> forall j | 0 <= j < |topo| :: RuleDefined(nodes, topo[j])
      ensures ok ==> SweepInv(nodes, topo, seed, grad, 0)
      ensures forall x | 0 <= x < |nodes| && x !in topo :: grad[x] == seed[x]
    {
      ghost var g := nodes;
      var k: nat := |topo|;
      while k > 0
        invariant Valid() && nodes == g && k <= |topo|
        invariant SweepInv(g, topo, seed, grad, k)
        invariant forall j | k <= j < |topo| :: RuleDefined(g, topo[j])
        decreases k
      {
        k := k - 1;
        assert SweepInv(g, topo, seed, grad, k + 1);
        assert forall j | k + 1 <= j < |topo| :: RuleDefined(g, topo[j]);
        ghost var current := grad;
        ok := RunRule(topo[k]);
        if !ok {
          return;
        }
        SweepStep(g, topo, seed, current, k);
      }
      ok := true;
    }

    /**
     * `backward()` from node `r`: sort the nodes `r` reaches so that every
     * node follows its operands, set `r`'s gradient to 1, and run the
     * closures from last to first. Every node `w` that `r` reaches then holds
     * `Gradient`: the sum, over the nodes `u` that `r` reaches, of `u`'s
     * gradient before the pass (1 for `r` itself) times the derivative of `u`
     * with respect to `w`. So `r` ends at exactly 1, and a node whose
     * consumers already held gradients passes those on again. Nothing else
     * changes. The pass stops at the first closure that raises.
     */
    method Backward(r: nat) returns (ok: bool)
      requires Valid() && r < |nodes|
      modifies this
      ensures Valid() && nodes == old(nodes)
      ensures ok <==> forall u | 0 <= u < |nodes| && Reachable(nodes, r, u) :: RuleDefined(nodes, u)
      ensures forall w | 0 <= w < |nodes| && !Reachable(nodes, r, w) :: grad[w] == old(grad)[w]
      ensures ok ==> forall w | 0 <= w < |nodes| && Reachable(nodes, r, w) :: grad[w] == Gradient(nodes, old(grad), r, w)
      ensures ok ==> grad[r] == 1.0
    {
      ghost var g, before := nodes, grad;
      var visited, topo := BuildTopo(nodes, r, {}, {}, []);
      grad := grad[r := 1.0];
      SweepStart(g, topo, grad);
      ok := RunSweep(topo, before[r := 1.0]);
      SweepOutside(g, topo, before, grad, r);
      if ok {
        forall u | 0 <= u < |g| && Reachable(g, r, u) ensures RuleDefined(g, u) {
          ghost var j :| 0 <= j < |topo| && topo[j] == u;
        }
        SweepDone(g, topo, before, grad, r);
        GradientRoot(g, before, r);
        assert Reachable(g, r, r);
      } else {
        ghost var j :| 0 <= j < |topo| && !RuleDefined(g, topo[j]);
        assert Reachable(g, r, topo[j]);
      }
    }
  }
}

/**
 * What each operator's `_backward` closure does to the gradients, stated
 * operator by operator: the operand's gradient grows by the local
 * derivative times `out.grad`, and a repeated operand (`x + x`, `x * x`)
 * receives both contributions.
 */
module Rules {
  import opened Graph
  import opened Chain

  /** A closure with one operand updates that operand's gradient once. */
  lemma PropagateOne(grad: seq<real>, e: Edge, out: real)
    requires e.child < |grad|
    ensures Propagate(grad, [e], out) == grad[e.child := grad[e.child] + Times(e.weight, out)]
  {
    assert [e][1..] == [];
  }

  /** A closure with two operands updates the first, then the second (the same node twice for `x + x`). */
  lemma PropagatePair(grad: seq<real>, e: Edge, f: Edge, out: real)
    requires e.child < |grad| && f.child < |grad|
    ensures
      var mid := grad[e.child := grad[e.child] + Times(e.weight, out)];
      Propagate(grad, [e, f], out) == mid[f.child := mid[f.child] + Times(f.weight, out)]
  {
    assert [e, f][1..] == [f];
    PropagateOne(grad[e.child := grad[e.child] + Times(e.weight, out)], f, out);
  }

  /** A node that no operator produced has the closure `lambda: None`: it changes nothing. */
  lemma LeafRule(g: Arena, u: nat, grad: seq<real>, out: real)
    requires WellFormed(g) && u < |g| && |grad| == |g| && g[u].op.Leaf?
    ensures Propagate(grad, Edges(g, u), out) == grad
  {
  }

  /**
   * `a + b`: both operands receive `out.grad`; for `x + x` the single
   * child receives it twice. No other gradient changes.
   */
  lemma AddRule(g: Arena, u: nat, grad: seq<real>, out: real)
    requires WellFormed(g) && u < |g| && |grad| == |g| && g[u].op.Add?
    ensures
      var a, b, r := g[u].op.a, g[u].op.b, Propagate(grad, Edges(g, u), out);
      && |r| == |grad|
      && (a != b ==> r[a] == grad[a] + out && r[b] == grad[b] + out)
      && (a == b ==> r[a] == grad[a] + 2.0 * out)
      && (forall w | 0 <= w < |r| && w != a && w != b :: r[w] == grad[w])
  {
    assert NodeOk(g, u);
    var a, b := g[u].op.a, g[u].op.b;
    PropagatePair(grad, Edge(a, 1.0), Edge(b, 1.0), out);
  }

  /**
   * `a * b`: `a` receives `b.data * out.grad` and `b` receives
   * `a.data * out.grad`; for `x * x` the child receives `2 * x.data * out.grad`.
   */
  lemma MulRule(g: Arena, u: nat, grad: seq<real>, out: real)
    requires WellFormed(g) && u < |g| && |grad| == |g| && g[u].op.Mul?
    ensures
      var a, b, r := g[u].op.a, g[u].op.b, Propagate(grad, Edges(g, u), out);
      && |r| == |grad|
      && (a != b ==> r[a] == grad[a] + g[b].data * out && r[b] == grad[b] + g[a].data * out)
      && (a == b ==> r[a] == grad[a] + 2.0 * g[a].data * out)
      && (forall w | 0 <= w < |r| && w != a && w != b :: r[w] == grad[w])
  {
    assert NodeOk(g, u);
    var a, b := g[u].op.a, g[u].op.b;
    PropagatePair(grad, Edge(a, g[b].data), Edge(b, g[a].data), out);
  }

  /** `a ** k`: `a` receives `k * a.data ** (k - 1) * out.grad` (nothing for `k == 0`). */
  lemma PowRule(g: Arena, u: nat, grad: seq<real>, out: real)
    requires WellFormed(g) && u < |g| && |grad| == |g| && g[u].op.Pow?
    ensures NodeOk(g, u)
    ensures
      var a, k, r := g[u].op.a, g[u].op.k, Propagate(grad, Edges(g, u), out);
      && |r| == |grad|
      && (k == 0 ==> r[a] == grad[a])
      && (k != 0 && (k - 1 < 0 ==> g[a].data != 0.0) ==> r[a] == grad[a] + (k as real) * Power(g[a].data, k - 1) * out)
      && (forall w | 0 <= w < |r| && w != a :: r[w] == grad[w])
  {
    assert NodeOk(g, u);
    var a, k := g[u].op.a, g[u].op.k;
    PropagateOne(grad, Edge(a, PowSlope(g[a].data, k)), out);
  }

  /**
   * `relu`: `a` receives `out.grad` when the result is positive and nothing
   * otherwise, so an input of exactly 0 receives nothing.
   */
  lemma ReluRule(g: Arena, u: nat, grad: seq<real>, out: real)
    requires WellFormed(g) && u < |g| && |grad| == |g| && g[u].op.Relu?
    ensures
      var a, r := g[u].op.a, Propagate(grad, Edges(g, u), out);
      && |r| == |grad|
      && (g[a].data > 0.0 ==> r[a] == grad[a] + out)
      && (g[a].data <= 0.0 ==> r[a] == grad[a])
      && (forall w | 0 <= w < |r| && w != a :: r[w] == grad[w])
  {
    assert NodeOk(g, u);
    var a := g[u].op.a;
    PropagateOne(grad, Edge(a, if g[u].data > 0.0 then 1.0 else 0.0), out);
  }

  /** The chain rule at a leaf: its derivative with respect to any other node is 0. */
  lemma LeafSlope(g: Arena, u: nat, v: nat)
    requires WellFormed(g) && u < |g| && u != v && g[u].op.Leaf?
    ensures PathSum(g, u, v) == 0.0
  {
  }

  /** The chain rule at `a + b`: the derivatives of both operands add up. */
  lemma AddSlope(g: Arena, u: nat, v: nat)
    requires WellFormed(g) && u < |g| && u != v && g[u].op.Add?
    ensures NodeOk(g, u)
    ensures PathSum(g, u, v) == PathSum(g, g[u].op.a, v) + PathSum(g, g[u].op.b, v)
  {
    assert NodeOk(g, u);
    var es := Edges(g, u);
    assert es[1..][1..] == [];
    assert PathSum(g, u, v) == EdgeSum(g, es, u, v);
    assert EdgeSum(g, es, u, v) == Times(es[0].weight, PathSum(g, es[0].child, v)) + EdgeSum(g, es[1..], u, v);
    assert EdgeSum(g, es[1..], u, v) == Times(es[1].weight, PathSum(g, es[1].child, v));
  }

  /** The chain rule at `a * b`: each operand's derivative is scaled by the other operand's value. */
  lemma MulSlope(g: Arena, u: nat, v: nat)
    requires WellFormed(g) && u < |g| && u != v && g[u].op.Mul?
    ensures NodeOk(g, u)
    ensures PathSum(g, u, v) == Times(g[g[u].op.b].data, PathSum(g, g[u].op.a, v)) + Times(g[g[u].op.a].data, PathSum(g, g[u].op.b, v))
  {
    assert NodeOk(g, u);
    var es := Edges(g, u);
    assert es[1..][1..] == [];
    assert PathSum(g, u, v) == EdgeSum(g, es, u, v);
    assert EdgeSum(g, es, u, v) == Times(es[0].weight, PathSum(g, es[0].child, v)) + EdgeSum(g, es[1..], u, v);
    assert EdgeSum(g, es[1..], u, v) == Times(es[1].weight, PathSum(g, es[1].child, v));
  }

  /** The chain rule at `a ** k`: the operand's derivative is scaled by `k * a.data ** (k - 1)`. */
  lemma PowSlopeRule(g: Arena, u: nat, v: nat)
    requires WellFormed(g) && u < |g| && u != v && g[u].op.Pow?
    ensures NodeOk(g, u)
    ensures PathSum(g, u, v) == PowSlope(g[g[u].op.a].data, g[u].op.k) * PathSum(g, g[u].op.a, v)
  {
    assert NodeOk(g, u);
    var es := Edges(g, u);
    assert es[1..] == [];
    assert PathSum(g, u, v) == EdgeSum(g, es, u, v);
    assert EdgeSum(g, es, u, v) == Times(es[0].weight, PathSum(g, es[0].child, v));
  }

  /** The chain rule at `relu`: the operand's derivative passes through only when the result is positive. */
  lemma ReluSlope(g: Arena, u: nat, v: nat)
    requires WellFormed(g) && u < |g| && u != v && g[u].op.Relu?
    ensures NodeOk(g, u)
    ensures PathSum(g, u, v) == if g[u].data > 0.0 then PathSum(g, g[u].op.a, v) else 0.0
  {
    assert NodeOk(g, u);
    var es := Edges(g, u);
    assert es[1..] == [];
    assert PathSum(g, u, v) == EdgeSum(g, es, u, v);
    assert EdgeSum(g, es, u, v) == Times(es[0].weight, PathSum(g, es[0].child, v));
  }
}

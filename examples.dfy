/**
 * Small programs written against the engine, each building a graph on a
 * fresh tape, running `backward` and reading off values and gradients.
 */
module Examples {
  import opened Graph
  import opened Chain
  import opened Rules
  import opened Engine

  /** The shape of the tape of `e = a * b + a ** 2` with `a = -2` and `b = 3`: `a`, `b`, `a * b`, `a ** 2`, `e`. */
  predicate WorkedShape(g: Arena)
  {
    && |g| == 5 && WellFormed(g)
    && g[0] == Node(-2.0, Leaf) && g[1] == Node(3.0, Leaf)
    && g[2].op == Op.Mul(0, 1) && g[3].op == Op.Pow(0, 2) && g[4].op == Op.Add(2, 3)
  }

  /**
   * The forward value is `-6 + 4 = -2`, no closure divides by zero, and the
   * derivatives of `e` are `de/da = b + 2a = -1` and `de/db = a = -2`.
   */
  lemma WorkedSlopes(g: Arena)
    requires WorkedShape(g)
    ensures g[4].data == -2.0
    ensures forall u | 0 <= u < 5 :: RuleDefined(g, u)
    ensures Reachable(g, 4, 0) && Reachable(g, 4, 1)
    ensures PathSum(g, 4, 0) == -1.0 && PathSum(g, 4, 1) == -2.0
  {
    assert NodeOk(g, 2) && NodeOk(g, 3) && NodeOk(g, 4);
    assert Power(-2.0, 2) == 4.0;
    PathSumSelf(g, 0);
    PathSumSelf(g, 1);
    LeafSlope(g, 0, 1);
    LeafSlope(g, 1, 0);
    AddSlope(g, 4, 0);
    AddSlope(g, 4, 1);
    MulSlope(g, 2, 0);
    MulSlope(g, 2, 1);
    PowSlopeRule(g, 3, 0);
    PowSlopeRule(g, 3, 1);
  }

  /** `a = Value(-2.0)`, `b = Value(3.0)`, `e = a * b + a ** 2` on an empty tape. */
  method BuildWorked(t: Tape) returns (a: nat, b: nat, e: nat)
    requires t.Valid() && t.nodes == []
    modifies t
    ensures t.Valid() && WorkedShape(t.nodes) && t.grad == [0.0, 0.0, 0.0, 0.0, 0.0]
    ensures a == 0 && b == 1 && e == 4
  {
    a := t.Value(-2.0);
    b := t.Value(3.0);
    var d := t.Mul(a, Ref(b));
    var p := t.Pow(a, 2);
    e := t.Add(d, Ref(p.value));
    assert t.nodes[..2] == [Node(-2.0, Leaf), Node(3.0, Leaf)];
  }

  /**
   * `e.backward()` on that tape: `e.data` is -2, `a.grad` is
   * `b.data + 2 * a.data` and `b.grad` is `a.data`.
   */
  method WorkedExample() returns (e: real, ga: real, gb: real)
    ensures e == -2.0 && ga == -1.0 && gb == -2.0
  {
    var t := new Tape();
    var a, b, s := BuildWorked(t);
    ghost var g, zero := t.nodes, t.grad;
    WorkedSlopes(g);
    var ok := t.Backward(s);
    FreshGradients(g, zero, t.grad, s);
    e, ga, gb := t.nodes[s].data, t.grad[a], t.grad[b];
  }

  /** `x = Value(2.0)`, `y = x ** 3`, `y.backward()`: `y.data` is 8 and `x.grad` is `3 * 2 ** 2 = 12`. */
  method CubeExample() returns (y: real, gx: real)
    ensures y == 8.0 && gx == 12.0
  {
    var t := new Tape();
    var x := t.Value(2.0);
    var p := t.Pow(x, 3);
    ghost var g, zero := t.nodes, t.grad;
    assert Power(2.0, 3) == 8.0 && Power(2.0, 2) == 4.0;
    assert NodeOk(g, 1) && Reachable(g, 1, 0);
    PathSumSelf(g, 0);
    PowSlopeRule(g, 1, 0);
    var ok := t.Backward(p.value);
    FreshGradients(g, zero, t.grad, 1);
    y, gx := t.nodes[1].data, t.grad[x];
  }

  /** `y = x + x`, `y.backward()`: `x` is `y`'s only child but receives `out.grad` twice. */
  method SharedSum(v: real) returns (gx: real)
    ensures gx == 2.0
  {
    var t := new Tape();
    var x := t.Value(v);
    var y := t.Add(x, Ref(x));
    ghost var g, zero := t.nodes, t.grad;
    assert NodeOk(g, 1) && Reachable(g, 1, 0);
    PathSumSelf(g, 0);
    AddSlope(g, 1, 0);
    var ok := t.Backward(y);
    FreshGradients(g, zero, t.grad, 1);
    gx := t.grad[x];
  }

  /** `y = x * x`, `y.backward()`: `x.grad` is `2 * x.data`. */
  method SharedProduct(v: real) returns (gx: real)
    ensures gx == 2.0 * v
  {
    var t := new Tape();
    var x := t.Value(v);
    var y := t.Mul(x, Ref(x));
    ghost var g, zero := t.nodes, t.grad;
    assert NodeOk(g, 1) && Reachable(g, 1, 0);
    PathSumSelf(g, 0);
    MulSlope(g, 1, 0);
    var ok := t.Backward(y);
    FreshGradients(g, zero, t.grad, 1);
    gx := t.grad[x];
  }

  /** `y = x.relu()`, `y.backward()`: `x.grad` is 1 for a positive input and 0 otherwise, also at exactly 0. */
  method ReluGate(v: real) returns (y: real, gx: real)
    ensures y == if v < 0.0 then 0.0 else v
    ensures gx == if v > 0.0 then 1.0 else 0.0
  {
    var t := new Tape();
    var x := t.Value(v);
    var r := t.Relu(x);
    ghost var g, zero := t.nodes, t.grad;
    assert NodeOk(g, 1) && Reachable(g, 1, 0);
    PathSumSelf(g, 0);
    ReluSlope(g, 1, 0);
    var ok := t.Backward(r);
    FreshGradients(g, zero, t.grad, 1);
    y, gx := t.nodes[r].data, t.grad[x];
  }

  /** The tape of `x = Value(1.0)`, `y = x * 3`, `z = y * 2`: `x`, `3`, `y`, `2`, `z`. */
  predicate ChainShape(g: Arena)
  {
    && |g| == 5 && WellFormed(g)
    && g[0] == Node(1.0, Leaf) && g[1] == Node(3.0, Leaf) && g[3] == Node(2.0, Leaf)
    && g[2].op == Op.Mul(0, 1) && g[4].op == Op.Mul(2, 3)
  }

  /** `z` reaches every node, and no closure divides by zero. */
  lemma ChainReach(g: Arena)
    requires ChainShape(g)
    ensures forall u | 0 <= u < 5 :: Reachable(g, 4, u) && RuleDefined(g, u)
  {
    assert NodeOk(g, 2) && NodeOk(g, 4);
    assert Reachable(g, 2, 0) && Reachable(g, 2, 1);
  }

  /** The derivatives of `x`, `3`, `y` and `2` with respect to the nodes below `z`, and of every node with respect to `z`. */
  lemma ChainLowerSlopes(g: Arena)
    requires ChainShape(g)
    ensures PathSum(g, 0, 0) == 1.0 && PathSum(g, 1, 0) == 0.0 && PathSum(g, 2, 0) == 3.0 && PathSum(g, 3, 0) == 0.0
    ensures PathSum(g, 2, 1) == 1.0 && PathSum(g, 3, 1) == 0.0 && PathSum(g, 2, 3) == 0.0
    ensures PathSum(g, 2, 2) == 1.0 && PathSum(g, 3, 2) == 0.0 && PathSum(g, 3, 3) == 1.0
    ensures PathSum(g, 0, 4) == 0.0 && PathSum(g, 1, 4) == 0.0 && PathSum(g, 2, 4) == 0.0
    ensures PathSum(g, 3, 4) == 0.0 && PathSum(g, 4, 4) == 1.0
  {
    assert NodeOk(g, 2);
    assert g[2].data == 3.0;
    forall u | 0 <= u < 5 ensures PathSum(g, u, u) == 1.0 {
      PathSumSelf(g, u);
    }
    forall u, v | u in {0, 1, 3} && 0 <= v < 5 && u != v ensures PathSum(g, u, v) == 0.0 {
      LeafSlope(g, u, v);
    }
    MulSlope(g, 2, 0);
    MulSlope(g, 2, 1);
    MulSlope(g, 2, 3);
    MulSlope(g, 2, 4);
  }

  /** The derivatives of `z`: `dz/dx = 6`, `dz/d3 = 2 * x = 2`, `dz/dy = 2`, `dz/d2 = y = 3`. */
  lemma ChainSlopes(g: Arena)
    requires ChainShape(g)
    ensures PathSum(g, 4, 0) == 6.0 && PathSum(g, 4, 1) == 2.0 && PathSum(g, 4, 2) == 2.0
    ensures PathSum(g, 4, 3) == 3.0 && PathSum(g, 4, 4) == 1.0
  {
    assert NodeOk(g, 2) && NodeOk(g, 4);
    assert g[2].data == 3.0;
    ChainLowerSlopes(g);
    MulSlope(g, 4, 0);
    MulSlope(g, 4, 1);
    MulSlope(g, 4, 2);
    MulSlope(g, 4, 3);
  }

  /** What each node holding `grad` passes on to `x` and to `z` in the second pass. */
  lemma ChainTerms(g: Arena, grad: seq<real>)
    requires ChainShape(g) && grad == [6.0, 2.0, 2.0, 3.0, 1.0]
    ensures Terms(grad[4 := 1.0], Slopes(g, 0)) == [6.0, 0.0, 6.0, 0.0, 6.0]
    ensures Terms(grad[4 := 1.0], Slopes(g, 4)) == [0.0, 0.0, 0.0, 0.0, 1.0]
  {
    ChainLowerSlopes(g);
    ChainSlopes(g);
  }

  /**
   * The second pass from `z`, over the gradients the first left: `z.grad` is
   * set back to 1, and `x` receives again what `z`, `y` and `x` itself hold.
   */
  lemma ChainSecondPass(g: Arena, grad: seq<real>)
    requires ChainShape(g) && grad == [6.0, 2.0, 2.0, 3.0, 1.0]
    ensures Gradient(g, grad, 4, 0) == 18.0 && Gradient(g, grad, 4, 4) == 1.0
  {
    ChainReach(g);
    ChainTerms(g, grad);
    var cx, cz := Terms(grad[4 := 1.0], Slopes(g, 0)), Terms(grad[4 := 1.0], Slopes(g, 4));
    assert cx == [6.0, 0.0, 6.0, 0.0, 6.0] && cz == [0.0, 0.0, 0.0, 0.0, 1.0];
    ReachSumStep(g, cx, 4, 0);
    ReachSumStep(g, cz, 4, 0);
    ReachSumStep(g, cx, 4, 1);
    ReachSumStep(g, cz, 4, 1);
    ReachSumStep(g, cx, 4, 2);
    ReachSumStep(g, cz, 4, 2);
    ReachSumStep(g, cx, 4, 3);
    ReachSumStep(g, cz, 4, 3);
    ReachSumStep(g, cx, 4, 4);
    ReachSumStep(g, cz, 4, 4);
  }

  /** `x = Value(1.0)`, `y = x * 3`, `z = y * 2` on an empty tape. */
  method BuildChain(t: Tape) returns (x: nat, z: nat)
    requires t.Valid() && t.nodes == []
    modifies t
    ensures t.Valid() && ChainShape(t.nodes) && t.grad == [0.0, 0.0, 0.0, 0.0, 0.0]
    ensures x == 0 && z == 4
  {
    x := t.Value(1.0);
    var y := t.Mul(x, Num(3.0));
    z := t.Mul(y, Num(2.0));
  }

  /**
   * `z.backward()` twice without `zero_grad` in between: the first pass
   * leaves `dz/dx = 6` in `x`, the second 18, not twice 6, and `z.grad` is
   * 1 after both, since the pass assigns the root's gradient.
   */
  method BackwardTwice() returns (first: real, second: real, root: real)
    ensures first == 6.0 && second == 18.0 && root == 1.0
    ensures second != 2.0 * first
  {
    var t := new Tape();
    var x, z := BuildChain(t);
    ghost var g, zero := t.nodes, t.grad;
    ChainReach(g);
    ChainSlopes(g);
    var ok := t.Backward(z);
    FreshGradients(g, zero, t.grad, z);
    first := t.grad[x];
    assert t.grad == [6.0, 2.0, 2.0, 3.0, 1.0];
    ChainSecondPass(g, t.grad);
    ok := t.Backward(z);
    second, root := t.grad[x], t.grad[z];
  }
}

/**
 * What reverse-mode differentiation computes over the arena: the local
 * derivative of each node with respect to each operand (what its
 * `_backward` closure multiplies `out.grad` by), the effect of one closure
 * on the gradients, and the chain rule as a sum over all paths.
 */
module Chain {
  import opened Graph

  /** One operand occurrence of a node and the local derivative along it. */
  datatype Edge = Edge(child: nat, weight: real)

  /** Every edge of `es` leads to an index below `n`. */
  predicate EdgesBelow(es: seq<Edge>, n: nat)
  {
    forall i | 0 <= i < |es| :: es[i].child < n
  }

  /** `k * x ** (k - 1)`, the derivative of `x ** k`; for `k == 0` it is 0. */
  function PowSlope(x: real, k: int): (r: real)
    requires k < 0 ==> x != 0.0
    ensures k == 0 ==> r == 0.0
    ensures k == 1 ==> r == 1.0
    ensures k == 2 ==> r == 2.0 * x
  {
    if k == 0 then 0.0 else (k as real) * Power(x, k - 1)
  }

  /**
   * The operand occurrences of node `u`, in the order its `_backward` closure
   * updates them, each with the factor it multiplies `out.grad` by. A repeated
   * operand (`x + x`, `x * x`) occurs twice.
   */
  function Edges(g: Arena, u: nat): (es: seq<Edge>)
    requires WellFormed(g) && u < |g|
    ensures |es| == |Operands(g[u].op)|
    ensures forall i | 0 <= i < |es| :: es[i].child == Operands(g[u].op)[i]
    ensures forall i | 0 <= i < |es| :: es[i].child < u && es[i].child in Prev(g[u].op)
  {
    assert NodeOk(g, u);
    match g[u].op
    case Leaf => []
    case Add(a, b) => [Edge(a, 1.0), Edge(b, 1.0)]
    case Mul(a, b) => [Edge(a, g[b].data), Edge(b, g[a].data)]
    case Pow(a, k) => [Edge(a, PowSlope(g[a].data, k))]
    case Relu(a) => [Edge(a, if g[u].data > 0.0 then 1.0 else 0.0)]
  }

  /**
   * Running the closure of node `u` does not divide by zero. It does for
   * `x ** 0` with `x.data == 0`, whose closure evaluates `0 ** -1`.
   */
  predicate RuleDefined(g: Arena, u: nat)
    requires WellFormed(g) && u < |g|
  {
    match g[u].op
    case Pow(a, k) => assert NodeOk(g, u); k != 0 || g[a].data != 0.0
    case _ => true
  }

  /** The sum of the local derivatives along the edges of `es` that lead to node `w`. */
  function WeightTo(es: seq<Edge>, w: nat): real
    decreases |es|
  {
    if es == [] then 0.0 else (if es[0].child == w then es[0].weight else 0.0) + WeightTo(es[1..], w)
  }

  /**
   * The effect of a `_backward` closure: `child.grad += weight * out.grad`,
   * edge by edge. What each node ends with is `PropagateAdds`; that nodes off
   * the edges keep their gradient is `PropagateFrame`.
   */
  function Propagate(grad: seq<real>, es: seq<Edge>, out: real): (r: seq<real>)
    requires EdgesBelow(es, |grad|)
    ensures |r| == |grad|
    decreases |es|
  {
    if es == [] then grad
    else Propagate(grad[es[0].child := grad[es[0].child] + Times(es[0].weight, out)], es[1..], out)
  }

  /**
   * What a closure adds: each node gains `out.grad` times the sum of the
   * local derivatives along the edges that lead to it (twice the weight for
   * `x + x`), and a node no edge leads to keeps its gradient.
   */
  lemma {:induction false} PropagateAdds(grad: seq<real>, es: seq<Edge>, out: real, w: nat)
    requires EdgesBelow(es, |grad|) && w < |grad|
    ensures Propagate(grad, es, out)[w] == grad[w] + Times(WeightTo(es, w), out)
    decreases |es|
  {
    if es != [] {
      var c, x := es[0].child, es[0].weight;
      var next := grad[c := grad[c] + Times(x, out)];
      PropagateAdds(next, es[1..], out, w);
      assert next[w] == grad[w] + Times(if c == w then x else 0.0, out);
    }
  }

  /** A closure changes only the gradients of the operands it names. */
  lemma {:induction false} PropagateFrame(grad: seq<real>, es: seq<Edge>, out: real, w: nat)
    requires EdgesBelow(es, |grad|) && w < |grad|
    requires forall i | 0 <= i < |es| :: es[i].child != w
    ensures Propagate(grad, es, out)[w] == grad[w]
    decreases |es|
  {
    if es != [] {
      PropagateFrame(grad[es[0].child := grad[es[0].child] + Times(es[0].weight, out)], es[1..], out, w);
    }
  }

  /**
   * The derivative of node `u` with respect to node `v`, by the chain rule:
   * the sum, over all paths from `u` down to `v`, of the product of the
   * local derivatives along the path (1 for the empty path when `u == v`).
   */
  function PathSum(g: Arena, u: nat, v: nat): real
    requires WellFormed(g) && u < |g|
    decreases u, 1, 0
  {
    (if u == v then 1.0 else 0.0) + EdgeSum(g, Edges(g, u), u, v)
  }

  /** The sum over `es` of each edge's weight times the derivative of its child with respect to `v`. */
  function EdgeSum(g: Arena, es: seq<Edge>, ghost bound: nat, v: nat): real
    requires WellFormed(g) && bound <= |g| && EdgesBelow(es, bound)
    decreases bound, 0, |es|
  {
    if es == [] then 0.0
    else Times(es[0].weight, PathSum(g, es[0].child, v)) + EdgeSum(g, es[1..], bound, v)
  }

  /** No path leads from `u` to a node it does not reach: the derivative is 0. */
  lemma {:induction false} PathSumUnreachable(g: Arena, u: nat, v: nat)
    requires WellFormed(g) && u < |g| && !Reachable(g, u, v)
    ensures PathSum(g, u, v) == 0.0
    decreases u, 1, 0
  {
    var es := Edges(g, u);
    forall i | 0 <= i < |es| ensures !Reachable(g, es[i].child, v) {
      if Reachable(g, es[i].child, v) {
        ReachableStep(g, u, es[i].child, v);
        assert false;
      }
    }
    EdgeSumUnreachable(g, es, u, v);
  }

  lemma {:induction false} EdgeSumUnreachable(g: Arena, es: seq<Edge>, bound: nat, v: nat)
    requires WellFormed(g) && bound <= |g| && EdgesBelow(es, bound)
    requires forall i | 0 <= i < |es| :: !Reachable(g, es[i].child, v)
    ensures EdgeSum(g, es, bound, v) == 0.0
    decreases bound, 0, |es|
  {
    if es != [] {
      PathSumUnreachable(g, es[0].child, v);
      EdgeSumUnreachable(g, es[1..], bound, v);
    }
  }

  /** A node's derivative with respect to itself is 1. */
  lemma PathSumSelf(g: Arena, u: nat)
    requires WellFormed(g) && u < |g|
    ensures PathSum(g, u, u) == 1.0
  {
    var es := Edges(g, u);
    forall i | 0 <= i < |es| ensures !Reachable(g, es[i].child, u) {
      if Reachable(g, es[i].child, u) {
        ReachableBelow(g, es[i].child, u);
      }
    }
    EdgeSumUnreachable(g, es, u, u);
  }

  /** `Σ_{e in es} e.weight * d[e.child]`: the edges' part of a derivative, given the children's. */
  function EdgeDot(es: seq<Edge>, d: seq<real>): real
    requires EdgesBelow(es, |d|)
    decreases |es|
  {
    if es == [] then 0.0
    else Times(es[0].weight, d[es[0].child]) + EdgeDot(es[1..], d)
  }

  /** The derivatives of every node with respect to `v`, as a table indexed by node. */
  function Slopes(g: Arena, v: nat): (d: seq<real>)
    requires WellFormed(g)
    ensures |d| == |g|
    ensures forall u | 0 <= u < |g| :: d[u] == PathSum(g, u, v)
  {
    seq(|g|, u requires 0 <= u < |g| => PathSum(g, u, v))
  }

  lemma {:induction false} EdgeSumIsDot(g: Arena, es: seq<Edge>, bound: nat, v: nat)
    requires WellFormed(g) && bound <= |g| && EdgesBelow(es, bound)
    ensures EdgeSum(g, es, bound, v) == EdgeDot(es, Slopes(g, v))
    decreases |es|
  {
    if es != [] {
      EdgeSumIsDot(g, es[1..], bound, v);
    }
  }

  /**
   * The chain rule for one node: its derivative is 1 at itself plus the
   * edges' part. This is `PathSum`'s own unfolding with the edge sum read as
   * a dot product against `Slopes`, the bridge the per-operator `Rules`
   * lemmas and the sweep invariant use; it is not a second definition.
   */
  lemma PathSumUnfold(g: Arena, u: nat, v: nat)
    requires WellFormed(g) && u < |g|
    ensures PathSum(g, u, v) == (if u == v then 1.0 else 0.0) + EdgeDot(Edges(g, u), Slopes(g, v))
  {
    EdgeSumIsDot(g, Edges(g, u), u, v);
  }

  /** Every index listed in `s` is below `n`. */
  predicate Within(s: seq<nat>, n: nat)
  {
    forall i | 0 <= i < |s| :: s[i] < n
  }

  /** No index is listed twice. */
  predicate Distinct(s: seq<nat>)
  {
    forall i, j | 0 <= i < j < |s| :: s[i] != s[j]
  }

  /** `Σ_{u in s} c[u]`. */
  function Total(c: seq<real>, s: seq<nat>): real
    requires Within(s, |c|)
  {
    if s == [] then 0.0 else Total(c, s[..|s| - 1]) + c[s[|s| - 1]]
  }

  /**
   * `grad[u] * d[u]` for every node `u`. With `d` the derivatives with
   * respect to `v`, `Total(Terms(grad, d), s)` is what the nodes of `s`,
   * holding gradients `grad`, still owe to `v`.
   */
  function Terms(grad: seq<real>, d: seq<real>): (c: seq<real>)
    requires |grad| == |d|
    ensures |c| == |grad|
  {
    seq(|grad|, u requires 0 <= u < |grad| => Times(grad[u], d[u]))
  }

  lemma {:induction false} TotalConcat(c: seq<real>, s: seq<nat>, t: seq<nat>)
    requires Within(s, |c|) && Within(t, |c|)
    ensures Within(s + t, |c|)
    ensures Total(c, s + t) == Total(c, s) + Total(c, t)
    decreases |t|
  {
    if t != [] {
      var t' := t[..|t| - 1];
      assert (s + t)[..|s + t| - 1] == s + t';
      assert (s + t)[|s + t| - 1] == t[|t| - 1];
      TotalConcat(c, s, t');
    } else {
      assert s + t == s;
    }
  }

  /** Summing with one element in the middle is summing without it, plus its term. */
  lemma TotalSplit(c: seq<real>, a: seq<nat>, x: nat, b: seq<nat>)
    requires Within(a, |c|) && x < |c| && Within(b, |c|)
    ensures Within(a + [x] + b, |c|) && Within(a + b, |c|)
    ensures Total(c, a + [x] + b) == Total(c, a + b) + c[x]
  {
    TotalConcat(c, a, [x]);
    TotalConcat(c, a + [x], b);
    TotalConcat(c, a, b);
    assert [x][..0] == [];
  }

  lemma TotalRemove(c: seq<real>, t: seq<nat>, i: nat)
    requires Within(t, |c|) && i < |t|
    ensures Within(t[..i] + t[i + 1..], |c|)
    ensures Total(c, t) == Total(c, t[..i] + t[i + 1..]) + c[t[i]]
  {
    assert t == t[..i] + [t[i]] + t[i + 1..];
    TotalSplit(c, t[..i], t[i], t[i + 1..]);
  }

  /** Changing an entry that `s` does not list changes nothing in its sum. */
  lemma {:induction false} TotalOutside(c: seq<real>, s: seq<nat>, i: nat, x: real)
    requires Within(s, |c|) && i < |c| && i !in s
    ensures Total(c[i := x], s) == Total(c, s)
    decreases |s|
  {
    if s != [] {
      TotalOutside(c, s[..|s| - 1], i, x);
    }
  }

  /** Adding `x` to an entry listed once in `s` adds `x` to its sum. */
  lemma {:induction false} TotalBump(c: seq<real>, s: seq<nat>, i: nat, x: real)
    requires Within(s, |c|) && i < |c| && Distinct(s) && i in s
    ensures Total(c[i := c[i] + x], s) == Total(c, s) + x
    decreases |s|
  {
    var s' := s[..|s| - 1];
    if s[|s| - 1] == i {
      assert i !in s';
      TotalOutside(c, s', i, c[i] + x);
    } else {
      assert i in s' by {
        var j :| 0 <= j < |s| && s[j] == i;
        assert s'[j] == i;
      }
      TotalBump(c, s', i, x);
    }
  }

  /** Entries that are all zero sum to zero. */
  lemma {:induction false} TotalZero(c: seq<real>, s: seq<nat>)
    requires Within(s, |c|)
    requires forall j | 0 <= j < |s| :: c[s[j]] == 0.0
    ensures Total(c, s) == 0.0
    decreases |s|
  {
    if s != [] {
      TotalZero(c, s[..|s| - 1]);
    }
  }

  /** Taking one element out of a repetition-free list. */
  lemma RemoveAt(t: seq<nat>, i: nat) returns (t': seq<nat>)
    requires Distinct(t) && i < |t|
    ensures t' == t[..i] + t[i + 1..] && Distinct(t')
    ensures forall u :: u in t' <==> u in t && u != t[i]
  {
    t' := t[..i] + t[i + 1..];
    forall u | u in t' ensures u in t && u != t[i] {
      var j :| 0 <= j < |t'| && t'[j] == u;
      var j' := if j < i then j else j + 1;
      assert t'[j] == t[j'] && j' != i;
    }
    forall a, b | 0 <= a < b < |t'| ensures t'[a] != t'[b] {
      var a' := if a < i then a else a + 1;
      var b' := if b < i then b else b + 1;
      assert t'[a] == t[a'] && t'[b] == t[b'] && a' < b';
    }
  }

  lemma Distribute(a: real, x: real, b: real)
    ensures Times(a + x, b) == Times(a, b) + Times(x, b)
  {
  }

  lemma TermsBump(grad: seq<real>, d: seq<real>, i: nat, x: real)
    requires |grad| == |d| && i < |d|
    ensures Terms(grad[i := grad[i] + x], d) == Terms(grad, d)[i := Terms(grad, d)[i] + Times(x, d[i])]
  {
    var l, r := Terms(grad[i := grad[i] + x], d), Terms(grad, d)[i := Terms(grad, d)[i] + Times(x, d[i])];
    forall u | 0 <= u < |l| ensures l[u] == r[u] {
      if u == i {
        Distribute(grad[i], x, d[i]);
      }
    }
    assert l == r;
  }

  /** Adding `x` to the gradient of a node listed once in `s` adds `x` times its derivative to what `s` owes. */
  lemma TotalTermsBump(grad: seq<real>, d: seq<real>, s: seq<nat>, i: nat, x: real)
    requires |grad| == |d| && Within(s, |d|) && Distinct(s) && i in s && i < |d|
    ensures Total(Terms(grad[i := grad[i] + x], d), s) == Total(Terms(grad, d), s) + Times(x, d[i])
  {
    TermsBump(grad, d, i, x);
    TotalBump(Terms(grad, d), s, i, Times(x, d[i]));
  }

  lemma Regroup(x: real, w: real, out: real, dc: real, rest: real, dot: real)
    requires x == Times(w, out) && dot == Times(w, dc) + rest
    ensures Times(x, dc) + Times(out, rest) == Times(out, dot)
  {
  }

  /**
   * Running a closure moves what its node owes onto its children: if the
   * children are listed once in `s`, what `s` owes grows by `out` times the
   * edges' part of the node's derivative.
   */
  lemma {:induction false} TotalPropagate(grad: seq<real>, d: seq<real>, s: seq<nat>, es: seq<Edge>, out: real)
    requires |grad| == |d| && Within(s, |d|) && Distinct(s) && EdgesBelow(es, |d|)
    requires forall i | 0 <= i < |es| :: es[i].child in s
    ensures Total(Terms(Propagate(grad, es, out), d), s) == Total(Terms(grad, d), s) + Times(out, EdgeDot(es, d))
    decreases |es|
  {
    if es != [] {
      TotalTermsBump(grad, d, s, es[0].child, Times(es[0].weight, out));
      TotalPropagate(grad[es[0].child := grad[es[0].child] + Times(es[0].weight, out)], d, s, es[1..], out);
      Regroup(Times(es[0].weight, out), es[0].weight, out, d[es[0].child], EdgeDot(es[1..], d), EdgeDot(es, d));
    }
  }

  /** `Σ_{u < n, u reachable from r} c[u]`, in index order. */
  function ReachSum(g: Arena, c: seq<real>, r: nat, n: nat): real
    requires WellFormed(g) && r < |g| && n <= |c|
  {
    if n == 0 then 0.0
    else ReachSum(g, c, r, n - 1) + (if Reachable(g, r, n - 1) then c[n - 1] else 0.0)
  }

  /** One more index in the sum: a reachable node adds its entry. */
  lemma ReachSumStep(g: Arena, c: seq<real>, r: nat, n: nat)
    requires WellFormed(g) && r < |g| && n < |c| && Reachable(g, r, n)
    ensures ReachSum(g, c, r, n + 1) == ReachSum(g, c, r, n) + c[n]
  {
  }

  /**
   * The gradient `backward` from root `r` leaves in node `w`, given the
   * gradients `grad` before the pass: the root's gradient is set to 1, and
   * each node reachable from the root contributes its gradient times the
   * derivative of that node with respect to `w`.
   */
  function Gradient(g: Arena, grad: seq<real>, r: nat, w: nat): real
    requires WellFormed(g) && |grad| == |g| && r < |g|
  {
    ReachSum(g, Terms(grad[r := 1.0], Slopes(g, w)), r, |g|)
  }

  /**
   * The root's own entry in `Gradient`: of the nodes the root reaches, only
   * the root itself reaches the root, and it is seeded with 1.
   */
  lemma {:induction false} ReachSumRoot(g: Arena, grad: seq<real>, r: nat, n: nat)
    requires WellFormed(g) && |grad| == |g| && r < |g| && n <= |g|
    ensures ReachSum(g, Terms(grad[r := 1.0], Slopes(g, r)), r, n) == if r < n then 1.0 else 0.0
  {
    var c := Terms(grad[r := 1.0], Slopes(g, r));
    if n > 0 {
      var u := n - 1;
      ReachSumRoot(g, grad, r, u);
      if Reachable(g, r, u) {
        ReachableBelow(g, r, u);
        if u < r {
          if Reachable(g, u, r) {
            ReachableBelow(g, u, r);
          }
          PathSumUnreachable(g, u, r);
          assert c[u] == Times(grad[u], 0.0);
        } else {
          PathSumSelf(g, r);
          assert c[u] == Times(1.0, 1.0);
        }
      }
    }
  }

  /** `backward` leaves the root's gradient at exactly 1, whatever it held before. */
  lemma GradientRoot(g: Arena, grad: seq<real>, r: nat)
    requires WellFormed(g) && |grad| == |g| && r < |g|
    ensures Gradient(g, grad, r, r) == 1.0
  {
    ReachSumRoot(g, grad, r, |g|);
  }

  /** A list that holds no number is empty. */
  lemma NothingListed(t: seq<nat>)
    requires forall u: nat :: u !in t
    ensures t == []
  {
    HeadListed(t);
  }

  lemma HeadListed(t: seq<nat>)
    ensures |t| > 0 ==> t[0] in t
  {
  }

  /** Taking the last reachable node `n - 1` out of a listing of the reachable nodes below `n`. */
  lemma TotalLast(g: Arena, c: seq<real>, t: seq<nat>, r: nat, n: nat) returns (t': seq<nat>)
    requires WellFormed(g) && r < |g| && 0 < n <= |c|
    requires Distinct(t) && Within(t, |c|) && Reachable(g, r, n - 1)
    requires forall u: nat :: u in t <==> u < n && Reachable(g, r, u)
    ensures Distinct(t') && Within(t', |c|)
    ensures forall u: nat :: u in t' <==> u < n - 1 && Reachable(g, r, u)
    ensures Total(c, t) == Total(c, t') + c[n - 1]
  {
    assert n - 1 in t;
    var i :| 0 <= i < |t| && t[i] == n - 1;
    t' := RemoveAt(t, i);
    TotalRemove(c, t, i);
  }

  /** The listing of the reachable nodes below `n` also lists those below `n - 1` when `n - 1` is not reachable. */
  lemma SkipUnreachable(g: Arena, t: seq<nat>, r: nat, n: nat)
    requires WellFormed(g) && r < |g| && 0 < n && !Reachable(g, r, n - 1)
    requires forall u: nat :: u in t <==> u < n && Reachable(g, r, u)
    ensures forall u: nat :: u in t <==> u < n - 1 && Reachable(g, r, u)
  {
  }

  /** Summing over a repetition-free listing of the reachable nodes, in any order, gives the same total. */
  lemma {:induction false} TotalIsReachSum(g: Arena, c: seq<real>, t: seq<nat>, r: nat, n: nat)
    requires WellFormed(g) && r < |g| && n <= |c|
    requires Distinct(t) && Within(t, |c|)
    requires forall u: nat :: u in t <==> u < n && Reachable(g, r, u)
    ensures Total(c, t) == ReachSum(g, c, r, n)
    decreases n
  {
    if n == 0 {
      NothingListed(t);
    } else if Reachable(g, r, n - 1) {
      var t' := TotalLast(g, c, t, r, n);
      TotalIsReachSum(g, c, t', r, n - 1);
    } else {
      SkipUnreachable(g, t, r, n);
      TotalIsReachSum(g, c, t, r, n - 1);
    }
  }

  /**
   * With every gradient reachable from the root at zero before the pass, the
   * gradient left in `w` is the derivative of the root with respect to `w`.
   */
  lemma GradientFromZero(g: Arena, grad: seq<real>, r: nat, w: nat)
    requires WellFormed(g) && |grad| == |g| && r < |g|
    requires forall u | 0 <= u < |g| && u != r && Reachable(g, r, u) :: grad[u] == 0.0
    ensures Gradient(g, grad, r, w) == PathSum(g, r, w)
  {
    var c := Terms(grad[r := 1.0], Slopes(g, w));
    assert c[r] == PathSum(g, r, w);
    ReachSumSingle(g, c, r, |g|);
  }

  /**
   * A pass over gradients that were all 0 leaves in every node the root
   * reaches the derivative of the root with respect to that node.
   */
  lemma FreshGradients(g: Arena, before: seq<real>, after: seq<real>, r: nat)
    requires WellFormed(g) && |before| == |g| && |after| == |g| && r < |g|
    requires forall u | 0 <= u < |g| :: before[u] == 0.0
    requires forall w | 0 <= w < |g| && Reachable(g, r, w) :: after[w] == Gradient(g, before, r, w)
    ensures forall w | 0 <= w < |g| && Reachable(g, r, w) :: after[w] == PathSum(g, r, w)
  {
    forall w | 0 <= w < |g| && Reachable(g, r, w) ensures after[w] == PathSum(g, r, w) {
      GradientFromZero(g, before, r, w);
    }
  }

  /** When only the root's entry may be nonzero among the reachable nodes, the sum is that entry. */
  lemma {:induction false} ReachSumSingle(g: Arena, c: seq<real>, r: nat, n: nat)
    requires WellFormed(g) && r < |g| && n <= |c|
    requires forall u | 0 <= u < |c| && u != r && Reachable(g, r, u) :: c[u] == 0.0
    ensures ReachSum(g, c, r, n) == if r < n then c[r] else 0.0
    decreases n
  {
    if n > 0 {
      ReachSumSingle(g, c, r, n - 1);
      if n - 1 == r {
        assert Reachable(g, r, r);
      }
    }
  }
}

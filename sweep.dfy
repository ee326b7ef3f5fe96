/**
 * The reverse sweep of `backward`: running the `_backward` closures of the
 * topologically sorted nodes from last to first. The invariant says what
 * each gradient holds part way through, in terms of the chain rule.
 */
module Sweep {
  import opened Graph
  import opened Topo
  import opened Chain

  /** A topological order lists arena nodes, none twice. */
  lemma TopoListing(g: Arena, t: seq<nat>, k: nat)
    requires TopoOrder(g, t) && k <= |t|
    ensures Within(t, |g|) && Distinct(t)
    ensures Within(t[..k], |g|) && Distinct(t[..k])
  {
    forall i, j | 0 <= i < j < |t| ensures t[i] != t[j] {
      TopoDistinct(g, t, i, j);
    }
  }

  /**
   * What the nodes of `s`, holding gradients `grad`, pass on to node `x`
   * once all their closures and those of the nodes between have run.
   */
  function Owed(g: Arena, grad: seq<real>, s: seq<nat>, x: nat): real
    requires WellFormed(g) && |grad| == |g| && Within(s, |g|)
  {
    Total(Terms(grad, Slopes(g, x)), s)
  }

  /**
   * The sweep invariant, with the closures of `t[k..]` already run and
   * `seed` the gradients when the sweep began:
   * the nodes `t[k..]` hold their final gradient (nothing run later adds to
   * them), the nodes `t[..k]` will still receive exactly what they are owed,
   * and the nodes outside `t` are untouched.
   */
  predicate SweepInv(g: Arena, t: seq<nat>, seed: seq<real>, grad: seq<real>, k: nat)
    requires WellFormed(g) && TopoOrder(g, t) && |seed| == |g| && k <= |t|
  {
    TopoListing(g, t, k);
    && |grad| == |g|
    && (forall j | k <= j < |t| :: grad[t[j]] == Owed(g, seed, t, t[j]))
    && (forall j | 0 <= j < k :: Owed(g, grad, t[..k], t[j]) == Owed(g, seed, t, t[j]))
    && (forall x | 0 <= x < |g| && x !in t :: grad[x] == seed[x])
  }

  /** Before any closure has run, the invariant holds with the gradients as they are. */
  lemma SweepStart(g: Arena, t: seq<nat>, seed: seq<real>)
    requires WellFormed(g) && TopoOrder(g, t) && |seed| == |g|
    ensures SweepInv(g, t, seed, seed, |t|)
  {
    TopoListing(g, t, |t|);
    assert t[..|t|] == t;
  }

  /** When only the last node of `t[..m + 1]` has a nonzero derivative, the total is that node's term. */
  lemma TotalLastOnly(grad: seq<real>, d: seq<real>, t: seq<nat>, m: nat)
    requires |grad| == |d| && m < |t| && Within(t[..m + 1], |d|)
    requires forall j | 0 <= j < m :: d[t[j]] == 0.0
    ensures Total(Terms(grad, d), t[..m + 1]) == Times(grad[t[m]], d[t[m]])
  {
    var c, s := Terms(grad, d), t[..m + 1];
    assert s[..m] == t[..m];
    forall j | 0 <= j < m ensures c[t[..m][j]] == 0.0 {
      assert t[..m][j] == t[j];
    }
    TotalZero(c, t[..m]);
  }

  /** A node's own term is its gradient: no node listed before it contributes to it. */
  lemma OwedBySelf(g: Arena, t: seq<nat>, grad: seq<real>, m: nat)
    requires WellFormed(g) && TopoOrder(g, t) && |grad| == |g| && m < |t|
    ensures Within(t[..m + 1], |g|)
    ensures Owed(g, grad, t[..m + 1], t[m]) == grad[t[m]]
  {
    TopoListing(g, t, m + 1);
    var d := Slopes(g, t[m]);
    forall j | 0 <= j < m ensures d[t[j]] == 0.0 {
      NoReachForward(g, t, j, m);
      PathSumUnreachable(g, t[j], t[m]);
    }
    PathSumSelf(g, t[m]);
    TotalLastOnly(grad, d, t, m);
  }

  /** The operands of `t[m]`, whose gradients its closure updates, are listed before it. */
  lemma ChildrenEarlier(g: Arena, t: seq<nat>, m: nat, es: seq<Edge>)
    requires WellFormed(g) && TopoOrder(g, t) && m < |t| && es == Edges(g, t[m])
    ensures forall i | 0 <= i < |es| :: es[i].child in t[..m]
  {
  }

  /**
   * Running the closure of `t[m]` hands what it owes on to the nodes before
   * it: the total over `t[..m + 1]` is kept, over `t[..m]`.
   */
  lemma TotalHandOn(grad: seq<real>, d: seq<real>, t: seq<nat>, m: nat, es: seq<Edge>)
    requires |grad| == |d| && m < |t| && Within(t[..m + 1], |d|) && Distinct(t[..m]) && EdgesBelow(es, |d|)
    requires forall i | 0 <= i < |es| :: es[i].child in t[..m]
    requires d[t[m]] == EdgeDot(es, d)
    ensures Within(t[..m], |d|)
    ensures Total(Terms(Propagate(grad, es, grad[t[m]]), d), t[..m]) == Total(Terms(grad, d), t[..m + 1])
  {
    assert t[..m + 1][..m] == t[..m];
    TotalPropagate(grad, d, t[..m], es, grad[t[m]]);
  }

  /** Running the closure of `t[m]` keeps what every earlier node will receive. */
  lemma StepOwed(g: Arena, t: seq<nat>, grad: seq<real>, m: nat, j: nat)
    requires WellFormed(g) && TopoOrder(g, t) && |grad| == |g| && j < m < |t|
    ensures Within(t[..m + 1], |g|) && Within(t[..m], |g|)
    ensures Owed(g, Propagate(grad, Edges(g, t[m]), grad[t[m]]), t[..m], t[j]) == Owed(g, grad, t[..m + 1], t[j])
  {
    TopoListing(g, t, m + 1);
    TopoListing(g, t, m);
    TopoDistinct(g, t, j, m);
    var es := Edges(g, t[m]);
    ChildrenEarlier(g, t, m, es);
    PathSumUnfold(g, t[m], t[j]);
    TotalHandOn(grad, Slopes(g, t[j]), t, m, es);
  }

  /** Running the closure of the next node, `t[m]`, keeps the invariant. */
  lemma SweepStep(g: Arena, t: seq<nat>, seed: seq<real>, grad: seq<real>, m: nat)
    requires WellFormed(g) && TopoOrder(g, t) && |seed| == |g| && m < |t|
    requires SweepInv(g, t, seed, grad, m + 1)
    ensures SweepInv(g, t, seed, Propagate(grad, Edges(g, t[m]), grad[t[m]]), m)
  {
    TopoListing(g, t, m);
    var u := t[m];
    var es := Edges(g, u);
    var grad' := Propagate(grad, es, grad[u]);
    ChildrenEarlier(g, t, m, es);
    OwedBySelf(g, t, grad, m);
    forall j | m <= j < |t| ensures grad'[t[j]] == Owed(g, seed, t, t[j]) {
      forall i | 0 <= i < |es| ensures es[i].child != t[j] {
        var c := es[i].child;
        assert c in t[..m];
        var h :| 0 <= h < m && t[h] == c;
        TopoDistinct(g, t, h, j);
      }
      PropagateFrame(grad, es, grad[u], t[j]);
    }
    forall x | 0 <= x < |g| && x !in t ensures grad'[x] == seed[x] {
      forall i | 0 <= i < |es| ensures es[i].child != x {
        assert es[i].child in t[..m];
      }
      PropagateFrame(grad, es, grad[u], x);
    }
    forall j | 0 <= j < m ensures Owed(g, grad', t[..m], t[j]) == Owed(g, seed, t, t[j]) {
      StepOwed(g, t, grad, m, j);
    }
  }

  /**
   * When the sweep is over and `t` lists exactly the nodes reachable from
   * `r`, each of them holds the gradient the chain rule gives it.
   */
  lemma SweepEnd(g: Arena, t: seq<nat>, seed: seq<real>, grad: seq<real>, r: nat, w: nat)
    requires WellFormed(g) && TopoOrder(g, t) && |seed| == |g| && r < |g| && w < |g|
    requires forall u :: u in t <==> Reachable(g, r, u)
    requires SweepInv(g, t, seed, grad, 0)
    ensures grad[w] == if Reachable(g, r, w) then ReachSum(g, Terms(seed, Slopes(g, w)), r, |g|) else seed[w]
  {
    TopoListing(g, t, 0);
    if Reachable(g, r, w) {
      var j :| 0 <= j < |t| && t[j] == w;
      forall u: nat ensures u in t <==> u < |g| && Reachable(g, r, u) {
        if Reachable(g, r, u) {
          ReachableBelow(g, r, u);
        }
      }
      TotalIsReachSum(g, Terms(seed, Slopes(g, w)), t, r, |g|);
    }
  }

  /**
   * The whole pass from root `r`, whose gradient is first set to 1: with `t`
   * listing exactly the nodes `r` reaches, the gradients the sweep leaves are
   * those of `Gradient`, and the nodes `r` does not reach keep theirs.
   */
  lemma SweepDone(g: Arena, t: seq<nat>, before: seq<real>, grad: seq<real>, r: nat)
    requires WellFormed(g) && TopoOrder(g, t) && |before| == |g| && r < |g|
    requires forall u :: u in t <==> Reachable(g, r, u)
    requires SweepInv(g, t, before[r := 1.0], grad, 0)
    ensures |grad| == |g|
    ensures forall w | 0 <= w < |g| :: grad[w] == if Reachable(g, r, w) then Gradient(g, before, r, w) else before[w]
  {
    forall w | 0 <= w < |g| ensures grad[w] == if Reachable(g, r, w) then Gradient(g, before, r, w) else before[w] {
      SweepEnd(g, t, before[r := 1.0], grad, r, w);
      assert Reachable(g, r, r);
    }
  }

  /** The nodes `r` does not reach are outside `t`, so the pass leaves their gradients alone. */
  lemma SweepOutside(g: Arena, t: seq<nat>, before: seq<real>, grad: seq<real>, r: nat)
    requires WellFormed(g) && |before| == |g| && |grad| == |g| && r < |g|
    requires forall u :: u in t <==> Reachable(g, r, u)
    requires forall x | 0 <= x < |g| && x !in t :: grad[x] == before[r := 1.0][x]
    ensures forall w | 0 <= w < |g| && !Reachable(g, r, w) :: grad[w] == before[w]
  {
    assert Reachable(g, r, r);
  }
}

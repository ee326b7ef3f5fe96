/**
 * The topological sort that `backward` runs before propagating gradients:
 * a recursive depth-first search over `_prev` with a `visited` set, which
 * appends a node to `topo` only after all of its children.
 */
module Topo {
  import opened Graph

  /**
   * `t` lists arena nodes without repetition, and every node comes after
   * all of its operands.
   */
  predicate TopoOrder(g: Arena, t: seq<nat>)
  {
    forall i | 0 <= i < |t| ::
      && t[i] < |g|
      && t[i] !in t[..i]
      && forall c | c in Prev(g[t[i]].op) :: c in t[..i]
  }

  lemma TopoDistinct(g: Arena, t: seq<nat>, i: nat, j: nat)
    requires TopoOrder(g, t) && i < j < |t|
    ensures t[i] != t[j]
  {
    assert t[i] in t[..j];
  }

  /** Everything reachable from a listed node is listed no later than that node. */
  lemma {:induction false} TopoClosed(g: Arena, t: seq<nat>, i: nat, u: nat) returns (k: nat)
    requires WellFormed(g) && TopoOrder(g, t) && i < |t| && Reachable(g, t[i], u)
    ensures k <= i && t[k] == u
    decreases t[i]
  {
    if u == t[i] {
      return i;
    }
    var c := ReachableSplit(g, t[i], u);
    assert c in t[..i];
    var j :| 0 <= j < i && t[j] == c;
    k := TopoClosed(g, t, j, u);
  }

  /** Everything reachable from a listed node is listed. */
  lemma TopoReach(g: Arena, t: seq<nat>, v: nat)
    requires WellFormed(g) && TopoOrder(g, t) && v in t
    ensures forall u | Reachable(g, v, u) :: u in t
  {
    var i :| 0 <= i < |t| && t[i] == v;
    forall u | Reachable(g, v, u) ensures u in t {
      var k := TopoClosed(g, t, i, u);
    }
  }

  /** A node listed earlier cannot reach a node listed later. */
  lemma NoReachForward(g: Arena, t: seq<nat>, i: nat, j: nat)
    requires WellFormed(g) && TopoOrder(g, t) && i < j < |t|
    ensures !Reachable(g, t[i], t[j])
  {
    if Reachable(g, t[i], t[j]) {
      var k := TopoClosed(g, t, i, t[j]);
      TopoDistinct(g, t, k, j);
    }
  }

  /**
   * Read backwards, a topological order visits every consumer of a node
   * before the node itself: if `t[j]` is an operand of `t[i]` then `j < i`.
   */
  lemma ConsumersFirst(g: Arena, t: seq<nat>, i: nat, j: nat)
    requires TopoOrder(g, t) && i < |t| && j < |t|
    requires t[j] in Prev(g[t[i]].op)
    ensures j < i
  {
    assert t[j] in t[..i];
    assert t[j] !in t[..j];
  }

  /** Appending a node whose operands are all listed keeps the order topological. */
  lemma TopoAppend(g: Arena, t: seq<nat>, v: nat)
    requires TopoOrder(g, t) && v < |g| && v !in t
    requires forall c | c in Prev(g[v].op) :: c in t
    ensures TopoOrder(g, t + [v])
  {
    var t' := t + [v];
    forall i | 0 <= i < |t'|
      ensures t'[i] < |g| && t'[i] !in t'[..i] && forall c | c in Prev(g[t'[i]].op) :: c in t'[..i]
    {
      if i < |t| {
        assert t'[..i] == t[..i];
      } else {
        assert t'[..i] == t;
      }
    }
  }

  /** What the search from child `c` added to `topo` is reachable from `v` and below it. */
  lemma ChildVisited(g: Arena, v: nat, c: nat, topo: seq<nat>, before: seq<nat>, after: seq<nat>)
    requires WellFormed(g) && v < |g| && c in Prev(g[v].op) && c < v
    requires forall u | u in before :: u in topo || (Reachable(g, v, u) && u < v)
    requires forall u :: u in after <==> u in before || Reachable(g, c, u)
    ensures forall u | u in after :: u in topo || (Reachable(g, v, u) && u < v)
  {
    assert NodeOk(g, v);
    forall u | u in after ensures u in topo || (Reachable(g, v, u) && u < v) {
      if u !in before {
        ReachableStep(g, v, c, u);
        ReachableBelow(g, c, u);
      }
    }
  }

  /** Once all children are searched, appending `v` lists exactly what `v` reaches. */
  lemma FinishVisit(g: Arena, v: nat, topo: seq<nat>, t: seq<nat>)
    requires WellFormed(g) && v < |g| && TopoOrder(g, t) && topo <= t && v !in topo
    requires forall u | u in t :: u in topo || (Reachable(g, v, u) && u < v)
    requires forall c | c in Prev(g[v].op) :: c in t
    ensures TopoOrder(g, t + [v]) && topo <= t + [v]
    ensures forall u :: u in t + [v] <==> u in topo || Reachable(g, v, u)
  {
    forall u | Reachable(g, v, u) && u != v ensures u in t {
      var c := ReachableSplit(g, v, u);
      TopoReach(g, t, c);
    }
    TopoAppend(g, t, v);
  }

  /**
   * `build_topo(v)`. The call stack holds the nodes whose search has started
   * but not finished: they are visited but not yet in `topo`, and each is an
   * ancestor of `v`, so it has a larger index than `v`.
   */
  method BuildTopo(g: Arena, v: nat, ghost stack: set<nat>, visited: set<nat>, topo: seq<nat>)
    returns (visited': set<nat>, topo': seq<nat>)
    requires WellFormed(g) && v < |g|
    requires TopoOrder(g, topo)
    requires forall u :: u in visited <==> u in topo || u in stack
    requires forall s | s in stack :: v < s
    ensures TopoOrder(g, topo')
    ensures topo <= topo'
    ensures forall u :: u in topo' <==> u in topo || Reachable(g, v, u)
    ensures forall u :: u in visited' <==> u in topo' || u in stack
    ensures v in visited ==> topo' == topo
    ensures v !in visited ==> |topo'| > 0 && topo'[|topo'| - 1] == v
    decreases v
  {
    if v in visited {
      TopoReach(g, topo, v);
      return visited, topo;
    }
    visited', topo' := visited + {v}, topo;
    var todo := Prev(g[v].op);
    assert NodeOk(g, v);
    while todo != {}
      invariant todo <= Prev(g[v].op)
      invariant TopoOrder(g, topo') && topo <= topo'
      invariant forall u | u in topo' :: u in topo || (Reachable(g, v, u) && u < v)
      invariant forall c | c in Prev(g[v].op) && c !in todo :: c in topo'
      invariant forall u :: u in visited' <==> u in topo' || u in stack || u == v
      decreases todo
    {
      var c :| c in todo;
      todo := todo - {c};
      ghost var before := topo';
      visited', topo' := BuildTopo(g, c, stack + {v}, visited', topo');
      ChildVisited(g, v, c, topo, before, topo');
    }
    FinishVisit(g, v, topo, topo');
    topo' := topo' + [v];
  }
}

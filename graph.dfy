/**
 * The computation graph built by the scalar autograd engine (class `Value`).
 *
 * Nodes live in an arena addressed by index. A node's operands always have
 * smaller indices than the node itself, because an operator can only combine
 * nodes that already exist; so the graph is acyclic by construction.
 */
module Graph {

  /** The operator that produced a node (`_op`), with its operand indices. */
  datatype Op =
    | Leaf
    | Add(a: nat, b: nat)
    | Mul(a: nat, b: nat)
    | Pow(a: nat, k: int)
    | Relu(a: nat)

  /** A node: its forward value `data` and the operator that produced it. */
  datatype Node = Node(data: real, op: Op)

  type Arena = seq<Node>

  /**
   * The `_children` tuple, in order: `(self, other)` for a binary operator,
   * `(self,)` for `**` and `relu`, and nothing for a leaf. `Prev` gives the
   * same operands as a set, and `Chain.Edges` pairs each with its local
   * derivative.
   */
  function Operands(op: Op): (ops: seq<nat>)
    ensures |ops| == (if op.Leaf? then 0 else if op.Pow? || op.Relu? then 1 else 2)
  {
    match op
    case Leaf => []
    case Add(a, b) => [a, b]
    case Mul(a, b) => [a, b]
    case Pow(a, _) => [a]
    case Relu(a) => [a]
  }

  /** `_prev`, the operands as a set: `x + x` has the single child `x`. */
  function Prev(op: Op): (s: set<nat>)
    ensures forall c :: c in s <==> c in Operands(op)
    ensures |s| <= |Operands(op)|
  {
    match op
    case Leaf => {}
    case Add(a, b) => {a, b}
    case Mul(a, b) => {a, b}
    case Pow(a, _) => {a}
    case Relu(a) => {a}
  }

  /** Real multiplication, as one term, so that equal products are recognised as equal. */
  function Times(a: real, b: real): real
  {
    a * b
  }

  /** `x ** n` for an integer exponent; a negative exponent divides by `x`. */
  function Power(x: real, n: int): (r: real)
    requires n < 0 ==> x != 0.0
    ensures x != 0.0 ==> r != 0.0
    decreases if n < 0 then -n else n
  {
    if n == 0 then 1.0
    else if n > 0 then x * Power(x, n - 1)
    else Power(x, n + 1) / x
  }

  /** `0 if x < 0 else x`, the forward value of `relu`. */
  function Rectify(x: real): (r: real)
    ensures r >= 0.0 && (r == x || r == 0.0)
    ensures x >= 0.0 <==> r == x
  {
    if x < 0.0 then 0.0 else x
  }

  /** Every operand of `op` is an index below `n`. */
  predicate Below(op: Op, n: nat)
  {
    match op
    case Leaf => true
    case Add(a, b) => a < n && b < n
    case Mul(a, b) => a < n && b < n
    case Pow(a, _) => a < n
    case Relu(a) => a < n
  }

  /** Node `u` holds the value its operator computes from its operands' values. */
  predicate Sound(g: Arena, u: nat)
    requires u < |g| && Below(g[u].op, u)
  {
    match g[u].op
    case Leaf => true
    case Add(a, b) => g[u].data == g[a].data + g[b].data
    case Mul(a, b) => g[u].data == Times(g[a].data, g[b].data)
    case Pow(a, k) => (k < 0 ==> g[a].data != 0.0) && g[u].data == Power(g[a].data, k)
    case Relu(a) => g[u].data == Rectify(g[a].data)
  }

  /** The operands of `op` all precede index `n` exactly when every entry of its `_children` does. */
  lemma OperandsBelow(op: Op, n: nat)
    ensures Below(op, n) <==> forall i | 0 <= i < |Operands(op)| :: Operands(op)[i] < n
  {
    var ops := Operands(op);
    match op
    case Leaf =>
    case Add(a, b) => assert ops[0] == a && ops[1] == b;
    case Mul(a, b) => assert ops[0] == a && ops[1] == b;
    case Pow(a, _) => assert ops[0] == a;
    case Relu(a) => assert ops[0] == a;
  }

  /** Node `u`'s operands precede it, and its value is the forward result. */
  predicate NodeOk(g: Arena, u: nat)
    requires u < |g|
  {
    Below(g[u].op, u) && Sound(g, u)
  }

  /** The arena invariant: every node is `NodeOk`. */
  predicate WellFormed(g: Arena)
  {
    forall u | 0 <= u < |g| :: NodeOk(g, u)
  }

  lemma {:induction false} Extend(g: Arena, n: Node)
    requires WellFormed(g)
    requires Below(n.op, |g|) && Sound(g + [n], |g|)
    ensures WellFormed(g + [n])
  {
    var h := g + [n];
    forall u | 0 <= u < |h|
      ensures NodeOk(h, u)
    {
      if u < |g| {
        assert h[u] == g[u];
        assert NodeOk(g, u);
        match g[u].op
        case Leaf =>
        case Add(a, b) => assert h[a] == g[a] && h[b] == g[b];
        case Mul(a, b) => assert h[a] == g[a] && h[b] == g[b];
        case Pow(a, _) => assert h[a] == g[a];
        case Relu(a) => assert h[a] == g[a];
      }
    }
  }

  /** Node `u` can be reached from node `v` by following operands (`u` may be `v`). */
  predicate Reachable(g: Arena, v: nat, u: nat)
    requires WellFormed(g) && v < |g|
    decreases v
  {
    assert NodeOk(g, v);
    u == v ||
    match g[v].op
    case Leaf => false
    case Add(a, b) => Reachable(g, a, u) || Reachable(g, b, u)
    case Mul(a, b) => Reachable(g, a, u) || Reachable(g, b, u)
    case Pow(a, _) => Reachable(g, a, u)
    case Relu(a) => Reachable(g, a, u)
  }

  /** Only nodes with a smaller or equal index are reachable. */
  lemma {:induction false} ReachableBelow(g: Arena, v: nat, u: nat)
    requires WellFormed(g) && v < |g|
    requires Reachable(g, v, u)
    ensures u <= v
    decreases v
  {
    if u != v {
      assert NodeOk(g, v);
      match g[v].op
      case Leaf =>
      case Add(a, b) => if Reachable(g, a, u) { ReachableBelow(g, a, u); } else { ReachableBelow(g, b, u); }
      case Mul(a, b) => if Reachable(g, a, u) { ReachableBelow(g, a, u); } else { ReachableBelow(g, b, u); }
      case Pow(a, _) => ReachableBelow(g, a, u);
      case Relu(a) => ReachableBelow(g, a, u);
    }
  }

  /** A step to a child followed by a path is a path. */
  lemma ReachableStep(g: Arena, v: nat, c: nat, u: nat)
    requires WellFormed(g) && v < |g|
    requires c in Prev(g[v].op) && c < v && Reachable(g, c, u)
    ensures Reachable(g, v, u)
  {
    assert NodeOk(g, v);
  }

  /** A path that is not empty starts with a step to a child. */
  lemma ReachableSplit(g: Arena, v: nat, u: nat) returns (c: nat)
    requires WellFormed(g) && v < |g|
    requires Reachable(g, v, u) && u != v
    ensures c in Prev(g[v].op) && c < v && Reachable(g, c, u)
  {
    assert NodeOk(g, v);
    match g[v].op
    case Add(a, b) => c := if Reachable(g, a, u) then a else b;
    case Mul(a, b) => c := if Reachable(g, a, u) then a else b;
    case Pow(a, _) => c := a;
    case Relu(a) => c := a;
  }

  /** Reachability depends only on the part of the arena below the start node. */
  lemma {:induction false} ReachablePrefix(g: Arena, h: Arena, v: nat, u: nat)
    requires WellFormed(g) && WellFormed(h) && v < |g| <= |h| && g == h[..|g|]
    ensures Reachable(g, v, u) == Reachable(h, v, u)
    decreases v
  {
    assert g[v] == h[v];
    assert NodeOk(g, v);
    match g[v].op
    case Leaf =>
    case Add(a, b) => ReachablePrefix(g, h, a, u); ReachablePrefix(g, h, b, u);
    case Mul(a, b) => ReachablePrefix(g, h, a, u); ReachablePrefix(g, h, b, u);
    case Pow(a, _) => ReachablePrefix(g, h, a, u);
    case Relu(a) => ReachablePrefix(g, h, a, u);
  }
}

/** The greedy planner: one node after another, always next to the nodes placed so far. */
module HeuristicPlans {
  import opened Collections
  import opened JoinGraphs
  import opened Planner

  /** Whether a node beats all of these. */
  ghost predicate Best(score: (seq<nat>, nat) -> real, placed: seq<nat>, node: nat, nodes: set<nat>) {
    node in nodes && forall v :: v in nodes ==> score(placed, v) <= score(placed, node)
  }

  /** Of nodes with equal scores the first in the list, or the least of a set, is taken. */
  ghost predicate FirstBest(score: (seq<nat>, nat) -> real, node: nat, nodes: seq<nat>) {
    Best(score, [], node, Elements(nodes)) &&
    forall j :: 0 <= j < |nodes| && nodes[j] != node && score([], nodes[j]) == score([], node) ==> node in nodes[..j]
  }

  ghost predicate LeastBest(score: (seq<nat>, nat) -> real, placed: seq<nat>, node: nat, nodes: set<nat>) {
    Best(score, placed, node, nodes) && forall v :: v in nodes && score(placed, v) == score(placed, node) ==> node <= v
  }

  /** The greedy order: a best node first, then always a best node of the frontier, scored against the
      nodes placed so far, until the frontier is empty. */
  ghost predicate Greedy(q: JoinGraph, score: (seq<nat>, nat) -> real, o: seq<nat>) {
    o != [] && FirstBest(score, o[0], q.nodes) && Frontier(q, Elements(o)) == {} &&
    forall k :: 1 <= k < |o| ==> GreedyAt(q, score, o, k)
  }

  ghost predicate GreedyAt(q: JoinGraph, score: (seq<nat>, nat) -> real, o: seq<nat>, k: nat)
    requires k < |o|
  {
    LeastBest(score, o[..k], o[k], Frontier(q, Elements(o[..k])))
  }

  lemma GreedyNext(q: JoinGraph, score: (seq<nat>, nat) -> real, o: seq<nat>, v: nat)
    requires forall k :: 1 <= k < |o| ==> GreedyAt(q, score, o, k)
    requires LeastBest(score, o, v, Frontier(q, Elements(o)))
    ensures forall k :: 1 <= k < |o + [v]| ==> GreedyAt(q, score, o + [v], k)
  {
    forall k | 1 <= k < |o + [v]|
      ensures GreedyAt(q, score, o + [v], k)
    {
      assert (o + [v])[..k] == o[..k];
      assert k < |o| ==> GreedyAt(q, score, o, k);
      assert o[..|o|] == o;
    }
  }

  lemma GreedyGoesOn(q: JoinGraph, score: (seq<nat>, nat) -> real, o: seq<nat>, k: nat)
    requires Greedy(q, score, o) && 1 <= k < |o|
    ensures Frontier(q, Elements(o[..k])) != {}
  {
    assert GreedyAt(q, score, o, k);
  }

  lemma GreedyStops(q: JoinGraph, score: (seq<nat>, nat) -> real, a: seq<nat>, b: seq<nat>)
    requires Greedy(q, score, a) && Greedy(q, score, b) && |b| <= |a| && a[..|b|] == b[..|b|]
    ensures a == b
  {
    assert b[..|b|] == b && a[..|a|] == a;
    if |b| < |a| {
      GreedyGoesOn(q, score, a, |b|);
      assert false;
    }
  }

  /** Score and graph leave one greedy order. */
  lemma {:induction false} GreedyUnique(q: JoinGraph, score: (seq<nat>, nat) -> real, a: seq<nat>, b: seq<nat>)
    requires Greedy(q, score, a) && Greedy(q, score, b)
    ensures a == b
  {
    var n := 1;
    FirstUnique(score, q.nodes, a[0], b[0]);
    assert a[..1] == [a[0]] && b[..1] == [b[0]];
    while n < |a| && n < |b|
      invariant 1 <= n && n <= |a| && n <= |b| && a[..n] == b[..n]
    {
      assert GreedyAt(q, score, a, n) && GreedyAt(q, score, b, n);
      assert a[n] <= b[n] && b[n] <= a[n];
      assert a[..n + 1] == a[..n] + [a[n]] && b[..n + 1] == b[..n] + [b[n]];
      n := n + 1;
    }
    if n == |a| {
      GreedyStops(q, score, b, a);
    } else {
      GreedyStops(q, score, a, b);
    }
  }

  lemma FirstUnique(score: (seq<nat>, nat) -> real, nodes: seq<nat>, a: nat, b: nat)
    requires FirstBest(score, a, nodes) && FirstBest(score, b, nodes)
    ensures a == b
  {
    if a != b {
      PosFirst(nodes, a);
      PosFirst(nodes, b);
    }
  }

  lemma {:induction false} PosFirst(s: seq<nat>, x: nat)
    requires x in s
    ensures x !in s[..Pos(s, x)]
  {
    if s[0] != x {
      PosFirst(s[1..], x);
      assert s[..Pos(s, x)] == [s[0]] + s[1..][..Pos(s[1..], x)];
    }
  }

  /** A score starts at one and only grows. */
  ghost predicate Positive(q: JoinGraph, score: (seq<nat>, nat) -> real) {
    forall placed, v :: v in q.nodes ==> score(placed, v) > 0.0
  }

  /** Placing a node moves the frontier on. */
  lemma FrontierMoves(q: JoinGraph, placed: set<nat>, node: nat, added: set<nat>)
    requires node in q.nodes
    requires forall v :: v in added <==> v in q.nodes && v !in placed + {node} && Adj(q, node, v)
    ensures Frontier(q, placed + {node}) == (Frontier(q, placed) + added) - {node}
  {
    forall v
      ensures v in Frontier(q, placed + {node}) <==> v in (Frontier(q, placed) + added) - {node}
    {
      assert Crossing(q, placed + {node}, {v}) <==> Crossing(q, placed, {v}) || Adj(q, node, v);
    }
  }

  lemma OrderNext(q: JoinGraph, o: seq<nat>, v: nat)
    requires Order(q, o) && v in Frontier(q, Elements(o))
    ensures Order(q, o + [v]) && Elements(o + [v]) == Elements(o) + {v}
  {
    assert (o + [v])[..|o|] == o;
    ElementsSnoc(o + [v]);
  }

  /** Nothing next to the nodes placed: they are all nodes exactly when the graph is connected. */
  lemma Exhausted(q: JoinGraph, o: seq<nat>)
    requires GraphOk(q) && Order(q, o) && Frontier(q, Elements(o)) == {}
    ensures Elements(o) == Elements(q.nodes) <==> Connected(q, Elements(q.nodes))
  {
    OrderConnected(q, o);
    var all, placed := Elements(q.nodes), Elements(o);
    assert placed <= all && placed != {};
    if Connected(q, all) && placed != all {
      var v := NextNode(q, all, placed);
      assert false;
    }
  }

  lemma {:induction false} LeftDeepOk(q: JoinGraph, o: seq<nat>)
    requires Order(q, o)
    ensures TreeOk(q, LeftDeep(o)) && TreeNodes(LeftDeep(o)) == Elements(o)
    decreases |o|
  {
    ElementsSnoc(o);
    if |o| == 1 {
      assert o[..0] == [];
    } else {
      LeftDeepOk(q, o[..|o| - 1]);
    }
  }

  /** What placing one more node does to the order, its tree and the nodes left. */
  lemma PlaceNode(q: JoinGraph, o: seq<nat>, v: nat)
    requires Order(q, o) && v in Frontier(q, Elements(o))
    ensures Order(q, o + [v]) && LeftDeep(o + [v]) == Extend(LeftDeep(o), v) && Elements(o + [v]) - {v} == Elements(o)
    ensures v in q.nodes && Elements(q.nodes) - Elements(o + [v]) < Elements(q.nodes) - Elements(o)
  {
    OrderNext(q, o, v);
    assert (o + [v])[..|o|] == o;
    assert v in Elements(q.nodes) - Elements(o) && v !in Elements(q.nodes) - Elements(o + [v]);
  }

  class HeuristicPlanner {
    const q: JoinGraph
    const score: (seq<nat>, nat) -> real
    var planVarVec: seq<nat>

    constructor (q: JoinGraph, score: (seq<nat>, nat) -> real)
      ensures this.q == q && this.score == score && planVarVec == []
    {
      this.q, this.score, planVarVec := q, score, [];
    }

    /** The highest score; scores are positive, so some node beats the initial zero. */
    method HeuristicFirstNode() returns (first: nat)
      requires q.nodes != [] && Positive(q, score) && planVarVec == []
      ensures FirstBest(score, first, q.nodes)
    {
      var best := 0.0;
      first := 0;
      var i := 0;
      while i < |q.nodes|
        invariant 0 <= i <= |q.nodes|
        invariant best >= 0.0 && (i > 0 ==> best > 0.0)
        invariant best > 0.0 ==> first in q.nodes[..i] && score(planVarVec, first) == best
        invariant forall j :: 0 <= j < i ==> score(planVarVec, q.nodes[j]) <= best
        invariant forall j :: 0 <= j < i && score(planVarVec, q.nodes[j]) == best && q.nodes[j] != first ==>
                    first in q.nodes[..j]
      {
        assert q.nodes[i] in q.nodes && q.nodes[..i + 1] == q.nodes[..i] + [q.nodes[i]];
        if score(planVarVec, q.nodes[i]) > best {
          first, best := q.nodes[i], score(planVarVec, q.nodes[i]);
        }
        i := i + 1;
      }
    }

    method HeuristicNextNodeFromVec(neighbors: set<nat>) returns (next: nat)
      requires neighbors != {} && Positive(q, score) && NodesOf(q, neighbors)
      ensures LeastBest(score, planVarVec, next, neighbors)
    {
      var best := 0.0;
      next := 0;
      var todo := neighbors;
      while todo != {}
        invariant todo <= neighbors
        invariant best >= 0.0 && (todo != neighbors ==> best > 0.0)
        invariant best > 0.0 ==> next in neighbors && next !in todo && score(planVarVec, next) == best
        invariant forall v :: v in neighbors && v !in todo ==> score(planVarVec, v) <= best
        invariant forall v, w :: v in neighbors && v !in todo && w in todo ==> v < w
        invariant forall v :: v in neighbors && v !in todo && score(planVarVec, v) == best ==> next <= v
      {
        var v := Least(todo);
        if score(planVarVec, v) > best {
          next, best := v, score(planVarVec, v);
        }
        todo := todo - {v};
      }
    }

    /** Adds the node's unplaced join neighbours, then removes the node itself. */
    method RemoveNodeAddNeighbor(node: nat, neighbors: set<nat>) returns (left: set<nat>)
      requires GraphOk(q) && node in q.nodes && node in planVarVec
      requires neighbors == Frontier(q, Elements(planVarVec) - {node}) || (planVarVec == [node] && neighbors == {node})
      ensures left == Frontier(q, Elements(planVarVec))
    {
      left := neighbors;
      var edges := q.nei[node];
      var i := 0;
      ghost var added := {};
      while i < |edges|
        invariant 0 <= i <= |edges| && left == neighbors + added
        invariant forall v :: v in added <==> v in q.nodes && v !in planVarVec && VarNei(v) in edges[..i]
      {
        if edges[i].VarNei? && edges[i].id !in planVarVec && edges[i].id in q.nodes {
          left := left + {edges[i].id};
          added := added + {edges[i].id};
        }
        i := i + 1;
      }
      assert edges[..|edges|] == edges;
      left := left - {node};
      assert Elements(planVarVec) - {node} + {node} == Elements(planVarVec);
      FrontierMoves(q, Elements(planVarVec) - {node}, node, added);
      if planVarVec == [node] && neighbors == {node} {
        assert Elements(planVarVec) - {node} == {};
        assert Frontier(q, {}) == {};
      }
    }

    /** The greedy loop. It ends, every prefix of the order is connected, and it places every join
        node exactly when the query is connected. */
    method HeuristicPlan() returns (plan: PlanTree)
      requires GraphOk(q) && q.nodes != [] && planVarVec == [] && Positive(q, score)
      modifies this
      ensures Order(q, planVarVec) && NoDup(planVarVec)
      ensures Greedy(q, score, planVarVec) && plan == LeftDeep(planVarVec)
      ensures TreeOk(q, plan) && TreeNodes(plan) == Elements(planVarVec)
      ensures Elements(planVarVec) == Elements(q.nodes) <==> Connected(q, Elements(q.nodes))
    {
      var first := HeuristicFirstNode();
      planVarVec := [first];
      var neighbors, tree := {first}, None;
      while neighbors != {}
        invariant Order(q, planVarVec) && (tree.None? ==> planVarVec == [first] && neighbors == {first})
        invariant planVarVec[0] == first && forall k :: 1 <= k < |planVarVec| ==> GreedyAt(q, score, planVarVec, k)
        invariant tree.Some? ==> tree.value == LeftDeep(planVarVec) && neighbors == Frontier(q, Elements(planVarVec))
        decreases tree.None?, Elements(q.nodes) - Elements(planVarVec)
      {
        var node := HeuristicNextNodeFromVec(neighbors);
        if tree.None? {
          tree := Some(ScanVar(node));
        } else {
          PlaceNode(q, planVarVec, node);
          GreedyNext(q, score, planVarVec, node);
          tree := Some(Extend(tree.value, node));
          planVarVec := planVarVec + [node];
        }
        neighbors := RemoveNodeAddNeighbor(node, neighbors);
      }
      plan := tree.value;
      LeftDeepOk(q, planVarVec);
      Exhausted(q, planVarVec);
      OrderNoDup(q, planVarVec);
    }
  }

  lemma OrderNoDup(q: JoinGraph, o: seq<nat>)
    requires Order(q, o)
    ensures NoDup(o)
    decreases |o|
  {
    if |o| > 1 {
      var less := o[..|o| - 1];
      OrderNoDup(q, less);
      assert o == less + [o[|o| - 1]];
      NoDupSplit(less, [o[|o| - 1]]);
    }
  }
}

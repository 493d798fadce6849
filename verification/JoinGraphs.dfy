/** The graph the planner works on: join nodes and the edges between them. */
module JoinGraphs {
  import opened Collections

  /** One edge of a variable: to another variable, or to a constant. */
  datatype Neighbor = VarNei(id: nat) | ConNei

  /** `nodes` are the join nodes in query order; satellites are not among them. */
  datatype JoinGraph = JoinGraph(nodes: seq<nat>, nei: map<nat, seq<Neighbor>>)

  predicate Adj(q: JoinGraph, a: nat, b: nat) {
    a in q.nei && VarNei(b) in q.nei[a]
  }

  /** Join nodes are distinct, each has its list of edges, and edges are listed at both ends. */
  ghost predicate GraphOk(q: JoinGraph) {
    |Elements(q.nodes)| == |q.nodes| &&
    (forall v {:trigger v in q.nei} :: v in q.nodes ==> v in q.nei) &&
    (forall a, b {:trigger Adj(q, a, b)} :: a in q.nodes && b in q.nodes && Adj(q, a, b) ==> Adj(q, b, a))
  }

  ghost predicate Crossing(q: JoinGraph, a: set<nat>, b: set<nat>) {
    exists x, y :: x in a && y in b && Adj(q, x, y)
  }

  /** No way to split the nodes into two parts without an edge between them. */
  ghost predicate Connected(q: JoinGraph, s: set<nat>) {
    s != {} && forall t {:trigger Crossing(q, t, s - t)} :: t != {} && t < s ==> Crossing(q, t, s - t)
  }

  /** The join nodes outside s next to a node of s. */
  ghost function Frontier(q: JoinGraph, s: set<nat>): set<nat> {
    set v | v in q.nodes && v !in s && Crossing(q, s, {v})
  }

  ghost predicate NodesOf(q: JoinGraph, s: set<nat>) {
    forall v :: v in s ==> v in q.nodes
  }

  lemma SingleConnected(q: JoinGraph, v: nat)
    ensures Connected(q, {v})
  {
    forall t: set<nat> | t <= {v}
      ensures t == {} || t == {v}
    {
      if v !in t {
        assert t == {};
      }
    }
  }

  lemma CrossingMore(q: JoinGraph, a: set<nat>, b: set<nat>, a': set<nat>, b': set<nat>)
    requires Crossing(q, a, b) && a <= a' && b <= b'
    ensures Crossing(q, a', b')
  {
  }

  /** A connected set stays connected when a node next to it joins. */
  lemma ConnectedGrow(q: JoinGraph, s: set<nat>, v: nat)
    requires GraphOk(q) && NodesOf(q, s) && Connected(q, s) && v in Frontier(q, s)
    ensures Connected(q, s + {v})
  {
    var all := s + {v};
    forall t: set<nat> | t != {} && t < all
      ensures Crossing(q, t, all - t)
    {
      var part := t - {v};
      if part == {} {
        var u :| u in s && Adj(q, u, v);
        assert t == {v} && Adj(q, v, u);
      } else if part == s {
        assert v !in t;
        CrossingMore(q, s, {v}, t, all - t);
      } else {
        CrossingMore(q, part, s - part, t, all - t);
      }
    }
  }

  /** Two connected sets that share a node are connected together. */
  lemma ConnectedUnion(q: JoinGraph, a: set<nat>, b: set<nat>)
    requires Connected(q, a) && Connected(q, b) && a * b != {}
    ensures Connected(q, a + b)
  {
    var all := a + b;
    var x :| x in a * b;
    forall t: set<nat> | t != {} && t < all
      ensures Crossing(q, t, all - t)
    {
      var ta, tb := t * a, t * b;
      assert t == ta + tb;
      assert x in ta <==> x in tb;
      if ta != {} && ta != a {
        CrossingMore(q, ta, a - ta, t, all - t);
      } else if tb != {} && tb != b {
        CrossingMore(q, tb, b - tb, t, all - t);
      } else {
        assert false;
      }
    }
  }

  /** In a connected set a smaller part always has a next node. */
  lemma NextNode(q: JoinGraph, s: set<nat>, part: set<nat>) returns (v: nat)
    requires NodesOf(q, s) && Connected(q, s) && part != {} && part < s
    ensures v in s - part && v in Frontier(q, part)
  {
    assert Crossing(q, part, s - part);
    var x, y :| x in part && y in s - part && Adj(q, x, y);
    v := y;
  }

  /** A connected set has connected parts of every size. */
  lemma {:induction false} ConnectedPart(q: JoinGraph, s: set<nat>, k: nat) returns (part: set<nat>)
    requires GraphOk(q) && NodesOf(q, s) && Connected(q, s) && 1 <= k <= |s|
    ensures part <= s && |part| == k && Connected(q, part)
  {
    if k == 1 {
      var v :| v in s;
      SingleConnected(q, v);
      part := {v};
    } else {
      var less := ConnectedPart(q, s, k - 1);
      assert less != s;
      var v := NextNode(q, s, less);
      ConnectedGrow(q, less, v);
      part := less + {v};
    }
  }

  /** Every connected set of two or more nodes has a node whose removal keeps it connected. */
  lemma RemovableNode(q: JoinGraph, s: set<nat>) returns (v: nat)
    requires GraphOk(q) && NodesOf(q, s) && Connected(q, s) && |s| >= 2
    ensures v in s && Connected(q, s - {v}) && v in Frontier(q, s - {v})
  {
    var part := ConnectedPart(q, s, |s| - 1);
    assert part != s;
    v := NextNode(q, s, part);
    SamePart(s, part, v);
  }

  lemma SamePart(s: set<nat>, part: set<nat>, v: nat)
    requires part <= s && |part| == |s| - 1 && v in s - part
    ensures part == s - {v}
  {
    var rest := s - {v};
    assert part <= rest && |rest| == |s| - 1;
    assert rest == part + (rest - part);
  }

  // ---------------------------------------------------------------- orders

  /** An order of nodes in which every node but the first is next to an earlier one. */
  ghost predicate Order(q: JoinGraph, o: seq<nat>)
    decreases |o|
  {
    o != [] &&
    if |o| == 1 then o[0] in q.nodes
    else Order(q, o[..|o| - 1]) && o[|o| - 1] in Frontier(q, Elements(o[..|o| - 1]))
  }

  lemma ElementsSnoc<T>(s: seq<T>)
    requires s != []
    ensures Elements(s) == Elements(s[..|s| - 1]) + {s[|s| - 1]}
  {
    assert s == s[..|s| - 1] + [s[|s| - 1]];
  }

  lemma {:induction false} OrderConnected(q: JoinGraph, o: seq<nat>)
    requires GraphOk(q) && Order(q, o)
    ensures Connected(q, Elements(o)) && NodesOf(q, Elements(o)) && |Elements(o)| == |o|
    decreases |o|
  {
    ElementsSnoc(o);
    if |o| == 1 {
      SingleConnected(q, o[0]);
      assert Elements(o) == {o[0]};
    } else {
      OrderConnected(q, o[..|o| - 1]);
      ConnectedGrow(q, Elements(o[..|o| - 1]), o[|o| - 1]);
    }
  }

  /** Every connected set can be put in such an order. */
  lemma {:induction false} OrderExists(q: JoinGraph, s: set<nat>) returns (o: seq<nat>)
    requires GraphOk(q) && NodesOf(q, s) && Connected(q, s)
    ensures Order(q, o) && Elements(o) == s
    decreases |s|
  {
    if |s| == 1 {
      var v :| v in s;
      assert s == {v} by { SamePart(s, {}, v); }
      o := [v];
    } else {
      var v := RemovableNode(q, s);
      var less := OrderExists(q, s - {v});
      o := less + [v];
      assert o[..|o| - 1] == less;
      ElementsSnoc(o);
    }
  }
}

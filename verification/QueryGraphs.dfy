/** The variables of a query: those with one edge are satellites, the others are join nodes. The
    join nodes of a connected query are connected, and every satellite hangs on one of them. */
module QueryGraphs {
  import opened Collections
  import opened Rdf
  import opened Tables
  import opened JoinGraphs
  import opened QueryPlans

  predicate Touches(t: Pattern, v: nat) {
    t.s == Variable(v) || t.o == Variable(v)
  }

  /** A triple with a variable as its subject or object. */
  predicate Proper(t: Pattern) {
    !t.p.Any? && !t.s.Any? && !t.o.Any? && (t.s.Variable? || t.o.Variable?)
  }

  /** No edge from a variable to itself. */
  ghost predicate SelfFree(ts: seq<Pattern>) {
    forall t :: t in ts ==> t.s != t.o
  }

  /** The number of edges of a variable. */
  function Degree(ts: seq<Pattern>, v: nat): nat {
    |Neighbors(ts, v)|
  }

  predicate IsSatellite(ts: seq<Pattern>, v: nat) {
    Degree(ts, v) == 1
  }

  /** The variables that are join nodes, and the satellites, in their order. */
  function JoinNodes(ts: seq<Pattern>, vars: seq<nat>): seq<nat> {
    if vars == [] then []
    else JoinNodes(ts, vars[..|vars| - 1]) + (if IsSatellite(ts, vars[|vars| - 1]) then [] else [vars[|vars| - 1]])
  }

  function SatelliteNodes(ts: seq<Pattern>, vars: seq<nat>): seq<nat> {
    if vars == [] then []
    else SatelliteNodes(ts, vars[..|vars| - 1]) + (if IsSatellite(ts, vars[|vars| - 1]) then [vars[|vars| - 1]] else [])
  }

  lemma {:induction false} NodesExact(ts: seq<Pattern>, vars: seq<nat>)
    ensures forall v :: v in JoinNodes(ts, vars) <==> v in vars && !IsSatellite(ts, v)
    ensures forall v :: v in SatelliteNodes(ts, vars) <==> v in vars && IsSatellite(ts, v)
    ensures NoDup(vars) ==> NoDup(JoinNodes(ts, vars)) && NoDup(SatelliteNodes(ts, vars))
  {
    if vars != [] {
      var front, v := vars[..|vars| - 1], vars[|vars| - 1];
      NodesExact(ts, front);
      assert vars == front + [v];
      if NoDup(vars) {
        NoDupSplit(front, [v]);
        NoDupSplit(JoinNodes(ts, front), if IsSatellite(ts, v) then [] else [v]);
        NoDupSplit(SatelliteNodes(ts, front), if IsSatellite(ts, v) then [v] else []);
      }
    }
  }

  lemma {:induction false} TouchedOnce(ts: seq<Pattern>, v: nat, i: nat)
    requires i < |ts| && Touches(ts[i], v)
    ensures Degree(ts, v) >= 1
  {
    if i > 0 {
      TouchedOnce(ts[1..], v, i - 1);
    }
  }

  lemma {:induction false} TouchedTwice(ts: seq<Pattern>, v: nat, i: nat, j: nat)
    requires i < j < |ts| && Touches(ts[i], v) && Touches(ts[j], v)
    ensures Degree(ts, v) >= 2
  {
    if i > 0 {
      TouchedTwice(ts[1..], v, i - 1, j - 1);
    } else {
      TouchedOnce(ts[1..], v, j - 1);
    }
  }

  /** A satellite has one triple. */
  lemma OneTriple(ts: seq<Pattern>, v: nat, i: nat, j: nat)
    requires IsSatellite(ts, v) && i < |ts| && j < |ts| && Touches(ts[i], v) && Touches(ts[j], v)
    ensures i == j
  {
    if i < j {
      TouchedTwice(ts, v, i, j);
    } else if j < i {
      TouchedTwice(ts, v, j, i);
    }
  }

  /** Some triple touches the variable, it is no self edge, and no other triple touches it. */
  ghost predicate SingleEdge(ts: seq<Pattern>, v: nat) {
    exists i :: 0 <= i < |ts| && OnlyAt(ts, v, i)
  }

  ghost predicate OnlyAt(ts: seq<Pattern>, v: nat, i: nat)
    requires i < |ts|
  {
    Touches(ts[i], v) && ts[i].s != ts[i].o && forall j :: 0 <= j < |ts| && j != i ==> !Touches(ts[j], v)
  }

  lemma {:induction false} Untouched(ts: seq<Pattern>, v: nat)
    requires forall j :: 0 <= j < |ts| ==> !Touches(ts[j], v)
    ensures Degree(ts, v) == 0
  {
    if ts != [] {
      assert !Touches(ts[0], v);
      assert forall j :: 0 <= j < |ts[1..]| ==> ts[1..][j] == ts[j + 1];
      Untouched(ts[1..], v);
    }
  }

  lemma {:induction false} OnlyAtDegree(ts: seq<Pattern>, v: nat, i: nat)
    requires i < |ts| && OnlyAt(ts, v, i)
    ensures Degree(ts, v) == 1
  {
    assert forall j :: 0 <= j < |ts[1..]| ==> ts[1..][j] == ts[j + 1];
    if i == 0 {
      Untouched(ts[1..], v);
    } else {
      assert !Touches(ts[0], v);
      OnlyAtDegree(ts[1..], v, i - 1);
    }
  }

  lemma {:induction false} SelfEdgeDegree(ts: seq<Pattern>, v: nat, i: nat)
    requires i < |ts| && ts[i].s == Variable(v) && ts[i].o == Variable(v)
    ensures Degree(ts, v) >= 2
  {
    if i > 0 {
      SelfEdgeDegree(ts[1..], v, i - 1);
    }
  }

  /** A variable is a satellite exactly when it has one edge: one triple touches it, and at one end. */
  lemma SatelliteExact(ts: seq<Pattern>, v: nat)
    ensures IsSatellite(ts, v) <==> SingleEdge(ts, v)
  {
    if i :| 0 <= i < |ts| && OnlyAt(ts, v, i) {
      OnlyAtDegree(ts, v, i);
    }
    if IsSatellite(ts, v) {
      if forall j :: 0 <= j < |ts| ==> !Touches(ts[j], v) {
        Untouched(ts, v);
        assert false;
      }
      var i :| 0 <= i < |ts| && Touches(ts[i], v);
      if ts[i].s == ts[i].o {
        SelfEdgeDegree(ts, v, i);
        assert false;
      }
      forall j | 0 <= j < |ts| && j != i
        ensures !Touches(ts[j], v)
      {
        if Touches(ts[j], v) {
          OneTriple(ts, v, i, j);
        }
      }
      assert OnlyAt(ts, v, i);
    }
  }

  lemma SplitExact(ts: seq<Pattern>, vars: seq<nat>)
    ensures forall v :: v in SatelliteNodes(ts, vars) <==> v in vars && SingleEdge(ts, v)
    ensures forall v :: v in JoinNodes(ts, vars) <==> v in vars && !SingleEdge(ts, v)
  {
    NodesExact(ts, vars);
    forall v
      ensures IsSatellite(ts, v) <==> SingleEdge(ts, v)
    {
      SatelliteExact(ts, v);
    }
  }

  /** The part lists variables in the order of the whole. */
  ghost predicate InOrderOf(vars: seq<nat>, part: seq<nat>) {
    (forall v :: v in part ==> v in vars) &&
    forall i, j :: 0 <= i < j < |part| ==> Pos(vars, part[i]) < Pos(vars, part[j])
  }

  lemma {:induction false} PosFront(vars: seq<nat>, w: nat, v: nat)
    requires v in vars || v == w
    ensures Pos(vars + [w], v) == if v in vars then Pos(vars, v) else |vars|
  {
    if vars == [] {
      assert vars + [w] == [w];
    } else if vars[0] != v {
      assert (vars + [w])[1..] == vars[1..] + [w];
      assert vars == [vars[0]] + vars[1..];
      PosFront(vars[1..], w, v);
    }
  }

  lemma InOrderMore(vars: seq<nat>, part: seq<nat>, w: nat)
    requires InOrderOf(vars, part) && w !in vars
    ensures InOrderOf(vars + [w], part) && InOrderOf(vars + [w], part + [w])
  {
    forall v | v in part
      ensures v in vars + [w] && Pos(vars + [w], v) == Pos(vars, v) < |vars|
    {
      PosFront(vars, w, v);
    }
    PosFront(vars, w, w);
  }

  lemma {:induction false} SplitInOrder(ts: seq<Pattern>, vars: seq<nat>)
    requires NoDup(vars)
    ensures InOrderOf(vars, JoinNodes(ts, vars)) && InOrderOf(vars, SatelliteNodes(ts, vars))
  {
    if vars != [] {
      var front, v := vars[..|vars| - 1], vars[|vars| - 1];
      SplitInOrder(ts, front);
      assert vars == front + [v];
      InOrderMore(front, JoinNodes(ts, front), v);
      InOrderMore(front, SatelliteNodes(ts, front), v);
      assert JoinNodes(ts, front) + [] == JoinNodes(ts, front);
      assert SatelliteNodes(ts, front) + [] == SatelliteNodes(ts, front);
    }
  }

  /** The split of the variables at the head of CompleteCandidate. */
  method SplitNodes(ts: seq<Pattern>, vars: seq<nat>) returns (nodes: seq<nat>, satellites: seq<nat>)
    ensures nodes == JoinNodes(ts, vars) && satellites == SatelliteNodes(ts, vars)
    ensures forall v :: v in satellites <==> v in vars && SingleEdge(ts, v)
    ensures forall v :: v in nodes <==> v in vars && !SingleEdge(ts, v)
    ensures NoDup(vars) ==> InOrderOf(vars, nodes) && InOrderOf(vars, satellites)
  {
    nodes, satellites := [], [];
    var i := 0;
    while i < |vars|
      invariant 0 <= i <= |vars| && nodes == JoinNodes(ts, vars[..i]) && satellites == SatelliteNodes(ts, vars[..i])
    {
      assert vars[..i + 1][..i] == vars[..i] && vars[..i + 1][i] == vars[i];
      if IsSatellite(ts, vars[i]) {
        satellites := satellites + [vars[i]];
      } else {
        nodes := nodes + [vars[i]];
      }
      i := i + 1;
    }
    assert vars[..i] == vars;
    SplitExact(ts, vars);
    if NoDup(vars) {
      SplitInOrder(ts, vars);
    }
  }

  // ---------------------------------------------------------------- connected queries

  ghost predicate ListsVars(ts: seq<Pattern>, vars: seq<nat>) {
    NoDup(vars) && forall v :: v in vars <==> exists t :: t in ts && Touches(t, v)
  }

  /** A connected query of at least two triples, with its variables. */
  ghost predicate Query(ts: seq<Pattern>, vars: seq<nat>) {
    |ts| >= 2 && (forall t :: t in ts ==> Proper(t)) && ListsVars(ts, vars) &&
      Connected(GraphOf(ts, vars), Elements(vars))
  }

  lemma OnlyNeighbor(ts: seq<Pattern>, v: nat, u: nat, w: nat)
    requires IsSatellite(ts, v) && Linked(ts, v, u) && Linked(ts, v, w) && u != v && w != v
    ensures u == w
  {
    var t :| t in ts && Links(t, v, u);
    var t' :| t' in ts && Links(t', v, w);
    OneTriple(ts, v, Pos(ts, t), Pos(ts, t'));
  }

  lemma LinkedVars(ts: seq<Pattern>, vars: seq<nat>, u: nat, w: nat)
    requires ListsVars(ts, vars) && Linked(ts, u, w)
    ensures u in vars && w in vars && Linked(ts, w, u)
  {
    var t :| t in ts && Links(t, u, w);
    assert Touches(t, u) && Touches(t, w) && Links(t, w, u);
  }

  /** If all variables are among two, each triple touches one of the two. */
  lemma AnyTouches(ts: seq<Pattern>, vars: seq<nat>, i: nat, u: nat, v: nat)
    requires Query(ts, vars) && Elements(vars) <= {u, v} && i < |ts|
    ensures Touches(ts[i], u) || Touches(ts[i], v)
  {
    assert ts[i] in ts && Proper(ts[i]);
    var w := if ts[i].s.Variable? then ts[i].s.v else ts[i].o.v;
    assert Touches(ts[i], w) && w in vars && w in Elements(vars);
  }

  /** Two variables that have only one triple between them are not the whole query. */
  lemma MoreVars(ts: seq<Pattern>, vars: seq<nat>, u: nat, v: nat, t: Pattern)
    requires Query(ts, vars) && t in ts && Touches(t, u) && Touches(t, v) && IsSatellite(ts, u) && IsSatellite(ts, v)
    ensures !(Elements(vars) <= {u, v})
  {
    if Elements(vars) <= {u, v} {
      var i := Pos(ts, t);
      var j := if i == 0 then 1 else 0;
      AnyTouches(ts, vars, j, u, v);
      if Touches(ts[j], u) { OneTriple(ts, u, i, j); } else { OneTriple(ts, v, i, j); }
    }
  }

  lemma CrossingLinks(ts: seq<Pattern>, vars: seq<nat>, a: set<nat>) returns (x: nat, y: nat)
    requires Query(ts, vars) && a != {} && a < Elements(vars)
    ensures x in a && y in Elements(vars) - a && Linked(ts, x, y)
  {
    var s := Elements(vars);
    assert Crossing(GraphOf(ts, vars), a, s - a);
    x, y :| x in a && y in s - a && Adj(GraphOf(ts, vars), x, y);
    assert x in s;
    AdjExact(ts, vars, x, y);
  }

  lemma SomeNeighbor(ts: seq<Pattern>, vars: seq<nat>, v: nat) returns (u: nat)
    requires Query(ts, vars) && v in vars && IsSatellite(ts, v)
    ensures u in vars && u != v && Linked(ts, v, u)
  {
    var t :| t in ts && Touches(t, v);
    MoreVars(ts, vars, v, v, t);
    var x, y := CrossingLinks(ts, vars, {v});
    u := y;
  }

  /** Every satellite hangs on a join node. */
  lemma HangsOn(ts: seq<Pattern>, vars: seq<nat>, v: nat) returns (u: nat)
    requires Query(ts, vars) && v in vars && IsSatellite(ts, v)
    ensures u in vars && u != v && !IsSatellite(ts, u) && Linked(ts, v, u)
  {
    u := SomeNeighbor(ts, vars, v);
    if IsSatellite(ts, u) {
      var t :| t in ts && Links(t, v, u);
      MoreVars(ts, vars, u, v, t);
      assert {u, v} < Elements(vars);
      var x, y := CrossingLinks(ts, vars, {u, v});
      LinkedVars(ts, vars, v, u);
      if x == v { OnlyNeighbor(ts, v, u, y); } else { OnlyNeighbor(ts, u, v, y); }
      assert false;
    }
  }

  lemma SomeJoinNode(ts: seq<Pattern>, vars: seq<nat>)
    requires Query(ts, vars)
    ensures JoinNodes(ts, vars) != []
  {
    NodesExact(ts, vars);
    var v :| v in Elements(vars);
    if IsSatellite(ts, v) {
      var u := HangsOn(ts, vars, v);
      assert u in JoinNodes(ts, vars);
    } else {
      assert v in JoinNodes(ts, vars);
    }
  }

  /** A part of the join nodes with the satellites hanging on it. */
  ghost function Hung(ts: seq<Pattern>, vars: seq<nat>, part: set<nat>): set<nat> {
    part + set v | v in vars && IsSatellite(ts, v) && exists u :: u in part && Linked(ts, v, u)
  }

  lemma InRest(all: set<nat>, part: set<nat>) returns (z: nat)
    requires part < all
    ensures z in all && z !in part
  {
    z :| z in all && z !in part;
  }

  lemma HungProper(ts: seq<Pattern>, vars: seq<nat>, part: set<nat>)
    requires part != {} && part < Elements(JoinNodes(ts, vars))
    ensures Hung(ts, vars, part) != {} && Hung(ts, vars, part) < Elements(vars)
  {
    var nodes, hung := Elements(JoinNodes(ts, vars)), Hung(ts, vars, part);
    var z := InRest(nodes, part);
    NodesExact(ts, vars);
    assert z in JoinNodes(ts, vars) && z in Elements(vars) && z !in hung;
    forall v | v in hung
      ensures v in Elements(vars)
    {
      if v in part {
        assert v in nodes && v in JoinNodes(ts, vars);
      }
    }
  }

  /** No link leads from a hung satellite out of its part. */
  lemma HungInside(ts: seq<Pattern>, vars: seq<nat>, part: set<nat>, x: nat, y: nat)
    requires x in Hung(ts, vars, part) && y !in Hung(ts, vars, part) && Linked(ts, x, y)
    ensures x in part
  {
    if x !in part {
      var u :| u in part && Linked(ts, x, u);
      OnlyNeighbor(ts, x, u, y);
      assert false;
    }
  }

  lemma HungCrossing(ts: seq<Pattern>, vars: seq<nat>, part: set<nat>) returns (x: nat, y: nat)
    requires Query(ts, vars) && part != {} && part < Elements(JoinNodes(ts, vars))
    ensures x in part && y in Elements(JoinNodes(ts, vars)) - part && Linked(ts, x, y)
  {
    var hung := Hung(ts, vars, part);
    HungProper(ts, vars, part);
    x, y := CrossingLinks(ts, vars, hung);
    HungInside(ts, vars, part, x, y);
    LinkedVars(ts, vars, x, y);
    assert y !in hung && y !in part;
    NodesExact(ts, vars);
    assert y in JoinNodes(ts, vars);
  }

  /** The join nodes of a connected query are connected among themselves. */
  lemma NodesConnected(ts: seq<Pattern>, vars: seq<nat>)
    requires Query(ts, vars)
    ensures Connected(GraphOf(ts, JoinNodes(ts, vars)), Elements(JoinNodes(ts, vars)))
  {
    var nodes := JoinNodes(ts, vars);
    SomeJoinNode(ts, vars);
    assert nodes[0] in Elements(nodes);
    forall part: set<nat> | part != {} && part < Elements(nodes)
      ensures Crossing(GraphOf(ts, nodes), part, Elements(nodes) - part)
    {
      var x, y := HungCrossing(ts, vars, part);
      assert x in Elements(nodes);
      AdjExact(ts, nodes, x, y);
    }
  }

  /** The triple leads from the variable to a constant. */
  predicate ConstantEnd(t: Pattern, v: nat) {
    (t.s == Variable(v) && t.o.Constant?) || (t.o == Variable(v) && t.s.Constant?)
  }

  /** A triple with a constant end is of a join node. */
  lemma ConstantAtNode(ts: seq<Pattern>, vars: seq<nat>, t: Pattern, v: nat)
    requires Query(ts, vars) && t in ts && ConstantEnd(t, v)
    ensures v in JoinNodes(ts, vars)
  {
    NodesExact(ts, vars);
    assert Touches(t, v) && v in vars;
    if IsSatellite(ts, v) {
      var u := SomeNeighbor(ts, vars, v);
      var t' :| t' in ts && Links(t', v, u);
      OneTriple(ts, v, Pos(ts, t), Pos(ts, t'));
      assert false;
    }
  }
}

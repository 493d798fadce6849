/** From the planner's trees to executable plans, for queries whose predicates are constants. The
    plan of a tree enforces exactly the query's edges between the tree's nodes. */
module QueryPlans {
  import opened Collections
  import opened Rdf
  import opened Tables
  import opened Plans
  import opened Solutions
  import opened CandidateCaches
  import opened JoinGraphs
  import Planner

  /** A triple of the query between two distinct variables. */
  predicate Links(t: Pattern, a: nat, b: nat) {
    (t.s == Variable(a) && t.o == Variable(b)) || (t.s == Variable(b) && t.o == Variable(a))
  }

  ghost predicate Linked(ts: seq<Pattern>, a: nat, b: nat) {
    exists t :: t in ts && Links(t, a, b)
  }

  ghost predicate ConstantPredicates(ts: seq<Pattern>) {
    forall t :: t in ts ==> t.p.Constant?
  }

  function NeighborAt(x: Item): Neighbor {
    if x.Variable? then VarNei(x.v) else ConNei
  }

  /** The edges of a variable, in the order of the query's triples. */
  function Neighbors(ts: seq<Pattern>, v: nat): seq<Neighbor> {
    if ts == [] then []
    else
      (if ts[0].s == Variable(v) then [NeighborAt(ts[0].o)] else []) +
      (if ts[0].o == Variable(v) then [NeighborAt(ts[0].s)] else []) +
      Neighbors(ts[1..], v)
  }

  lemma {:induction false} NeighborsExact(ts: seq<Pattern>, a: nat, b: nat)
    ensures VarNei(b) in Neighbors(ts, a) <==> Linked(ts, a, b)
  {
    if ts != [] {
      NeighborsExact(ts[1..], a, b);
      assert Linked(ts, a, b) <==> Links(ts[0], a, b) || Linked(ts[1..], a, b) by {
        assert ts == [ts[0]] + ts[1..];
      }
      var head := (if ts[0].s == Variable(a) then [NeighborAt(ts[0].o)] else []) +
                  (if ts[0].o == Variable(a) then [NeighborAt(ts[0].s)] else []);
      assert VarNei(b) in head <==> Links(ts[0], a, b);
    }
  }

  function GraphOf(ts: seq<Pattern>, nodes: seq<nat>): JoinGraph {
    JoinGraph(nodes, map v | v in nodes :: Neighbors(ts, v))
  }

  lemma AdjExact(ts: seq<Pattern>, nodes: seq<nat>, a: nat, b: nat)
    requires a in nodes
    ensures Adj(GraphOf(ts, nodes), a, b) <==> Linked(ts, a, b)
  {
    NeighborsExact(ts, a, b);
  }

  lemma GraphOfOk(ts: seq<Pattern>, nodes: seq<nat>)
    requires NoDup(nodes)
    ensures GraphOk(GraphOf(ts, nodes))
  {
    NoDupLength(nodes);
    forall a, b | a in nodes && b in nodes && Adj(GraphOf(ts, nodes), a, b)
      ensures Adj(GraphOf(ts, nodes), b, a)
    {
      AdjExact(ts, nodes, a, b);
      AdjExact(ts, nodes, b, a);
      var t :| t in ts && Links(t, a, b);
      assert Links(t, b, a);
    }
  }

  /** The edges between a node and the nodes placed, each listing the node. */
  function NodeEdges(ts: seq<Pattern>, v: nat, placed: set<nat>): seq<Edge> {
    if ts == [] then []
    else
      (if ts[0].s == Variable(v) && ts[0].o.Variable? && ts[0].o.v in placed then [Edge(ts[0], PO2S)] else []) +
      (if ts[0].o == Variable(v) && ts[0].s.Variable? && ts[0].s.v in placed then [Edge(ts[0], SP2O)] else []) +
      NodeEdges(ts[1..], v, placed)
  }

  lemma {:induction false} NodeEdgesMember(ts: seq<Pattern>, v: nat, placed: set<nat>, e: Edge)
    ensures e in NodeEdges(ts, v, placed) <==>
            e.pat in ts &&
            ((e.how == PO2S && e.pat.s == Variable(v) && e.pat.o.Variable? && e.pat.o.v in placed) ||
             (e.how == SP2O && e.pat.o == Variable(v) && e.pat.s.Variable? && e.pat.s.v in placed))
  {
    if ts != [] {
      NodeEdgesMember(ts[1..], v, placed, e);
      assert ts == [ts[0]] + ts[1..];
    }
  }

  /** The triples between distinct variables of a set. */
  function Inner(ts: seq<Pattern>, s: set<nat>): set<Pattern> {
    set t | t in ts && t.s.Variable? && t.o.Variable? && t.s.v in s && t.o.v in s && t.s.v != t.o.v
  }

  /** The executable plan of a tree. `ids` lists every id a scan without candidates goes through. */
  function Compile(ts: seq<Pattern>, ids: seq<Id>, distinct: bool, t: Planner.PlanTree): Plan {
    match t
    case ScanVar(v) => Scan(v, ids)
    case Pair(a, b) =>
      var linked := NodeEdges(ts, a, {b});
      if linked == [] || !linked[0].pat.s.Variable? || !linked[0].pat.o.Variable? then Unit
      else
        var first := linked[0].pat;
        var two := Apply(Unit, ExtendTwo(first.s.v, first.o.v, first, P2SO));
        if |linked| == 1 then two else Apply(two, Check(linked[1..]))
    case Extend(left, v) =>
      Apply(Compile(ts, ids, distinct, left), ExtendOne(v, NodeEdges(ts, v, Planner.TreeNodes(left)), distinct))
    case JoinTrees(left, right, common) =>
      Join(Compile(ts, ids, distinct, left), Compile(ts, ids, distinct, right), SortedSeq(common))
  }

  /** What the plan of a tree with these nodes has to be. */
  ghost predicate Compiles(ts: seq<Pattern>, plan: Plan, nodes: set<nat>) {
    Wf(plan) && NoSatellite(plan) && AllPlain(plan) &&
    PlanCols(plan) == nodes && FilteredCols(plan) == nodes && PlanPatterns(plan) == Inner(ts, nodes)
  }

  /** The edge of a node through which it sees this triple. */
  function EdgeAt(t: Pattern, v: nat): Edge {
    Edge(t, if t.s == Variable(v) then PO2S else SP2O)
  }

  lemma EdgesExist(ts: seq<Pattern>, nodes: seq<nat>, v: nat, placed: set<nat>)
    requires v in Frontier(GraphOf(ts, nodes), placed) && NodesOf(GraphOf(ts, nodes), placed)
    ensures NodeEdges(ts, v, placed) != []
  {
    var u :| u in placed && Adj(GraphOf(ts, nodes), u, v);
    AdjExact(ts, nodes, u, v);
    var t :| t in ts && Links(t, u, v);
    NodeEdgesMember(ts, v, placed, EdgeAt(t, v));
  }

  lemma EdgesFit(ts: seq<Pattern>, v: nat, placed: set<nat>, e: Edge)
    requires ConstantPredicates(ts) && v !in placed && e in NodeEdges(ts, v, placed)
    ensures EdgeInto(e, v, placed) && TwoGiven(e.how) && e.pat in Inner(ts, placed + {v})
  {
    NodeEdgesMember(ts, v, placed, e);
  }

  /** The triples a node brings in are those its edges to the placed nodes stand for. */
  lemma InnerGrows(ts: seq<Pattern>, v: nat, placed: set<nat>)
    requires ConstantPredicates(ts) && v !in placed
    ensures Inner(ts, placed + {v}) == Inner(ts, placed) + SeenEdges(NodeEdges(ts, v, placed))
  {
    forall t | t in Inner(ts, placed + {v}) && t !in Inner(ts, placed)
      ensures t in SeenEdges(NodeEdges(ts, v, placed))
    {
      NodeEdgesMember(ts, v, placed, EdgeAt(t, v));
      assert Seen(EdgeAt(t, v).pat, EdgeAt(t, v).how) == t;
    }
    forall t | t in SeenEdges(NodeEdges(ts, v, placed))
      ensures t in Inner(ts, placed + {v})
    {
      var e :| e in NodeEdges(ts, v, placed) && Seen(e.pat, e.how) == t;
      EdgesFit(ts, v, placed, e);
    }
  }

  lemma ExtendCompiles(ts: seq<Pattern>, nodes: seq<nat>, left: Plan, placed: set<nat>, v: nat, distinct: bool)
    requires ConstantPredicates(ts) && NoDup(nodes) && v in Frontier(GraphOf(ts, nodes), placed) &&
             NodesOf(GraphOf(ts, nodes), placed)
    requires Compiles(ts, left, placed)
    ensures Compiles(ts, Apply(left, ExtendOne(v, NodeEdges(ts, v, placed), distinct)), placed + {v})
  {
    var edges := NodeEdges(ts, v, placed);
    EdgesExist(ts, nodes, v, placed);
    InnerGrows(ts, v, placed);
    forall e | e in edges
      ensures EdgeInto(e, v, placed) && TwoGiven(e.how)
    {
      EdgesFit(ts, v, placed, e);
    }
    assert edges[0] in edges;
    assert Elements([v]) == {v};
  }

  lemma PairEdges(ts: seq<Pattern>, nodes: seq<nat>, a: nat, b: nat)
    requires ConstantPredicates(ts) && NoDup(nodes) && a in nodes && b in Frontier(GraphOf(ts, nodes), {a})
    ensures a != b && NodeEdges(ts, a, {b}) != []
    ensures forall e :: e in NodeEdges(ts, a, {b}) ==> Links(e.pat, a, b) && e.pat.p.Constant? && EdgeInside(e, {a, b})
    ensures Inner(ts, {a, b}) == SeenEdges(NodeEdges(ts, a, {b}))
  {
    AdjExact(ts, nodes, a, b);
    var t :| t in ts && Links(t, a, b);
    NodeEdgesMember(ts, a, {b}, EdgeAt(t, a));
    forall e | e in NodeEdges(ts, a, {b})
      ensures Links(e.pat, a, b) && e.pat.p.Constant? && EdgeInside(e, {a, b})
    {
      NodeEdgesMember(ts, a, {b}, e);
    }
    InnerGrows(ts, a, {b});
    assert {b} + {a} == {a, b} && Inner(ts, {b}) == {};
  }

  lemma SeenSplit(edges: seq<Edge>)
    requires edges != []
    ensures SeenEdges(edges) == {Seen(edges[0].pat, edges[0].how)} + SeenEdges(edges[1..])
  {
    assert edges == [edges[0]] + edges[1..];
  }

  lemma BothEnds(first: Pattern, a: nat, b: nat)
    requires a != b && Links(first, a, b) && first.p.Constant?
    ensures var two := Apply(Unit, ExtendTwo(first.s.v, first.o.v, first, P2SO));
            Wf(two) && NoSatellite(two) && AllPlain(two) && PlanCols(two) == {a, b} && FilteredCols(two) == {a, b} &&
            PlanPatterns(two) == {first}
  {
    var st := ExtendTwo(first.s.v, first.o.v, first, P2SO);
    assert Elements([first.s.v, first.o.v]) == {a, b};
    assert PairSlots(P2SO) == (P, S, O);
    assert StepOk(st, {});
  }

  /** Listing both ends of one edge and checking the others. */
  lemma PairCompiles(ts: seq<Pattern>, nodes: seq<nat>, ids: seq<Id>, distinct: bool, a: nat, b: nat)
    requires ConstantPredicates(ts) && NoDup(nodes) && a in nodes && b in Frontier(GraphOf(ts, nodes), {a})
    ensures Compiles(ts, Compile(ts, ids, distinct, Planner.Pair(a, b)), {a, b})
  {
    PairEdges(ts, nodes, a, b);
    var linked := NodeEdges(ts, a, {b});
    assert linked[0] in linked;
    SeenSplit(linked);
    var first := linked[0].pat;
    NodeEdgesMember(ts, a, {b}, linked[0]);
    assert Elements([first.s.v, first.o.v]) == {a, b};
    var two := Apply(Unit, ExtendTwo(first.s.v, first.o.v, first, P2SO));
    BothEnds(first, a, b);
    assert Seen(first, linked[0].how) == first;
    if |linked| == 1 {
      assert linked[1..] == [];
      assert Compile(ts, ids, distinct, Planner.Pair(a, b)) == two;
    } else {
      assert Compile(ts, ids, distinct, Planner.Pair(a, b)) == Apply(two, Check(linked[1..]));
    }
    assert forall e :: e in linked[1..] ==> e in linked;
  }

  lemma JoinCompiles(ts: seq<Pattern>, nodes: seq<nat>, left: Plan, right: Plan, a: set<nat>, b: set<nat>,
                     common: set<nat>)
    requires NoDup(nodes) && NodesOf(GraphOf(ts, nodes), a) && NodesOf(GraphOf(ts, nodes), b)
    requires Compiles(ts, left, a) && Compiles(ts, right, b) && Planner.Lossless(GraphOf(ts, nodes), a, b, common)
    ensures Compiles(ts, Join(left, right, SortedSeq(common)), a + b)
  {
    SortedSeqIncreasing(common);
    SortedSeqElements(common);
    forall t | t in Inner(ts, a + b)
      ensures t in Inner(ts, a) || t in Inner(ts, b)
    {
      var x, y := t.s.v, t.o.v;
      assert Links(t, x, y);
      AdjExact(ts, nodes, x, y);
      Planner.LosslessEdge(GraphOf(ts, nodes), a, b, common, x, y);
    }
    assert Inner(ts, a + b) == Inner(ts, a) + Inner(ts, b);
  }

  lemma {:induction false} TreeInside(q: JoinGraph, t: Planner.PlanTree)
    requires Planner.TreeOk(q, t)
    ensures NodesOf(q, Planner.TreeNodes(t))
  {
    match t
    case ScanVar(_) =>
    case Pair(_, _) =>
    case Extend(left, _) => TreeInside(q, left);
    case JoinTrees(left, right, _) =>
      TreeInside(q, left);
      TreeInside(q, right);
  }

  /** Every tree the planner can build compiles to a plan that places each of its nodes once, and
      enforces exactly the query's triples between distinct nodes of it. */
  lemma {:induction false} CompileExact(ts: seq<Pattern>, nodes: seq<nat>, ids: seq<Id>, distinct: bool,
                                        t: Planner.PlanTree)
    requires ConstantPredicates(ts) && NoDup(nodes) && Increasing(ids) && Planner.TreeOk(GraphOf(ts, nodes), t)
    ensures Compiles(ts, Compile(ts, ids, distinct, t), Planner.TreeNodes(t))
  {
    match t
    case ScanVar(v) =>
      assert Inner(ts, {v}) == {};
    case Pair(a, b) => PairCompiles(ts, nodes, ids, distinct, a, b);
    case Extend(left, v) =>
      CompileExact(ts, nodes, ids, distinct, left);
      TreeInside(GraphOf(ts, nodes), left);
      ExtendCompiles(ts, nodes, Compile(ts, ids, distinct, left), Planner.TreeNodes(left), v, distinct);
    case JoinTrees(left, right, common) =>
      CompileExact(ts, nodes, ids, distinct, left);
      CompileExact(ts, nodes, ids, distinct, right);
      TreeInside(GraphOf(ts, nodes), left);
      TreeInside(GraphOf(ts, nodes), right);
      JoinCompiles(ts, nodes, Compile(ts, ids, distinct, left), Compile(ts, ids, distinct, right),
                   Planner.TreeNodes(left), Planner.TreeNodes(right), common);
  }

  // ---------------------------------------------------------------- where edges are checked

  ghost predicate HasCheck(plan: Plan) {
    match plan
    case Unit => false
    case Scan(_, _) => false
    case AllTriples(_, _, _) => false
    case Apply(left, st) => HasCheck(left) || st.Check?
    case Join(left, right, _) => HasCheck(left) || HasCheck(right)
  }

  /** Some leaf lists the pairs of one of several parallel triples. */
  ghost predicate ParallelPair(ts: seq<Pattern>, t: Planner.PlanTree) {
    match t
    case ScanVar(_) => false
    case Pair(a, b) => |NodeEdges(ts, a, {b})| >= 2
    case Extend(left, _) => ParallelPair(ts, left)
    case JoinTrees(left, right, _) => ParallelPair(ts, left) || ParallelPair(ts, right)
  }

  /** A plan filters rows by further edges exactly when it lists the pairs of parallel triples. */
  lemma {:induction false} ChecksAtPairs(ts: seq<Pattern>, ids: seq<Id>, distinct: bool, t: Planner.PlanTree)
    ensures HasCheck(Compile(ts, ids, distinct, t)) <==> ParallelPair(ts, t)
  {
    match t
    case ScanVar(_) =>
    case Pair(a, b) =>
      var linked, plan := NodeEdges(ts, a, {b}), Compile(ts, ids, distinct, t);
      if linked != [] {
        NodeEdgesMember(ts, a, {b}, linked[0]);
        assert linked[0] in linked && plan.Apply?;
        assert plan.left.Apply? ==> plan.left.left.Unit?;
      }
    case Extend(left, _) => ChecksAtPairs(ts, ids, distinct, left);
    case JoinTrees(left, right, _) =>
      ChecksAtPairs(ts, ids, distinct, left);
      ChecksAtPairs(ts, ids, distinct, right);
  }

  /** Greedy plans filter nothing. */
  lemma {:induction false} GreedyChecksNothing(ts: seq<Pattern>, ids: seq<Id>, distinct: bool, o: seq<nat>)
    requires o != []
    ensures !HasCheck(Compile(ts, ids, distinct, Planner.LeftDeep(o)))
    decreases |o|
  {
    if |o| > 1 {
      GreedyChecksNothing(ts, ids, distinct, o[..|o| - 1]);
    }
  }

  // ---------------------------------------------------------------- the whole query

  /** Every node is the subject or the object of some triple of the query. */
  ghost predicate Occurring(ts: seq<Pattern>, nodes: set<nat>) {
    forall v :: v in nodes ==> exists t :: t in ts && (t.s == Variable(v) || t.o == Variable(v))
  }

  lemma OccursInIds(g: Graph, ts: seq<Pattern>, ids: seq<Id>, mu: Binding, v: nat)
    requires AllIds(g, ids) && Occurring(ts, {v}) && AllHold(g, Elements(ts), mu) && v in mu
    ensures mu[v] in ids
  {
    var t :| t in ts && (t.s == Variable(v) || t.o == Variable(v));
    assert Holds(g, t, mu);
  }

  lemma {:induction false} CompileScans(g: Graph, ts: seq<Pattern>, ids: seq<Id>, distinct: bool, t: Planner.PlanTree)
    requires AllIds(g, ids) && Occurring(ts, Planner.TreeNodes(t))
    ensures ScansCover(g, Elements(ts), Compile(ts, ids, distinct, t))
  {
    match t
    case ScanVar(v) =>
      forall mu | AllHold(g, Elements(ts), mu) && v in mu
        ensures mu[v] in ids
      {
        OccursInIds(g, ts, ids, mu, v);
      }
    case Pair(_, _) =>
    case Extend(left, _) => CompileScans(g, ts, ids, distinct, left);
    case JoinTrees(left, right, _) =>
      CompileScans(g, ts, ids, distinct, left);
      CompileScans(g, ts, ids, distinct, right);
  }

  /** Each triple of the query lies between distinct join nodes, or has one variable only, whose
      candidates satisfy it. */
  ghost predicate Covered(g: Graph, caches: Caches, ts: seq<Pattern>, nodes: set<nat>) {
    forall t :: t in ts ==> t in Inner(ts, nodes) || exists v :: v in nodes && Enforced(g, caches, t, v)
  }

  /** Planner, candidate caches and executor together: the plan of any tree over all join nodes
      returns each solution of the query exactly once, and nothing else. */
  lemma PlannedSolutions(g: Graph, ts: seq<Pattern>, nodes: seq<nat>, ids: seq<Id>, distinct: bool, caches: Caches,
                         t: Planner.PlanTree, mu: Binding)
    requires ConstantPredicates(ts) && NoDup(nodes) && AllIds(g, ids) && Occurring(ts, Elements(nodes))
    requires Planner.TreeOk(GraphOf(ts, nodes), t) && Planner.TreeNodes(t) == Elements(nodes)
    requires CachesOrdered(caches) && Sound(g, Elements(ts), caches) && Covered(g, caches, ts, Elements(nodes))
    requires mu.Keys == Elements(nodes)
    ensures Wf(Compile(ts, ids, distinct, t)) && PlanCols(Compile(ts, ids, distinct, t)) == mu.Keys
    ensures var table := Eval(g, caches, Compile(ts, ids, distinct, t));
            multiset(table.rows)[RowOf(table.cols, mu)] == if AllHold(g, Elements(ts), mu) then 1 else 0
  {
    var plan := Compile(ts, ids, distinct, t);
    CompileExact(ts, nodes, ids, distinct, t);
    CompileScans(g, ts, ids, distinct, t);
    forall e | e in Elements(ts)
      ensures Handled(g, caches, plan, e)
    {
    }
    QuerySolutions(g, Elements(ts), caches, plan, mu);
  }
}

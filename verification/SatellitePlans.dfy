/** Satellite variables placed after the join nodes: kept as a column when selected, otherwise only
    counted. */
module SatellitePlans {
  import opened Collections
  import opened Rdf
  import opened Tables
  import opened Plans
  import opened Solutions
  import opened Satellites
  import opened CandidateCaches
  import opened JoinGraphs
  import opened QueryPlans
  import opened QueryGraphs

  /** The edges of a variable, in the order of the query's triples. */
  function VarEdges(ts: seq<Pattern>, v: nat): seq<Edge> {
    if ts == [] then []
    else
      (if ts[0].s == Variable(v) then [Edge(ts[0], PO2S)] else []) +
      (if ts[0].o == Variable(v) then [Edge(ts[0], SP2O)] else []) +
      VarEdges(ts[1..], v)
  }

  lemma {:induction false} VarEdgesDegree(ts: seq<Pattern>, v: nat)
    ensures |VarEdges(ts, v)| == Degree(ts, v)
  {
    if ts != [] {
      VarEdgesDegree(ts[1..], v);
    }
  }

  /** The edges to placed nodes are some of a variable's edges. */
  lemma {:induction false} PlacedEdges(ts: seq<Pattern>, v: nat, placed: set<nat>)
    ensures |NodeEdges(ts, v, placed)| <= |VarEdges(ts, v)|
    ensures |NodeEdges(ts, v, placed)| == |VarEdges(ts, v)| ==> NodeEdges(ts, v, placed) == VarEdges(ts, v)
  {
    if ts != [] {
      PlacedEdges(ts[1..], v, placed);
    }
  }

  function FirstEdge(ts: seq<Pattern>, v: nat): seq<Edge> {
    if VarEdges(ts, v) == [] then [] else VarEdges(ts, v)[..1]
  }

  /** PlanTree::AddSatelliteNode: the step for a variable with one edge. */
  function SatelliteStep(ts: seq<Pattern>, v: nat, selected: set<nat>, distinct: bool): Step {
    if v in selected then ExtendOne(v, FirstEdge(ts, v), distinct) else Satellite(v, FirstEdge(ts, v), distinct)
  }

  lemma OnFrontier(ts: seq<Pattern>, vars: seq<nat>, v: nat, placed: set<nat>)
    requires Query(ts, vars) && v in vars && IsSatellite(ts, v)
    requires Elements(JoinNodes(ts, vars)) <= placed <= Elements(vars) && v !in placed
    ensures v in Frontier(GraphOf(ts, vars), placed)
  {
    var u := HangsOn(ts, vars, v);
    NodesExact(ts, vars);
    assert u in Elements(JoinNodes(ts, vars));
    LinkedVars(ts, vars, v, u);
    AdjExact(ts, vars, u, v);
    assert Crossing(GraphOf(ts, vars), placed, {v});
  }

  /** Its one edge leads to a join node, whatever else is placed. */
  lemma SatelliteEdge(ts: seq<Pattern>, vars: seq<nat>, v: nat, placed: set<nat>)
    requires Query(ts, vars) && v in vars && IsSatellite(ts, v)
    requires Elements(JoinNodes(ts, vars)) <= placed <= Elements(vars) && v !in placed
    ensures v in Frontier(GraphOf(ts, vars), placed) && NodeEdges(ts, v, placed) == FirstEdge(ts, v) != []
  {
    OnFrontier(ts, vars, v, placed);
    assert NodesOf(GraphOf(ts, vars), placed);
    EdgesExist(ts, vars, v, placed);
    OneEdge(ts, v, placed);
  }

  lemma OneEdge(ts: seq<Pattern>, v: nat, placed: set<nat>)
    requires IsSatellite(ts, v) && NodeEdges(ts, v, placed) != []
    ensures NodeEdges(ts, v, placed) == FirstEdge(ts, v)
  {
    VarEdgesDegree(ts, v);
    PlacedEdges(ts, v, placed);
  }

  /** A plan in which these variables are placed. The satellites kept are the selected ones. */
  ghost predicate Placed(ts: seq<Pattern>, plan: Plan, nodes: set<nat>, placed: set<nat>, selected: set<nat>,
                         distinct: bool) {
    Wf(plan) && nodes <= placed && PlanCols(plan) == nodes + (placed * selected) &&
    Compiles(ts, Saturate(plan), placed) &&
    CountsBy(plan, distinct)
  }

  /** All satellite steps count the same way. */
  ghost predicate CountsBy(plan: Plan, distinct: bool) {
    match plan
    case Unit => true
    case Scan(_, _) => true
    case AllTriples(_, _, _) => true
    case Apply(left, st) => CountsBy(left, distinct) && Plain(st) && (st.Satellite? ==> st.distinct == distinct)
    case Join(left, right, _) => CountsBy(left, distinct) && CountsBy(right, distinct)
  }

  lemma {:induction false} CountsByAll(plan: Plan)
    requires CountsBy(plan, false)
    ensures CountsAll(plan)
  {
    match plan
    case Unit =>
    case Scan(_, _) =>
    case AllTriples(_, _, _) =>
    case Apply(left, _) => CountsByAll(left);
    case Join(left, right, _) =>
      CountsByAll(left);
      CountsByAll(right);
  }

  /** With satellites let through once, no row comes twice. */
  lemma {:induction false} DistinctRows(g: Graph, caches: Caches, plan: Plan)
    requires Wf(plan) && CountsBy(plan, true) && CachesOrdered(caches)
    ensures NoDup(Eval(g, caches, plan).rows)
  {
    match plan
    case Unit =>
    case Scan(_, _) => EvalExact(g, caches, plan);
    case AllTriples(_, _, _) => EvalExact(g, caches, plan);
    case Apply(left, st) =>
      DistinctRows(g, caches, left);
      RunNoDup(g, caches, st, Eval(g, caches, left).cols, Eval(g, caches, left).rows);
    case Join(left, right, common) =>
      DistinctRows(g, caches, left);
      DistinctRows(g, caches, right);
      var a, b := Eval(g, caches, left), Eval(g, caches, right);
      if |a.rows| > |b.rows| { JoinRowsNoDup(a, b, common); } else { JoinRowsNoDup(b, a, common); }
  }

  lemma {:induction false} NothingToKeep(plan: Plan, distinct: bool)
    requires NoSatellite(plan) && AllPlain(plan)
    ensures Saturate(plan) == plan && CountsBy(plan, distinct)
  {
    match plan
    case Unit =>
    case Scan(_, _) =>
    case AllTriples(_, _, _) =>
    case Apply(left, _) => NothingToKeep(left, distinct);
    case Join(left, right, _) =>
      NothingToKeep(left, distinct);
      NothingToKeep(right, distinct);
  }

  /** The step can run on the plan's columns: its edge leads to a join node. */
  lemma SatelliteStepOk(ts: seq<Pattern>, vars: seq<nat>, v: nat, cols: set<nat>, selected: set<nat>, distinct: bool)
    requires Query(ts, vars) && ConstantPredicates(ts) && v in vars && IsSatellite(ts, v)
    requires Elements(JoinNodes(ts, vars)) <= cols <= Elements(vars) && v !in cols
    ensures StepOk(SatelliteStep(ts, v, selected, distinct), cols) && Plain(SatelliteStep(ts, v, selected, distinct))
  {
    SatelliteEdge(ts, vars, v, cols);
    forall e | e in NodeEdges(ts, v, cols)
      ensures EdgeInto(e, v, cols) && TwoGiven(e.how)
    {
      EdgesFit(ts, v, cols, e);
    }
    assert FirstEdge(ts, v)[0] in NodeEdges(ts, v, cols);
  }

  lemma PlaceCols(nodes: set<nat>, placed: set<nat>, selected: set<nat>, plan: Plan, st: Step, v: nat)
    requires PlanCols(plan) == nodes + (placed * selected) && Elements(NewCols(st)) == if v in selected then {v} else {}
    ensures PlanCols(Apply(plan, st)) == nodes + ((placed + {v}) * selected)
  {
  }

  lemma PlaceCompiles(ts: seq<Pattern>, vars: seq<nat>, plan: Plan, placed: set<nat>, v: nat, distinct: bool)
    requires Query(ts, vars) && ConstantPredicates(ts) && v in vars && IsSatellite(ts, v) && v !in placed &&
             placed <= Elements(vars)
    requires Elements(JoinNodes(ts, vars)) <= placed && Compiles(ts, plan, placed)
    ensures Compiles(ts, Apply(plan, ExtendOne(v, FirstEdge(ts, v), distinct)), placed + {v})
  {
    SatelliteEdge(ts, vars, v, placed);
    ExtendCompiles(ts, vars, plan, placed, v, distinct);
  }

  lemma PlaceOne(ts: seq<Pattern>, vars: seq<nat>, plan: Plan, placed: set<nat>, v: nat, selected: set<nat>,
                 distinct: bool)
    requires Query(ts, vars) && ConstantPredicates(ts) && v in vars && IsSatellite(ts, v) && v !in placed &&
             placed <= Elements(vars)
    requires Placed(ts, plan, Elements(JoinNodes(ts, vars)), placed, selected, distinct)
    ensures Placed(ts, Apply(plan, SatelliteStep(ts, v, selected, distinct)), Elements(JoinNodes(ts, vars)),
                   placed + {v}, selected, distinct)
  {
    var nodes, st := Elements(JoinNodes(ts, vars)), SatelliteStep(ts, v, selected, distinct);
    PlaceCompiles(ts, vars, Saturate(plan), placed, v, distinct);
    PlaceWf(ts, vars, plan, v, selected, distinct);
    PlaceCols(nodes, placed, selected, plan, st, v);
  }

  lemma PlaceWf(ts: seq<Pattern>, vars: seq<nat>, plan: Plan, v: nat, selected: set<nat>, distinct: bool)
    requires Query(ts, vars) && ConstantPredicates(ts) && v in vars && IsSatellite(ts, v) && Wf(plan) &&
             CountsBy(plan, distinct)
    requires Elements(JoinNodes(ts, vars)) <= PlanCols(plan) <= Elements(vars) && v !in PlanCols(plan)
    ensures var next := Apply(plan, SatelliteStep(ts, v, selected, distinct)); Wf(next) && CountsBy(next, distinct)
  {
    SatelliteStepOk(ts, vars, v, PlanCols(plan), selected, distinct);
    SomeJoinNode(ts, vars);
    assert JoinNodes(ts, vars)[0] in PlanCols(plan);
  }

  /** The satellites not placed yet. */
  ghost predicate Remaining(ts: seq<Pattern>, vars: seq<nat>, todo: set<nat>) {
    forall v :: v in todo ==> v in vars && IsSatellite(ts, v)
  }

  lemma FirstPlaced(ts: seq<Pattern>, vars: seq<nat>, tree: Plan, todo: set<nat>, selected: set<nat>, distinct: bool)
    requires Compiles(ts, tree, Elements(JoinNodes(ts, vars))) && todo == Elements(SatelliteNodes(ts, vars))
    ensures Remaining(ts, vars, todo) && Saturate(tree) == tree
    ensures Placed(ts, tree, Elements(JoinNodes(ts, vars)), Elements(vars) - todo, selected, distinct)
  {
    var nodes := Elements(JoinNodes(ts, vars));
    NothingToKeep(tree, distinct);
    NodesExact(ts, vars);
    assert Elements(vars) - todo == nodes;
    assert nodes + (nodes * selected) == nodes;
  }

  lemma NextPlaced(ts: seq<Pattern>, vars: seq<nat>, plan: Plan, todo: set<nat>, v: nat, selected: set<nat>,
                   distinct: bool)
    requires Query(ts, vars) && ConstantPredicates(ts) && Remaining(ts, vars, todo) && v in todo
    requires Placed(ts, plan, Elements(JoinNodes(ts, vars)), Elements(vars) - todo, selected, distinct)
    ensures Placed(ts, Apply(plan, SatelliteStep(ts, v, selected, distinct)), Elements(JoinNodes(ts, vars)),
                   Elements(vars) - (todo - {v}),
                   selected, distinct)
  {
    PlaceOne(ts, vars, plan, Elements(vars) - todo, v, selected, distinct);
    assert v in Elements(vars);
    assert Elements(vars) - todo + {v} == Elements(vars) - (todo - {v});
  }

  /** PlanGenerator::AddSatelliteNode: all satellites behind the join nodes. Scores decide in which
      order; any order will do. */
  method AddSatelliteNodes(ts: seq<Pattern>, tree: Plan, satellites: seq<nat>, selected: set<nat>, distinct: bool,
                           ghost vars: seq<nat>, ghost g: Graph)
    returns (plan: Plan)
    requires Query(ts, vars) && ConstantPredicates(ts) && satellites == SatelliteNodes(ts, vars) &&
             Compiles(ts, tree, Elements(JoinNodes(ts, vars)))
    requires ScansCover(g, Elements(ts), tree)
    ensures Placed(ts, plan, Elements(JoinNodes(ts, vars)), Elements(vars), selected, distinct)
    ensures ScansCover(g, Elements(ts), Saturate(plan))
  {
    plan := tree;
    var todo := Elements(satellites);
    FirstPlaced(ts, vars, tree, todo, selected, distinct);
    while todo != {}
      invariant Remaining(ts, vars, todo) && ScansCover(g, Elements(ts), Saturate(plan))
      invariant Placed(ts, plan, Elements(JoinNodes(ts, vars)), Elements(vars) - todo, selected, distinct)
    {
      var v :| v in todo;
      NextPlaced(ts, vars, plan, todo, v, selected, distinct);
      plan := Apply(plan, SatelliteStep(ts, v, selected, distinct));
      todo := todo - {v};
    }
    assert Elements(vars) - {} == Elements(vars);
  }
}

/** From a query to its answer: candidate lists are filled, a plan over the join nodes is chosen by the
    dynamic program or greedily, satellites are placed behind it, and the plan is executed breadth
    first. */
module QueryEngine {
  import opened Collections
  import opened Rdf
  import opened Tables
  import opened Plans
  import opened Solutions
  import opened Satellites
  import opened CandidateCaches
  import opened JoinGraphs
  import opened QueryPlans
  import opened QueryGraphs
  import opened FilterPlans
  import opened SatellitePlans
  import opened PlanMeanings
  import opened Engine
  import Planner
  import PlanGenerators
  import HeuristicPlans

  /** Every solution of the query is one row of the table, and there are no other rows. */
  ghost predicate Answers(g: Graph, ts: seq<Pattern>, vars: set<nat>, t: Table) {
    TableOk(t) && Elements(t.cols) == vars &&
    forall mu: Binding :: mu.Keys == vars ==>
      multiset(t.rows)[RowOf(t.cols, mu)] == if AllHold(g, Elements(ts), mu) then 1 else 0
  }

  /** Some step lists each triple with one variable; steps are for subjects and objects. */
  ghost predicate StepsFor(ts: seq<Pattern>, vars: seq<nat>, steps: seq<CacheStep>) {
    StepsOf(Elements(ts), steps) && (forall s :: s in steps ==> s.v in vars) &&
    forall v :: v in JoinNodes(ts, vars) ==> Filtered(ts, steps, v)
  }

  lemma StepsForMore(ts: seq<Pattern>, vars: seq<nat>, steps: seq<CacheStep>, more: seq<CacheStep>)
    requires StepsFor(ts, vars, steps) && StepsOf(Elements(ts), more) && forall s :: s in more ==> s.v in vars
    ensures StepsFor(ts, vars, steps + more)
  {
    forall v | v in JoinNodes(ts, vars)
      ensures Filtered(ts, steps + more, v)
    {
      FilteredMore(ts, steps, more, v);
    }
  }

  lemma FirstRound(ts: seq<Pattern>, vars: seq<nat>, selected: set<nat>, steps: seq<CacheStep>)
    requires StepsConstant(ts, vars, selected, steps)
    ensures StepsFor(ts, vars, steps)
  {
    ConstantStepsOf(ts, vars, selected, steps);
    SplitExact(ts, vars);
  }

  /** OnlyConstFilter and CompleteCandidate together: a step for every triple with one variable. */
  method CandidateSteps(ts: seq<Pattern>, vars: seq<nat>, selected: set<nat>, nodes: seq<nat>,
                        wanted: (nat, Edge) -> bool)
    returns (steps: seq<CacheStep>)
    requires Query(ts, vars) && nodes == JoinNodes(ts, vars)
    ensures StepsFor(ts, vars, steps)
  {
    var first := OnlyConstFilter(ts, vars, selected);
    FirstRound(ts, vars, selected, first);
    NodesExact(ts, vars);
    var second := CompleteCandidate(ts, nodes, wanted);
    StepsForMore(ts, vars, first, second);
    steps := first + second;
  }

  /** A triple is between two variables, or it is enforced by the cache of a join node. */
  lemma TripleHandled(g: Graph, ts: seq<Pattern>, vars: seq<nat>, steps: seq<CacheStep>, t: Pattern)
    requires Query(ts, vars) && ConstantPredicates(ts) && SelfFree(ts) && StepsFor(ts, vars, steps) && t in ts
    ensures t in Inner(ts, Elements(vars)) ||
            exists v :: v in Elements(vars) && Enforced(g, AddSteps(g, Elements(ts), map[], steps), t, v)
  {
    assert Proper(t);
    if t.s.Variable? && t.o.Variable? {
      assert Touches(t, t.s.v) && Touches(t, t.o.v);
    } else {
      var v := if t.s.Variable? then t.s.v else t.o.v;
      ConstantAtNode(ts, vars, t, v);
      NodesExact(ts, vars);
      assert Filtered(ts, steps, v) && ConstantAt(t, v);
      AddStepsEnforces(g, Elements(ts), map[], steps, t, v);
    }
  }

  /** The caches the candidate steps leave are sound and take care of every triple with one variable. */
  lemma CachesReady(g: Graph, ts: seq<Pattern>, vars: seq<nat>, steps: seq<CacheStep>)
    requires Query(ts, vars) && ConstantPredicates(ts) && SelfFree(ts) && StepsFor(ts, vars, steps)
    ensures var caches := AddSteps(g, Elements(ts), map[], steps);
            CachesOrdered(caches) && Sound(g, Elements(ts), caches) && Covered(g, caches, ts, Elements(vars))
  {
    AddStepsSound(g, Elements(ts), map[], steps);
    forall t | t in ts && t !in Inner(ts, Elements(vars))
      ensures exists v :: v in Elements(vars) && Enforced(g, AddSteps(g, Elements(ts), map[], steps), t, v)
    {
      TripleHandled(g, ts, vars, steps, t);
    }
  }

  /** A plan over all variables that enforces the triples between them answers the query. */
  lemma FullAnswers(g: Graph, ts: seq<Pattern>, vars: set<nat>, caches: Caches, plan: Plan)
    requires Compiles(ts, plan, vars) && ScansCover(g, Elements(ts), plan)
    requires CachesOrdered(caches) && Sound(g, Elements(ts), caches) && Covered(g, caches, ts, vars)
    ensures Answers(g, ts, vars, Eval(g, caches, plan))
  {
    var t := Eval(g, caches, plan);
    forall e | e in Elements(ts)
      ensures Handled(g, caches, plan, e)
    {
    }
    forall mu: Binding | mu.Keys == vars
      ensures multiset(t.rows)[RowOf(t.cols, mu)] == if AllHold(g, Elements(ts), mu) then 1 else 0
    {
      QuerySolutions(g, Elements(ts), caches, plan, mu);
    }
  }

  /** What a table says of a query: it is the answer over all variables without the columns it does
      not keep, row for row, or with distinct each row once. */
  ghost predicate Projects(t: Table, full: Table, distinct: bool) {
    Shadows(t, full) && if distinct then NoDup(t.rows) else Covers(t, full)
  }

  lemma FullRow(g: Graph, ts: seq<Pattern>, vars: set<nat>, full: Table, r: Row)
    requires Answers(g, ts, vars, full) && |r| == |full.cols|
    ensures r in full.rows <==> Solution(g, ts, vars, Bind(full.cols, r))
  {
    RowRoundTrip(full.cols, r);
    assert r in full.rows <==> multiset(full.rows)[r] > 0;
  }

  /** So the rows are the parts of the solutions on the columns kept. */
  lemma RowsAreSolutions(g: Graph, ts: seq<Pattern>, vars: set<nat>, t: Table, full: Table, distinct: bool, mu: Binding)
    requires Answers(g, ts, vars, full) && Projects(t, full, distinct) && mu.Keys == Elements(t.cols)
    ensures RowOf(t.cols, mu) in t.rows <==> exists nu :: Solution(g, ts, vars, nu) && Agrees(mu, nu)
  {
    var r := RowOf(t.cols, mu);
    BindRoundTrip(t.cols, mu);
    if r in t.rows {
      var f :| f in full.rows && Under(t.cols, r, full.cols, f);
      FullRow(g, ts, vars, full, f);
      assert Agrees(mu, Bind(full.cols, f));
    }
    forall nu: Binding | Solution(g, ts, vars, nu) && Agrees(mu, nu)
      ensures r in t.rows
    {
      var f := RowOf(full.cols, nu);
      BindRoundTrip(full.cols, nu);
      FullRow(g, ts, vars, full, f);
      assert Under(t.cols, r, full.cols, f);
    }
  }

  /** The plan with all satellites placed answers the query. */
  lemma PlacedAnswers(g: Graph, ts: seq<Pattern>, vars: seq<nat>, selected: set<nat>, distinct: bool,
                      steps: seq<CacheStep>, plan: Plan)
    requires Query(ts, vars) && ConstantPredicates(ts) && SelfFree(ts) && StepsFor(ts, vars, steps)
    requires Placed(ts, plan, Elements(JoinNodes(ts, vars)), Elements(vars), selected, distinct)
    requires ScansCover(g, Elements(ts), Saturate(plan))
    ensures var caches := AddSteps(g, Elements(ts), map[], steps);
            Answers(g, ts, Elements(vars), Eval(g, caches, Saturate(plan))) &&
            Projects(Eval(g, caches, plan), Eval(g, caches, Saturate(plan)), distinct)
  {
    var caches := AddSteps(g, Elements(ts), map[], steps);
    CachesReady(g, ts, vars, steps);
    FullAnswers(g, ts, Elements(vars), caches, Saturate(plan));
    SatelliteSet(g, caches, plan);
    if distinct {
      DistinctRows(g, caches, plan);
    } else {
      CountsByAll(plan);
      SatelliteProjection(g, caches, plan);
    }
  }

  /** The plan of a query over its join nodes, whichever strategy chooses it. */
  method ChoosePlan(q: JoinGraph, costs: Planner.Costs, score: (seq<nat>, nat) -> real, heuristic: bool,
                    useBinaryJoin: bool)
    returns (t: Planner.PlanTree)
    requires GraphOk(q) && q.nodes != [] && Connected(q, Elements(q.nodes))
    requires Planner.InRange(q, costs) && HeuristicPlans.Positive(q, score)
    ensures Planner.TreeOk(q, t) && Planner.TreeNodes(t) == Elements(q.nodes)
    ensures heuristic ==> exists o :: HeuristicPlans.Greedy(q, score, o) && t == Planner.LeftDeep(o)
    ensures !heuristic ==> PlanGenerators.IsCheapest(q, costs, useBinaryJoin, t)
  {
    if heuristic {
      var planner := new HeuristicPlans.HeuristicPlanner(q, score);
      t := planner.HeuristicPlan();
      assert HeuristicPlans.Greedy(q, score, planner.planVarVec);
    } else {
      var generator := new PlanGenerators.PlanGenerator(q, costs, useBinaryJoin);
      t := generator.DPPlan();
      Planner.SpaceOk(q, useBinaryJoin, t);
    }
  }

  lemma QueryReady(ts: seq<Pattern>, vars: seq<nat>)
    requires Query(ts, vars) && ConstantPredicates(ts)
    ensures var nodes := JoinNodes(ts, vars);
            NoDup(nodes) && nodes != [] && GraphOk(GraphOf(ts, nodes)) &&
            Connected(GraphOf(ts, nodes), Elements(nodes)) &&
            Occurring(ts, Elements(nodes))
  {
    var nodes := JoinNodes(ts, vars);
    NodesExact(ts, vars);
    SomeJoinNode(ts, vars);
    NodesConnected(ts, vars);
    GraphOfOk(ts, nodes);
    forall v | v in Elements(nodes)
      ensures exists t :: t in ts && (t.s == Variable(v) || t.o == Variable(v))
    {
      var t :| t in ts && Touches(t, v);
    }
  }

  /** Tree and satellites: the plan of a query. */
  method PlanQuery(ts: seq<Pattern>, ids: seq<Id>, selected: set<nat>, distinct: bool, nodes: seq<nat>,
                   satellites: seq<nat>,
                   costs: Planner.Costs, score: (seq<nat>, nat) -> real, heuristic: bool, useBinaryJoin: bool,
                   ghost vars: seq<nat>, ghost g: Graph)
    returns (plan: Plan)
    requires Query(ts, vars) && ConstantPredicates(ts) && AllIds(g, ids) && nodes == JoinNodes(ts, vars) &&
             satellites == SatelliteNodes(ts, vars)
    requires Planner.InRange(GraphOf(ts, nodes), costs) && HeuristicPlans.Positive(GraphOf(ts, nodes), score)
    ensures Placed(ts, plan, Elements(nodes), Elements(vars), selected, distinct)
    ensures ScansCover(g, Elements(ts), Saturate(plan))
  {
    QueryReady(ts, vars);
    var tree := ChoosePlan(GraphOf(ts, nodes), costs, score, heuristic, useBinaryJoin);
    CompileExact(ts, nodes, ids, distinct, tree);
    CompileScans(g, ts, ids, distinct, tree);
    plan := AddSatelliteNodes(ts, Compile(ts, ids, distinct, tree), satellites, selected, distinct, vars, g);
  }

  /** A connected query of two or more triples with constant predicates is answered: candidate steps,
      planner, satellites and executor together give each solution once and nothing else, projected
      to the join nodes and the selected satellites, whatever the costs, the scores, the strategy and
      the order of the satellites are. The columns are the selected variables and all that have not
      exactly one edge. */
  method AnswerQuery(g: Graph, ts: seq<Pattern>, vars: seq<nat>, selected: set<nat>, ids: seq<Id>, distinct: bool,
                     wanted: (nat, Edge) -> bool, costs: Planner.Costs, score: (seq<nat>, nat) -> real,
                     heuristic: bool, useBinaryJoin: bool)
    returns (t: Table, ghost full: Table)
    requires Query(ts, vars) && ConstantPredicates(ts) && SelfFree(ts) && AllIds(g, ids)
    requires Planner.InRange(GraphOf(ts, JoinNodes(ts, vars)), costs)
    requires HeuristicPlans.Positive(GraphOf(ts, JoinNodes(ts, vars)), score)
    ensures TableOk(t) && forall v :: v in t.cols <==> v in vars && (v in selected || !SingleEdge(ts, v))
    ensures Answers(g, ts, Elements(vars), full) && Projects(t, full, distinct)
  {
    var nodes, satellites := SplitNodes(ts, vars);
    var steps := CandidateSteps(ts, vars, selected, nodes, wanted);
    var caches := CacheAll(g, map[], steps, Elements(ts));
    var plan := PlanQuery(ts, ids, selected, distinct, nodes, satellites, costs, score, heuristic, useBinaryJoin, vars,
                          g);
    PlacedAnswers(g, ts, vars, selected, distinct, steps, plan);
    full := Eval(g, caches, Saturate(plan));
    t := ExecutionBreadthFirst(g, caches, plan);
    assert Elements(t.cols) == Elements(nodes) + (Elements(vars) * selected);
    KeptColumns(t.cols, nodes, vars, selected);
  }

  lemma KeptColumns(cols: seq<nat>, nodes: seq<nat>, vars: seq<nat>, selected: set<nat>)
    requires Elements(cols) == Elements(nodes) + (Elements(vars) * selected)
    ensures forall v :: v in cols <==> v in nodes || (v in vars && v in selected)
  {
    forall v
      ensures v in cols <==> v in nodes || (v in vars && v in selected)
    {
      assert v in cols <==> v in Elements(cols);
    }
  }
}

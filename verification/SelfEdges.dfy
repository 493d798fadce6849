/** Edges from a variable to itself. The planner never uses one when it places a node, and the
    candidate lists only see that its predicate occurs at the variable. So plans mean their query
    exactly when it has no such edge. */
module SelfEdges {
  import opened Collections
  import opened Rdf
  import opened Tables
  import opened Plans
  import opened Solutions
  import opened Satellites
  import opened CandidateCaches
  import opened CacheCoverage
  import opened QueryPlans
  import opened QueryGraphs
  import opened SatellitePlans
  import opened QueryEngine
  import opened PlanMeanings
  import Planner

  lemma {:induction false} WithIdsKeeps(plan: Plan, ids: seq<Id>, distinct: bool)
    requires Wf(plan) && Increasing(ids) && CountsBy(plan, distinct)
    ensures var p := WithIds(plan, ids);
            Wf(p) && PlanCols(p) == PlanCols(plan) && CountsBy(p, distinct) &&
            Saturate(p) == WithIds(Saturate(plan), ids)
  {
    match plan
    case Unit =>
    case Scan(_, _) =>
    case AllTriples(_, _, _) =>
    case Apply(left, _) => WithIdsKeeps(left, ids, distinct);
    case Join(left, right, _) =>
      WithIdsKeeps(left, ids, distinct);
      WithIdsKeeps(right, ids, distinct);
  }

  /** The scans of the plan may go through any list of ids. */
  lemma PlacedWithIds(ts: seq<Pattern>, plan: Plan, nodes: set<nat>, placed: set<nat>, selected: set<nat>,
                      distinct: bool, ids: seq<Id>)
    requires Placed(ts, plan, nodes, placed, selected, distinct) && Increasing(ids)
    ensures Placed(ts, WithIds(plan, ids), nodes, placed, selected, distinct) &&
            PlanCols(WithIds(plan, ids)) == PlanCols(plan)
    ensures Saturate(WithIds(plan, ids)) == WithIds(Saturate(plan), ids)
  {
    WithIdsKeeps(plan, ids, distinct);
    WithIdsSame(Saturate(plan), ids);
  }

  lemma ScannedOccurs(ts: seq<Pattern>, vars: seq<nat>, plan: Plan)
    requires Query(ts, vars) && PlanCols(plan) == Elements(vars)
    ensures forall v :: v in ScanVars(plan) ==> v in vars && EndOf(Elements(ts), v)
  {
    ScansFiltered(plan);
    FilteredInCols(plan);
    forall v | v in ScanVars(plan)
      ensures v in vars && EndOf(Elements(ts), v)
    {
      assert v in PlanCols(plan) && v in vars;
      var t :| t in ts && Touches(t, v);
      assert t in Elements(ts);
    }
  }

  lemma Means(g: Graph, ids: seq<Id>, ts: seq<Pattern>, vars: seq<nat>, selected: set<nat>, distinct: bool,
              steps: seq<CacheStep>, plan: Plan)
    requires Query(ts, vars) && ConstantPredicates(ts) && SelfFree(ts) && StepsFor(ts, vars, steps) && AllIds(g, ids)
    requires Placed(ts, plan, Elements(JoinNodes(ts, vars)), Elements(vars), selected, distinct)
    ensures Wf(WithIds(plan, ids)) && MeansOn(g, ids, ts, Elements(vars), steps, plan)
  {
    var p := WithIds(plan, ids);
    PlacedWithIds(ts, plan, Elements(JoinNodes(ts, vars)), Elements(vars), selected, distinct, ids);
    ScannedOccurs(ts, vars, Saturate(plan));
    ScansCovered(g, Elements(ts), ids, Saturate(plan));
    PlacedAnswers(g, ts, vars, selected, distinct, steps, p);
    var caches := AddSteps(g, Elements(ts), map[], steps);
    var t, full := Eval(g, caches, p), Eval(g, caches, Saturate(p));
    forall mu: Binding | mu.Keys == Elements(t.cols)
      ensures RowOf(t.cols, mu) in t.rows <==> exists nu :: Solution(g, ts, Elements(vars), nu) && Agrees(mu, nu)
    {
      RowsAreSolutions(g, ts, Elements(vars), t, full, distinct, mu);
    }
  }

  // ---------------------------------------------------------------- a graph that gives a wrong row

  /** Every triple with an id of its own for each variable; an edge of a variable to itself becomes two
      triples through the id n, which nothing else uses. */
  ghost function LoopGraph(n: nat, q: set<Pattern>): Graph {
    (set e | e in q && e.s != e.o :: OwnTriple(n, e)) +
    (set e | e in q && e.s == e.o :: OwnTriple(n, e).(o := n)) +
    (set e | e in q && e.s == e.o :: OwnTriple(n, e).(s := n))
  }

  lemma LoopHolds(n: nat, q: set<Pattern>, e: Pattern, cols: set<nat>)
    requires e in q && e.s != e.o && PatternVars(e) <= cols
    ensures Holds(LoopGraph(n, q), e, OwnMapping(n, cols))
  {
    assert OwnTriple(n, e) in LoopGraph(n, q);
    assert Matches(e, OwnMapping(n, cols), OwnTriple(n, e));
  }

  /** No triple leads from the id of a variable to itself. */
  lemma LoopLacks(n: nat, q: set<Pattern>, e: Pattern, v: nat, mu: Binding)
    requires forall x :: x in q ==> Below(x, n)
    requires e.s == e.o == Variable(v) && v in mu && mu[v] == n + 1 + v
    ensures !Holds(LoopGraph(n, q), e, mu)
  {
    forall t | t in LoopGraph(n, q)
      ensures !Matches(e, mu, t)
    {
      if x :| x in q && x.s != x.o && OwnTriple(n, x) == t {
        assert Below(x, n);
      }
    }
  }

  ghost predicate AllProper(q: set<Pattern>) {
    forall e :: e in q ==> Proper(e) && e.p.Constant?
  }

  /** A candidate step through any edge of the query finds the variable's own id. */
  lemma LoopSeen(n: nat, q: set<Pattern>, x: Edge, v: nat)
    requires AllProper(q) && ConstantEdge(x, v) && x.pat in q
    ensures Holds(LoopGraph(n, q), Seen(x.pat, x.how), map[v := n + 1 + v])
  {
    var g, mu := LoopGraph(n, q), map[v := n + 1 + v];
    assert Proper(x.pat);
    if x.pat.s != x.pat.o {
      assert OwnTriple(n, x.pat) in g;
      assert Matches(Seen(x.pat, x.how), mu, OwnTriple(n, x.pat));
    } else if x.how == P2S {
      assert OwnTriple(n, x.pat).(o := n) in g;
      assert Matches(Seen(x.pat, x.how), mu, OwnTriple(n, x.pat).(o := n));
    } else {
      assert x.how == P2O;
      assert OwnTriple(n, x.pat).(s := n) in g;
      assert Matches(Seen(x.pat, x.how), mu, OwnTriple(n, x.pat).(s := n));
    }
  }

  lemma LoopCandidate(n: nat, q: set<Pattern>, steps: seq<CacheStep>, v: nat)
    requires AllProper(q) && StepsOf(q, steps)
    ensures InCache(AddSteps(LoopGraph(n, q), q, map[], steps), v, n + 1 + v)
  {
    forall s, x | s in steps && s.v == v && x in s.edges
      ensures Holds(LoopGraph(n, q), Seen(x.pat, x.how), map[v := n + 1 + v])
    {
      LoopSeen(n, q, x, v);
    }
    StaysCandidate(LoopGraph(n, q), q, map[], steps, v, n + 1 + v);
  }

  lemma LoopEnd(n: nat, q: set<Pattern>, v: nat)
    requires EndOf(q, v)
    ensures n + 1 + v in SortedSeq(Ends(LoopGraph(n, q)))
  {
    var g := LoopGraph(n, q);
    var e :| e in q && (e.s == Variable(v) || e.o == Variable(v));
    if e.s != e.o {
      assert OwnTriple(n, e) in g;
    } else {
      assert OwnTriple(n, e).(o := n) in g;
    }
    assert n + 1 + v in Ends(g);
    SortedSeqMember(Ends(g), n + 1 + v);
  }

  /** The mapping of every variable to its own id passes all the plan asks. */
  lemma LoopAnswer(n: nat, ts: seq<Pattern>, cols: set<nat>, steps: seq<CacheStep>, plan: Plan, ids: seq<Id>)
    requires AllProper(Elements(ts)) && StepsOf(Elements(ts), steps) && Compiles(ts, plan, cols)
    requires ids == SortedSeq(Ends(LoopGraph(n, Elements(ts)))) &&
             forall v :: v in ScanVars(plan) ==> EndOf(Elements(ts), v)
    ensures var g := LoopGraph(n, Elements(ts));
            Answer(g, AddSteps(g, Elements(ts), map[], steps), WithIds(plan, ids), OwnMapping(n, cols))
  {
    var q := Elements(ts);
    EndsIds(LoopGraph(n, q));
    WithIdsSame(plan, ids);
    forall e | e in PlanPatterns(plan)
      ensures Holds(LoopGraph(n, q), e, OwnMapping(n, cols))
    {
      PatternsScoped(plan, e);
      LoopHolds(n, q, e, cols);
    }
    LoopLists(n, q, cols, steps, plan, ids);
  }

  lemma LoopLists(n: nat, q: set<Pattern>, cols: set<nat>, steps: seq<CacheStep>, plan: Plan, ids: seq<Id>)
    requires AllProper(q) && StepsOf(q, steps) && PlanCols(plan) == cols
    requires ids == SortedSeq(Ends(LoopGraph(n, q))) && forall v :: v in ScanVars(plan) ==> EndOf(q, v)
    ensures ListsHold(AddSteps(LoopGraph(n, q), q, map[], steps), WithIds(plan, ids), OwnMapping(n, cols))
  {
    var caches, mu := AddSteps(LoopGraph(n, q), q, map[], steps), OwnMapping(n, cols);
    FilteredInCols(plan);
    ScansFiltered(plan);
    forall v | v in FilteredCols(plan)
      ensures v in mu && InCache(caches, v, mu[v])
    {
      LoopCandidate(n, q, steps, v);
    }
    forall v | v in ScanVars(plan)
      ensures v in mu && mu[v] in ids
    {
      LoopEnd(n, q, v);
    }
    OwnLists(caches, plan, ids, mu);
  }

  /** A variable with an edge to itself is a join node. */
  lemma SelfNode(ts: seq<Pattern>, vars: seq<nat>, e: Pattern)
    requires Query(ts, vars) && e in ts && e.s == e.o
    ensures e.s.Variable? && e.s.v in JoinNodes(ts, vars)
  {
    assert Proper(e) && Touches(e, e.s.v);
    SelfDegree(ts, e.s.v, Pos(ts, e));
    NodesExact(ts, vars);
  }

  lemma {:induction false} SelfDegree(ts: seq<Pattern>, v: nat, i: nat)
    requires i < |ts| && ts[i].s == ts[i].o == Variable(v)
    ensures Degree(ts, v) >= 2
  {
    if i > 0 {
      SelfDegree(ts[1..], v, i - 1);
    }
  }

  /** The part of that mapping on the columns kept is a row of the plan. */
  lemma LoopRow(n: nat, ts: seq<Pattern>, nodes: set<nat>, cols: set<nat>, selected: set<nat>, distinct: bool,
                steps: seq<CacheStep>, plan: Plan)
    returns (g: Graph, ids: seq<Id>, mu: Binding)
    requires AllProper(Elements(ts)) && StepsOf(Elements(ts), steps) &&
             Placed(ts, plan, nodes, cols, selected, distinct)
    requires forall v :: v in ScanVars(Saturate(plan)) ==> EndOf(Elements(ts), v)
    ensures g == LoopGraph(n, Elements(ts)) && AllIds(g, ids) && Wf(WithIds(plan, ids))
    ensures mu == OwnMapping(n, PlanCols(plan)) && PlanCols(WithIds(plan, ids)) == PlanCols(plan)
    ensures var t := Eval(g, AddSteps(g, Elements(ts), map[], steps), WithIds(plan, ids)); RowOf(t.cols, mu) in t.rows
  {
    g := LoopGraph(n, Elements(ts));
    ids := SortedSeq(Ends(g));
    EndsIds(g);
    PlacedWithIds(ts, plan, nodes, cols, selected, distinct, ids);
    LoopAnswer(n, ts, cols, steps, Saturate(plan), ids);
    AddStepsSound(g, Elements(ts), map[], steps);
    mu := OwnMapping(n, PlanCols(plan));
    KeptRow(g, AddSteps(g, Elements(ts), map[], steps), WithIds(plan, ids), OwnMapping(n, cols), mu);
  }

  lemma NoSolution(n: nat, ts: seq<Pattern>, vars: set<nat>, e: Pattern, mu: Binding, nu: Binding)
    requires (forall x :: x in Elements(ts) ==> Below(x, n)) && e in ts && e.s == e.o && e.s.Variable?
    requires e.s.v in mu && mu[e.s.v] == n + 1 + e.s.v && Agrees(mu, nu)
    ensures !Solution(LoopGraph(n, Elements(ts)), ts, vars, nu)
  {
    LoopLacks(n, Elements(ts), e, e.s.v, nu);
    assert e in Elements(ts);
  }

  lemma Lost(ts: seq<Pattern>, nodes: set<nat>, vars: set<nat>, selected: set<nat>, distinct: bool,
             steps: seq<CacheStep>, plan: Plan, e: Pattern)
    requires AllProper(Elements(ts)) && StepsOf(Elements(ts), steps) &&
             Placed(ts, plan, nodes, vars, selected, distinct)
    requires forall v :: v in ScanVars(Saturate(plan)) ==> EndOf(Elements(ts), v)
    requires e in ts && e.s == e.o && e.s.Variable? && e.s.v in nodes
    ensures !MeansQuery(ts, vars, steps, plan)
  {
    var n := AllBelow(Elements(ts));
    var g, ids, mu := LoopRow(n, ts, nodes, vars, selected, distinct, steps, plan);
    forall nu | Agrees(mu, nu)
      ensures !Solution(g, ts, vars, nu)
    {
      NoSolution(n, ts, vars, e, mu, nu);
    }
    WrongRow(g, ids, ts, vars, steps, plan, mu);
  }

  /** The plan of a connected query, with its satellites placed, means the query on every graph, over
      the caches its candidate steps compute there, exactly when no edge leads from a variable to
      itself. */
  lemma SelfEdgesExact(ts: seq<Pattern>, vars: seq<nat>, selected: set<nat>, distinct: bool, steps: seq<CacheStep>,
                       plan: Plan)
    requires Query(ts, vars) && ConstantPredicates(ts) && StepsFor(ts, vars, steps)
    requires Placed(ts, plan, Elements(JoinNodes(ts, vars)), Elements(vars), selected, distinct)
    ensures MeansQuery(ts, Elements(vars), steps, plan) <==> SelfFree(ts)
  {
    if e :| e in ts && e.s == e.o {
      SelfNode(ts, vars, e);
      ScannedOccurs(ts, vars, Saturate(plan));
      Lost(ts, Elements(JoinNodes(ts, vars)), Elements(vars), selected, distinct, steps, plan, e);
    } else {
      forall g, ids | AllIds(g, ids)
        ensures Wf(WithIds(plan, ids)) && MeansOn(g, ids, ts, Elements(vars), steps, plan)
      {
        Means(g, ids, ts, vars, selected, distinct, steps, plan);
      }
    }
  }

  // ---------------------------------------------------------------- one query and one graph

  const LOOP := Pattern(Variable(0), Constant(1), Variable(0))
  const GO := Pattern(Variable(0), Constant(2), Variable(1))
  const BACK := Pattern(Variable(1), Constant(3), Variable(0))

  /** The second round of candidate steps for ?0 1 ?0 . ?0 2 ?1 . ?1 3 ?0; the first round has none. */
  const LOOP_STEPS := [CacheStep(0, [Edge(LOOP, P2S), Edge(LOOP, P2O), Edge(GO, P2S), Edge(BACK, P2O)]),
                       CacheStep(1, [Edge(GO, P2O), Edge(BACK, P2S)])]

  const LOOP_GRAPH := {Triple(0, 1, 7), Triple(7, 1, 0), Triple(0, 2, 1), Triple(1, 3, 0)}

  lemma LoopStepHolds(s: CacheStep, x: Edge)
    requires s in LOOP_STEPS && x in s.edges
    ensures ConstantEdge(x, s.v) && x.pat in [LOOP, GO, BACK] && Holds(LOOP_GRAPH, Seen(x.pat, x.how), map[s.v := s.v])
  {
    var t := if x.pat == GO then Triple(0, 2, 1) else if x.pat == BACK then Triple(1, 3, 0)
             else if x.how == P2S then Triple(0, 1, 7) else Triple(7, 1, 0);
    assert t in LOOP_GRAPH && Matches(Seen(x.pat, x.how), map[s.v := s.v], t);
  }

  lemma {:induction false} SameIds(ts: seq<Pattern>, ids: seq<Id>, distinct: bool, t: Planner.PlanTree)
    ensures WithIds(Compile(ts, ids, distinct, t), ids) == Compile(ts, ids, distinct, t)
  {
    match t
    case ScanVar(_) =>
    case Pair(a, b) =>
      var plan := Compile(ts, ids, distinct, t);
      if plan.Apply? && plan.left.Apply? {
        assert WithIds(plan.left, ids) == plan.left;
      }
    case Extend(left, _) => SameIds(ts, ids, distinct, left);
    case JoinTrees(left, right, _) =>
      SameIds(ts, ids, distinct, left);
      SameIds(ts, ids, distinct, right);
  }

  lemma LoopCaches(v: nat)
    requires v == 0 || v == 1
    ensures StepsOf(Elements([LOOP, GO, BACK]), LOOP_STEPS)
    ensures InCache(AddSteps(LOOP_GRAPH, Elements([LOOP, GO, BACK]), map[], LOOP_STEPS), v, v)
  {
    forall s, x | s in LOOP_STEPS && x in s.edges
      ensures ConstantEdge(x, s.v) && x.pat in Elements([LOOP, GO, BACK])
      ensures s.v == v ==> Holds(LOOP_GRAPH, Seen(x.pat, x.how), map[v := v])
    {
      LoopStepHolds(s, x);
    }
    StaysCandidate(LOOP_GRAPH, Elements([LOOP, GO, BACK]), map[], LOOP_STEPS, v, v);
  }

  /** 0 and 1 are an answer of every plan over the two variables. */
  lemma LoopPlan(ids: seq<Id>, plan: Plan, mu: Binding)
    requires AllIds(LOOP_GRAPH, ids) && WithIds(plan, ids) == plan && mu == map[0 := 0, 1 := 1]
    requires PlanCols(plan) == {0, 1} && PlanPatterns(plan) == Inner([LOOP, GO, BACK], {0, 1})
    ensures StepsOf(Elements([LOOP, GO, BACK]), LOOP_STEPS)
    ensures Answer(LOOP_GRAPH, AddSteps(LOOP_GRAPH, Elements([LOOP, GO, BACK]), map[], LOOP_STEPS), plan, mu)
  {
    LoopCaches(0);
    LoopCaches(1);
    LoopPatterns(mu);
    ScansFiltered(plan);
    FilteredInCols(plan);
    assert Triple(0, 2, 1) in LOOP_GRAPH;
    OwnLists(AddSteps(LOOP_GRAPH, Elements([LOOP, GO, BACK]), map[], LOOP_STEPS), plan, ids, mu);
  }

  /** Whatever tree is planned, 0 and 1 are returned for the two variables, and 0 1 0 is no triple. */
  lemma LoopAnswered(ts: seq<Pattern>, g: Graph, steps: seq<CacheStep>, ids: seq<Id>, distinct: bool,
                     t: Planner.PlanTree, mu: Binding)
    requires ts == [LOOP, GO, BACK] && g == LOOP_GRAPH && steps == LOOP_STEPS && mu == map[0 := 0, 1 := 1]
    requires AllIds(g, ids) && Planner.TreeOk(GraphOf(ts, [0, 1]), t) && Planner.TreeNodes(t) == {0, 1}
    ensures StepsOf(Elements(ts), steps) && Wf(Compile(ts, ids, distinct, t)) &&
            PlanCols(Compile(ts, ids, distinct, t)) == {0, 1}
    ensures var table := Eval(g, AddSteps(g, Elements(ts), map[], steps), Compile(ts, ids, distinct, t));
            RowOf(table.cols, mu) in table.rows
    ensures !Holds(g, LOOP, mu)
  {
    LoopLacksOne(mu);
    assert ConstantPredicates(ts);
    CompileExact(ts, [0, 1], ids, distinct, t);
    SameIds(ts, ids, distinct, t);
    LoopPlan(ids, Compile(ts, ids, distinct, t), mu);
    AddStepsSound(g, Elements(ts), map[], steps);
    EvalSolutions(g, AddSteps(g, Elements(ts), map[], steps), Compile(ts, ids, distinct, t), mu);
  }

  lemma LoopLacksOne(mu: Binding)
    requires mu == map[0 := 0, 1 := 1]
    ensures !Holds(LOOP_GRAPH, LOOP, mu)
  {
  }

  lemma LoopPatterns(mu: Binding)
    requires mu == map[0 := 0, 1 := 1]
    ensures AllHold(LOOP_GRAPH, Inner([LOOP, GO, BACK], {0, 1}), mu)
  {
    forall e | e in Inner([LOOP, GO, BACK], {0, 1})
      ensures Holds(LOOP_GRAPH, e, mu)
    {
      var t := if e == GO then Triple(0, 2, 1) else Triple(1, 3, 0);
      assert t in LOOP_GRAPH && Matches(e, mu, t);
    }
  }
}

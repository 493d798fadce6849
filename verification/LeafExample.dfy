/** A query the dynamic program plans with a leaf that lists all triples, and a graph on which the plan
    returns a row that is no solution.

    The query is ?0 ?1 ?2 . ?0 1 2 . ?2 3 4 . ?0 5 ?3 . ?2 6 ?4. It has five variables; ?0 and ?2 are
    its join nodes, ?3 and ?4 its satellites, and only a predicate variable links the join nodes. */
module LeafExample {
  import opened Collections
  import opened Rdf
  import opened Tables
  import opened Plans
  import opened Solutions
  import opened CandidateCaches
  import opened CacheCoverage

  const LINK := Pattern(Variable(0), Variable(1), Variable(2))
  const ONE_TWO := Pattern(Variable(0), Constant(1), Constant(2))
  const THREE_FOUR := Pattern(Variable(2), Constant(3), Constant(4))
  const FIVE := Pattern(Variable(0), Constant(5), Variable(3))
  const SIX := Pattern(Variable(2), Constant(6), Variable(4))

  const QUERY := {LINK, ONE_TWO, THREE_FOUR, FIVE, SIX}

  /** The first round of candidate steps. The second has none: the predicates 5 and 6 have too many
      triples for it. */
  const STEPS := [CacheStep(0, [Edge(ONE_TWO, PO2S)]), CacheStep(2, [Edge(THREE_FOUR, PO2S)])]

  /** The leaf, then the satellites. */
  const PLAN := Apply(Apply(AllTriples(0, 1, 2), ExtendOne(3, [Edge(FIVE, SP2O)], true)),
                      ExtendOne(4, [Edge(SIX, SP2O)], true))

  // ---------------------------------------------------------------- the graph

  predicate Within(low: nat, n: nat, x: nat) {
    low <= x < low + n
  }

  ghost function Ids(low: nat, n: nat): set<Id> {
    set x | low <= x < low + n && Within(low, n, x)
  }

  lemma IdsMember(low: nat, n: nat, x: Id)
    ensures x in Ids(low, n) <==> low <= x < low + n
  {
    assert low <= x < low + n ==> Within(low, n, x);
  }

  ghost function TripleColumn(low: nat, n: nat, p: Id, o: Id): Graph {
    set x | x in Ids(low, n) :: Triple(x, p, o)
  }

  /** Ids 100 to 219 are the candidates of ?0, and ids 2 to 9 those of ?2; 99 is no candidate. */
  ghost function Sample(): Graph {
    TripleColumn(100, 120, 1, 2) + TripleColumn(99, 121, 5, 3) + TripleColumn(99, 121, 7, 6) + TripleColumn(2, 8, 3,
      4) + TripleColumn(2, 8, 6, 5)
  }

  lemma InSample(t: Triple)
    ensures t in Sample() <==>
            (t.p == 1 && t.o == 2 && 100 <= t.s < 220) || (t.p == 5 && t.o == 3 && 99 <= t.s < 220) ||
            (t.p == 7 && t.o == 6 && 99 <= t.s < 220) || (t.p == 3 && t.o == 4 && 2 <= t.s < 10) ||
            (t.p == 6 && t.o == 5 && 2 <= t.s < 10)
  {
    RowMember(100, 120, 1, 2, t);
    RowMember(99, 121, 5, 3, t);
    RowMember(99, 121, 7, 6, t);
    RowMember(2, 8, 3, 4, t);
    RowMember(2, 8, 6, 5, t);
  }

  lemma RowMember(low: nat, n: nat, p: Id, o: Id, t: Triple)
    ensures t in TripleColumn(low, n, p, o) <==> t.p == p && t.o == o && low <= t.s < low + n
  {
    IdsMember(low, n, t.s);
    if t.p == p && t.o == o && low <= t.s < low + n {
      assert t.s in Ids(low, n) && t == Triple(t.s, p, o);
    }
  }

  lemma IdsNext(low: nat, n: nat)
    ensures Ids(low, n + 1) == Ids(low, n) + {low + n} && low + n !in Ids(low, n)
  {
    var all, before := Ids(low, n + 1), Ids(low, n);
    forall x
      ensures x in all <==> x in before || x == low + n
    {
      IdsMember(low, n + 1, x);
      IdsMember(low, n, x);
    }
    IdsMember(low, n, low + n);
  }

  lemma ColumnNext(low: nat, n: nat, p: Id, o: Id)
    ensures var last := Triple(low + n, p, o);
            TripleColumn(low, n + 1, p, o) == TripleColumn(low, n, p, o) + {last} && last !in TripleColumn(low, n, p, o)
  {
    var last := Triple(low + n, p, o);
    var all, before := TripleColumn(low, n + 1, p, o), TripleColumn(low, n, p, o);
    forall t
      ensures t in all <==> t in before || t == last
    {
      RowMember(low, n + 1, p, o, t);
      RowMember(low, n, p, o, t);
    }
    RowMember(low, n, p, o, last);
  }

  lemma {:induction false} RowSize(low: nat, n: nat, p: Id, o: Id)
    ensures |TripleColumn(low, n, p, o)| == n && |Ids(low, n)| == n
  {
    if n == 0 {
      assert Ids(low, n) == {} && TripleColumn(low, n, p, o) == {};
    } else {
      RowSize(low, n - 1, p, o);
      IdsNext(low, n - 1);
      ColumnNext(low, n - 1, p, o);
    }
  }

  lemma RowsApart(low: nat, n: nat, p: Id, o: Id, low': nat, n': nat, p': Id, o': Id)
    requires p != p'
    ensures TripleColumn(low, n, p, o) !! TripleColumn(low', n', p', o')
  {
    forall t | t in TripleColumn(low, n, p, o)
      ensures t !in TripleColumn(low', n', p', o')
    {
      RowMember(low, n, p, o, t);
      RowMember(low', n', p', o', t);
    }
  }

  lemma SampleSize()
    ensures |Sample()| == 378
  {
    RowSize(100, 120, 1, 2);
    RowSize(99, 121, 5, 3);
    RowSize(99, 121, 7, 6);
    RowSize(2, 8, 3, 4);
    RowSize(2, 8, 6, 5);
    RowsApart(100, 120, 1, 2, 99, 121, 5, 3);
    RowsApart(100, 120, 1, 2, 99, 121, 7, 6);
    RowsApart(99, 121, 5, 3, 99, 121, 7, 6);
    RowsApart(100, 120, 1, 2, 2, 8, 3, 4);
    RowsApart(99, 121, 5, 3, 2, 8, 3, 4);
    RowsApart(99, 121, 7, 6, 2, 8, 3, 4);
    RowsApart(100, 120, 1, 2, 2, 8, 6, 5);
    RowsApart(99, 121, 5, 3, 2, 8, 6, 5);
    RowsApart(99, 121, 7, 6, 2, 8, 6, 5);
    RowsApart(2, 8, 3, 4, 2, 8, 6, 5);
  }

  // ---------------------------------------------------------------- the caches

  lemma OneTwoHolds(c: Id)
    ensures Holds(Sample(), ONE_TWO, map[0 := c]) <==> c in Ids(100, 120)
  {
    InSample(Triple(c, 1, 2));
    IdsMember(100, 120, c);
    assert forall t :: Matches(ONE_TWO, map[0 := c], t) <==> t == Triple(c, 1, 2);
  }

  lemma ThreeFourHolds(c: Id)
    ensures Holds(Sample(), THREE_FOUR, map[2 := c]) <==> c in Ids(2, 8)
  {
    InSample(Triple(c, 3, 4));
    IdsMember(2, 8, c);
    assert forall t :: Matches(THREE_FOUR, map[2 := c], t) <==> t == Triple(c, 3, 4);
  }

  lemma CacheSize(list: seq<Id>, ids: set<Id>)
    requires Increasing(list) && forall c :: c in list <==> c in ids
    ensures |list| == |ids|
  {
    assert Elements(list) == ids;
    NoDupLength(list);
  }

  lemma AddTwo(g: Graph, q: set<Pattern>, steps: seq<CacheStep>, a: Edge, b: Edge)
    requires StepsOf(q, steps) && steps == [CacheStep(0, [a]), CacheStep(2, [b])] && ConstantEdge(a, 0) &&
             ConstantEdge(b, 2)
    ensures AddSteps(g, q, map[], steps) == AddEdge(g, AddEdge(g, map[], 0, a), 2, b)
  {
    var one := AddEdge(g, map[], 0, a);
    assert steps[1..] == [CacheStep(2, [b])] && steps[1..][1..] == [];
    OneEdgeAdded(g, map[], 0, a);
    OneEdgeAdded(g, one, 2, b);
    assert AddSteps(g, q, map[], steps) == AddSteps(g, q, one, steps[1..]);
    assert AddSteps(g, q, one, steps[1..]) == AddSteps(g, q, AddEdge(g, one, 2, b), []);
  }

  lemma OneEdgeAdded(g: Graph, caches: Caches, v: nat, e: Edge)
    requires ConstantEdge(e, v)
    ensures AddEdges(g, caches, v, [e]) == AddEdge(g, caches, v, e)
  {
    assert [e][1..] == [];
  }

  /** Candidates for the two join nodes only. */
  lemma SampleCaches(g: Graph, steps: seq<CacheStep>)
    requires g == Sample() && steps == STEPS
    ensures StepsOf(QUERY, steps)
    ensures var caches := AddSteps(g, QUERY, map[], steps);
            CachesOrdered(caches) && caches.Keys == {0, 2} &&
            (forall c :: c in caches[0] <==> c in Ids(100, 120)) && (forall c :: c in caches[2] <==> c in Ids(2, 8))
  {
    var a, b := Edge(ONE_TWO, PO2S), Edge(THREE_FOUR, PO2S);
    assert ConstantEdge(a, 0) && ConstantEdge(b, 2) && a.pat in QUERY && b.pat in QUERY;
    AddTwo(g, QUERY, steps, a, b);
    AddEdgeExact(g, map[], 0, a);
    var one := AddEdge(g, map[], 0, a);
    AddEdgeExact(g, one, 2, b);
    forall c
      ensures Holds(g, ONE_TWO, map[0 := c]) <==> c in Ids(100, 120)
      ensures Holds(g, THREE_FOUR, map[2 := c]) <==> c in Ids(2, 8)
    {
      OneTwoHolds(c);
      ThreeFourHolds(c);
    }
  }

  /** What makes the planner take this plan: 120 and 8 candidates, a ratio of 15 with more than 100;
      378 triples, of which every candidate of ?0 has three and every object is a candidate of ?2. So
      listing all triples costs 378, less than 120 / 2 + 120 * 3 and than 8 / 2 + 378. */
  lemma SampleCosts(g: Graph, steps: seq<CacheStep>)
    requires g == Sample() && steps == STEPS
    ensures StepsOf(QUERY, steps)
    ensures var caches := AddSteps(g, QUERY, map[], steps);
            caches.Keys == {0, 2} && |caches[0]| == 120 && |caches[2]| == 8 && |g| == 378 &&
            (forall x :: x in caches[0] ==> |set t | t in g && t.s == x| == 3) &&
              (forall t :: t in g ==> t.o in caches[2])
  {
    SampleCaches(g, steps);
    var caches := AddSteps(g, QUERY, map[], steps);
    RowSize(100, 120, 0, 0);
    RowSize(2, 8, 0, 0);
    CacheSize(caches[0], Ids(100, 120));
    CacheSize(caches[2], Ids(2, 8));
    SampleSize();
    forall x | x in caches[0]
      ensures |set t | t in g && t.s == x| == 3
    {
      IdsMember(100, 120, x);
      ThreeEach(x);
    }
    forall t | t in g
      ensures t.o in caches[2]
    {
      InSample(t);
      IdsMember(2, 8, t.o);
    }
  }

  lemma ThreeEach(x: Id)
    requires 100 <= x < 220
    ensures |set t | t in Sample() && t.s == x| == 3
  {
    var own := set t | t in Sample() && t.s == x;
    forall t
      ensures t in own <==> t in {Triple(x, 1, 2), Triple(x, 5, 3), Triple(x, 7, 6)}
    {
      InSample(t);
    }
    assert own == {Triple(x, 1, 2), Triple(x, 5, 3), Triple(x, 7, 6)};
  }

  // ---------------------------------------------------------------- the row

  lemma StepPlan(left: Plan, v: nat, e: Edge, plan: Plan)
    requires Wf(left) && NoSatellite(left) && AllPlain(left) && v !in PlanCols(left) && EdgeInto(e, v, PlanCols(left))
    requires plan == Apply(left, ExtendOne(v, [e], true))
    ensures Wf(plan) && NoSatellite(plan) && AllPlain(plan) && PlanCols(plan) == PlanCols(left) + {v}
    ensures PlanPatterns(plan) == PlanPatterns(left) + {Seen(e.pat, e.how)}
    ensures FilteredCols(plan) == FilteredCols(left) + {v} && ScanVars(plan) == ScanVars(left)
  {
    assert Elements([v]) == {v} && SeenEdges([e]) == {Seen(e.pat, e.how)};
  }

  lemma PlanOk(plan: Plan)
    requires plan == PLAN
    ensures Wf(plan) && NoSatellite(plan) && AllPlain(plan) && PlanCols(plan) == {0, 1, 2, 3, 4}
    ensures PlanPatterns(plan) == {LINK, FIVE, SIX} && FilteredCols(plan) == {3, 4} && ScanVars(plan) == {}
  {
    StepPlan(plan.left.left, 3, Edge(FIVE, SP2O), plan.left);
    StepPlan(plan.left, 4, Edge(SIX, SP2O), plan);
  }

  lemma StepListed(steps: seq<CacheStep>)
    requires steps == STEPS
    ensures CacheCoverage.Listed(steps, ONE_TWO) && CacheCoverage.Listed(steps, THREE_FOUR)
  {
    assert steps[0].v == 0 && Edge(ONE_TWO, PO2S) in steps[0].edges && StepFor(steps, ONE_TWO, 0);
    assert steps[1].v == 2 && Edge(THREE_FOUR, PO2S) in steps[1].edges && StepFor(steps, THREE_FOUR, 2);
  }

  lemma SamplePatterns(mu: Binding)
    requires mu == map[0 := 99, 1 := 7, 2 := 6, 3 := 3, 4 := 5]
    ensures AllHold(Sample(), {LINK, FIVE, SIX}, mu) && !Holds(Sample(), ONE_TWO, mu)
  {
    InSample(Triple(99, 7, 6));
    InSample(Triple(99, 5, 3));
    InSample(Triple(6, 6, 5));
    InSample(Triple(99, 1, 2));
    assert Matches(LINK, mu, Triple(99, 7, 6)) && Matches(FIVE, mu, Triple(99, 5, 3)) &&
           Matches(SIX, mu, Triple(6, 6, 5));
    assert forall t :: Matches(ONE_TWO, mu, t) ==> t == Triple(99, 1, 2);
  }

  lemma SampleLists(caches: Caches, plan: Plan, mu: Binding)
    requires caches.Keys == {0, 2} && plan == PLAN && mu == map[0 := 99, 1 := 7, 2 := 6, 3 := 3, 4 := 5]
    ensures ListsHold(caches, plan, mu)
  {
    assert NewCols(plan.left.st) == [3] && NewCols(plan.st) == [4];
    assert CachesHold(caches, [3], mu) && CachesHold(caches, [4], mu);
    assert ListsHold(caches, plan.left.left, mu);
    assert ListsHold(caches, plan.left, mu);
  }

  /** The row of 99 is returned, although 99 is no candidate of ?0 and 99 1 2 is no triple. */
  lemma AllTriplesIgnoresCaches(g: Graph, steps: seq<CacheStep>, plan: Plan, mu: Binding)
    requires g == Sample() && steps == STEPS && plan == PLAN && mu == map[0 := 99, 1 := 7, 2 := 6, 3 := 3, 4 := 5]
    ensures Planned(QUERY, steps, plan) && mu.Keys == PlanCols(plan)
    ensures var caches := AddSteps(g, QUERY, map[], steps);
            caches.Keys == {0, 2} && 99 !in caches[0] &&
            RowOf(Eval(g, caches, plan).cols, mu) in Eval(g, caches, plan).rows
    ensures !Holds(g, ONE_TWO, mu)
  {
    PlanOk(plan);
    SampleCaches(g, steps);
    SamplePlanned(steps, plan);
    SamplePatterns(mu);
    IdsMember(100, 120, 99);
    SampleRow(g, AddSteps(g, QUERY, map[], steps), plan, mu);
  }

  lemma SampleRow(g: Graph, caches: Caches, plan: Plan, mu: Binding)
    requires g == Sample() && caches.Keys == {0, 2} && CachesOrdered(caches) && plan == PLAN
    requires mu == map[0 := 99, 1 := 7, 2 := 6, 3 := 3, 4 := 5]
    ensures Wf(plan) && mu.Keys == PlanCols(plan) && RowOf(Eval(g, caches, plan).cols, mu) in Eval(g, caches, plan).rows
  {
    PlanOk(plan);
    SamplePatterns(mu);
    SampleLists(caches, plan, mu);
    EvalRows(g, caches, plan, mu);
  }

  lemma SamplePlanned(steps: seq<CacheStep>, plan: Plan)
    requires steps == STEPS && plan == PLAN && StepsOf(QUERY, steps)
    ensures Planned(QUERY, steps, plan)
  {
    PlanOk(plan);
    StepListed(steps);
  }
}

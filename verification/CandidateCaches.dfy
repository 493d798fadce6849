/** Candidate lists of variables, filled from edges with constants before planning, and the
    whole-query result: a plan over sound caches answers the basic graph pattern exactly. */
module CandidateCaches {
  import opened Collections
  import opened Rdf
  import opened Tables
  import opened Plans
  import opened Solutions

  /** An edge usable before any table exists: it lists v from constants. */
  predicate ConstantEdge(e: Edge, v: nat) {
    EdgeInto(e, v, {})
  }

  function AddEdge(g: Graph, caches: Caches, v: nat, e: Edge): Caches
    requires ConstantEdge(e, v)
  {
    var l := EdgeList(g, e.pat, e.how, map[], true);
    caches[v := if v in caches then Intersect(caches[v], l) else l]
  }

  function AddEdges(g: Graph, caches: Caches, v: nat, edges: seq<Edge>): Caches
    requires forall e :: e in edges ==> ConstantEdge(e, v)
    decreases |edges|
  {
    if edges == [] then caches else AddEdges(g, AddEdge(g, caches, v, edges[0]), v, edges[1..])
  }

  /** CacheConstantCandidates with AddConstantCandidates: one list per edge, intersected in turn. */
  method CacheConstantCandidates(g: Graph, caches: Caches, v: nat, edges: seq<Edge>) returns (r: Caches)
    requires forall e :: e in edges ==> ConstantEdge(e, v)
    ensures r == AddEdges(g, caches, v, edges)
  {
    r := caches;
    var i := 0;
    while i < |edges|
      invariant 0 <= i <= |edges|
      invariant AddEdges(g, r, v, edges[i..]) == AddEdges(g, caches, v, edges)
    {
      assert ConstantEdge(edges[i], v);
      var l := EdgeList(g, edges[i].pat, edges[i].how, map[], true);
      assert edges[i..][1..] == edges[i + 1..];
      if v in r {
        r := r[v := Intersect(r[v], l)];
      } else {
        r := r[v := l];
      }
      i := i + 1;
    }
  }

  lemma AddEdgeExact(g: Graph, caches: Caches, v: nat, e: Edge)
    requires ConstantEdge(e, v) && CachesOrdered(caches)
    ensures CachesOrdered(AddEdge(g, caches, v, e))
    ensures forall c :: c in AddEdge(g, caches, v, e)[v] <==>
              InCache(caches, v, c) && Holds(g, Seen(e.pat, e.how), map[v := c])
  {
    var l := EdgeList(g, e.pat, e.how, map[], true);
    EdgeListIncreasing(g, e.pat, e.how, map[], true);
    if v in caches { IntersectIncreasing(caches[v], l); }
    forall c
      ensures c in AddEdge(g, caches, v, e)[v] <==> InCache(caches, v, c) && Holds(g, Seen(e.pat, e.how), map[v := c])
    {
      EdgeIntoExact(g, e, v, map[], true, c);
      if v in caches { IntersectMember(caches[v], l, c); }
    }
  }

  /** Other variables keep their caches; lists stay ordered. */
  lemma {:induction false} AddEdgesFrame(g: Graph, caches: Caches, v: nat, edges: seq<Edge>)
    requires forall e :: e in edges ==> ConstantEdge(e, v)
    requires CachesOrdered(caches)
    ensures CachesOrdered(AddEdges(g, caches, v, edges))
    ensures AddEdges(g, caches, v, edges).Keys == caches.Keys + (if edges == [] then {} else {v})
    ensures forall w :: w in caches && w != v ==> AddEdges(g, caches, v, edges)[w] == caches[w]
    decreases |edges|
  {
    if edges != [] {
      var one := AddEdge(g, caches, v, edges[0]);
      AddEdgeExact(g, caches, v, edges[0]);
      AddEdgesFrame(g, one, v, edges[1..]);
      assert AddEdges(g, caches, v, edges) == AddEdges(g, one, v, edges[1..]);
      assert one.Keys == caches.Keys + {v};
    }
  }

  /** The cache of v becomes exactly the ids it held that satisfy every given edge. */
  lemma {:induction false} AddEdgesExact(g: Graph, caches: Caches, v: nat, edges: seq<Edge>, c: Id)
    requires edges != [] && forall e :: e in edges ==> ConstantEdge(e, v)
    requires CachesOrdered(caches)
    ensures v in AddEdges(g, caches, v, edges)
    ensures c in AddEdges(g, caches, v, edges)[v] <==>
            InCache(caches, v, c) && AllHold(g, SeenEdges(edges), map[v := c])
    decreases |edges|
  {
    var e, rest := edges[0], edges[1..];
    var one := AddEdge(g, caches, v, e);
    AddEdgeExact(g, caches, v, e);
    assert edges == [e] + rest;
    assert SeenEdges(edges) == {Seen(e.pat, e.how)} + SeenEdges(rest);
    if rest == [] {
      assert SeenEdges(rest) == {};
    } else {
      AddEdgesExact(g, one, v, rest, c);
    }
  }

  // ---------------------------------------------------------------- soundness

  /** Every value a variable takes in some solution is still in its cache. */
  ghost predicate Sound(g: Graph, q: set<Pattern>, caches: Caches) {
    forall mu, v :: AllHold(g, q, mu) && v in caches && v in mu ==> mu[v] in caches[v]
  }

  /** Looking at fewer places of a pattern only weakens it. */
  lemma SeenWeaker(g: Graph, e: Pattern, m: JoinMethod, mu: Binding)
    requires Holds(g, e, mu)
    ensures Holds(g, Seen(e, m), mu)
  {
    var t :| t in g && Matches(e, mu, t);
    assert Matches(Seen(e, m), mu, t);
  }

  lemma ConstantEdgeVars(e: Edge, v: nat)
    requires ConstantEdge(e, v)
    ensures PatternVars(Seen(e.pat, e.how)) == {v}
  {
  }

  /** One batch of constant edges of the query keeps the caches sound. */
  lemma AddEdgesSound(g: Graph, q: set<Pattern>, caches: Caches, v: nat, edges: seq<Edge>)
    requires forall e :: e in edges ==> ConstantEdge(e, v) && e.pat in q
    requires CachesOrdered(caches) && Sound(g, q, caches)
    ensures Sound(g, q, AddEdges(g, caches, v, edges))
  {
    AddEdgesFrame(g, caches, v, edges);
    var r := AddEdges(g, caches, v, edges);
    forall mu, w | AllHold(g, q, mu) && w in r && w in mu
      ensures mu[w] in r[w]
    {
      if w == v && edges != [] {
        AddEdgesExact(g, caches, v, edges, mu[v]);
        forall x | x in SeenEdges(edges)
          ensures Holds(g, x, map[v := mu[v]])
        {
          var e :| e in edges && x == Seen(e.pat, e.how);
          SeenWeaker(g, e.pat, e.how, mu);
          ConstantEdgeVars(e, v);
          HoldsLocal(g, x, mu, map[v := mu[v]]);
        }
      }
    }
  }

  /** A plan of candidate steps: a variable and its constant edges, one after another. */
  datatype CacheStep = CacheStep(v: nat, edges: seq<Edge>)

  ghost predicate StepsOf(q: set<Pattern>, steps: seq<CacheStep>) {
    forall s :: s in steps ==> forall e :: e in s.edges ==> ConstantEdge(e, s.v) && e.pat in q
  }

  ghost function AddSteps(g: Graph, q: set<Pattern>, caches: Caches, steps: seq<CacheStep>): Caches
    requires StepsOf(q, steps)
    decreases |steps|
  {
    if steps == [] then caches
    else AddSteps(g, q, AddEdges(g, caches, steps[0].v, steps[0].edges), steps[1..])
  }

  /** Any sequence of constant-candidate steps keeps sound caches sound and ordered. */
  lemma {:induction false} AddStepsSound(g: Graph, q: set<Pattern>, caches: Caches, steps: seq<CacheStep>)
    requires StepsOf(q, steps) && CachesOrdered(caches) && Sound(g, q, caches)
    ensures Sound(g, q, AddSteps(g, q, caches, steps)) && CachesOrdered(AddSteps(g, q, caches, steps))
    decreases |steps|
  {
    if steps != [] {
      var s := steps[0];
      AddEdgesFrame(g, caches, s.v, s.edges);
      AddEdgesSound(g, q, caches, s.v, s.edges);
      AddStepsSound(g, q, AddEdges(g, caches, s.v, s.edges), steps[1..]);
    }
  }

  /** The candidate steps of a query, one after another. */
  method CacheAll(g: Graph, caches: Caches, steps: seq<CacheStep>, ghost q: set<Pattern>) returns (r: Caches)
    requires StepsOf(q, steps)
    ensures r == AddSteps(g, q, caches, steps)
  {
    r := caches;
    var i := 0;
    while i < |steps|
      invariant 0 <= i <= |steps| && AddSteps(g, q, r, steps[i..]) == AddSteps(g, q, caches, steps)
    {
      assert steps[i..][1..] == steps[i + 1..] && steps[i] in steps;
      r := CacheConstantCandidates(g, r, steps[i].v, steps[i].edges);
      i := i + 1;
    }
  }

  lemma AddEdgesShrinks(g: Graph, caches: Caches, v: nat, edges: seq<Edge>, w: nat, c: Id)
    requires forall e :: e in edges ==> ConstantEdge(e, v)
    requires CachesOrdered(caches) && w in caches
    ensures w in AddEdges(g, caches, v, edges) && (c in AddEdges(g, caches, v, edges)[w] ==> c in caches[w])
  {
    AddEdgesFrame(g, caches, v, edges);
    if w == v && edges != [] {
      AddEdgesExact(g, caches, v, edges, c);
    }
  }

  /** Candidate steps only take candidates away. */
  lemma {:induction false} AddStepsShrinks(g: Graph, q: set<Pattern>, caches: Caches, steps: seq<CacheStep>, w: nat,
                                           c: Id)
    requires StepsOf(q, steps) && CachesOrdered(caches) && w in caches
    ensures w in AddSteps(g, q, caches, steps) && (c in AddSteps(g, q, caches, steps)[w] ==> c in caches[w])
    decreases |steps|
  {
    if steps != [] {
      var s := steps[0];
      AddEdgesFrame(g, caches, s.v, s.edges);
      AddEdgesShrinks(g, caches, s.v, s.edges, w, c);
      AddStepsShrinks(g, q, AddEdges(g, caches, s.v, s.edges), steps[1..], w, c);
    }
  }

  // ---------------------------------------------------------------- the whole query

  /** Every value of v's cache satisfies this pattern, whose only variable is v. */
  ghost predicate Enforced(g: Graph, caches: Caches, e: Pattern, v: nat) {
    PatternVars(e) == {v} && v in caches && forall c :: c in caches[v] ==> Holds(g, e, map[v := c])
  }

  /** Some step lists v through this pattern, whose other places are constants. */
  ghost predicate StepFor(steps: seq<CacheStep>, e: Pattern, v: nat) {
    exists i, how :: 0 <= i < |steps| && steps[i].v == v && Edge(e, how) in steps[i].edges && TwoGiven(how)
  }

  /** A pattern some step lists its variable through is enforced by the caches afterwards. */
  lemma {:induction false} AddStepsEnforces(g: Graph, q: set<Pattern>, caches: Caches, steps: seq<CacheStep>,
                                            e: Pattern, v: nat)
    requires StepsOf(q, steps) && CachesOrdered(caches) && StepFor(steps, e, v)
    ensures Enforced(g, AddSteps(g, q, caches, steps), e, v)
    decreases |steps|
  {
    var i, how :| 0 <= i < |steps| && steps[i].v == v && Edge(e, how) in steps[i].edges && TwoGiven(how);
    var s := steps[0];
    AddEdgesFrame(g, caches, s.v, s.edges);
    var next := AddEdges(g, caches, s.v, s.edges);
    if i > 0 {
      assert steps[1..][i - 1] == steps[i];
      AddStepsEnforces(g, q, next, steps[1..], e, v);
    } else {
      ConstantEdgeVars(Edge(e, how), v);
      assert Seen(e, how) in SeenEdges(s.edges);
      AddEdgesExact(g, caches, v, s.edges, 0);
      AddStepsShrinks(g, q, next, steps[1..], v, 0);
      forall c | c in AddSteps(g, q, caches, steps)[v]
        ensures Holds(g, e, map[v := c])
      {
        AddStepsShrinks(g, q, next, steps[1..], v, c);
        AddEdgesExact(g, caches, v, s.edges, c);
      }
    }
  }

  /** The columns a plan cuts down to their caches. A leaf that lists all triples does not. */
  function FilteredCols(plan: Plan): set<nat> {
    match plan
    case Unit => {}
    case Scan(v, _) => {v}
    case AllTriples(_, _, _) => {}
    case Apply(left, st) => FilteredCols(left) + Elements(NewCols(st))
    case Join(left, right, _) => FilteredCols(left) + FilteredCols(right)
  }

  ghost predicate ScansCover(g: Graph, q: set<Pattern>, plan: Plan) {
    match plan
    case Unit => true
    case Scan(v, all) => forall mu :: AllHold(g, q, mu) && v in mu ==> mu[v] in all
    case AllTriples(_, _, _) => true
    case Apply(left, _) => ScansCover(g, q, left)
    case Join(left, right, _) => ScansCover(g, q, left) && ScansCover(g, q, right)
  }

  /** A pattern is dealt with by the plan or by a cache the plan applies. */
  ghost predicate Handled(g: Graph, caches: Caches, plan: Plan, e: Pattern) {
    e in PlanPatterns(plan) || exists v :: v in FilteredCols(plan) && Enforced(g, caches, e, v)
  }

  lemma {:induction false} ListsFilter(caches: Caches, plan: Plan, mu: Binding, v: nat)
    requires ListsHold(caches, plan, mu) && v in FilteredCols(plan)
    ensures v in mu && InCache(caches, v, mu[v])
  {
    match plan
    case Scan(_, _) =>
    case Apply(left, st) =>
      if v in FilteredCols(left) { ListsFilter(caches, left, mu, v); } else { assert v in NewCols(st); }
    case Join(left, right, _) =>
      if v in FilteredCols(left) { ListsFilter(caches, left, mu, v); } else { ListsFilter(caches, right, mu, v); }
  }

  /** Intersecting with sound caches never loses a solution. */
  lemma {:induction false} SolutionsInLists(g: Graph, q: set<Pattern>, caches: Caches, plan: Plan, mu: Binding)
    requires AllHold(g, q, mu) && Sound(g, q, caches) && ScansCover(g, q, plan) && PlanCols(plan) <= mu.Keys
    ensures ListsHold(caches, plan, mu)
  {
    match plan
    case Unit =>
    case Scan(_, _) =>
    case AllTriples(_, _, _) =>
    case Apply(left, st) =>
      SolutionsInLists(g, q, caches, left, mu);
      assert forall v :: v in NewCols(st) ==> v in Elements(NewCols(st));
    case Join(left, right, _) =>
      SolutionsInLists(g, q, caches, left, mu);
      SolutionsInLists(g, q, caches, right, mu);
  }

  /** A plan whose patterns come from the query, and which leaves to the caches only patterns
      those enforce on filtered columns, has exactly the query's solutions as answers. */
  lemma QueryAnswer(g: Graph, q: set<Pattern>, caches: Caches, plan: Plan, mu: Binding)
    requires PlanPatterns(plan) <= q && Sound(g, q, caches) && ScansCover(g, q, plan)
    requires forall e :: e in q ==> Handled(g, caches, plan, e)
    requires mu.Keys == PlanCols(plan)
    ensures Answer(g, caches, plan, mu) <==> AllHold(g, q, mu)
  {
    if AllHold(g, q, mu) {
      SolutionsInLists(g, q, caches, plan, mu);
    }
    if Answer(g, caches, plan, mu) {
      forall e | e in q
        ensures Holds(g, e, mu)
      {
        if e !in PlanPatterns(plan) {
          var v :| v in FilteredCols(plan) && Enforced(g, caches, e, v);
          ListsFilter(caches, plan, mu, v);
          HoldsLocal(g, e, mu, map[v := mu[v]]);
        }
      }
    }
  }

  /** The rows breadth-first evaluation returns are exactly the query's solutions, each once. */
  lemma QuerySolutions(g: Graph, q: set<Pattern>, caches: Caches, plan: Plan, mu: Binding)
    requires Wf(plan) && NoSatellite(plan) && AllPlain(plan) && CachesOrdered(caches)
    requires PlanPatterns(plan) <= q && Sound(g, q, caches) && ScansCover(g, q, plan)
    requires forall e :: e in q ==> Handled(g, caches, plan, e)
    requires mu.Keys == PlanCols(plan)
    ensures var t := Eval(g, caches, plan);
            multiset(t.rows)[RowOf(t.cols, mu)] == if AllHold(g, q, mu) then 1 else 0
  {
    QueryAnswer(g, q, caches, plan, mu);
    EvalSolutions(g, caches, plan, mu);
  }

  /** The ids a scan without candidates goes through: every subject and object. */
  ghost predicate AllIds(g: Graph, ids: seq<Id>) {
    Increasing(ids) && forall t :: t in g ==> t.s in ids && t.o in ids
  }
}

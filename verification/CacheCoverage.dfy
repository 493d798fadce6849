/** Which columns of a plan the candidate caches reach. A leaf that lists all triples does not apply
    them, so a plan answers its query exactly when what it leaves to the caches is on other columns. */
module CacheCoverage {
  import opened Collections
  import opened Rdf
  import opened Tables
  import opened Plans
  import opened Solutions
  import opened CandidateCaches

  /** The plan with these ids for its scans. */
  function WithIds(plan: Plan, ids: seq<Id>): Plan {
    match plan
    case Unit => Unit
    case Scan(v, _) => Scan(v, ids)
    case AllTriples(_, _, _) => plan
    case Apply(left, st) => Apply(WithIds(left, ids), st)
    case Join(left, right, common) => Join(WithIds(left, ids), WithIds(right, ids), common)
  }

  function ScanVars(plan: Plan): set<nat> {
    match plan
    case Unit => {}
    case Scan(v, _) => {v}
    case AllTriples(_, _, _) => {}
    case Apply(left, _) => ScanVars(left)
    case Join(left, right, _) => ScanVars(left) + ScanVars(right)
  }

  lemma {:induction false} WithIdsSame(plan: Plan, ids: seq<Id>)
    requires Wf(plan) && NoSatellite(plan) && AllPlain(plan) && Increasing(ids)
    ensures var p := WithIds(plan, ids);
            Wf(p) && NoSatellite(p) && AllPlain(p) && PlanCols(p) == PlanCols(plan) &&
            PlanPatterns(p) == PlanPatterns(plan) && FilteredCols(p) == FilteredCols(plan)
  {
    match plan
    case Unit =>
    case Scan(_, _) =>
    case AllTriples(_, _, _) =>
    case Apply(left, _) => WithIdsSame(left, ids);
    case Join(left, right, _) =>
      WithIdsSame(left, ids);
      WithIdsSame(right, ids);
  }

  lemma {:induction false} ScansFiltered(plan: Plan)
    ensures ScanVars(plan) <= FilteredCols(plan)
  {
    match plan
    case Unit =>
    case Scan(_, _) =>
    case AllTriples(_, _, _) =>
    case Apply(left, _) => ScansFiltered(left);
    case Join(left, right, _) =>
      ScansFiltered(left);
      ScansFiltered(right);
  }

  /** The variable is the subject or the object of some pattern. */
  ghost predicate EndOf(q: set<Pattern>, v: nat) {
    exists e :: e in q && (e.s == Variable(v) || e.o == Variable(v))
  }

  lemma {:induction false} ScansCovered(g: Graph, q: set<Pattern>, ids: seq<Id>, plan: Plan)
    requires AllIds(g, ids) && forall v :: v in ScanVars(plan) ==> EndOf(q, v)
    ensures ScansCover(g, q, WithIds(plan, ids))
  {
    match plan
    case Unit =>
    case Scan(v, _) =>
      assert EndOf(q, v);
      var e :| e in q && (e.s == Variable(v) || e.o == Variable(v));
      forall mu | AllHold(g, q, mu) && v in mu
        ensures mu[v] in ids
      {
        assert Holds(g, e, mu);
      }
    case AllTriples(_, _, _) =>
    case Apply(left, _) => ScansCovered(g, q, ids, left);
    case Join(left, right, _) =>
      ScansCovered(g, q, ids, left);
      ScansCovered(g, q, ids, right);
  }

  /** A query and a plan for it: the plan's patterns are of the query, scanned variables occur, and
      for each other pattern some candidate step lists its one variable. */
  ghost predicate Planned(q: set<Pattern>, steps: seq<CacheStep>, plan: Plan) {
    Wf(plan) && NoSatellite(plan) && AllPlain(plan) && PlanPatterns(plan) <= q && StepsOf(q, steps) &&
    (forall v :: v in ScanVars(plan) ==> EndOf(q, v)) &&
    forall e :: e in q && e !in PlanPatterns(plan) ==> Listed(steps, e)
  }

  ghost predicate Listed(steps: seq<CacheStep>, e: Pattern) {
    exists v :: StepFor(steps, e, v)
  }

  /** Over the caches its candidate steps compute on this graph, the plan returns each solution of
      the query once and nothing else. */
  ghost predicate AnswersOn(g: Graph, ids: seq<Id>, q: set<Pattern>, steps: seq<CacheStep>, plan: Plan)
    requires StepsOf(q, steps) && Wf(WithIds(plan, ids))
  {
    var t := Eval(g, AddSteps(g, q, map[], steps), WithIds(plan, ids));
    forall mu: Binding :: mu.Keys == Elements(t.cols) ==>
      multiset(t.rows)[RowOf(t.cols, mu)] == if AllHold(g, q, mu) then 1 else 0
  }

  ghost predicate AnswersAlways(q: set<Pattern>, steps: seq<CacheStep>, plan: Plan)
    requires StepsOf(q, steps)
  {
    forall g, ids :: AllIds(g, ids) ==> Wf(WithIds(plan, ids)) && AnswersOn(g, ids, q, steps, plan)
  }

  /** What is left to the caches is on columns the plan cuts down to them. */
  ghost predicate CachesApplied(q: set<Pattern>, plan: Plan) {
    forall e :: e in q && e !in PlanPatterns(plan) ==> PatternVars(e) <= FilteredCols(plan)
  }

  lemma ListedVar(q: set<Pattern>, steps: seq<CacheStep>, e: Pattern, v: nat)
    requires StepsOf(q, steps) && StepFor(steps, e, v)
    ensures PatternVars(e) == {v}
    ensures forall x :: x in {e.s, e.p, e.o} ==> x == Variable(v) || x.Constant?
  {
    var i, how :| 0 <= i < |steps| && steps[i].v == v && Edge(e, how) in steps[i].edges && TwoGiven(how);
    assert steps[i] in steps;
    ConstantEdgeVars(Edge(e, how), v);
  }

  lemma AppliedAnswers(g: Graph, ids: seq<Id>, q: set<Pattern>, steps: seq<CacheStep>, plan: Plan)
    requires Planned(q, steps, plan) && CachesApplied(q, plan) && AllIds(g, ids)
    ensures Wf(WithIds(plan, ids)) && AnswersOn(g, ids, q, steps, plan)
  {
    var caches, p := AddSteps(g, q, map[], steps), WithIds(plan, ids);
    WithIdsSame(plan, ids);
    ScansCovered(g, q, ids, plan);
    AddStepsSound(g, q, map[], steps);
    forall e | e in q
      ensures Handled(g, caches, p, e)
    {
      if e !in PlanPatterns(plan) {
        assert Listed(steps, e);
        var v :| StepFor(steps, e, v);
        ListedVar(q, steps, e, v);
        AddStepsEnforces(g, q, map[], steps, e, v);
      }
    }
    var t := Eval(g, caches, p);
    forall mu: Binding | mu.Keys == Elements(t.cols)
      ensures multiset(t.rows)[RowOf(t.cols, mu)] == if AllHold(g, q, mu) then 1 else 0
    {
      QuerySolutions(g, q, caches, p, mu);
    }
  }

  // The other way, on a graph made from the query: all its patterns but one, with an id of its own
  // for every variable, above all constants.

  predicate Below(e: Pattern, n: nat) {
    forall x :: x in {e.s, e.p, e.o} && x.Constant? ==> x.id < n
  }

  lemma AllBelow(q: set<Pattern>) returns (n: nat)
    ensures forall e :: e in q ==> Below(e, n)
  {
    if q == {} {
      n := 0;
    } else {
      var e :| e in q;
      var m := AllBelow(q - {e});
      n := m + ItemTop(e.s) + ItemTop(e.p) + ItemTop(e.o);
      forall x | x in q
        ensures Below(x, n)
      {
        assert x == e || Below(x, m);
      }
    }
  }

  function ItemTop(x: Item): nat {
    if x.Constant? then x.id + 1 else 0
  }

  function OwnId(n: nat, x: Item): Id {
    match x
    case Variable(v) => n + 1 + v
    case Constant(c) => c
    case Any => n
  }

  function OwnTriple(n: nat, e: Pattern): Triple {
    Triple(OwnId(n, e.s), OwnId(n, e.p), OwnId(n, e.o))
  }

  ghost function OwnGraph(n: nat, q: set<Pattern>): Graph {
    set e | e in q :: OwnTriple(n, e)
  }

  ghost function OwnMapping(n: nat, cols: set<nat>): Binding {
    map v | v in cols :: n + 1 + v
  }

  ghost function Ends(g: Graph): set<Id> {
    (set t | t in g :: t.s) + (set t | t in g :: t.o)
  }

  lemma EndsIds(g: Graph)
    ensures AllIds(g, SortedSeq(Ends(g)))
  {
    SortedSeqIncreasing(Ends(g));
    forall t | t in g
      ensures t.s in SortedSeq(Ends(g)) && t.o in SortedSeq(Ends(g))
    {
      SortedSeqMember(Ends(g), t.s);
      SortedSeqMember(Ends(g), t.o);
    }
  }

  lemma OwnHolds(n: nat, q: set<Pattern>, e: Pattern, cols: set<nat>)
    requires e in q && PatternVars(e) <= cols
    ensures Holds(OwnGraph(n, q), e, OwnMapping(n, cols))
  {
    assert OwnTriple(n, e) in OwnGraph(n, q);
    assert Matches(e, OwnMapping(n, cols), OwnTriple(n, e));
  }

  /** The pattern left out does not hold. */
  lemma OwnLacks(n: nat, q: set<Pattern>, e: Pattern, v: nat, cols: set<nat>)
    requires (forall x :: x in q ==> Below(x, n)) && Below(e, n)
    requires forall x :: x in {e.s, e.p, e.o} ==> x == Variable(v) || x.Constant?
    ensures !Holds(OwnGraph(n, q - {e}), e, OwnMapping(n, cols))
  {
    var g, mu := OwnGraph(n, q - {e}), OwnMapping(n, cols);
    forall t | t in g
      ensures !Matches(e, mu, t)
    {
      var x :| x in q - {e} && OwnTriple(n, x) == t;
      assert Below(x, n);
      if Matches(e, mu, t) {
        SameItem(n, e.s, x.s, v, mu);
        SameItem(n, e.p, x.p, v, mu);
        SameItem(n, e.o, x.o, v, mu);
      }
    }
  }

  lemma SameItem(n: nat, x: Item, y: Item, v: nat, mu: Binding)
    requires (x.Constant? ==> x.id < n) && (y.Constant? ==> y.id < n) && (x == Variable(v) || x.Constant?)
    requires (v in mu ==> mu[v] == n + 1 + v) && Fits(x, mu, OwnId(n, y))
    ensures x == y
  {
  }

  /** A value all listed edges of its variable hold for stays a candidate. */
  lemma {:induction false} StaysCandidate(g: Graph, q: set<Pattern>, caches: Caches, steps: seq<CacheStep>, v: nat,
                                          c: Id)
    requires StepsOf(q, steps) && CachesOrdered(caches) && InCache(caches, v, c)
    requires forall s, e :: s in steps && s.v == v && e in s.edges ==> Holds(g, Seen(e.pat, e.how), map[v := c])
    ensures InCache(AddSteps(g, q, caches, steps), v, c)
    decreases |steps|
  {
    if steps != [] {
      var s := steps[0];
      var next := AddEdges(g, caches, s.v, s.edges);
      AddEdgesFrame(g, caches, s.v, s.edges);
      if s.v == v && s.edges != [] {
        AddEdgesExact(g, caches, v, s.edges, c);
      }
      StaysCandidate(g, q, next, steps[1..], v, c);
    }
  }

  lemma OwnCandidate(n: nat, q: set<Pattern>, steps: seq<CacheStep>, e: Pattern, v0: nat, v: nat)
    requires StepsOf(q, steps) && PatternVars(e) == {v0} && v != v0
    ensures InCache(AddSteps(OwnGraph(n, q - {e}), q, map[], steps), v, n + 1 + v)
  {
    var g := OwnGraph(n, q - {e});
    forall s, x | s in steps && s.v == v && x in s.edges
      ensures Holds(g, Seen(x.pat, x.how), map[v := n + 1 + v])
    {
      ConstantEdgeVars(x, v);
      assert x.pat != e;
      assert OwnTriple(n, x.pat) in g;
      assert Matches(Seen(x.pat, x.how), map[v := n + 1 + v], OwnTriple(n, x.pat));
    }
    StaysCandidate(g, q, map[], steps, v, n + 1 + v);
  }

  lemma {:induction false} OwnLists(caches: Caches, plan: Plan, ids: seq<Id>, mu: Binding)
    requires forall v :: v in FilteredCols(plan) ==> v in mu && InCache(caches, v, mu[v])
    requires forall v :: v in ScanVars(plan) ==> v in mu && mu[v] in ids
    ensures ListsHold(caches, WithIds(plan, ids), mu)
  {
    match plan
    case Unit =>
    case Scan(_, _) =>
    case AllTriples(_, _, _) =>
    case Apply(left, st) =>
      OwnLists(caches, left, ids, mu);
      assert forall v :: v in NewCols(st) ==> v in Elements(NewCols(st));
    case Join(left, right, _) =>
      OwnLists(caches, left, ids, mu);
      OwnLists(caches, right, ids, mu);
  }

  lemma {:induction false} FilteredInCols(plan: Plan)
    ensures FilteredCols(plan) <= PlanCols(plan)
  {
    match plan
    case Unit =>
    case Scan(_, _) =>
    case AllTriples(_, _, _) =>
    case Apply(left, _) => FilteredInCols(left);
    case Join(left, right, _) =>
      FilteredInCols(left);
      FilteredInCols(right);
  }

  lemma OwnEnd(n: nat, q: set<Pattern>, e: Pattern, v0: nat, v: nat)
    requires EndOf(q, v) && PatternVars(e) == {v0} && v != v0
    ensures n + 1 + v in SortedSeq(Ends(OwnGraph(n, q - {e})))
  {
    var g := OwnGraph(n, q - {e});
    var x :| x in q && (x.s == Variable(v) || x.o == Variable(v));
    assert x != e;
    assert OwnTriple(n, x) in g && n + 1 + v in Ends(g);
    SortedSeqMember(Ends(g), n + 1 + v);
  }

  /** A pattern left to the cache of a column the plan does not cut down is not enforced: on the
      graph without it the plan returns a row that is no solution. */
  lemma LeftOut(q: set<Pattern>, steps: seq<CacheStep>, plan: Plan, e: Pattern, v0: nat)
    returns (g: Graph, ids: seq<Id>)
    requires Planned(q, steps, plan) && e in q && e !in PlanPatterns(plan) && StepFor(steps, e, v0) &&
             v0 !in FilteredCols(plan)
    ensures AllIds(g, ids) && Wf(WithIds(plan, ids)) && !AnswersOn(g, ids, q, steps, plan)
  {
    ListedVar(q, steps, e, v0);
    var n := AllBelow(q);
    g := OwnGraph(n, q - {e});
    ids := SortedSeq(Ends(g));
    EndsIds(g);
    WithIdsSame(plan, ids);
    var mu := OwnMapping(n, PlanCols(plan));
    OwnLacks(n, q, e, v0, PlanCols(plan));
    OwnPatterns(n, q, plan, e);
    OwnAnswer(n, q, steps, plan, e, v0);
    var caches, p := AddSteps(g, q, map[], steps), WithIds(plan, ids);
    AddStepsSound(g, q, map[], steps);
    EvalSolutions(g, caches, p, mu);
    var t := Eval(g, caches, p);
    assert mu.Keys == Elements(t.cols) && multiset(t.rows)[RowOf(t.cols, mu)] == 1;
  }

  lemma OwnPatterns(n: nat, q: set<Pattern>, plan: Plan, e: Pattern)
    requires Wf(plan) && NoSatellite(plan) && PlanPatterns(plan) <= q && e !in PlanPatterns(plan)
    ensures AllHold(OwnGraph(n, q - {e}), PlanPatterns(plan), OwnMapping(n, PlanCols(plan)))
  {
    forall x | x in PlanPatterns(plan)
      ensures Holds(OwnGraph(n, q - {e}), x, OwnMapping(n, PlanCols(plan)))
    {
      PatternsScoped(plan, x);
      OwnHolds(n, q - {e}, x, PlanCols(plan));
    }
  }

  lemma OwnAnswer(n: nat, q: set<Pattern>, steps: seq<CacheStep>, plan: Plan, e: Pattern, v0: nat)
    requires StepsOf(q, steps) && (forall v :: v in ScanVars(plan) ==> EndOf(q, v))
    requires PatternVars(e) == {v0} && v0 !in FilteredCols(plan)
    ensures var g := OwnGraph(n, q - {e});
            ListsHold(AddSteps(g, q, map[], steps), WithIds(plan, SortedSeq(Ends(g))), OwnMapping(n, PlanCols(plan)))
  {
    var g, mu := OwnGraph(n, q - {e}), OwnMapping(n, PlanCols(plan));
    var ids, caches := SortedSeq(Ends(g)), AddSteps(g, q, map[], steps);
    FilteredInCols(plan);
    ScansFiltered(plan);
    forall v | v in FilteredCols(plan)
      ensures v in mu && InCache(caches, v, mu[v])
    {
      OwnCandidate(n, q, steps, e, v0, v);
    }
    forall v | v in ScanVars(plan)
      ensures v in mu && mu[v] in ids
    {
      OwnEnd(n, q, e, v0, v);
    }
    OwnLists(caches, plan, ids, mu);
  }

  /** With the caches the candidate steps compute, a plan answers the query on every graph exactly
      when what it leaves to the caches is on columns it cuts down to them. Only a leaf that lists all
      triples has columns it does not. */
  lemma CachesExact(q: set<Pattern>, steps: seq<CacheStep>, plan: Plan)
    requires Planned(q, steps, plan)
    ensures AnswersAlways(q, steps, plan) <==> CachesApplied(q, plan)
  {
    if CachesApplied(q, plan) {
      forall g, ids | AllIds(g, ids)
        ensures Wf(WithIds(plan, ids)) && AnswersOn(g, ids, q, steps, plan)
      {
        AppliedAnswers(g, ids, q, steps, plan);
      }
    } else {
      var e :| e in q && e !in PlanPatterns(plan) && !(PatternVars(e) <= FilteredCols(plan));
      assert Listed(steps, e);
      var v :| StepFor(steps, e, v);
      ListedVar(q, steps, e, v);
      var g, ids := LeftOut(q, steps, plan, e, v);
      assert !AnswersAlways(q, steps, plan);
    }
  }
}

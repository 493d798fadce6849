/** Greedy plans of queries with predicate variables mean their query exactly when no triple is passed
    over. */
module PredicateQueries {
  import opened Collections
  import opened Rdf
  import opened Tables
  import opened Plans
  import opened Solutions
  import opened Satellites
  import opened CandidateCaches
  import opened CacheCoverage
  import opened JoinGraphs
  import opened QueryPlans
  import opened QueryGraphs
  import opened FilterPlans
  import opened PlanMeanings
  import opened QueryEngine
  import opened PredicatePlans
  import opened PredicateSteps
  import opened PredicateBuilds
  import opened PredicateSatellites

  ghost function AllVars(ts: seq<Pattern>): set<nat> {
    set t, v | t in ts && v in PatternVars(t) :: v
  }

  // ---------------------------------------------------------------- from patterns to solutions

  /** A triple of the graph that shows a triple of the query to hold, as far as the columns say. */
  ghost predicate Shows(env: Env, cols: set<nat>, mu: Binding, t: Pattern, w: Triple) {
    exists f :: Form(env, f, t) && PatternVars(t) * cols <= PatternVars(f) && Matches(f, mu, w)
  }

  ghost predicate Shown(g: Graph, env: Env, cols: set<nat>, mu: Binding, t: Pattern) {
    exists w :: w in g && Shows(env, cols, mu, t, w)
  }

  lemma FormShown(g: Graph, env: Env, ps: set<Pattern>, cols: set<nat>, mu: Binding, t: Pattern)
    requires HasForm(env, ps, t, cols) && AllHold(g, ps, mu)
    ensures Shown(g, env, cols, mu, t)
  {
    var f :| f in ps && Form(env, f, t) && PatternVars(t) * cols <= PatternVars(f);
    assert Holds(g, f, mu);
    var w :| w in g && Matches(f, mu, w);
    assert Shows(env, cols, mu, t, w);
  }

  lemma TripleShown(g: Graph, env: Env, cols: set<nat>, mu: Binding, t: Pattern)
    requires Holds(g, t, mu)
    ensures Shown(g, env, cols, mu, t)
  {
    var w :| w in g && Matches(t, mu, w);
    assert Form(env, t, t) && Shows(env, cols, mu, t, w);
  }

  ghost function ShownBy(g: Graph, env: Env, cols: set<nat>, mu: Binding, t: Pattern): (w: Triple)
    requires Shown(g, env, cols, mu, t)
    ensures w in g && Shows(env, cols, mu, t, w)
  {
    var w :| w in g && Shows(env, cols, mu, t, w);
    w
  }

  /** What the variable is in the triple of the graph. */
  function At(t: Pattern, v: nat, w: Triple): Id {
    if t.s == Variable(v) then w.s else if t.p == Variable(v) then w.p else w.o
  }

  ghost predicate AllShown(g: Graph, env: Env, cols: set<nat>, mu: Binding) {
    forall t :: t in env.ts ==> Shown(g, env, cols, mu, t)
  }

  lemma Owner(env: Env, v: nat)
    requires v in AllVars(env.ts)
    ensures exists t :: t in env.ts && v in PatternVars(t)
  {
  }

  /** The mapping that adds the light variables, each as its triple shows it. */
  ghost function Completed(g: Graph, env: Env, cols: set<nat>, mu: Binding): Binding
    requires AllShown(g, env, cols, mu)
  {
    map v | v in AllVars(env.ts) :: if v in mu then mu[v] else OwnerValue(g, env, cols, mu, v)
  }

  ghost function OwnerValue(g: Graph, env: Env, cols: set<nat>, mu: Binding, v: nat): Id
    requires AllShown(g, env, cols, mu) && v in AllVars(env.ts)
  {
    Owner(env, v);
    var t :| t in env.ts && v in PatternVars(t);
    At(t, v, ShownBy(g, env, cols, mu, t))
  }

  lemma OwnerOf(g: Graph, env: Env, cols: set<nat>, mu: Binding, t: Pattern, v: nat)
    requires AllShown(g, env, cols, mu) && t in env.ts && v in PatternVars(t) && Light(env, v)
    ensures OwnerValue(g, env, cols, mu, v) == At(t, v, ShownBy(g, env, cols, mu, t))
  {
    var u :| u in env.ts && v in PatternVars(u) &&
        OwnerValue(g, env, cols, mu, v) == At(u, v, ShownBy(g, env, cols, mu, u));
    LightOnce(env, v, t, u);
  }

  /** No variable is at two places of a triple. */
  lemma OncePerTriple(env: Env, t: Pattern)
    requires EnvOk(env) && t in env.ts
    ensures (t.s.Variable? ==> t.s != t.p && t.s != t.o) && (t.p.Variable? ==> t.p != t.o)
  {
    assert t.p.Variable? ==> !Touches(t, t.p.v);
  }

  /** A variable of the columns keeps its place in the pattern. */
  lemma FormKeeps(env: Env, t: Pattern, f: Pattern, k: Slot)
    requires EnvOk(env) && t in env.ts && Form(env, f, t) && Part(t, k).Variable? && Part(t, k).v in PatternVars(f)
    ensures Part(f, k) == Part(t, k)
  {
    OncePerTriple(env, t);
  }

  lemma CompletedAt(g: Graph, env: Env, cols: set<nat>, mu: Binding, t: Pattern, k: Slot)
    requires EnvOk(env) && AllShown(g, env, cols, mu) && mu.Keys == cols && t in env.ts
    requires forall v :: v in PatternVars(t) ==> v in cols || Light(env, v)
    ensures Fits(Part(t, k), Completed(g, env, cols, mu), Get(ShownBy(g, env, cols, mu, t), k))
  {
    var w := ShownBy(g, env, cols, mu, t);
    var f :| Form(env, f, t) && PatternVars(t) * cols <= PatternVars(f) && Matches(f, mu, w);
    assert Proper(t);
    var x := Part(t, k);
    if x.Variable? {
      assert x.v in PatternVars(t) && x.v in AllVars(env.ts);
      if x.v in cols {
        FormKeeps(env, t, f, k);
      } else {
        OwnerOf(g, env, cols, mu, t, x.v);
        AtSlot(env, t, k, w);
      }
    }
  }

  lemma AtSlot(env: Env, t: Pattern, k: Slot, w: Triple)
    requires EnvOk(env) && t in env.ts && Part(t, k).Variable?
    ensures At(t, Part(t, k).v, w) == Get(w, k)
  {
    OncePerTriple(env, t);
  }

  lemma CompletedSolution(g: Graph, env: Env, cols: set<nat>, mu: Binding)
    requires EnvOk(env) && AllShown(g, env, cols, mu) && mu.Keys == cols && cols <= AllVars(env.ts)
    requires forall v :: v in AllVars(env.ts) ==> v in cols || Light(env, v)
    ensures Solution(g, env.ts, AllVars(env.ts), Completed(g, env, cols, mu)) && Agrees(mu, Completed(g, env, cols, mu))
  {
    var nu := Completed(g, env, cols, mu);
    forall t | t in Elements(env.ts)
      ensures Holds(g, t, nu)
    {
      forall v | v in PatternVars(t)
        ensures v in cols || Light(env, v)
      {
        assert v in AllVars(env.ts);
      }
      CompletedAt(g, env, cols, mu, t, S);
      CompletedAt(g, env, cols, mu, t, P);
      CompletedAt(g, env, cols, mu, t, O);
      assert Matches(t, nu, ShownBy(g, env, cols, mu, t));
    }
  }

  /** A solution satisfies every form of its triples. */
  lemma SolutionForms(g: Graph, env: Env, plan: Plan, done: set<Pattern>, nu: Binding)
    requires Wf(plan) && NoSatellite(plan) && Forms(env, PlanPatterns(plan), done, PlanCols(plan)) &&
             done <= Elements(env.ts)
    requires AllHold(g, Elements(env.ts), nu) && PlanCols(plan) <= nu.Keys
    ensures AllHold(g, PlanPatterns(plan), Restrict(nu, PlanCols(plan)))
  {
    var mu := Restrict(nu, PlanCols(plan));
    forall f | f in PlanPatterns(plan)
      ensures Holds(g, f, mu)
    {
      assert FormOfSome(env, f, done);
      var t :| t in done && Form(env, f, t);
      PatternsScoped(plan, f);
      assert Holds(g, t, nu);
      var w :| w in g && Matches(t, nu, w);
      assert Matches(f, mu, w);
    }
  }

  // ---------------------------------------------------------------- nothing passed over

  lemma {:induction false} SaturateIds(plan: Plan, ids: seq<Id>)
    requires WithIds(plan, ids) == plan
    ensures WithIds(Saturate(plan), ids) == Saturate(plan)
  {
    match plan
    case Unit =>
    case Scan(_, _) =>
    case AllTriples(_, _, _) =>
    case Apply(left, _) => SaturateIds(left, ids);
    case Join(left, right, _) =>
      SaturateIds(left, ids);
      SaturateIds(right, ids);
  }

  /** A triple the plan leaves to a cache holds where the lists do. */
  lemma ConstantHolds(g: Graph, ts: seq<Pattern>, vars: seq<nat>, steps: seq<CacheStep>, plan: Plan, mu: Binding,
                      t: Pattern, v: nat)
    requires Query(ts, vars) && StepsFor(ts, vars, steps) && t in ts && ConstantAt(t, v)
    requires Elements(JoinNodes(ts, vars)) <= FilteredCols(plan) &&
             ListsHold(AddSteps(g, Elements(ts), map[], steps), plan, mu)
    ensures Holds(g, t, mu)
  {
    ConstantAtNode(ts, vars, t, v);
    assert v in Elements(JoinNodes(ts, vars)) && Filtered(ts, steps, v);
    AddStepsEnforces(g, Elements(ts), map[], steps, t, v);
    ListsFilter(AddSteps(g, Elements(ts), map[], steps), plan, mu, v);
    HoldsLocal(g, t, mu, map[v := mu[v]]);
  }

  lemma InsideOrConstant(env: Env, vars: seq<nat>, t: Pattern) returns (v: nat)
    requires EnvOk(env) && ListsVars(env.ts, vars) && t in env.ts
    ensures t in InsideSet(env, Elements(vars)) || ConstantAt(t, v)
  {
    assert Proper(t);
    v := if t.s.Variable? then t.s.v else t.o.v;
    assert (t.s.Variable? ==> Touches(t, t.s.v)) && (t.o.Variable? ==> Touches(t, t.o.v));
  }

  /** An answer of the plan that keeps every satellite shows every triple. */
  lemma AnswerShows(g: Graph, env: Env, vars: seq<nat>, steps: seq<CacheStep>, plan: Plan, mu: Binding)
    requires EnvOk(env) && Query(env.ts, vars) && StepsFor(env.ts, vars, steps) &&
             Elements(JoinNodes(env.ts, vars)) <= FilteredCols(plan)
    requires Forms(env, PlanPatterns(plan), InsideSet(env, Elements(vars)), PlanCols(plan))
    requires Answer(g, AddSteps(g, Elements(env.ts), map[], steps), plan, mu)
    ensures AllShown(g, env, PlanCols(plan), mu)
  {
    forall t | t in env.ts
      ensures Shown(g, env, PlanCols(plan), mu, t)
    {
      var v := InsideOrConstant(env, vars, t);
      if t in InsideSet(env, Elements(vars)) {
        FormShown(g, env, PlanPatterns(plan), PlanCols(plan), mu, t);
      } else {
        ConstantHolds(g, env.ts, vars, steps, plan, mu, t, v);
        TripleShown(g, env, PlanCols(plan), mu, t);
      }
    }
  }

  /** What the meaning of a plan needs of it. */
  ghost predicate Whole(env: Env, ids: seq<Id>, vars: seq<nat>, plan: Plan, done: set<Pattern>) {
    Wf(plan) && Wf(Saturate(plan)) && NoSatellite(Saturate(plan)) && WithIds(plan, ids) == plan &&
    Elements(JoinNodes(env.ts, vars)) <= FilteredCols(Saturate(plan)) && ScanVars(Saturate(plan)) <= Elements(vars) &&
    Forms(env, PlanPatterns(Saturate(plan)), done, PlanCols(Saturate(plan))) &&
    PlanCols(Saturate(plan)) <= AllVars(env.ts) &&
    forall v :: v in AllVars(env.ts) ==> v in PlanCols(Saturate(plan)) || Light(env, v)
  }

  lemma RowToSolution(g: Graph, env: Env, ids: seq<Id>, vars: seq<nat>, steps: seq<CacheStep>, plan: Plan, mu: Binding)
    requires EnvOk(env) && Query(env.ts, vars) && StepsFor(env.ts, vars, steps)
    requires Whole(env, ids, vars, plan, InsideSet(env, Elements(vars))) && mu.Keys == PlanCols(plan)
    requires var t := Eval(g, AddSteps(g, Elements(env.ts), map[], steps), plan); RowOf(t.cols, mu) in t.rows
    ensures exists nu :: Solution(g, env.ts, AllVars(env.ts), nu) && Agrees(mu, nu)
  {
    var caches := AddSteps(g, Elements(env.ts), map[], steps);
    AddStepsSound(g, Elements(env.ts), map[], steps);
    var whole := RowOfAnswer(g, caches, plan, mu);
    AnswerShows(g, env, vars, steps, Saturate(plan), whole);
    CompletedSolution(g, env, PlanCols(Saturate(plan)), whole);
    var nu := Completed(g, env, PlanCols(Saturate(plan)), whole);
    assert Agrees(mu, nu);
  }

  lemma ScannedEnds(ts: seq<Pattern>, vars: seq<nat>, scanned: set<nat>)
    requires ListsVars(ts, vars) && scanned <= Elements(vars)
    ensures forall v :: v in scanned ==> EndOf(Elements(ts), v)
  {
    forall v | v in scanned
      ensures EndOf(Elements(ts), v)
    {
      assert v in vars;
      var t :| t in ts && Touches(t, v);
      assert t in Elements(ts);
    }
  }

  lemma SolutionToRow(g: Graph, env: Env, ids: seq<Id>, vars: seq<nat>, steps: seq<CacheStep>, plan: Plan,
                      done: set<Pattern>, mu: Binding, nu: Binding)
    requires Query(env.ts, vars) && StepsFor(env.ts, vars, steps) && AllIds(g, ids) && done <= Elements(env.ts)
    requires Whole(env, ids, vars, plan, done) && mu.Keys == PlanCols(plan) <= PlanCols(Saturate(plan))
    requires Solution(g, env.ts, AllVars(env.ts), nu) && Agrees(mu, nu)
    ensures var t := Eval(g, AddSteps(g, Elements(env.ts), map[], steps), plan); RowOf(t.cols, mu) in t.rows
  {
    var caches, full := AddSteps(g, Elements(env.ts), map[], steps), Saturate(plan);
    AddStepsSound(g, Elements(env.ts), map[], steps);
    SolutionForms(g, env, full, done, nu);
    SaturateIds(plan, ids);
    ScannedEnds(env.ts, vars, ScanVars(full));
    SolutionLists(g, env.ts, ids, caches, full, nu);
    KeptRow(g, caches, plan, Restrict(nu, PlanCols(full)), mu);
  }

  lemma SolutionLists(g: Graph, ts: seq<Pattern>, ids: seq<Id>, caches: Caches, plan: Plan, nu: Binding)
    requires AllIds(g, ids) && WithIds(plan, ids) == plan && forall v :: v in ScanVars(plan) ==> EndOf(Elements(ts), v)
    requires AllHold(g, Elements(ts), nu) && Sound(g, Elements(ts), caches) && PlanCols(plan) <= nu.Keys
    ensures ListsHold(caches, plan, Restrict(nu, PlanCols(plan)))
  {
    ScansCovered(g, Elements(ts), ids, plan);
    SolutionsInLists(g, Elements(ts), caches, plan, nu);
    ListsLocal(caches, plan, nu);
  }

  lemma WholeMeans(g: Graph, env: Env, ids: seq<Id>, vars: seq<nat>, steps: seq<CacheStep>, plan: Plan)
    requires EnvOk(env) && Query(env.ts, vars) && StepsFor(env.ts, vars, steps) && AllIds(g, ids)
    requires Whole(env, ids, vars, plan, InsideSet(env, Elements(vars))) && PlanCols(plan) <= PlanCols(Saturate(plan))
    ensures MeansOn(g, ids, env.ts, AllVars(env.ts), steps, plan)
  {
    var t := Eval(g, AddSteps(g, Elements(env.ts), map[], steps), plan);
    forall mu: Binding | mu.Keys == Elements(t.cols)
      ensures RowOf(t.cols, mu) in t.rows <==> exists nu :: Solution(g, env.ts, AllVars(env.ts), nu) && Agrees(mu, nu)
    {
      if RowOf(t.cols, mu) in t.rows {
        RowToSolution(g, env, ids, vars, steps, plan, mu);
      }
      forall nu | Solution(g, env.ts, AllVars(env.ts), nu) && Agrees(mu, nu)
        ensures RowOf(t.cols, mu) in t.rows
      {
        SolutionToRow(g, env, ids, vars, steps, plan, InsideSet(env, Elements(vars)), mu, nu);
      }
    }
  }

  lemma VarKept(env: Env, ids: seq<Id>, vars: seq<nat>, b: Build, nodes: set<nat>, passed: set<Pattern>, t: Pattern,
                v: nat)
    requires EnvOk(env) && ListsVars(env.ts, vars) && AllBuilt(env, ids, b, nodes, passed) && b.placed == Elements(vars)
    requires nodes == Elements(JoinNodes(env.ts, vars)) && t in env.ts && v in PatternVars(t)
    ensures v in PlanCols(Saturate(b.plan)) || Light(env, v)
  {
    if t.p == Variable(v) {
      var u := InsideOrConstant(env, vars, t);
      assert t in passed ==> Dealt(env, b, t);
      assert t in InsideSet(env, b.placed) - passed ==> Dealt(env, b, t);
    } else {
      assert Touches(t, v) && v in vars;
      NodesExact(env.ts, vars);
      if v !in nodes && v !in env.selected {
        SatelliteLight(env, v, t);
      } else {
        assert v in PlanCols(b.plan);
      }
    }
  }

  lemma BuiltWhole(env: Env, ids: seq<Id>, vars: seq<nat>, b: Build, nodes: set<nat>, passed: set<Pattern>)
    requires EnvOk(env) && ListsVars(env.ts, vars) && AllBuilt(env, ids, b, nodes, passed) && b.placed == Elements(vars)
    requires nodes == Elements(JoinNodes(env.ts, vars))
    ensures Whole(env, ids, vars, b.plan, InsideSet(env, Elements(vars)) - passed) &&
            PlanCols(b.plan) <= PlanCols(Saturate(b.plan))
  {
    forall v | v in AllVars(env.ts)
      ensures v in PlanCols(Saturate(b.plan)) || Light(env, v)
    {
      var t :| t in env.ts && v in PatternVars(t);
      VarKept(env, ids, vars, b, nodes, passed, t, v);
    }
    ColsInVars(env, vars, PlanCols(Saturate(b.plan)), InsideSet(env, Elements(vars)) - passed);
  }

  lemma ColsInVars(env: Env, vars: seq<nat>, cols: set<nat>, done: set<Pattern>)
    requires ListsVars(env.ts, vars) && ColsKnown(cols, Elements(vars), done) && done <= Elements(env.ts)
    ensures cols <= AllVars(env.ts)
  {
    forall v | v in cols
      ensures v in AllVars(env.ts)
    {
      if v in Elements(vars) {
        assert v in vars;
        var t :| t in env.ts && Touches(t, v);
        assert v in PatternVars(t);
      } else {
        var t :| t in done && v in PatternVars(t);
      }
    }
  }

  // ---------------------------------------------------------------- a triple passed over

  /** All triples but one, with an id of its own for every variable, and instead of that one a triple
      with the same ends and a predicate nothing else uses. */
  ghost function OtherGraph(n: nat, q: set<Pattern>, e: Pattern): Graph {
    OwnGraph(n, q - {e}) + {OwnTriple(n, e).(p := n)}
  }

  lemma OwnTripleOnce(n: nat, x: Pattern, y: Pattern)
    requires Below(x, n) && Below(y, n) && Proper(x) && Proper(y) && OwnTriple(n, x) == OwnTriple(n, y)
    ensures x == y
  {
    assert forall i :: i in {x.s, x.p, x.o} && i.Constant? ==> i.id < n;
    assert forall i :: i in {y.s, y.p, y.o} && i.Constant? ==> i.id < n;
    SameOwn(n, x.s, y.s);
    SameOwn(n, x.p, y.p);
    SameOwn(n, x.o, y.o);
  }

  lemma SameOwn(n: nat, x: Item, y: Item)
    requires (x.Constant? ==> x.id < n) && (y.Constant? ==> y.id < n) && !x.Any? && !y.Any? &&
               OwnId(n, x) == OwnId(n, y)
    ensures x == y
  {
  }

  lemma OtherLacks(n: nat, ts: seq<Pattern>, e: Pattern, nu: Binding)
    requires (forall x :: x in ts ==> Below(x, n) && Proper(x)) && e in ts && e.p.Variable?
    requires forall v :: v in PatternVars(e) ==> v in nu && nu[v] == n + 1 + v
    ensures !Holds(OtherGraph(n, Elements(ts), e), e, nu)
  {
    forall w | w in OtherGraph(n, Elements(ts), e)
      ensures !Matches(e, nu, w)
    {
      if Matches(e, nu, w) {
        assert w == OwnTriple(n, e);
        assert w != OwnTriple(n, e).(p := n);
        var x :| x in Elements(ts) - {e} && OwnTriple(n, x) == w;
        OwnTripleOnce(n, x, e);
        assert false;
      }
    }
  }

  lemma OtherForms(n: nat, env: Env, plan: Plan, done: set<Pattern>, e: Pattern)
    requires Wf(plan) && NoSatellite(plan) && Forms(env, PlanPatterns(plan), done, PlanCols(plan))
    requires done <= Elements(env.ts) && e !in done
    ensures AllHold(OtherGraph(n, Elements(env.ts), e), PlanPatterns(plan), OwnMapping(n, PlanCols(plan)))
  {
    forall f | f in PlanPatterns(plan)
      ensures Holds(OtherGraph(n, Elements(env.ts), e), f, OwnMapping(n, PlanCols(plan)))
    {
      assert FormOfSome(env, f, done);
      var t :| t in done && Form(env, f, t);
      PatternsScoped(plan, f);
      assert OwnTriple(n, t) in OwnGraph(n, Elements(env.ts) - {e});
      assert Matches(f, OwnMapping(n, PlanCols(plan)), OwnTriple(n, t));
    }
  }

  lemma OtherSeen(n: nat, q: set<Pattern>, e: Pattern, x: Edge, v: nat)
    requires ConstantEdge(x, v) && x.pat in q && e.p.Variable? && e.p.v != v
    ensures Holds(OtherGraph(n, q, e), Seen(x.pat, x.how), map[v := n + 1 + v])
  {
    var mu := map[v := n + 1 + v];
    ConstantEdgeVars(x, v);
    if x.pat != e {
      assert OwnTriple(n, x.pat) in OwnGraph(n, q - {e});
      assert Matches(Seen(x.pat, x.how), mu, OwnTriple(n, x.pat));
    } else {
      assert Matches(Seen(x.pat, x.how), mu, OwnTriple(n, e).(p := n));
    }
  }

  lemma OtherCandidate(n: nat, q: set<Pattern>, e: Pattern, steps: seq<CacheStep>, v: nat)
    requires StepsOf(q, steps) && e.p.Variable? && forall s :: s in steps ==> s.v != e.p.v
    ensures InCache(AddSteps(OtherGraph(n, q, e), q, map[], steps), v, n + 1 + v)
  {
    forall s, x | s in steps && s.v == v && x in s.edges
      ensures Holds(OtherGraph(n, q, e), Seen(x.pat, x.how), map[v := n + 1 + v])
    {
      OtherSeen(n, q, e, x, v);
    }
    StaysCandidate(OtherGraph(n, q, e), q, map[], steps, v, n + 1 + v);
  }

  lemma OtherEnd(n: nat, q: set<Pattern>, e: Pattern, v: nat)
    requires EndOf(q, v)
    ensures n + 1 + v in SortedSeq(CacheCoverage.Ends(OtherGraph(n, q, e)))
  {
    var g := OtherGraph(n, q, e);
    var x :| x in q && (x.s == Variable(v) || x.o == Variable(v));
    var w := if x == e then OwnTriple(n, e).(p := n) else OwnTriple(n, x);
    assert x != e ==> x in q - {e};
    assert w in g && n + 1 + v in CacheCoverage.Ends(g);
    SortedSeqMember(CacheCoverage.Ends(g), n + 1 + v);
  }

  lemma OtherLists(n: nat, q: set<Pattern>, e: Pattern, steps: seq<CacheStep>, plan: Plan, ids: seq<Id>)
    requires StepsOf(q, steps) && e.p.Variable? && (forall s :: s in steps ==> s.v != e.p.v) &&
               WithIds(plan, ids) == plan
    requires ids == SortedSeq(CacheCoverage.Ends(OtherGraph(n, q, e))) &&
             forall v :: v in ScanVars(plan) ==> EndOf(q, v)
    ensures ListsHold(AddSteps(OtherGraph(n, q, e), q, map[], steps), plan, OwnMapping(n, PlanCols(plan)))
  {
    var caches, mu := AddSteps(OtherGraph(n, q, e), q, map[], steps), OwnMapping(n, PlanCols(plan));
    FilteredInCols(plan);
    ScansFiltered(plan);
    forall v | v in FilteredCols(plan)
      ensures v in mu && InCache(caches, v, mu[v])
    {
      OtherCandidate(n, q, e, steps, v);
    }
    forall v | v in ScanVars(plan)
      ensures v in mu && mu[v] in ids
    {
      OtherEnd(n, q, e, v);
    }
    OwnLists(caches, plan, ids, mu);
  }

  // ---------------------------------------------------------------- what is passed over does not depend on the ids

  lemma {:induction false} JoinShape(env: Env, b: Build, c: Build, rest: seq<Pattern>)
    requires b.placed == c.placed && b.joined == c.joined
    ensures JoinPredicates(env, b, rest).placed == JoinPredicates(env, c, rest).placed
    ensures JoinPredicates(env, b, rest).joined == JoinPredicates(env, c, rest).joined
    decreases |rest|
  {
    if rest != [] {
      if PredicateOf(rest[0]) in b.joined {
        JoinShape(env, b, c, rest[1..]);
      } else {
        var p := PredicateOf(rest[0]);
        var st := ExtendOne(p, PreEdges(SamePredicate(rest, rest[0].p)), env.distinct);
        JoinShape(env, Build(Apply(b.plan, st), b.placed, b.joined + {p}),
                  Build(Apply(c.plan, st), c.placed, c.joined + {p}), rest[1..]);
      }
    }
  }

  lemma {:induction false} CountShape(env: Env, b: Build, rest: seq<Pattern>)
    ensures CountPredicates(env, b, rest).placed == b.placed && CountPredicates(env, b, rest).joined == b.joined
    decreases |rest|
  {
    if rest != [] {
      CountShape(env, b.(plan := Apply(b.plan, Satellite(PredicateOf(rest[0]), PreEdges([rest[0]]), env.distinct))),
                 rest[1..]);
    }
  }

  lemma {:induction false} SameTriples(ts: seq<Pattern>, env: Env, v: nat, b: Build, c: Build, light: bool)
    requires b.placed == c.placed && b.joined == c.joined
    ensures ReadyTriples(ts, v, b) == ReadyTriples(ts, v, c) &&
            OpenTriples(ts, env, v, b, light) == OpenTriples(ts, env, v, c, light)
  {
    if ts != [] {
      SameTriples(ts[1..], env, v, b, c, light);
    }
  }

  lemma NextShape(env: Env, b: Build, c: Build, v: nat)
    requires b.placed == c.placed && b.joined == c.joined
    ensures Next(env, b, v).placed == Next(env, c, v).placed && Next(env, b, v).joined == Next(env, c, v).joined
    ensures NextPassedOver(env, b, v) == NextPassedOver(env, c, v)
  {
    SameTriples(env.ts, env, v, b, c, true);
    SameTriples(env.ts, env, v, b, c, false);
    var ready := ReadyTriples(env.ts, v, b);
    var light, kept := OpenTriples(env.ts, env, v, b, true), OpenTriples(env.ts, env, v, b, false);
    if ready != [] {
      var st := ExtendOne(v, EdgesAt(ready, v), env.distinct);
      var b1, c1 := Place(env, b, st, v), Place(env, c, st, v);
      JoinShape(env, b1, c1, kept);
      CountShape(env, JoinPredicates(env, b1, kept), light);
      CountShape(env, JoinPredicates(env, c1, kept), light);
    } else if kept != [] {
      var b1, c1 := PlaceBoth(b, kept[0], v), PlaceBoth(c, kept[0], v);
      JoinShape(env, b1, c1, kept[1..]);
      CountShape(env, JoinPredicates(env, b1, kept[1..]), light);
      CountShape(env, JoinPredicates(env, c1, kept[1..]), light);
    } else if light != [] {
      var st := ExtendOne(v, [OpenEdge(light[0], v)], env.distinct);
      CountShape(env, Place(env, b, st, v), light[1..]);
      CountShape(env, Place(env, c, st, v), light[1..]);
    }
  }

  lemma {:induction false} GreedyShape(env: Env, ids: seq<Id>, jds: seq<Id>, o: seq<nat>)
    requires o != []
    ensures Greedy(env, ids, o).placed == Greedy(env, jds, o).placed &&
            Greedy(env, ids, o).joined == Greedy(env, jds, o).joined
    ensures AllPassedOver(env, ids, o) == AllPassedOver(env, jds, o)
    decreases |o|
  {
    if |o| > 1 {
      GreedyShape(env, ids, jds, o[..|o| - 1]);
      NextShape(env, Greedy(env, ids, o[..|o| - 1]), Greedy(env, jds, o[..|o| - 1]), o[|o| - 1]);
    }
  }

  // ---------------------------------------------------------------- the exact condition

  /** The triples no step of the plan looks at. */
  ghost function Unchecked(env: Env, o: seq<nat>): set<Pattern>
    requires o != []
  {
    AllPassedOver(env, [], o)
  }

  ghost predicate GreedyMeans(env: Env, o: seq<nat>, satellites: seq<nat>, steps: seq<CacheStep>)
    requires o != [] && StepsOf(Elements(env.ts), steps)
  {
    forall g, ids :: AllIds(g, ids) ==>
      var plan := GreedyPlan(env, ids, o, satellites).plan;
      Wf(WithIds(plan, ids)) && MeansOn(g, ids, env.ts, AllVars(env.ts), steps, plan)
  }

  lemma UncheckedRow(env: Env, ids: seq<Id>, vars: seq<nat>, steps: seq<CacheStep>, plan: Plan, done: set<Pattern>,
                     e: Pattern, n: nat)
    requires StepsOf(Elements(env.ts), steps) && e.p.Variable? && forall s :: s in steps ==> s.v != e.p.v
    requires Whole(env, ids, vars, plan, done) && ListsVars(env.ts, vars) && done <= Elements(env.ts) && e !in done
    requires ids == SortedSeq(CacheCoverage.Ends(OtherGraph(n, Elements(env.ts), e))) &&
             PlanCols(plan) <= PlanCols(Saturate(plan))
    ensures var g := OtherGraph(n, Elements(env.ts), e);
            var t := Eval(g, AddSteps(g, Elements(env.ts), map[], steps), plan);
            RowOf(t.cols, OwnMapping(n, PlanCols(plan))) in t.rows
  {
    var q, full := Elements(env.ts), Saturate(plan);
    var g := OtherGraph(n, q, e);
    SaturateIds(plan, ids);
    ScannedEnds(env.ts, vars, ScanVars(full));
    OtherForms(n, env, full, done, e);
    OtherLists(n, q, e, steps, full, ids);
    AddStepsSound(g, q, map[], steps);
    KeptRow(g, AddSteps(g, q, map[], steps), plan, OwnMapping(n, PlanCols(full)), OwnMapping(n, PlanCols(plan)));
  }

  lemma UncheckedWrong(env: Env, ids: seq<Id>, vars: seq<nat>, steps: seq<CacheStep>, plan: Plan, done: set<Pattern>,
                       e: Pattern, n: nat)
    requires StepsOf(Elements(env.ts), steps) && e in env.ts && e.p.Variable? &&
             (forall s :: s in steps ==> s.v != e.p.v)
    requires Whole(env, ids, vars, plan, done) && ListsVars(env.ts, vars) && done <= Elements(env.ts) && e !in done
    requires ids == SortedSeq(CacheCoverage.Ends(OtherGraph(n, Elements(env.ts), e))) &&
             PlanCols(plan) <= PlanCols(Saturate(plan))
    requires (forall x :: x in env.ts ==> Below(x, n) && Proper(x)) && PatternVars(e) <= PlanCols(plan)
    ensures !MeansOn(OtherGraph(n, Elements(env.ts), e), ids, env.ts, AllVars(env.ts), steps, plan)
  {
    var g, mu := OtherGraph(n, Elements(env.ts), e), OwnMapping(n, PlanCols(plan));
    UncheckedRow(env, ids, vars, steps, plan, done, e, n);
    forall nu | Agrees(mu, nu)
      ensures !Solution(g, env.ts, AllVars(env.ts), nu)
    {
      OtherNoSolution(n, env.ts, e, AllVars(env.ts), PlanCols(plan), nu);
    }
    WrongRow(g, ids, env.ts, AllVars(env.ts), steps, plan, mu);
  }

  lemma OtherNoSolution(n: nat, ts: seq<Pattern>, e: Pattern, vars: set<nat>, cols: set<nat>, nu: Binding)
    requires (forall x :: x in ts ==> Below(x, n) && Proper(x)) && e in ts && e.p.Variable?
    requires PatternVars(e) <= cols && Agrees(OwnMapping(n, cols), nu)
    ensures !Solution(OtherGraph(n, Elements(ts), e), ts, vars, nu)
  {
    forall v | v in PatternVars(e)
      ensures v in nu && nu[v] == n + 1 + v
    {
      assert v in OwnMapping(n, cols);
    }
    OtherLacks(n, ts, e, nu);
    assert e in Elements(ts);
  }

  /** The variables of a triple passed over are columns. */
  lemma PassedCols(env: Env, ids: seq<Id>, b: Build, nodes: set<nat>, passed: set<Pattern>, e: Pattern)
    requires AllBuilt(env, ids, b, nodes, passed) && e in passed && e.p.Variable? && !Light(env, e.p.v)
    ensures PatternVars(e) <= PlanCols(b.plan)
  {
    assert Dealt(env, b, e) && e in InsideSet(env, nodes);
  }

  lemma {:induction false} PassedHeavy(env: Env, ids: seq<Id>, o: seq<nat>, e: Pattern)
    requires o != [] && e in AllPassedOver(env, ids, o)
    ensures e in env.ts && e.p.Variable? && !Light(env, e.p.v)
    decreases |o|
  {
    var v := o[|o| - 1];
    var b := if |o| == 1 then Build(Unit, {}, {}) else Greedy(env, ids, o[..|o| - 1]);
    if |o| > 1 && e in AllPassedOver(env, ids, o[..|o| - 1]) {
      PassedHeavy(env, ids, o[..|o| - 1], e);
    } else {
      OpenMember(env.ts, env, v, b, false, e);
    }
  }

  lemma StepsNotPredicate(env: Env, vars: seq<nat>, steps: seq<CacheStep>, e: Pattern)
    requires Separate(env.ts) && ListsVars(env.ts, vars) && e in env.ts && e.p.Variable? &&
             forall s :: s in steps ==> s.v in vars
    ensures forall s :: s in steps ==> s.v != e.p.v
  {
  }

  lemma PassedLost(env: Env, vars: seq<nat>, o: seq<nat>, satellites: seq<nat>, steps: seq<CacheStep>, e: Pattern)
    requires EnvOk(env) && Arranged(env.ts, vars, o, satellites) && StepsFor(env.ts, vars, steps) && o != [] &&
             e in Unchecked(env, o)
    ensures !GreedyMeans(env, o, satellites, steps)
  {
    var n := AllBelow(Elements(env.ts));
    var g := OtherGraph(n, Elements(env.ts), e);
    var ids := SortedSeq(CacheCoverage.Ends(g));
    EndsIds(g);
    GreedyShape(env, ids, [], o);
    PassedHeavy(env, ids, o, e);
    GreedyPlanBuilt(env, ids, vars, o, satellites);
    var b, passed := GreedyPlan(env, ids, o, satellites), AllPassedOver(env, ids, o);
    BuiltWhole(env, ids, vars, b, Elements(o), passed);
    PassedCols(env, ids, b, Elements(o), passed, e);
    StepsNotPredicate(env, vars, steps, e);
    assert forall x :: x in env.ts ==> x in Elements(env.ts) && Below(x, n);
    UncheckedWrong(env, ids, vars, steps, b.plan, InsideSet(env, Elements(vars)) - passed, e, n);
  }

  lemma NothingPassed(env: Env, vars: seq<nat>, o: seq<nat>, satellites: seq<nat>, steps: seq<CacheStep>, g: Graph,
                      ids: seq<Id>)
    requires EnvOk(env) && Arranged(env.ts, vars, o, satellites) && StepsFor(env.ts, vars, steps) && o != [] &&
             Unchecked(env, o) == {}
    requires AllIds(g, ids)
    ensures var plan := GreedyPlan(env, ids, o, satellites).plan;
            Wf(WithIds(plan, ids)) && MeansOn(g, ids, env.ts, AllVars(env.ts), steps, plan)
  {
    GreedyShape(env, ids, [], o);
    GreedyPlanBuilt(env, ids, vars, o, satellites);
    var b := GreedyPlan(env, ids, o, satellites);
    BuiltWhole(env, ids, vars, b, Elements(o), {});
    assert InsideSet(env, Elements(vars)) - {} == InsideSet(env, Elements(vars));
    WholeMeans(g, env, ids, vars, steps, b.plan);
  }

  /** The greedy plan of a connected query without self edges, whose predicates are constants or
      variables, means the query on every graph exactly when no triple is passed over. */
  lemma PredicatesExact(env: Env, vars: seq<nat>, o: seq<nat>, satellites: seq<nat>, steps: seq<CacheStep>)
    requires EnvOk(env) && Arranged(env.ts, vars, o, satellites) && StepsFor(env.ts, vars, steps)
    ensures o != [] && (GreedyMeans(env, o, satellites, steps) <==> Unchecked(env, o) == {})
  {
    if e :| e in Unchecked(env, o) {
      PassedLost(env, vars, o, satellites, steps, e);
    } else {
      assert Unchecked(env, o) == {};
      forall g, ids | AllIds(g, ids)
        ensures var plan := GreedyPlan(env, ids, o, satellites).plan;
                Wf(WithIds(plan, ids)) && MeansOn(g, ids, env.ts, AllVars(env.ts), steps, plan)
      {
        NothingPassed(env, vars, o, satellites, steps, g, ids);
      }
    }
  }

  // ---------------------------------------------------------------- one query and one graph

  const THERE := Pattern(Variable(0), Variable(2), Variable(1))
  const BACK := Pattern(Variable(1), Variable(2), Variable(0))

  lemma NoneOpen(env: Env, light: bool)
    requires env.ts == [THERE, BACK]
    ensures OpenTriples(env.ts, env, 0, Build(Unit, {}, {}), light) == []
  {
    var open := OpenTriples(env.ts, env, 0, Build(Unit, {}, {}), light);
    if open != [] {
      OpenMember(env.ts, env, 0, Build(Unit, {}, {}), light, open[0]);
    }
  }

  lemma ThereFirst(env: Env)
    requires env.ts == [THERE, BACK]
    ensures First(env, [], 0) == Build(Scan(0, []), {0}, {}) && Occurs(env.ts, 2) == 2
  {
    NoneOpen(env, true);
    NoneOpen(env, false);
    assert env.ts[1..] == [BACK] && env.ts[1..][1..] == [] && Occurs(env.ts[1..], 2) == 1;
  }

  lemma ThereTriples(env: Env, b: Build)
    requires env.ts == [THERE, BACK] && b.placed == {0} && b.joined == {} && !Light(env, 2)
    ensures ReadyTriples(env.ts, 1, b) == [] && OpenTriples(env.ts, env, 1, b, true) == []
    ensures OpenTriples(env.ts, env, 1, b, false) == [THERE, BACK]
  {
    var ts := env.ts;
    assert ts[1..] == [BACK] && ts[1..][1..] == [] && ts[0] == THERE && ts[1..][0] == BACK;
    assert ReadyTriples(ts[1..], 1, b) == [];
    assert OpenTriples(ts[1..], env, 1, b, true) == [];
    assert OpenTriples(ts[1..], env, 1, b, false) == [BACK];
  }

  /** Node 1 comes with the predicate variable of the first triple, and the second is passed over. */
  lemma BackPassedOver(env: Env)
    requires env.ts == [THERE, BACK]
    ensures Greedy(env, [], [0, 1]).plan == Apply(Scan(0, []), ExtendTwo(2, 1, THERE, S2PO)) &&
            Unchecked(env, [0, 1]) == {BACK}
  {
    var b := Build(Scan(0, []), {0}, {});
    ThereFirst(env);
    ThereTriples(env, b);
    assert [0, 1][..1] == [0] && [THERE, BACK][1..] == [BACK] && [BACK][1..] == [];
    assert Greedy(env, [], [0]) == b && AllPassedOver(env, [], [0]) == {} by {
      NoKept(env);
    }
    var c := PlaceBoth(b, THERE, 1);
    assert JoinPredicates(env, c, [BACK]) == c;
  }

  lemma NoKept(env: Env)
    requires env.ts == [THERE, BACK]
    ensures FirstPassedOver(env, 0) == {}
  {
    var start := Build(Unit, {}, {});
    forall t | t in FirstPassedOver(env, 0)
      ensures t in FacingSet(env, {}, 0)
    {
      OpenMember(env.ts, env, 0, start, false, t);
    }
    assert FacingSet(env, {}, 0) == {};
  }

  lemma TherePlan(plan: Plan)
    requires plan == Apply(Scan(0, [1, 2]), ExtendTwo(2, 1, THERE, S2PO))
    ensures Wf(plan) && NoSatellite(plan) && PlanCols(plan) == {0, 1, 2} && PlanPatterns(plan) == {THERE}
  {
    assert PairSlots(S2PO) == (S, P, O) && Elements([2, 1]) == {2, 1};
  }

  lemma ThereHolds(g: Graph, mu: Binding)
    requires g == {Triple(1, 5, 2), Triple(2, 6, 1)} && mu == map[0 := 1, 1 := 2, 2 := 5]
    ensures Holds(g, THERE, mu) && !Holds(g, BACK, mu) && AllIds(g, [1, 2])
  {
    assert Triple(1, 5, 2) in g && Matches(THERE, mu, Triple(1, 5, 2));
    assert [1, 2][0] == 1 && [1, 2][1] == 2;
  }

  lemma ThereLists(plan: Plan, mu: Binding)
    requires plan == Apply(Scan(0, [1, 2]), ExtendTwo(2, 1, THERE, S2PO)) && mu == map[0 := 1, 1 := 2, 2 := 5]
    ensures ListsHold(map[], plan, mu)
  {
    assert [1, 2][0] == 1 && mu[0] in [1, 2];
    assert ListsHold(map[], Scan(0, [1, 2]), mu);
    assert CachesHold(map[], NewCols(ExtendTwo(2, 1, THERE, S2PO)), mu);
  }

  /** ?0 ?2 ?1 . ?1 ?2 ?0 over the graph of 1 5 2 and 2 6 1: the row 1, 5, 2 is returned, and 2 5 1 is no
      triple. */
  lemma BackNotChecked(env: Env, g: Graph, mu: Binding, plan: Plan)
    requires env.ts == [THERE, BACK] && g == {Triple(1, 5, 2), Triple(2, 6, 1)} && mu == map[0 := 1, 1 := 2, 2 := 5]
    requires plan == WithIds(Greedy(env, [], [0, 1]).plan, [1, 2])
    ensures AllIds(g, [1, 2]) && Wf(plan) && PlanCols(plan) == {0, 1, 2} &&
            RowOf(Eval(g, map[], plan).cols, mu) in Eval(g, map[], plan).rows
    ensures !Holds(g, BACK, mu)
  {
    BackPassedOver(env);
    TherePlan(plan);
    ThereHolds(g, mu);
    ThereLists(plan, mu);
    EvalRows(g, map[], plan, mu);
  }
}

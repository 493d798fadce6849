/** What it is for a plan to mean its query: on every graph, over the caches the candidate steps
    compute there, its rows are the parts of the query's solutions on the columns kept. */
module PlanMeanings {
  import opened Collections
  import opened Rdf
  import opened Tables
  import opened Plans
  import opened Solutions
  import opened Satellites
  import opened CandidateCaches
  import opened CacheCoverage

  ghost predicate Solution(g: Graph, ts: seq<Pattern>, vars: set<nat>, mu: Binding) {
    mu.Keys == vars && AllHold(g, Elements(ts), mu)
  }

  /** The rows of the plan are the parts of the query's solutions on the columns kept. */
  ghost predicate MeansOn(g: Graph, ids: seq<Id>, ts: seq<Pattern>, vars: set<nat>, steps: seq<CacheStep>, plan: Plan)
    requires StepsOf(Elements(ts), steps) && Wf(WithIds(plan, ids))
  {
    var t := Eval(g, AddSteps(g, Elements(ts), map[], steps), WithIds(plan, ids));
    forall mu: Binding :: mu.Keys == Elements(t.cols) ==>
      (RowOf(t.cols, mu) in t.rows <==> exists nu :: Solution(g, ts, vars, nu) && Agrees(mu, nu))
  }

  /** On every graph, over the caches the candidate steps compute there. */
  ghost predicate MeansQuery(ts: seq<Pattern>, vars: set<nat>, steps: seq<CacheStep>, plan: Plan)
    requires StepsOf(Elements(ts), steps)
  {
    forall g, ids :: AllIds(g, ids) ==> Wf(WithIds(plan, ids)) && MeansOn(g, ids, ts, vars, steps, plan)
  }

  lemma ShadowMapping(t: Table, full: Table, whole: Binding, mu: Binding)
    requires Shadows(t, full) && mu.Keys == Elements(t.cols) && whole.Keys == Elements(full.cols) && Agrees(mu, whole)
    requires RowOf(full.cols, whole) in full.rows
    ensures RowOf(t.cols, mu) in t.rows
  {
    assert Elements(t.cols) <= Elements(full.cols);
    PartUnder(t.cols, mu, full.cols, whole);
    ShadowRow(t, full, RowOf(t.cols, mu), RowOf(full.cols, whole));
  }

  /** A mapping that is an answer of the plan that keeps every satellite is a row of the plan, as far
      as its columns go. */
  lemma KeptRow(g: Graph, caches: Caches, plan: Plan, whole: Binding, mu: Binding)
    requires Wf(plan) && Wf(Saturate(plan)) && NoSatellite(Saturate(plan)) && CachesOrdered(caches)
    requires Answer(g, caches, Saturate(plan), whole) && mu.Keys == PlanCols(plan) && Agrees(mu, whole)
    ensures RowOf(Eval(g, caches, plan).cols, mu) in Eval(g, caches, plan).rows
  {
    EvalRows(g, caches, Saturate(plan), whole);
    SatelliteSet(g, caches, plan);
    ShadowMapping(Eval(g, caches, plan), Eval(g, caches, Saturate(plan)), whole, mu);
  }

  /** A row of the plan is the part of an answer of the plan that keeps every satellite. */
  lemma RowOfAnswer(g: Graph, caches: Caches, plan: Plan, mu: Binding) returns (whole: Binding)
    requires Wf(plan) && Wf(Saturate(plan)) && NoSatellite(Saturate(plan)) && CachesOrdered(caches)
    requires mu.Keys == PlanCols(plan) && RowOf(Eval(g, caches, plan).cols, mu) in Eval(g, caches, plan).rows
    ensures Answer(g, caches, Saturate(plan), whole) && Agrees(mu, whole)
  {
    SatelliteSet(g, caches, plan);
    whole := ShadowedMapping(Eval(g, caches, plan), Eval(g, caches, Saturate(plan)), mu);
    EvalRows(g, caches, Saturate(plan), whole);
  }

  lemma ShadowedMapping(t: Table, full: Table, mu: Binding) returns (whole: Binding)
    requires Shadows(t, full) && mu.Keys == Elements(t.cols) && RowOf(t.cols, mu) in t.rows
    ensures whole.Keys == Elements(full.cols) && RowOf(full.cols, whole) in full.rows && Agrees(mu, whole)
  {
    BindRoundTrip(t.cols, mu);
    var f :| f in full.rows && Under(t.cols, RowOf(t.cols, mu), full.cols, f);
    whole := Bind(full.cols, f);
    RowRoundTrip(full.cols, f);
  }

  /** A row no solution agrees with. */
  lemma WrongRow(g: Graph, ids: seq<Id>, ts: seq<Pattern>, vars: set<nat>, steps: seq<CacheStep>, plan: Plan,
                 mu: Binding)
    requires StepsOf(Elements(ts), steps) && Wf(WithIds(plan, ids)) && mu.Keys == PlanCols(WithIds(plan, ids))
    requires var t := Eval(g, AddSteps(g, Elements(ts), map[], steps), WithIds(plan, ids)); RowOf(t.cols, mu) in t.rows
    requires forall nu :: Agrees(mu, nu) ==> !Solution(g, ts, vars, nu)
    ensures !MeansOn(g, ids, ts, vars, steps, plan)
  {
  }
}

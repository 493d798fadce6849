/** Satellites placed behind a greedy plan with predicate variables. */
module PredicateSatellites {
  import opened Collections
  import opened Rdf
  import opened Tables
  import opened Plans
  import opened Satellites
  import opened CandidateCaches
  import opened JoinGraphs
  import opened QueryPlans
  import opened QueryGraphs
  import opened PredicatePlans
  import opened PredicateSteps
  import opened PredicateBuilds

  /** Columns are the join nodes, the selected satellites and the predicate variables placed. */
  ghost predicate WithSatellites(env: Env, ids: seq<Id>, b: Build, done: set<Pattern>, nodes: set<nat>) {
    Built(env, ids, b, done) && nodes <= b.placed && PlanCols(b.plan) == nodes + (b.placed * env.selected) + b.joined &&
    PlacedEnds(env, b.placed) && !b.plan.Unit?
  }

  lemma NoSatelliteYet(env: Env, ids: seq<Id>, b: Build, done: set<Pattern>)
    requires AtNodes(env, ids, b, done) && !b.plan.Unit?
    ensures WithSatellites(env, ids, b, done, b.placed)
  {
    assert b.placed + (b.placed * env.selected) == b.placed;
  }

  /** The one triple of a satellite leads to a join node. */
  ghost predicate HangsBy(env: Env, nodes: set<nat>, v: nat, t: Pattern) {
    t in env.ts && v !in nodes &&
    ((t.s == Variable(v) && t.o.Variable? && t.o.v in nodes) || (t.o == Variable(v) && t.s.Variable? && t.s.v in nodes))
  }

  lemma EdgeIntoMore(e: Edge, v: nat, cols: set<nat>, more: set<nat>)
    requires EdgeInto(e, v, cols) && cols <= more
    ensures EdgeInto(e, v, more)
  {
  }

  lemma HungCols(nodes: set<nat>, placed: set<nat>, selected: set<nat>, joined: set<nat>, v: nat, added: set<nat>)
    requires added == if v in selected then {v} else {}
    ensures nodes + (placed * selected) + joined + added == nodes + ((placed + {v}) * selected) + joined
  {
  }

  lemma HangDealt(env: Env, nodes: set<nat>, b: Build, v: nat, t: Pattern, next: Build)
    requires HangsBy(env, nodes, v, t) && nodes <= b.placed && next.placed == b.placed + {v}
    requires t.p.Variable? && !Light(env, t.p.v) ==> t.p.v in next.joined
    ensures AllDealt(env, next, {t})
  {
    assert Dealt(env, next, t);
  }

  lemma SatelliteNew(env: Env, ids: seq<Id>, b: Build, done: set<Pattern>, nodes: set<nat>, v: nat, t: Pattern)
    requires EnvOk(env) && WithSatellites(env, ids, b, done, nodes) && HangsBy(env, nodes, v, t) && v !in b.placed
    ensures NotIn({v}, done) && v !in PlanCols(b.plan) && v !in PlanCols(Saturate(b.plan))
  {
    assert Touches(t, v);
    NodeNew(env, b, done, t, v);
    ColumnNew(env, ids, b, done, v);
  }

  lemma HangStep(env: Env, ids: seq<Id>, b: Build, done: set<Pattern>, nodes: set<nat>, v: nat, t: Pattern, e: Edge)
    requires EnvOk(env) && WithSatellites(env, ids, b, done, nodes) && HangsBy(env, nodes, v, t) && v !in b.placed
    requires EdgeInto(e, v, nodes + b.joined) && (t.p.Variable? && !Light(env, t.p.v) ==> t.p.v in b.joined)
    requires Forms(env, {Seen(e.pat, e.how)}, {t}, PlanCols(Saturate(b.plan)) + {v})
    ensures WithSatellites(env, ids, Hang(env, b, v, e), done + {t}, nodes)
  {
    var next := Hang(env, b, v, e);
    var st := if v in env.selected then ExtendOne(v, [e], env.distinct) else Satellite(v, [e], env.distinct);
    SatelliteNew(env, ids, b, done, nodes, v, t);
    EdgeIntoMore(e, v, nodes + b.joined, PlanCols(b.plan));
    EdgeIntoMore(e, v, nodes + b.joined, PlanCols(Saturate(b.plan)));
    assert Elements([v]) == {v} && Elements(NewCols(Satellite(v, [e], true))) == {} &&
           SeenEdges([e]) == {Seen(e.pat, e.how)};
    HangDealt(env, nodes, b, v, t, next);
    BuiltNext(env, ids, b, done, st, next, {t});
    HungCols(nodes, b.placed, env.selected, b.joined, v, Elements(NewCols(st)));
    NodeEndsMore(env, b.placed, t, v);
  }

  lemma ReadyHang(env: Env, ids: seq<Id>, b: Build, done: set<Pattern>, nodes: set<nat>, v: nat, t: Pattern)
    requires EnvOk(env) && WithSatellites(env, ids, b, done, nodes) && HangsBy(env, nodes, v, t) && v !in b.placed
    requires PredicateReady(t, b.joined)
    ensures WithSatellites(env, ids, Hang(env, b, v, EdgeAt(t, v)), done + {t}, nodes)
  {
    WholeForms(env, {t}, PlanCols(Saturate(b.plan)) + {v});
    assert Seen(EdgeAt(t, v).pat, EdgeAt(t, v).how) == t;
    EdgeAtInto(t, v, nodes, b.joined, nodes + b.joined);
    HangStep(env, ids, b, done, nodes, v, t, EdgeAt(t, v));
  }

  lemma LightPredicateNew(env: Env, ids: seq<Id>, b: Build, done: set<Pattern>, nodes: set<nat>, v: nat, t: Pattern)
    requires EnvOk(env) && WithSatellites(env, ids, b, done, nodes) && HangsBy(env, nodes, v, t) && v !in b.placed
    requires t.p.Variable? && t.p.v !in b.joined
    ensures NotIn({t.p.v}, done) && t.p.v != v && t.p.v !in PlanCols(b.plan) && t.p.v !in PlanCols(Saturate(b.plan))
  {
    assert Touches(t, v) && t !in done by {
      assert t in done ==> Dealt(env, b, t);
    }
    PredicateNew(env, b, done, t);
    PredicateNotPlaced(env, b.placed, t);
    ColumnNew(env, ids, b, done, t.p.v);
  }

  lemma LightHang(env: Env, ids: seq<Id>, b: Build, done: set<Pattern>, nodes: set<nat>, v: nat, t: Pattern)
    requires EnvOk(env) && WithSatellites(env, ids, b, done, nodes) && HangsBy(env, nodes, v, t) && v !in b.placed
    requires t.p.Variable? && t.p.v !in b.joined && Light(env, t.p.v)
    ensures WithSatellites(env, ids, Hang(env, b, v, OpenEdge(t, v)), done + {t}, nodes)
  {
    LightPredicateNew(env, ids, b, done, nodes, v, t);
    assert Seen(OpenEdge(t, v).pat, OpenEdge(t, v).how) == NoPredicate(t) && Elements([t]) == {t};
    OpenForms(env, {NoPredicate(t)}, [t], PlanCols(Saturate(b.plan)) + {v});
    OpenInto(t, v, nodes, nodes + b.joined);
    HangStep(env, ids, b, done, nodes, v, t, OpenEdge(t, v));
  }

  lemma BothHang(env: Env, ids: seq<Id>, b: Build, done: set<Pattern>, nodes: set<nat>, v: nat, t: Pattern)
    requires EnvOk(env) && WithSatellites(env, ids, b, done, nodes) && HangsBy(env, nodes, v, t) && v !in b.placed
    requires t.p.Variable? && t.p.v !in b.joined && v in env.selected
    ensures WithSatellites(env, ids, PlaceBoth(b, t, v), done + {t}, nodes)
  {
    var p, next := t.p.v, PlaceBoth(b, t, v);
    var st := ExtendTwo(p, v, t, PairVia(t, v));
    SatelliteNew(env, ids, b, done, nodes, v, t);
    LightPredicateNew(env, ids, b, done, nodes, v, t);
    PairStepOk(t, v, nodes, PlanCols(b.plan));
    PairStepOk(t, v, nodes, PlanCols(Saturate(b.plan)));
    HangDealt(env, nodes, b, v, t, next);
    assert Elements([p, v]) == {p, v};
    WholeForms(env, {t}, PlanCols(Saturate(b.plan)) + {p, v});
    BothCols(t, v, next.placed);
    BuiltNext(env, ids, b, done, st, next, {t});
    BothHungCols(nodes, b.placed, env.selected, b.joined, v, p);
    NodeEndsMore(env, b.placed, t, v);
  }

  lemma BothHungCols(nodes: set<nat>, placed: set<nat>, selected: set<nat>, joined: set<nat>, v: nat, p: nat)
    requires v in selected
    ensures nodes + (placed * selected) + joined + {p, v} == nodes + ((placed + {v}) * selected) + (joined + {p})
  {
  }

  /** The edge from the join node that lists the predicate without looking at the satellite. */
  function FarEdge(t: Pattern, v: nat): Edge {
    Edge(t, if t.s == Variable(v) then O2P else S2P)
  }

  function NoEnd(t: Pattern, v: nat): Pattern {
    if t.s == Variable(v) then t.(s := Any) else t.(o := Any)
  }

  lemma FarForms(env: Env, t: Pattern, v: nat, cols: set<nat>)
    requires Touches(t, v) && Light(env, v) && v !in cols
    ensures Forms(env, {NoEnd(t, v)}, {t}, cols)
  {
    assert Form(env, NoEnd(t, v), t) && t in {t} && NoEnd(t, v) in {NoEnd(t, v)};
    assert PatternVars(t) * cols <= PatternVars(NoEnd(t, v));
  }

  lemma FarHang(env: Env, ids: seq<Id>, b: Build, done: set<Pattern>, nodes: set<nat>, v: nat, t: Pattern)
    requires EnvOk(env) && WithSatellites(env, ids, b, done, nodes) && HangsBy(env, nodes, v, t) && v !in b.placed
    requires t.p.Variable? && t.p.v !in b.joined && Light(env, v)
    ensures var p := t.p.v;
            var next := Build(Apply(b.plan, ExtendOne(p, [FarEdge(t, v)], env.distinct)), b.placed + {v},
                              b.joined + {p});
            WithSatellites(env, ids, next, done + {t}, nodes)
  {
    var p := t.p.v;
    var st := ExtendOne(p, [FarEdge(t, v)], env.distinct);
    var next := Build(Apply(b.plan, st), b.placed + {v}, b.joined + {p});
    SatelliteNew(env, ids, b, done, nodes, v, t);
    LightPredicateNew(env, ids, b, done, nodes, v, t);
    assert EdgeInto(FarEdge(t, v), p, nodes);
    EdgeIntoMore(FarEdge(t, v), p, nodes, PlanCols(b.plan));
    EdgeIntoMore(FarEdge(t, v), p, nodes, PlanCols(Saturate(b.plan)));
    assert Elements([p]) == {p} && Seen(t, FarEdge(t, v).how) == NoEnd(t, v) &&
           SeenEdges([FarEdge(t, v)]) == {NoEnd(t, v)};
    FarForms(env, t, v, PlanCols(Saturate(b.plan)) + {p});
    HangDealt(env, nodes, b, v, t, next);
    PredicateCols(t, next.placed, {t});
    BuiltNext(env, ids, b, done, st, next, {t});
    FarCols(nodes, b.placed, env.selected, b.joined, v, p);
    NodeEndsMore(env, b.placed, t, v);
  }

  lemma FarCols(nodes: set<nat>, placed: set<nat>, selected: set<nat>, joined: set<nat>, v: nat, p: nat)
    requires v !in selected
    ensures nodes + (placed * selected) + joined + {p} == nodes + ((placed + {v}) * selected) + (joined + {p})
  {
  }

  // ---------------------------------------------------------------- all satellites

  lemma {:induction false} OnlyTripleIn(ts: seq<Pattern>, v: nat, t: Pattern)
    requires t in ts && Touches(t, v)
    ensures OnlyTriple(ts, v) != [] && OnlyTriple(ts, v)[0] in ts && Touches(OnlyTriple(ts, v)[0], v)
  {
    if !Touches(ts[0], v) {
      assert ts == [ts[0]] + ts[1..];
      OnlyTripleIn(ts[1..], v, t);
    }
  }

  /** A satellite with its one triple. */
  ghost predicate HangsAt(env: Env, nodes: set<nat>, v: nat) {
    IsSatellite(env.ts, v) && OnlyTriple(env.ts, v) != [] && HangsBy(env, nodes, v, OnlyTriple(env.ts, v)[0]) &&
    forall u :: u in env.ts && Touches(u, v) ==> u == OnlyTriple(env.ts, v)[0]
  }

  lemma SatelliteTriple(env: Env, vars: seq<nat>, v: nat)
    requires Query(env.ts, vars) && v in vars && IsSatellite(env.ts, v)
    ensures HangsAt(env, Elements(JoinNodes(env.ts, vars)), v)
  {
    var w := HangsOn(env.ts, vars, v);
    NodesExact(env.ts, vars);
    assert w in Elements(JoinNodes(env.ts, vars)) && v !in Elements(JoinNodes(env.ts, vars));
    var u :| u in env.ts && Links(u, v, w);
    OnlyTripleIn(env.ts, v, u);
    var t := OnlyTriple(env.ts, v)[0];
    forall u | u in env.ts && Touches(u, v)
      ensures u == t
    {
      OneTriple(env.ts, v, Pos(env.ts, u), Pos(env.ts, t));
    }
  }

  lemma SatelliteLight(env: Env, v: nat, t: Pattern)
    requires EnvOk(env) && t in env.ts && Touches(t, v) && IsSatellite(env.ts, v) && v !in env.selected
    ensures Light(env, v)
  {
    forall u | u in env.ts
      ensures u.p != Variable(v)
    {
      assert u.p.Variable? ==> !Touches(t, u.p.v);
    }
    OccursDegree(env.ts, v);
  }

  lemma AddOne(env: Env, ids: seq<Id>, b: Build, done: set<Pattern>, nodes: set<nat>, v: nat, t: Pattern)
    requires EnvOk(env) && WithSatellites(env, ids, b, done, nodes) && HangsBy(env, nodes, v, t) && v !in b.placed
    requires OnlyTriple(env.ts, v) != [] && t == OnlyTriple(env.ts, v)[0] && IsSatellite(env.ts, v)
    ensures WithSatellites(env, ids, AddSatellite(env, b, v), done + {t}, nodes)
    ensures AddSatellite(env, b, v).placed == b.placed + {v} && b.joined <= AddSatellite(env, b, v).joined
  {
    assert Proper(t) && Touches(t, v);
    if PredicateReady(t, b.joined) {
      ReadyHang(env, ids, b, done, nodes, v, t);
    } else if Light(env, PredicateOf(t)) {
      LightHang(env, ids, b, done, nodes, v, t);
    } else if v in env.selected {
      BothHang(env, ids, b, done, nodes, v, t);
    } else {
      SatelliteLight(env, v, t);
      FarHang(env, ids, b, done, nodes, v, t);
    }
  }

  ghost predicate AllBuilt(env: Env, ids: seq<Id>, b: Build, nodes: set<nat>, passed: set<Pattern>) {
    WithSatellites(env, ids, b, InsideSet(env, b.placed) - passed, nodes) && passed <= InsideSet(env, nodes) &&
    AllDealt(env, b, passed)
  }

  lemma InsideMore(env: Env, placed: set<nat>, more: set<nat>)
    requires placed <= more
    ensures InsideSet(env, placed) <= InsideSet(env, more)
  {
  }

  lemma OnlyFacing(env: Env, placed: set<nat>, nodes: set<nat>, v: nat, t: Pattern)
    requires HangsBy(env, nodes, v, t) && nodes <= placed && forall u :: u in env.ts && Touches(u, v) ==> u == t
    ensures FacingSet(env, placed, v) == {t}
  {
    forall u | u in FacingSet(env, placed, v)
      ensures u == t
    {
      assert Touches(u, v);
    }
    assert t in FacingSet(env, placed, v);
  }

  lemma AddOneBuilt(env: Env, ids: seq<Id>, b: Build, nodes: set<nat>, passed: set<Pattern>, v: nat)
    requires EnvOk(env) && AllBuilt(env, ids, b, nodes, passed) && HangsAt(env, nodes, v) && v !in b.placed
    ensures AllBuilt(env, ids, AddSatellite(env, b, v), nodes, passed) &&
            AddSatellite(env, b, v).placed == b.placed + {v}
  {
    var t, done, next := OnlyTriple(env.ts, v)[0], InsideSet(env, b.placed) - passed, AddSatellite(env, b, v);
    AddOne(env, ids, b, done, nodes, v, t);
    InsideNext(env, b.placed, v);
    OnlyFacing(env, b.placed, nodes, v, t);
    InsideMore(env, nodes, b.placed);
    assert done + {t} == InsideSet(env, next.placed) - passed;
    DealtMore(env, b, passed, next, {});
    assert passed + {} == passed;
  }

  /** All satellites in any order. */
  lemma {:induction false} AddAllBuilt(env: Env, ids: seq<Id>, b: Build, nodes: set<nat>, passed: set<Pattern>,
                                       satellites: seq<nat>)
    requires EnvOk(env) && AllBuilt(env, ids, b, nodes, passed) && NoDup(satellites)
    requires forall v :: v in satellites ==> HangsAt(env, nodes, v) && v !in b.placed
    ensures var next := AddSatellites(env, b, satellites);
            AllBuilt(env, ids, next, nodes, passed) && next.placed == b.placed + Elements(satellites)
    decreases |satellites|
  {
    if satellites == [] {
      assert b.placed + Elements(satellites) == b.placed;
    } else {
      var v, rest := satellites[0], satellites[1..];
      assert satellites == [v] + rest && v !in rest;
      AddOneBuilt(env, ids, b, nodes, passed, v);
      AddAllBuilt(env, ids, AddSatellite(env, b, v), nodes, passed, rest);
      assert b.placed + {v} + Elements(rest) == b.placed + Elements(satellites);
    }
  }

  // ---------------------------------------------------------------- the whole plan

  /** The greedy plan of a query: the join nodes in their order, then the satellites in theirs. */
  function GreedyPlan(env: Env, ids: seq<Id>, o: seq<nat>, satellites: seq<nat>): Build
    requires o != []
  {
    AddSatellites(env, Greedy(env, ids, o), satellites)
  }

  /** Join nodes in an order with connected prefixes, and the satellites in any order. */
  ghost predicate Arranged(ts: seq<Pattern>, vars: seq<nat>, o: seq<nat>, satellites: seq<nat>) {
    Query(ts, vars) && Order(GraphOf(ts, JoinNodes(ts, vars)), o) && Elements(o) == Elements(JoinNodes(ts, vars)) &&
    NoDup(satellites) && Elements(satellites) == Elements(SatelliteNodes(ts, vars))
  }

  lemma VarsTouched(env: Env, vars: seq<nat>)
    requires Query(env.ts, vars)
    ensures PlacedEnds(env, Elements(JoinNodes(env.ts, vars)))
  {
    NodesExact(env.ts, vars);
    forall v | v in Elements(JoinNodes(env.ts, vars))
      ensures exists t :: t in env.ts && Touches(t, v)
    {
      assert v in vars;
    }
  }

  lemma SatellitesHang(env: Env, vars: seq<nat>, satellites: seq<nat>)
    requires Query(env.ts, vars) && Elements(satellites) == Elements(SatelliteNodes(env.ts, vars))
    ensures forall v :: v in satellites ==> HangsAt(env, Elements(JoinNodes(env.ts, vars)), v)
    ensures Elements(JoinNodes(env.ts, vars)) + Elements(satellites) == Elements(vars)
  {
    NodesExact(env.ts, vars);
    forall v | v in satellites
      ensures HangsAt(env, Elements(JoinNodes(env.ts, vars)), v)
    {
      assert v in Elements(SatelliteNodes(env.ts, vars));
      SatelliteTriple(env, vars, v);
    }
  }

  /** The whole plan deals with every triple between its variables, except those passed over. */
  lemma GreedyPlanBuilt(env: Env, ids: seq<Id>, vars: seq<nat>, o: seq<nat>, satellites: seq<nat>)
    requires EnvOk(env) && Increasing(ids) && Arranged(env.ts, vars, o, satellites)
    ensures o != [] && var b := GreedyPlan(env, ids, o, satellites);
            AllBuilt(env, ids, b, Elements(o), AllPassedOver(env, ids, o)) && b.placed == Elements(vars)
  {
    var b, passed := Greedy(env, ids, o), AllPassedOver(env, ids, o);
    VarsTouched(env, vars);
    GreedyBuilt(env, ids, JoinNodes(env.ts, vars), o);
    NoSatelliteYet(env, ids, b, InsideSet(env, Elements(o)) - passed);
    SatellitesHang(env, vars, satellites);
    AddAllBuilt(env, ids, b, Elements(o), passed, satellites);
  }
}

/** The columns of a greedy plan with predicate variables: the selected variables and all that occur at
    more than one place. */
module PredicateColumns {
  import opened Collections
  import opened Rdf
  import opened Tables
  import opened Plans
  import opened QueryGraphs
  import opened PredicatePlans
  import opened PredicateSteps
  import opened PredicateBuilds
  import opened PredicateSatellites
  import opened PredicateQueries

  // ---------------------------------------------------------------- variables with one place

  ghost predicate At(ts: seq<Pattern>, i: nat, k: Slot, v: nat)
    requires i < |ts|
  {
    Part(ts[i], k) == Variable(v)
  }

  /** The variable is at this place of this triple and nowhere else. */
  ghost predicate OnlyPlace(ts: seq<Pattern>, v: nat, i: nat, k: Slot)
    requires i < |ts|
  {
    At(ts, i, k, v) && forall j, l :: 0 <= j < |ts| && At(ts, j, l, v) ==> j == i && l == k
  }

  ghost predicate OnePlace(ts: seq<Pattern>, v: nat) {
    exists i, k :: 0 <= i < |ts| && OnlyPlace(ts, v, i, k)
  }

  lemma {:induction false} Nowhere(ts: seq<Pattern>, v: nat)
    requires forall j :: 0 <= j < |ts| ==> v !in PatternVars(ts[j])
    ensures Occurs(ts, v) == 0
  {
    if ts != [] {
      assert v !in PatternVars(ts[0]);
      assert forall j :: 0 <= j < |ts[1..]| ==> ts[1..][j] == ts[j + 1];
      Nowhere(ts[1..], v);
    }
  }

  /** How often the variable is in one triple. */
  function PlacesIn(t: Pattern, v: nat): nat {
    AtItem(t.s, v) + AtItem(t.p, v) + AtItem(t.o, v)
  }

  lemma {:induction false} OccursIn(ts: seq<Pattern>, v: nat, i: nat)
    requires i < |ts| && forall j :: 0 <= j < |ts| && j != i ==> v !in PatternVars(ts[j])
    ensures Occurs(ts, v) == PlacesIn(ts[i], v)
  {
    assert forall j :: 0 <= j < |ts[1..]| ==> ts[1..][j] == ts[j + 1];
    if i == 0 {
      Nowhere(ts[1..], v);
    } else {
      assert v !in PatternVars(ts[0]);
      OccursIn(ts[1..], v, i - 1);
    }
  }

  lemma SlotOf(t: Pattern, v: nat) returns (k: Slot)
    requires v in PatternVars(t)
    ensures Part(t, k) == Variable(v)
  {
    k := if t.s == Variable(v) then S else if t.p == Variable(v) then P else O;
  }

  lemma OneSlot(t: Pattern, v: nat, k: Slot)
    requires Part(t, k) == Variable(v)
    ensures PlacesIn(t, v) == 1 <==> forall l :: Part(t, l) == Variable(v) ==> l == k
  {
    assert Part(t, S) == t.s && Part(t, P) == t.p && Part(t, O) == t.o;
  }

  lemma OnlyPlaceOccurs(ts: seq<Pattern>, v: nat, i: nat, k: Slot)
    requires i < |ts| && OnlyPlace(ts, v, i, k)
    ensures Occurs(ts, v) == 1
  {
    forall j | 0 <= j < |ts| && j != i
      ensures v !in PatternVars(ts[j])
    {
      if v in PatternVars(ts[j]) {
        var l := SlotOf(ts[j], v);
        assert At(ts, j, l, v);
      }
    }
    forall l | Part(ts[i], l) == Variable(v)
      ensures l == k
    {
      assert At(ts, i, l, v);
    }
    OneSlot(ts[i], v, k);
    OccursIn(ts, v, i);
  }

  /** Counting occurrences tells whether there is one place. */
  lemma OccursExact(ts: seq<Pattern>, v: nat)
    ensures Occurs(ts, v) == 1 <==> OnePlace(ts, v)
  {
    if i, k :| 0 <= i < |ts| && OnlyPlace(ts, v, i, k) {
      OnlyPlaceOccurs(ts, v, i, k);
    }
    if Occurs(ts, v) == 1 {
      if forall j :: 0 <= j < |ts| ==> v !in PatternVars(ts[j]) {
        Nowhere(ts, v);
        assert false;
      }
      var i :| 0 <= i < |ts| && v in PatternVars(ts[i]);
      OccursPlace(ts, v, i);
    }
  }

  lemma OccursPlace(ts: seq<Pattern>, v: nat, i: nat)
    requires Occurs(ts, v) == 1 && i < |ts| && v in PatternVars(ts[i])
    ensures OnePlace(ts, v)
  {
    var k := SlotOf(ts[i], v);
    forall j | 0 <= j < |ts| && j != i
      ensures v !in PatternVars(ts[j])
    {
      if v in PatternVars(ts[j]) {
        if i < j { OccursTwice(ts, v, i, j); } else { OccursTwice(ts, v, j, i); }
      }
    }
    OccursIn(ts, v, i);
    OneSlot(ts[i], v, k);
    forall j, l | 0 <= j < |ts| && At(ts, j, l, v)
      ensures j == i && l == k
    {
      assert v in PatternVars(ts[j]);
    }
    assert OnlyPlace(ts, v, i, k);
  }

  // ---------------------------------------------------------------- predicate variables placed

  /** Every predicate variable placed is to be kept. */
  ghost predicate KeptJoined(env: Env, b: Build) {
    forall p :: p in b.joined ==> !Light(env, p)
  }

  ghost predicate KeptTriples(env: Env, ts: seq<Pattern>) {
    forall t :: t in ts ==> t.p.Variable? && !Light(env, t.p.v)
  }

  lemma OpenKept(env: Env, v: nat, b: Build)
    ensures KeptTriples(env, OpenTriples(env.ts, env, v, b, false))
  {
    forall t | t in OpenTriples(env.ts, env, v, b, false)
      ensures t.p.Variable? && !Light(env, t.p.v)
    {
      OpenMember(env.ts, env, v, b, false, t);
    }
  }

  lemma {:induction false} JoinKept(env: Env, b: Build, rest: seq<Pattern>)
    requires KeptJoined(env, b) && KeptTriples(env, rest)
    ensures KeptJoined(env, JoinPredicates(env, b, rest))
    decreases |rest|
  {
    if rest != [] {
      var p := PredicateOf(rest[0]);
      assert rest[0] in rest;
      if p in b.joined {
        JoinKept(env, b, rest[1..]);
      } else {
        var st := ExtendOne(p, PreEdges(SamePredicate(rest, rest[0].p)), env.distinct);
        JoinKept(env, Build(Apply(b.plan, st), b.placed, b.joined + {p}), rest[1..]);
      }
    }
  }

  lemma {:induction false} CountKept(env: Env, b: Build, rest: seq<Pattern>)
    ensures CountPredicates(env, b, rest).joined == b.joined
    decreases |rest|
  {
    if rest != [] {
      var st := Satellite(PredicateOf(rest[0]), PreEdges([rest[0]]), env.distinct);
      CountKept(env, b.(plan := Apply(b.plan, st)), rest[1..]);
    }
  }

  lemma FirstKept(env: Env, ids: seq<Id>, v: nat)
    ensures KeptJoined(env, First(env, ids, v))
  {
    var b := Build(Unit, {}, {});
    var light, kept := OpenTriples(env.ts, env, v, b, true), OpenTriples(env.ts, env, v, b, false);
    OpenKept(env, v, b);
    if light != [] {
      JoinKept(env, Place(env, b, ExtendOne(v, OpenEdges(light, v), env.distinct), v), kept);
    } else if kept != [] {
      assert kept[0] in kept;
      JoinKept(env, PlaceBoth(b, kept[0], v), kept[1..]);
    }
  }

  lemma NextKept(env: Env, b: Build, v: nat)
    requires KeptJoined(env, b)
    ensures KeptJoined(env, Next(env, b, v))
  {
    var ready := ReadyTriples(env.ts, v, b);
    var light, kept := OpenTriples(env.ts, env, v, b, true), OpenTriples(env.ts, env, v, b, false);
    OpenKept(env, v, b);
    if ready != [] {
      var mid := Place(env, b, ExtendOne(v, EdgesAt(ready, v), env.distinct), v);
      JoinKept(env, mid, kept);
      CountKept(env, JoinPredicates(env, mid, kept), light);
    } else if kept != [] {
      assert kept[0] in kept;
      JoinKept(env, PlaceBoth(b, kept[0], v), kept[1..]);
      CountKept(env, JoinPredicates(env, PlaceBoth(b, kept[0], v), kept[1..]), light);
    } else if light != [] {
      CountKept(env, Place(env, b, ExtendOne(v, [OpenEdge(light[0], v)], env.distinct), v), light[1..]);
    }
  }

  lemma {:induction false} GreedyKept(env: Env, ids: seq<Id>, o: seq<nat>)
    requires o != []
    ensures KeptJoined(env, Greedy(env, ids, o))
    decreases |o|
  {
    if |o| == 1 {
      FirstKept(env, ids, o[0]);
    } else {
      GreedyKept(env, ids, o[..|o| - 1]);
      NextKept(env, Greedy(env, ids, o[..|o| - 1]), o[|o| - 1]);
    }
  }

  lemma {:induction false} SatellitesKept(env: Env, b: Build, satellites: seq<nat>)
    requires EnvOk(env) && KeptJoined(env, b)
    ensures KeptJoined(env, AddSatellites(env, b, satellites))
    decreases |satellites|
  {
    if satellites != [] {
      assert KeptJoined(env, AddSatellite(env, b, satellites[0]));
      SatellitesKept(env, AddSatellite(env, b, satellites[0]), satellites[1..]);
    }
  }

  // ---------------------------------------------------------------- the columns

  /** A join node occurs more than once. */
  lemma NodeHeavy(env: Env, vars: seq<nat>, v: nat)
    requires EnvOk(env) && ListsVars(env.ts, vars) && v in JoinNodes(env.ts, vars)
    ensures !Light(env, v) && v in AllVars(env.ts)
  {
    NodesExact(env.ts, vars);
    var t :| t in env.ts && Touches(t, v);
    assert v in PatternVars(t);
    forall u | u in env.ts
      ensures u.p != Variable(v)
    {
      assert u.p.Variable? ==> !Touches(t, u.p.v);
    }
    OccursDegree(env.ts, v);
  }

  lemma EndKept(env: Env, vars: seq<nat>, nodes: set<nat>, t: Pattern, v: nat)
    requires EnvOk(env) && ListsVars(env.ts, vars) && nodes == Elements(JoinNodes(env.ts, vars))
    requires t in env.ts && Touches(t, v) && !Light(env, v)
    ensures v in nodes + (Elements(vars) * env.selected)
  {
    NodesExact(env.ts, vars);
    assert v in vars;
    if v !in nodes && v !in env.selected {
      SatelliteLight(env, v, t);
    }
  }

  lemma PredicateKept(env: Env, vars: seq<nat>, b: Build, passed: set<Pattern>, t: Pattern)
    requires EnvOk(env) && ListsVars(env.ts, vars) && b.placed == Elements(vars)
    requires AllDealt(env, b, InsideSet(env, b.placed) - passed) && AllDealt(env, b, passed)
    requires t in env.ts && t.p.Variable? && !Light(env, t.p.v)
    ensures t.p.v in b.joined
  {
    var u := InsideOrConstant(env, vars, t);
    assert t in passed ==> Dealt(env, b, t);
    assert t in InsideSet(env, b.placed) - passed ==> Dealt(env, b, t);
  }

  lemma HeavyKept(env: Env, vars: seq<nat>, b: Build, nodes: set<nat>, passed: set<Pattern>, v: nat)
    requires EnvOk(env) && ListsVars(env.ts, vars) && b.placed == Elements(vars)
    requires AllDealt(env, b, InsideSet(env, b.placed) - passed) && AllDealt(env, b, passed)
    requires PlanCols(b.plan) == nodes + (b.placed * env.selected) + b.joined
    requires nodes == Elements(JoinNodes(env.ts, vars)) && v in AllVars(env.ts) && !Light(env, v)
    ensures v in PlanCols(b.plan)
  {
    var t :| t in env.ts && v in PatternVars(t);
    if t.p == Variable(v) {
      PredicateKept(env, vars, b, passed, t);
    } else {
      EndKept(env, vars, nodes, t, v);
    }
  }

  lemma LightDropped(env: Env, ids: seq<Id>, vars: seq<nat>, b: Build, nodes: set<nat>, passed: set<Pattern>, v: nat)
    requires EnvOk(env) && ListsVars(env.ts, vars) && AllBuilt(env, ids, b, nodes, passed) && b.placed == Elements(vars)
    requires nodes == Elements(JoinNodes(env.ts, vars)) && KeptJoined(env, b) && v in PlanCols(b.plan)
    ensures v in AllVars(env.ts) && !Light(env, v)
  {
    BuiltWhole(env, ids, vars, b, nodes, passed);
    if v in nodes {
      NodeHeavy(env, vars, v);
    }
  }

  /** A variable is a column of the plan exactly when it is selected or occurs at two places. */
  lemma GreedyColumns(env: Env, ids: seq<Id>, vars: seq<nat>, o: seq<nat>, satellites: seq<nat>, v: nat)
    requires EnvOk(env) && Increasing(ids) && Arranged(env.ts, vars, o, satellites)
    ensures o != []
    ensures v in PlanCols(GreedyPlan(env, ids, o, satellites).plan) <==>
            v in AllVars(env.ts) && (v in env.selected || !OnePlace(env.ts, v))
  {
    GreedyPlanBuilt(env, ids, vars, o, satellites);
    GreedyKept(env, ids, o);
    SatellitesKept(env, Greedy(env, ids, o), satellites);
    OccursExact(env.ts, v);
    var b, passed := GreedyPlan(env, ids, o, satellites), AllPassedOver(env, ids, o);
    if v in PlanCols(b.plan) {
      LightDropped(env, ids, vars, b, Elements(o), passed, v);
    }
    if v in AllVars(env.ts) && !Light(env, v) {
      HeavyKept(env, vars, b, Elements(o), passed, v);
    }
  }
}

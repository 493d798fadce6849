/** Greedy plans of queries with predicate variables: which steps place a node, which place a predicate
    variable, and which triple no step enforces. */
module PredicatePlans {
  import opened Collections
  import opened Rdf
  import opened Tables
  import opened Plans
  import opened Solutions
  import opened Satellites
  import opened CandidateCaches
  import opened CacheCoverage
  import opened QueryPlans
  import opened QueryGraphs

  /** What a plan is made from: the triples, the selected variables, and whether rows count once. */
  datatype Env = Env(ts: seq<Pattern>, selected: set<nat>, distinct: bool)

  /** A plan with its subject and object variables and its predicate variables. */
  datatype Build = Build(plan: Plan, placed: set<nat>, joined: set<nat>)

  // ---------------------------------------------------------------- variables that occur once

  function AtItem(x: Item, v: nat): nat {
    if x == Variable(v) then 1 else 0
  }

  function Occurs(ts: seq<Pattern>, v: nat): nat {
    if ts == [] then 0 else AtItem(ts[0].s, v) + AtItem(ts[0].p, v) + AtItem(ts[0].o, v) + Occurs(ts[1..], v)
  }

  /** A variable nobody asks for and no other place refers to. */
  predicate Light(env: Env, v: nat) {
    v !in env.selected && Occurs(env.ts, v) == 1
  }

  lemma {:induction false} OccursAt(ts: seq<Pattern>, v: nat, i: nat)
    requires i < |ts| && v in PatternVars(ts[i])
    ensures Occurs(ts, v) >= 1
  {
    if i > 0 {
      OccursAt(ts[1..], v, i - 1);
    }
  }

  lemma {:induction false} OccursTwice(ts: seq<Pattern>, v: nat, i: nat, j: nat)
    requires i < j < |ts| && v in PatternVars(ts[i]) && v in PatternVars(ts[j])
    ensures Occurs(ts, v) >= 2
  {
    if i > 0 {
      OccursTwice(ts[1..], v, i - 1, j - 1);
    } else {
      OccursAt(ts[1..], v, j - 1);
    }
  }

  /** It is in one triple only. */
  lemma LightOnce(env: Env, v: nat, t: Pattern, u: Pattern)
    requires Light(env, v) && t in env.ts && u in env.ts && v in PatternVars(t) && v in PatternVars(u)
    ensures t == u
  {
    var i, j := Pos(env.ts, t), Pos(env.ts, u);
    if i < j {
      OccursTwice(env.ts, v, i, j);
    } else if j < i {
      OccursTwice(env.ts, v, j, i);
    }
  }

  /** No variable is a predicate in one triple and a subject or object in another. */
  ghost predicate Separate(ts: seq<Pattern>) {
    forall t, u :: t in ts && u in ts && t.p.Variable? ==> !Touches(u, t.p.v)
  }

  lemma {:induction false} OccursDegree(ts: seq<Pattern>, v: nat)
    requires forall t :: t in ts ==> t.p != Variable(v)
    ensures Occurs(ts, v) == Degree(ts, v)
  {
    if ts != [] {
      OccursDegree(ts[1..], v);
    }
  }

  // ---------------------------------------------------------------- the triples of a new node

  /** The triple leads from v to what is placed, or to a constant through a predicate variable. */
  predicate Facing(t: Pattern, v: nat, placed: set<nat>) {
    (t.s == Variable(v) && ((t.o.Variable? && t.o.v in placed) || (t.o.Constant? && t.p.Variable?))) ||
    (t.o == Variable(v) && ((t.s.Variable? && t.s.v in placed) || (t.s.Constant? && t.p.Variable?)))
  }

  predicate PredicateReady(t: Pattern, joined: set<nat>) {
    t.p.Constant? || (t.p.Variable? && t.p.v in joined)
  }

  function ReadyTriples(ts: seq<Pattern>, v: nat, b: Build): seq<Pattern> {
    if ts == [] then []
    else
      (if Facing(ts[0], v, b.placed) && PredicateReady(ts[0], b.joined) then [ts[0]]
       else []) + ReadyTriples(ts[1..], v, b)
  }

  /** Those through a predicate variable not placed yet: one that is light, or one to be kept. */
  function OpenTriples(ts: seq<Pattern>, env: Env, v: nat, b: Build, light: bool): seq<Pattern> {
    if ts == [] then []
    else
      (if Facing(ts[0], v, b.placed) && ts[0].p.Variable? && ts[0].p.v !in b.joined && Light(env, ts[0].p.v) == light
       then [ts[0]] else []) +
      OpenTriples(ts[1..], env, v, b, light)
  }

  lemma {:induction false} ReadyMember(ts: seq<Pattern>, v: nat, b: Build, t: Pattern)
    ensures t in ReadyTriples(ts, v, b) <==> t in ts && Facing(t, v, b.placed) && PredicateReady(t, b.joined)
  {
    if ts != [] {
      ReadyMember(ts[1..], v, b, t);
      assert ts == [ts[0]] + ts[1..];
    }
  }

  lemma {:induction false} OpenMember(ts: seq<Pattern>, env: Env, v: nat, b: Build, light: bool, t: Pattern)
    ensures t in OpenTriples(ts, env, v, b, light) <==>
            t in ts && Facing(t, v, b.placed) && t.p.Variable? && t.p.v !in b.joined && Light(env, t.p.v) == light
  {
    if ts != [] {
      OpenMember(ts[1..], env, v, b, light, t);
      assert ts == [ts[0]] + ts[1..];
    }
  }

  // ---------------------------------------------------------------- the steps

  function EdgesAt(ts: seq<Pattern>, v: nat): (r: seq<Edge>)
    ensures |r| == |ts|
  {
    seq(|ts|, i requires 0 <= i < |ts| => EdgeAt(ts[i], v))
  }

  /** The edge that lists v without looking at the predicate. */
  function OpenEdge(t: Pattern, v: nat): Edge {
    Edge(t, if t.s == Variable(v) then O2S else S2O)
  }

  function OpenEdges(ts: seq<Pattern>, v: nat): (r: seq<Edge>)
    ensures |r| == |ts|
  {
    seq(|ts|, i requires 0 <= i < |ts| => OpenEdge(ts[i], v))
  }

  function PreEdges(ts: seq<Pattern>): (r: seq<Edge>)
    ensures |r| == |ts|
  {
    seq(|ts|, i requires 0 <= i < |ts| => Edge(ts[i], SO2P))
  }

  function PairVia(t: Pattern, v: nat): PairMethod {
    if t.s == Variable(v) then O2PS else S2PO
  }

  function SamePredicate(ts: seq<Pattern>, p: Item): seq<Pattern> {
    if ts == [] then [] else (if ts[0].p == p then [ts[0]] else []) + SamePredicate(ts[1..], p)
  }

  lemma {:induction false} SameMember(ts: seq<Pattern>, p: Item, t: Pattern)
    ensures t in SamePredicate(ts, p) <==> t in ts && t.p == p
  {
    if ts != [] {
      SameMember(ts[1..], p, t);
      assert ts == [ts[0]] + ts[1..];
    }
  }

  function PredicateOf(t: Pattern): nat {
    if t.p.Variable? then t.p.v else 0
  }

  /** The loop over predicate variables to be kept: each not placed yet is placed through all its
      remaining triples, each placed already is passed over. */
  function JoinPredicates(env: Env, b: Build, rest: seq<Pattern>): Build
    decreases |rest|
  {
    if rest == [] then b
    else if PredicateOf(rest[0]) in b.joined then JoinPredicates(env, b, rest[1..])
    else
      var p := PredicateOf(rest[0]);
      var st := ExtendOne(p, PreEdges(SamePredicate(rest, rest[0].p)), env.distinct);
      JoinPredicates(env, Build(Apply(b.plan, st), b.placed, b.joined + {p}), rest[1..])
  }

  /** Light predicate variables are only counted. */
  function CountPredicates(env: Env, b: Build, rest: seq<Pattern>): Build
    decreases |rest|
  {
    if rest == [] then b
    else
      var st := Satellite(PredicateOf(rest[0]), PreEdges([rest[0]]), env.distinct);
      CountPredicates(env, b.(plan := Apply(b.plan, st)), rest[1..])
  }

  function Place(env: Env, b: Build, st: Step, v: nat): Build {
    Build(Apply(b.plan, st), b.placed + {v}, b.joined)
  }

  /** A node placed together with the predicate variable of one of its triples. */
  function PlaceBoth(b: Build, t: Pattern, v: nat): Build {
    Build(Apply(b.plan, ExtendTwo(PredicateOf(t), v, t, PairVia(t, v))), b.placed + {v}, b.joined + {PredicateOf(t)})
  }

  /** PlanTree(unsigned, BGPQuery*): the first node. */
  function First(env: Env, ids: seq<Id>, v: nat): Build {
    var b := Build(Unit, {}, {});
    var light, kept := OpenTriples(env.ts, env, v, b, true), OpenTriples(env.ts, env, v, b, false);
    if light != [] then JoinPredicates(env, Place(env, b, ExtendOne(v, OpenEdges(light, v), env.distinct), v), kept)
    else if kept != [] then JoinPredicates(env, PlaceBoth(b, kept[0], v), kept[1..])
    else Build(Scan(v, ids), {v}, {})
  }

  /** PlanTree(PlanTree, BGPQuery*, unsigned): one more node. */
  function Next(env: Env, b: Build, v: nat): Build {
    var ready := ReadyTriples(env.ts, v, b);
    var light, kept := OpenTriples(env.ts, env, v, b, true), OpenTriples(env.ts, env, v, b, false);
    if ready != [] then
      CountPredicates(env, JoinPredicates(env, Place(env, b, ExtendOne(v, EdgesAt(ready, v), env.distinct), v), kept),
                      light)
    else if kept != [] then
      CountPredicates(env, JoinPredicates(env, PlaceBoth(b, kept[0], v), kept[1..]), light)
    else if light != [] then
      CountPredicates(env, Place(env, b, ExtendOne(v, [OpenEdge(light[0], v)], env.distinct), v), light[1..])
    else b
  }

  /** HeuristicPlan: the nodes in their order. */
  function Greedy(env: Env, ids: seq<Id>, o: seq<nat>): Build
    requires o != []
    decreases |o|
  {
    if |o| == 1 then First(env, ids, o[0]) else Next(env, Greedy(env, ids, o[..|o| - 1]), o[|o| - 1])
  }

  /** The triples passed over when a node comes with the predicate variable of the first of them: the
      variable is placed by then, and no step looks at the others. */
  ghost function PassedOver(kept: seq<Pattern>): set<Pattern> {
    if kept == [] then {} else set t | t in kept[1..] && t.p == kept[0].p && t != kept[0]
  }

  ghost function FirstPassedOver(env: Env, v: nat): set<Pattern> {
    var b := Build(Unit, {}, {});
    if OpenTriples(env.ts, env, v, b, true) != [] then {} else PassedOver(OpenTriples(env.ts, env, v, b, false))
  }

  ghost function NextPassedOver(env: Env, b: Build, v: nat): set<Pattern> {
    if ReadyTriples(env.ts, v, b) != [] then {} else PassedOver(OpenTriples(env.ts, env, v, b, false))
  }

  ghost function AllPassedOver(env: Env, ids: seq<Id>, o: seq<nat>): set<Pattern>
    requires o != []
    decreases |o|
  {
    if |o| == 1 then FirstPassedOver(env, o[0])
    else
      AllPassedOver(env, ids, o[..|o| - 1]) + NextPassedOver(env, Greedy(env, ids, o[..|o| - 1]), o[|o| - 1])
  }

  /** The triple of a satellite. */
  function OnlyTriple(ts: seq<Pattern>, v: nat): seq<Pattern> {
    if ts == [] then [] else if Touches(ts[0], v) then [ts[0]] else OnlyTriple(ts[1..], v)
  }

  function Hang(env: Env, b: Build, v: nat, e: Edge): Build {
    Place(env, b, if v in env.selected then ExtendOne(v, [e], env.distinct) else Satellite(v, [e], env.distinct), v)
  }

  /** PlanTree::AddSatelliteNode. An unselected satellite behind a predicate variable to be kept is
      never placed; only the predicate variable is. */
  function AddSatellite(env: Env, b: Build, v: nat): Build {
    var at := OnlyTriple(env.ts, v);
    if at == [] then b
    else
      var t := at[0];
      if PredicateReady(t, b.joined) then Hang(env, b, v, EdgeAt(t, v))
      else if Light(env, PredicateOf(t)) then Hang(env, b, v, OpenEdge(t, v))
      else if v in env.selected then PlaceBoth(b, t, v)
      else
        var st := ExtendOne(PredicateOf(t), [Edge(t, if t.s == Variable(v) then O2P else S2P)], env.distinct);
        Build(Apply(b.plan, st), b.placed + {v}, b.joined + {PredicateOf(t)})
  }

  function AddSatellites(env: Env, b: Build, satellites: seq<nat>): Build
    decreases |satellites|
  {
    if satellites == [] then b else AddSatellites(env, AddSatellite(env, b, satellites[0]), satellites[1..])
  }
}

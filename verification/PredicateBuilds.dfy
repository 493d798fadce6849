/** Greedy plans with predicate variables deal with every triple between their nodes except those
    passed over. */
module PredicateBuilds {
  import opened Collections
  import opened Rdf
  import opened Tables
  import opened Plans
  import opened Satellites
  import opened CandidateCaches
  import opened JoinGraphs
  import opened QueryPlans
  import opened QueryGraphs
  import opened PredicatePlans
  import opened PredicateSteps

  /** A plan of join nodes: the columns are its nodes and its predicate variables. */
  ghost predicate AtNodes(env: Env, ids: seq<Id>, b: Build, done: set<Pattern>) {
    Built(env, ids, b, done) && PlanCols(b.plan) == b.placed + b.joined && PlacedEnds(env, b.placed) &&
    (b.plan.Unit? ==> b.placed == {})
  }

  lemma EmptyBuilt(env: Env, ids: seq<Id>)
    ensures AtNodes(env, ids, Build(Unit, {}, {}), {})
  {
  }

  lemma ColumnNew(env: Env, ids: seq<Id>, b: Build, done: set<Pattern>, v: nat)
    requires Built(env, ids, b, done) && v !in b.placed && !InSome(v, done)
    ensures v !in PlanCols(Saturate(b.plan)) && v !in PlanCols(b.plan) && v !in b.joined
  {
  }

  // ---------------------------------------------------------------- placing a node

  lemma EdgeAtInto(t: Pattern, v: nat, placed: set<nat>, joined: set<nat>, cols: set<nat>)
    requires Facing(t, v, placed) && PredicateReady(t, joined) && placed + joined <= cols && v !in placed
    ensures EdgeInto(EdgeAt(t, v), v, cols)
  {
  }

  lemma FacingDealt(env: Env, t: Pattern, v: nat, b: Build, next: Build)
    requires t in env.ts && Facing(t, v, b.placed) && next.placed == b.placed + {v}
    requires t.p.Variable? && !Light(env, t.p.v) ==> t.p.v in next.joined
    ensures Dealt(env, next, t)
  {
  }

  lemma NodeEndsMore(env: Env, placed: set<nat>, t: Pattern, v: nat)
    requires PlacedEnds(env, placed) && t in env.ts && Touches(t, v)
    ensures PlacedEnds(env, placed + {v})
  {
  }

  ghost predicate ReadyFor(env: Env, b: Build, v: nat, ready: seq<Pattern>) {
    forall t :: t in ready ==> t in env.ts && Facing(t, v, b.placed) && PredicateReady(t, b.joined)
  }

  lemma ReadyStep(env: Env, ids: seq<Id>, b: Build, done: set<Pattern>, v: nat, ready: seq<Pattern>)
    requires EnvOk(env) && AtNodes(env, ids, b, done) && v !in b.placed && ready != [] && ReadyFor(env, b, v, ready)
    ensures AtNodes(env, ids, Place(env, b, ExtendOne(v, EdgesAt(ready, v), env.distinct), v), done + Elements(ready))
  {
    var st := ExtendOne(v, EdgesAt(ready, v), env.distinct);
    var next := Place(env, b, st, v);
    assert ready[0] in ready && Touches(ready[0], v);
    NodeNew(env, b, done, ready[0], v);
    ColumnNew(env, ids, b, done, v);
    EdgesAtSeen(ready, v);
    forall e | e in EdgesAt(ready, v)
      ensures EdgeInto(e, v, PlanCols(b.plan)) && EdgeInto(e, v, PlanCols(Saturate(b.plan)))
    {
      EdgeAtInto(e.pat, v, b.placed, b.joined, PlanCols(b.plan));
      EdgeAtInto(e.pat, v, b.placed, b.joined, PlanCols(Saturate(b.plan)));
    }
    forall t | t in Elements(ready)
      ensures Dealt(env, next, t)
    {
      FacingDealt(env, t, v, b, next);
    }
    assert Elements([v]) == {v};
    WholeForms(env, Elements(ready), PlanCols(Saturate(b.plan)) + {v});
    BuiltNext(env, ids, b, done, st, next, Elements(ready));
    NodeEndsMore(env, b.placed, ready[0], v);
  }

  /** A triple of v through a predicate variable that is not placed. */
  ghost predicate OpenFor(env: Env, b: Build, v: nat, light: bool, t: Pattern) {
    t in env.ts && Facing(t, v, b.placed) && t.p.Variable? && t.p.v !in b.joined && Light(env, t.p.v) == light
  }

  lemma BothNew(env: Env, ids: seq<Id>, b: Build, done: set<Pattern>, v: nat, t: Pattern)
    requires EnvOk(env) && AtNodes(env, ids, b, done) && v !in b.placed && OpenFor(env, b, v, false, t)
    ensures var p := t.p.v;
            p != v && NotIn({p, v}, done) && p !in PlanCols(Saturate(b.plan)) && v !in PlanCols(Saturate(b.plan)) &&
            p !in PlanCols(b.plan) && v !in PlanCols(b.plan)
  {
    assert Touches(t, v);
    NodeNew(env, b, done, t, v);
    PredicateNew(env, b, done, t);
    PredicateNotPlaced(env, b.placed, t);
    ColumnNew(env, ids, b, done, v);
    ColumnNew(env, ids, b, done, t.p.v);
  }

  lemma PairStepOk(t: Pattern, v: nat, placed: set<nat>, cols: set<nat>)
    requires Facing(t, v, placed) && t.p.Variable? && t.p.v != v && t.p.v !in cols && v !in cols && placed <= cols
    ensures StepOk(ExtendTwo(t.p.v, v, t, PairVia(t, v)), cols)
  {
    assert PairSlots(S2PO) == (S, P, O) && PairSlots(O2PS) == (O, P, S);
  }

  lemma BothStep(env: Env, ids: seq<Id>, b: Build, done: set<Pattern>, v: nat, t: Pattern)
    requires EnvOk(env) && AtNodes(env, ids, b, done) && v !in b.placed && OpenFor(env, b, v, false, t)
    ensures AtNodes(env, ids, PlaceBoth(b, t, v), done + {t})
  {
    var p, next := t.p.v, PlaceBoth(b, t, v);
    var st := ExtendTwo(p, v, t, PairVia(t, v));
    BothNew(env, ids, b, done, v, t);
    PairStepOk(t, v, b.placed, PlanCols(b.plan));
    PairStepOk(t, v, b.placed, PlanCols(Saturate(b.plan)));
    FacingDealt(env, t, v, b, next);
    assert Elements([p, v]) == {p, v};
    WholeForms(env, {t}, PlanCols(Saturate(b.plan)) + {p, v});
    BothCols(t, v, next.placed);
    BuiltNext(env, ids, b, done, st, next, {t});
    assert Touches(t, v);
    NodeEndsMore(env, b.placed, t, v);
  }

  lemma BothCols(t: Pattern, v: nat, placed: set<nat>)
    requires t.p.Variable? && v in placed
    ensures ColsKnown({t.p.v, v}, placed, {t})
  {
    assert t in {t} && t.p.v in PatternVars(t);
  }

  lemma OpenInto(t: Pattern, v: nat, placed: set<nat>, cols: set<nat>)
    requires Facing(t, v, placed) && placed <= cols && v !in placed
    ensures EdgeInto(OpenEdge(t, v), v, cols)
  {
  }

  /** A node placed through triples whose predicate variables are light. */
  lemma OpenStep(env: Env, ids: seq<Id>, b: Build, done: set<Pattern>, v: nat, light: seq<Pattern>)
    requires EnvOk(env) && AtNodes(env, ids, b, done) && v !in b.placed && light != [] &&
             forall t :: t in light ==> OpenFor(env, b, v, true, t)
    requires forall t :: t in light ==> t !in done
    ensures AtNodes(env, ids, Place(env, b, ExtendOne(v, OpenEdges(light, v), env.distinct), v), done + Elements(light))
  {
    var st := ExtendOne(v, OpenEdges(light, v), env.distinct);
    var next := Place(env, b, st, v);
    assert light[0] in light && Touches(light[0], v);
    NodeNew(env, b, done, light[0], v);
    ColumnNew(env, ids, b, done, v);
    OpenEdgesSeen(light, v);
    forall e | e in OpenEdges(light, v)
      ensures EdgeInto(e, v, PlanCols(b.plan)) && EdgeInto(e, v, PlanCols(Saturate(b.plan)))
    {
      OpenInto(e.pat, v, b.placed, PlanCols(b.plan));
      OpenInto(e.pat, v, b.placed, PlanCols(Saturate(b.plan)));
    }
    forall t | t in light
      ensures Dealt(env, next, t) && t.p.v !in PlanCols(Saturate(b.plan)) + {v}
    {
      FacingDealt(env, t, v, b, next);
      LightNew(env, ids, b, done, v, t);
    }
    assert Elements([v]) == {v};
    OpenForms(env, StepPatterns(st), light, PlanCols(Saturate(b.plan)) + {v});
    BuiltNext(env, ids, b, done, st, next, Elements(light));
    NodeEndsMore(env, b.placed, light[0], v);
  }

  lemma LightNew(env: Env, ids: seq<Id>, b: Build, done: set<Pattern>, v: nat, t: Pattern)
    requires EnvOk(env) && AtNodes(env, ids, b, done) && OpenFor(env, b, v, true, t) && t !in done
    ensures t.p.v != v && t.p.v !in PlanCols(Saturate(b.plan))
  {
    assert Touches(t, v);
    PredicateNew(env, b, done, t);
    PredicateNotPlaced(env, b.placed, t);
    ColumnNew(env, ids, b, done, t.p.v);
  }

  // ---------------------------------------------------------------- placing predicate variables

  /** A triple between placed ends through a predicate variable. */
  ghost predicate Between(env: Env, b: Build, light: bool, t: Pattern) {
    t in env.ts && EndPlaced(t.s, b.placed) && EndPlaced(t.o, b.placed) && t.p.Variable? && Light(env, t.p.v) == light
  }

  lemma PreEdgeInto(env: Env, b: Build, t: Pattern, cols: set<nat>)
    requires EndPlaced(t.s, b.placed) && EndPlaced(t.o, b.placed) && t.p.Variable? && b.placed <= cols
    ensures EdgeInto(Edge(t, SO2P), t.p.v, cols)
  {
  }

  lemma PredicateFresh(env: Env, ids: seq<Id>, b: Build, done: set<Pattern>, t: Pattern)
    requires EnvOk(env) && AtNodes(env, ids, b, done) && t in env.ts && t.p.Variable? && t.p.v !in b.joined
    requires !Light(env, t.p.v) || t !in done
    ensures NotIn({t.p.v}, done) && t.p.v !in PlanCols(b.plan) && t.p.v !in PlanCols(Saturate(b.plan))
  {
    PredicateNew(env, b, done, t);
    PredicateNotPlaced(env, b.placed, t);
    ColumnNew(env, ids, b, done, t.p.v);
  }

  lemma PredicateCols(t: Pattern, placed: set<nat>, more: set<Pattern>)
    requires t.p.Variable? && t in more
    ensures ColsKnown({t.p.v}, placed, more)
  {
    assert t.p.v in PatternVars(t);
  }

  lemma JoinStep(env: Env, ids: seq<Id>, b: Build, done: set<Pattern>, same: seq<Pattern>)
    requires EnvOk(env) && AtNodes(env, ids, b, done) && !b.plan.Unit? && same != []
    requires forall t :: t in same ==> Between(env, b, false, t) && t.p == same[0].p
    requires PredicateOf(same[0]) !in b.joined
    ensures var p := PredicateOf(same[0]);
            AtNodes(env, ids,
                    Build(Apply(b.plan, ExtendOne(p, PreEdges(same), env.distinct)), b.placed, b.joined + {p}),
                    done + Elements(same))
  {
    assert same[0] in same;
    var p := same[0].p.v;
    var st := ExtendOne(p, PreEdges(same), env.distinct);
    var next := Build(Apply(b.plan, st), b.placed, b.joined + {p});
    PredicateFresh(env, ids, b, done, same[0]);
    PreEdgesSeen(same);
    forall e | e in PreEdges(same)
      ensures EdgeInto(e, p, PlanCols(b.plan)) && EdgeInto(e, p, PlanCols(Saturate(b.plan)))
    {
      PreEdgeInto(env, b, e.pat, PlanCols(b.plan));
      PreEdgeInto(env, b, e.pat, PlanCols(Saturate(b.plan)));
    }
    forall t | t in Elements(same)
      ensures Dealt(env, next, t)
    {
    }
    assert Elements([p]) == {p};
    WholeForms(env, Elements(same), PlanCols(Saturate(b.plan)) + {p});
    PredicateCols(same[0], next.placed, Elements(same));
    BuiltNext(env, ids, b, done, st, next, Elements(same));
  }

  ghost function NotJoined(rest: seq<Pattern>, joined: set<nat>): set<Pattern> {
    set t | t in rest && PredicateOf(t) !in joined
  }

  lemma NotJoinedNext(rest: seq<Pattern>, joined: set<nat>)
    requires rest != [] && forall t :: t in rest ==> t.p.Variable?
    ensures PredicateOf(rest[0]) in joined ==> NotJoined(rest, joined) == NotJoined(rest[1..], joined)
    ensures PredicateOf(rest[0]) !in joined ==>
              NotJoined(rest, joined) ==
              Elements(SamePredicate(rest, rest[0].p)) + NotJoined(rest[1..], joined + {PredicateOf(rest[0])})
  {
    assert rest == [rest[0]] + rest[1..];
    forall t
      ensures t in SamePredicate(rest, rest[0].p) <==> t in rest && t.p == rest[0].p
    {
      SameMember(rest, rest[0].p, t);
    }
  }

  /** The loop deals with every triple whose predicate variable was not placed when it began. */
  lemma {:induction false} JoinAll(env: Env, ids: seq<Id>, b: Build, done: set<Pattern>, rest: seq<Pattern>)
    requires EnvOk(env) && AtNodes(env, ids, b, done) && !b.plan.Unit? &&
             forall t :: t in rest ==> Between(env, b, false, t)
    ensures var next := JoinPredicates(env, b, rest);
            AtNodes(env, ids, next, done + NotJoined(rest, b.joined)) && next.placed == b.placed &&
            b.joined <= next.joined &&
            !next.plan.Unit?
    ensures forall t :: t in rest ==> PredicateOf(t) in JoinPredicates(env, b, rest).joined
    decreases |rest|
  {
    if rest == [] {
      assert done + NotJoined(rest, b.joined) == done;
    } else {
      NotJoinedNext(rest, b.joined);
      assert rest == [rest[0]] + rest[1..];
      if PredicateOf(rest[0]) in b.joined {
        JoinAll(env, ids, b, done, rest[1..]);
      } else {
        var p, same := PredicateOf(rest[0]), SamePredicate(rest, rest[0].p);
        forall t | t in same
          ensures t in rest && t.p == rest[0].p
        {
          SameMember(rest, rest[0].p, t);
        }
        assert same[0] == rest[0];
        JoinStep(env, ids, b, done, same);
        var mid := Build(Apply(b.plan, ExtendOne(p, PreEdges(same), env.distinct)), b.placed, b.joined + {p});
        forall t | t in rest[1..]
          ensures Between(env, mid, false, t)
        {
          assert Between(env, b, false, t);
        }
        JoinAll(env, ids, mid, done + Elements(same), rest[1..]);
        assert done + Elements(same) + NotJoined(rest[1..], mid.joined) == done + NotJoined(rest, b.joined);
      }
    }
  }

  lemma CountStep(env: Env, ids: seq<Id>, b: Build, done: set<Pattern>, t: Pattern)
    requires EnvOk(env) && AtNodes(env, ids, b, done) && !b.plan.Unit? && Between(env, b, true, t) &&
             t.p.v !in b.joined && t !in done
    ensures AtNodes(env, ids, b.(plan := Apply(b.plan, Satellite(PredicateOf(t), PreEdges([t]), env.distinct))),
                    done + {t})
  {
    var p := t.p.v;
    var st := Satellite(p, PreEdges([t]), env.distinct);
    var next := b.(plan := Apply(b.plan, st));
    PredicateFresh(env, ids, b, done, t);
    PreEdgesSeen([t]);
    assert Elements([t]) == {t} && Elements([p]) == {p};
    PreEdgeInto(env, b, t, PlanCols(b.plan));
    PreEdgeInto(env, b, t, PlanCols(Saturate(b.plan)));
    assert Dealt(env, next, t);
    WholeForms(env, {t}, PlanCols(Saturate(b.plan)) + {p});
    PredicateCols(t, next.placed, {t});
    BuiltNext(env, ids, b, done, st, next, {t});
  }

  ghost predicate Countable(env: Env, b: Build, done: set<Pattern>, t: Pattern) {
    Between(env, b, true, t) && t.p.v !in b.joined && t !in done
  }

  lemma {:induction false} CountAll(env: Env, ids: seq<Id>, b: Build, done: set<Pattern>, rest: seq<Pattern>)
    requires EnvOk(env) && AtNodes(env, ids, b, done) && !b.plan.Unit? && NoDup(rest) &&
             forall t :: t in rest ==> Countable(env, b, done, t)
    ensures var next := CountPredicates(env, b, rest);
            AtNodes(env, ids, next, done + Elements(rest)) && next.placed == b.placed && b.joined == next.joined &&
            !next.plan.Unit?
    decreases |rest|
  {
    if rest == [] {
      assert done + Elements(rest) == done;
    } else {
      var t := rest[0];
      assert rest == [t] + rest[1..] && Countable(env, b, done, t);
      CountStep(env, ids, b, done, t);
      var mid := b.(plan := Apply(b.plan, Satellite(PredicateOf(t), PreEdges([t]), env.distinct)));
      assert t !in rest[1..];
      forall u | u in rest[1..]
        ensures Countable(env, mid, done + {t}, u)
      {
        assert Countable(env, b, done, u);
      }
      CountAll(env, ids, mid, done + {t}, rest[1..]);
      assert done + {t} + Elements(rest[1..]) == done + Elements(rest);
    }
  }

  // ---------------------------------------------------------------- one more node

  ghost function FacingSet(env: Env, placed: set<nat>, v: nat): set<Pattern> {
    set t | t in env.ts && Facing(t, v, placed)
  }

  lemma {:induction false} OpenNoDup(ts: seq<Pattern>, env: Env, v: nat, b: Build)
    requires forall p :: Occurs(ts, p) <= Occurs(env.ts, p)
    ensures NoDup(OpenTriples(ts, env, v, b, true))
  {
    if ts != [] {
      assert forall p :: Occurs(ts[1..], p) <= Occurs(ts, p);
      OpenNoDup(ts[1..], env, v, b);
      var rest := OpenTriples(ts[1..], env, v, b, true);
      OpenMember(ts[1..], env, v, b, true, ts[0]);
      if ts[0] in rest {
        var j := Pos(ts[1..], ts[0]);
        OccursTwice(ts, ts[0].p.v, 0, j + 1);
      }
      NoDupSplit(if OpenTriples([ts[0]], env, v, b, true) == [] then [] else [ts[0]], rest);
    }
  }

  /** The triples of a node: those ready, and those through predicate variables not placed. */
  ghost predicate Sorted(env: Env, b: Build, v: nat, ready: seq<Pattern>, kept: seq<Pattern>, light: seq<Pattern>) {
    (forall t :: t in ready <==> t in env.ts && Facing(t, v, b.placed) && PredicateReady(t, b.joined)) &&
    (forall t :: t in kept <==> OpenFor(env, b, v, false, t)) &&
      (forall t :: t in light <==> OpenFor(env, b, v, true, t)) &&
    NoDup(light)
  }

  lemma SortTriples(env: Env, b: Build, v: nat)
    ensures Sorted(env, b, v, ReadyTriples(env.ts, v, b), OpenTriples(env.ts, env, v, b, false),
                   OpenTriples(env.ts, env, v, b, true))
  {
    forall t
      ensures t in ReadyTriples(env.ts, v, b) <==> t in env.ts && Facing(t, v, b.placed) && PredicateReady(t, b.joined)
      ensures t in OpenTriples(env.ts, env, v, b, false) <==> OpenFor(env, b, v, false, t)
      ensures t in OpenTriples(env.ts, env, v, b, true) <==> OpenFor(env, b, v, true, t)
    {
      ReadyMember(env.ts, v, b, t);
      OpenMember(env.ts, env, v, b, false, t);
      OpenMember(env.ts, env, v, b, true, t);
    }
    OpenNoDup(env.ts, env, v, b);
  }

  lemma FacingSorted(env: Env, b: Build, v: nat, ready: seq<Pattern>, kept: seq<Pattern>, light: seq<Pattern>)
    requires EnvOk(env) && Sorted(env, b, v, ready, kept, light)
    ensures FacingSet(env, b.placed, v) == Elements(ready) + Elements(kept) + Elements(light)
  {
    forall t | t in FacingSet(env, b.placed, v)
      ensures t in Elements(ready) + Elements(kept) + Elements(light)
    {
      assert Proper(t);
      assert PredicateReady(t, b.joined) || OpenFor(env, b, v, false, t) || OpenFor(env, b, v, true, t);
    }
  }

  lemma FacingNotDone(env: Env, b: Build, done: set<Pattern>, t: Pattern, v: nat)
    requires AllDealt(env, b, done) && Facing(t, v, b.placed) && v !in b.placed
    ensures t !in done
  {
    assert t in done ==> Dealt(env, b, t);
  }

  /** What is left to place once the node is there. */
  lemma AfterNode(env: Env, ids: seq<Id>, b: Build, v: nat, mid: Build, done: set<Pattern>, kept: seq<Pattern>,
                  light: seq<Pattern>)
    requires EnvOk(env) && AtNodes(env, ids, mid, done) && mid.placed == b.placed + {v} && !mid.plan.Unit? &&
             NoDup(light)
    requires (forall t :: t in kept ==> OpenFor(env, b, v, false, t)) &&
               (forall t :: t in light ==> OpenFor(env, b, v, true, t) && t !in done)
    requires forall p :: p in mid.joined && p !in b.joined ==> !Light(env, p)
    ensures var next := CountPredicates(env, JoinPredicates(env, mid, kept), light);
            AtNodes(env, ids, next, done + NotJoined(kept, mid.joined) + Elements(light)) &&
            next.placed == mid.placed &&
            mid.joined <= next.joined && !next.plan.Unit? && forall t :: t in kept ==> PredicateOf(t) in next.joined
  {
    forall t | t in kept
      ensures Between(env, mid, false, t)
    {
      assert OpenFor(env, b, v, false, t);
    }
    JoinAll(env, ids, mid, done, kept);
    var b2 := JoinPredicates(env, mid, kept);
    var done2 := done + NotJoined(kept, mid.joined);
    forall t | t in light
      ensures Countable(env, b2, done2, t)
    {
      assert OpenFor(env, b, v, true, t);
      JoinedKept(env, ids, mid, done, kept, t.p.v);
    }
    CountAll(env, ids, b2, done2, light);
  }

  /** Only predicate variables to be kept are placed by the loop. */
  lemma {:induction false} JoinedKept(env: Env, ids: seq<Id>, b: Build, done: set<Pattern>, rest: seq<Pattern>, p: nat)
    requires forall t :: t in rest ==> t.p.Variable? && !Light(env, t.p.v)
    ensures p in JoinPredicates(env, b, rest).joined ==> p in b.joined || !Light(env, p)
    decreases |rest|
  {
    if rest != [] {
      assert rest == [rest[0]] + rest[1..];
      if PredicateOf(rest[0]) in b.joined {
        JoinedKept(env, ids, b, done, rest[1..], p);
      } else {
        var q := PredicateOf(rest[0]);
        var st := ExtendOne(q, PreEdges(SamePredicate(rest, rest[0].p)), env.distinct);
        JoinedKept(env, ids, Build(Apply(b.plan, st), b.placed, b.joined + {q}), done, rest[1..], p);
      }
    }
  }

  /** A node placed: the triples dealt with, and the predicate variables of those passed over. */
  ghost predicate NodePlaced(env: Env, ids: seq<Id>, b: Build, done: set<Pattern>, v: nat, next: Build,
                             passed: set<Pattern>) {
    AtNodes(env, ids, next, done + (FacingSet(env, b.placed, v) - passed)) && next.placed == b.placed + {v} &&
    b.joined <= next.joined && !next.plan.Unit? && AllDealt(env, next, passed)
  }

  lemma NextReady(env: Env, ids: seq<Id>, b: Build, done: set<Pattern>, v: nat, ready: seq<Pattern>, kept: seq<Pattern>,
                  light: seq<Pattern>)
    requires EnvOk(env) && AtNodes(env, ids, b, done) && v !in b.placed && Sorted(env, b, v, ready, kept, light) &&
             ready != []
    ensures var mid := Place(env, b, ExtendOne(v, EdgesAt(ready, v), env.distinct), v);
            NodePlaced(env, ids, b, done, v, CountPredicates(env, JoinPredicates(env, mid, kept), light), {})
  {
    var mid := Place(env, b, ExtendOne(v, EdgesAt(ready, v), env.distinct), v);
    ReadyStep(env, ids, b, done, v, ready);
    forall t | t in light
      ensures t !in done + Elements(ready)
    {
      FacingNotDone(env, b, done, t, v);
    }
    AfterNode(env, ids, b, v, mid, done + Elements(ready), kept, light);
    FacingSorted(env, b, v, ready, kept, light);
    assert NotJoined(kept, mid.joined) == Elements(kept) by {
      forall t | t in kept
        ensures PredicateOf(t) !in mid.joined
      {
        assert OpenFor(env, b, v, false, t);
      }
    }
    assert done + Elements(ready) + Elements(kept) + Elements(light) == done + (FacingSet(env, b.placed, v) - {});
  }

  lemma KeptRest(env: Env, b: Build, v: nat, kept: seq<Pattern>, joined: set<nat>)
    requires kept != [] && (forall t :: t in kept ==> OpenFor(env, b, v, false, t)) &&
               joined == b.joined + {PredicateOf(kept[0])}
    ensures {kept[0]} + NotJoined(kept[1..], joined) == Elements(kept) - PassedOver(kept)
  {
    assert kept == [kept[0]] + kept[1..] && OpenFor(env, b, v, false, kept[0]);
    forall t | t in kept
      ensures t == kept[0] || t in NotJoined(kept[1..], joined) || t in PassedOver(kept)
      ensures t in NotJoined(kept[1..], joined) ==> t !in PassedOver(kept)
    {
      assert OpenFor(env, b, v, false, t);
    }
  }

  lemma PassedDealt(env: Env, b: Build, v: nat, kept: seq<Pattern>, next: Build)
    requires kept != [] && (forall t :: t in kept ==> OpenFor(env, b, v, false, t)) && next.placed == b.placed + {v}
    requires PredicateOf(kept[0]) in next.joined
    ensures AllDealt(env, next, PassedOver(kept))
  {
    assert OpenFor(env, b, v, false, kept[0]);
    forall t | t in PassedOver(kept)
      ensures Dealt(env, next, t)
    {
      assert t in kept && OpenFor(env, b, v, false, t);
      FacingDealt(env, t, v, b, next);
    }
  }

  lemma NextKept(env: Env, ids: seq<Id>, b: Build, done: set<Pattern>, v: nat, kept: seq<Pattern>, light: seq<Pattern>)
    requires EnvOk(env) && AtNodes(env, ids, b, done) && v !in b.placed && Sorted(env, b, v, [], kept, light) &&
             kept != []
    ensures NodePlaced(env, ids, b, done, v,
                       CountPredicates(env, JoinPredicates(env, PlaceBoth(b, kept[0], v), kept[1..]), light),
                       PassedOver(kept))
  {
    var mid := PlaceBoth(b, kept[0], v);
    assert kept[0] in kept && OpenFor(env, b, v, false, kept[0]);
    BothStep(env, ids, b, done, v, kept[0]);
    forall t | t in light
      ensures t !in done + {kept[0]} && OpenFor(env, b, v, true, t)
    {
      FacingNotDone(env, b, done, t, v);
    }
    AfterNode(env, ids, b, v, mid, done + {kept[0]}, kept[1..], light);
    FacingSorted(env, b, v, [], kept, light);
    KeptRest(env, b, v, kept, mid.joined);
    var next := CountPredicates(env, JoinPredicates(env, mid, kept[1..]), light);
    PassedDealt(env, b, v, kept, next);
    PassedKept(env, b, v, kept, light);
    KeptSum(done, {kept[0]}, NotJoined(kept[1..], mid.joined), Elements(kept), Elements(light), PassedOver(kept));
    assert Elements([]) + Elements(kept) + Elements(light) == Elements(kept) + Elements(light);
  }

  lemma KeptSum(done: set<Pattern>, first: set<Pattern>, rest: set<Pattern>, kept: set<Pattern>, light: set<Pattern>,
                passed: set<Pattern>)
    requires first + rest == kept - passed && passed !! light
    ensures done + first + rest + light == done + (kept + light - passed)
  {
    assert done + first + rest + light == done + (first + rest) + light;
  }

  lemma PassedKept(env: Env, b: Build, v: nat, kept: seq<Pattern>, light: seq<Pattern>)
    requires (forall t :: t in kept ==> OpenFor(env, b, v, false, t)) &&
               (forall t :: t in light ==> OpenFor(env, b, v, true, t))
    ensures PassedOver(kept) !! Elements(light) && PassedOver(kept) <= Elements(kept)
  {
    forall t | t in PassedOver(kept)
      ensures t in kept && t !in light
    {
      assert OpenFor(env, b, v, false, t);
    }
  }

  lemma NextLight(env: Env, ids: seq<Id>, b: Build, done: set<Pattern>, v: nat, light: seq<Pattern>)
    requires EnvOk(env) && AtNodes(env, ids, b, done) && v !in b.placed && Sorted(env, b, v, [], [], light) &&
             light != []
    ensures var mid := Place(env, b, ExtendOne(v, [OpenEdge(light[0], v)], env.distinct), v);
            NodePlaced(env, ids, b, done, v, CountPredicates(env, mid, light[1..]), {})
  {
    var t := light[0];
    var mid := Place(env, b, ExtendOne(v, [OpenEdge(t, v)], env.distinct), v);
    assert OpenEdges([t], v) == [OpenEdge(t, v)] && Elements([t]) == {t} && light == [t] + light[1..];
    forall u | u in light
      ensures OpenFor(env, b, v, true, u) && u !in done
    {
      FacingNotDone(env, b, done, u, v);
    }
    OpenStep(env, ids, b, done, v, [t]);
    assert t !in light[1..];
    forall u | u in light[1..]
      ensures Countable(env, mid, done + {t}, u)
    {
      assert OpenFor(env, b, v, true, u);
    }
    CountAll(env, ids, mid, done + {t}, light[1..]);
    FacingSorted(env, b, v, [], [], light);
    assert done + {t} + Elements(light[1..]) == done + (FacingSet(env, b.placed, v) - {});
  }

  /** One more node deals with all its triples to what is placed, except those passed over. */
  lemma NextBuilt(env: Env, ids: seq<Id>, b: Build, done: set<Pattern>, v: nat)
    requires EnvOk(env) && AtNodes(env, ids, b, done) && v !in b.placed && FacingSet(env, b.placed, v) != {}
    ensures NodePlaced(env, ids, b, done, v, Next(env, b, v), NextPassedOver(env, b, v))
  {
    var ready := ReadyTriples(env.ts, v, b);
    var light, kept := OpenTriples(env.ts, env, v, b, true), OpenTriples(env.ts, env, v, b, false);
    SortTriples(env, b, v);
    FacingSorted(env, b, v, ready, kept, light);
    if ready != [] {
      NextReady(env, ids, b, done, v, ready, kept, light);
    } else if kept != [] {
      NextKept(env, ids, b, done, v, kept, light);
    } else {
      NextLight(env, ids, b, done, v, light);
    }
  }

  // ---------------------------------------------------------------- the first node

  lemma ScanBuilt(env: Env, ids: seq<Id>, v: nat, t: Pattern)
    requires Increasing(ids) && t in env.ts && Touches(t, v)
    ensures AtNodes(env, ids, Build(Scan(v, ids), {v}, {}), {})
  {
  }

  lemma NoneReady(env: Env, v: nat)
    ensures ReadyTriples(env.ts, v, Build(Unit, {}, {})) == []
  {
    var b := Build(Unit, {}, {});
    var ready := ReadyTriples(env.ts, v, b);
    if ready != [] {
      ReadyMember(env.ts, v, b, ready[0]);
    }
  }

  lemma FirstLight(env: Env, ids: seq<Id>, v: nat, kept: seq<Pattern>, light: seq<Pattern>)
    requires EnvOk(env) && Sorted(env, Build(Unit, {}, {}), v, [], kept, light) && light != []
    ensures var b := Build(Unit, {}, {});
            var mid := Place(env, b, ExtendOne(v, OpenEdges(light, v), env.distinct), v);
            NodePlaced(env, ids, b, {}, v, JoinPredicates(env, mid, kept), {})
  {
    var b := Build(Unit, {}, {});
    var mid := Place(env, b, ExtendOne(v, OpenEdges(light, v), env.distinct), v);
    EmptyBuilt(env, ids);
    OpenStep(env, ids, b, {}, v, light);
    AfterNode(env, ids, b, v, mid, {} + Elements(light), kept, []);
    FacingSorted(env, b, v, [], kept, light);
    assert NotJoined(kept, mid.joined) == Elements(kept);
    assert {} + Elements(light) + Elements(kept) + Elements([]) == {} + (FacingSet(env, b.placed, v) - {});
  }

  lemma FirstKept(env: Env, ids: seq<Id>, v: nat, kept: seq<Pattern>)
    requires EnvOk(env) && Sorted(env, Build(Unit, {}, {}), v, [], kept, []) && kept != []
    ensures var b := Build(Unit, {}, {});
            NodePlaced(env, ids, b, {}, v, JoinPredicates(env, PlaceBoth(b, kept[0], v), kept[1..]), PassedOver(kept))
  {
    var b := Build(Unit, {}, {});
    EmptyBuilt(env, ids);
    NextKept(env, ids, b, {}, v, kept, []);
  }

  lemma FirstBuilt(env: Env, ids: seq<Id>, v: nat, t: Pattern)
    requires EnvOk(env) && Increasing(ids) && t in env.ts && Touches(t, v)
    ensures NodePlaced(env, ids, Build(Unit, {}, {}), {}, v, First(env, ids, v), FirstPassedOver(env, v))
  {
    var b := Build(Unit, {}, {});
    var light, kept := OpenTriples(env.ts, env, v, b, true), OpenTriples(env.ts, env, v, b, false);
    SortTriples(env, b, v);
    NoneReady(env, v);
    FacingSorted(env, b, v, [], kept, light);
    if light != [] {
      FirstLight(env, ids, v, kept, light);
    } else if kept != [] {
      FirstKept(env, ids, v, kept);
    } else {
      ScanBuilt(env, ids, v, t);
      assert {} + (FacingSet(env, b.placed, v) - {}) == {};
    }
  }

  // ---------------------------------------------------------------- all nodes

  /** The triples between these nodes, or from one of them to a constant through a predicate variable. */
  ghost function InsideSet(env: Env, placed: set<nat>): set<Pattern> {
    set t | t in env.ts && EndPlaced(t.s, placed) && EndPlaced(t.o, placed) &&
    !(t.p.Constant? && (t.s.Constant? || t.o.Constant?))
  }

  lemma InsideNext(env: Env, placed: set<nat>, v: nat)
    requires EnvOk(env) && v !in placed
    ensures InsideSet(env, placed + {v}) == InsideSet(env, placed) + FacingSet(env, placed, v)
    ensures InsideSet(env, placed) !! FacingSet(env, placed, v)
  {
    forall t | t in InsideSet(env, placed + {v}) && t !in InsideSet(env, placed)
      ensures t in FacingSet(env, placed, v)
    {
      assert Proper(t) && t.s != t.o;
    }
  }

  lemma PassedFacing(env: Env, b: Build, v: nat)
    ensures NextPassedOver(env, b, v) <= FacingSet(env, b.placed, v)
  {
    forall t | t in NextPassedOver(env, b, v)
      ensures t in FacingSet(env, b.placed, v)
    {
      OpenMember(env.ts, env, v, b, false, t);
    }
  }

  lemma FirstPassedFacing(env: Env, v: nat)
    ensures FirstPassedOver(env, v) <= FacingSet(env, {}, v)
  {
    var b := Build(Unit, {}, {});
    forall t | t in FirstPassedOver(env, v)
      ensures t in FacingSet(env, {}, v)
    {
      OpenMember(env.ts, env, v, b, false, t);
    }
  }

  /** A node next to what is placed has a triple to it. */
  lemma FrontierFaces(env: Env, nodes: seq<nat>, placed: set<nat>, v: nat)
    requires v in Frontier(GraphOf(env.ts, nodes), placed) && NodesOf(GraphOf(env.ts, nodes), placed)
    ensures FacingSet(env, placed, v) != {}
  {
    var u :| u in placed && Adj(GraphOf(env.ts, nodes), u, v);
    AdjExact(env.ts, nodes, u, v);
    var t :| t in env.ts && Links(t, u, v);
    assert t in FacingSet(env, placed, v);
  }

  lemma SplitSets(inside: set<Pattern>, passed: set<Pattern>, facing: set<Pattern>, more: set<Pattern>)
    requires passed <= inside && more <= facing && inside !! facing
    ensures inside - passed + (facing - more) == inside + facing - (passed + more) && passed + more <= inside + facing
  {
  }

  ghost predicate NodesBuilt(env: Env, ids: seq<Id>, b: Build, placed: set<nat>, passed: set<Pattern>) {
    AtNodes(env, ids, b, InsideSet(env, placed) - passed) && b.placed == placed && passed <= InsideSet(env, placed) &&
    AllDealt(env, b, passed) && !b.plan.Unit?
  }

  lemma NextNodes(env: Env, ids: seq<Id>, b: Build, placed: set<nat>, passed: set<Pattern>, v: nat)
    requires EnvOk(env) && NodesBuilt(env, ids, b, placed, passed) && v !in placed && FacingSet(env, placed, v) != {}
    ensures NodesBuilt(env, ids, Next(env, b, v), placed + {v}, passed + NextPassedOver(env, b, v))
  {
    NextBuilt(env, ids, b, InsideSet(env, placed) - passed, v);
    InsideNext(env, placed, v);
    PassedFacing(env, b, v);
    SplitSets(InsideSet(env, placed), passed, FacingSet(env, placed, v), NextPassedOver(env, b, v));
    DealtMore(env, b, passed, Next(env, b, v), NextPassedOver(env, b, v));
  }

  lemma NothingInside(env: Env)
    requires EnvOk(env)
    ensures InsideSet(env, {}) == {}
  {
    forall t | t in env.ts
      ensures t !in InsideSet(env, {})
    {
      assert Proper(t);
    }
  }

  lemma FirstNodes(env: Env, ids: seq<Id>, v: nat, t: Pattern)
    requires EnvOk(env) && Increasing(ids) && t in env.ts && Touches(t, v)
    ensures NodesBuilt(env, ids, First(env, ids, v), {v}, FirstPassedOver(env, v))
  {
    FirstBuilt(env, ids, v, t);
    FirstPassedFacing(env, v);
    InsideNext(env, {}, v);
    NothingInside(env);
    assert {} + {v} == {v};
    assert {} + (FacingSet(env, {}, v) - FirstPassedOver(env, v)) == InsideSet(env, {v}) - FirstPassedOver(env, v);
  }

  /** HeuristicPlan deals with all triples between its nodes except those passed over. */
  lemma {:induction false} GreedyBuilt(env: Env, ids: seq<Id>, nodes: seq<nat>, o: seq<nat>)
    requires EnvOk(env) && Increasing(ids) && Order(GraphOf(env.ts, nodes), o) && PlacedEnds(env, Elements(nodes))
    ensures NodesBuilt(env, ids, Greedy(env, ids, o), Elements(o), AllPassedOver(env, ids, o)) &&
            Elements(o) <= Elements(nodes)
    decreases |o|
  {
    var front, v := o[..|o| - 1], o[|o| - 1];
    ElementsSnoc(o);
    assert v in Elements(nodes);
    if |o| == 1 {
      assert front == [] && Elements(o) == {v};
      var t :| t in env.ts && Touches(t, v);
      FirstNodes(env, ids, v, t);
    } else {
      GreedyBuilt(env, ids, nodes, front);
      FrontierFaces(env, nodes, Elements(front), v);
      NextNodes(env, ids, Greedy(env, ids, front), Elements(front), AllPassedOver(env, ids, front), v);
    }
  }
}

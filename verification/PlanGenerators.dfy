/** The plan generator's own loops over its cache, proved against module Planner. */
module PlanGenerators {
  import opened Collections
  import opened JoinGraphs
  import opened Planner

  /** A level of the cache; one not yet begun is empty. */
  function LevelOf(cache: seq<Level>, k: nat): Level
    requires k > 0
  {
    if k <= |cache| then cache[k - 1] else map[]
  }

  ghost predicate LevelsOk(q: JoinGraph, c: Costs, binary: bool, cache: seq<Level>, n: nat) {
    n <= |cache| && forall i :: 0 <= i < n ==> LevelOk(q, c, binary, true, cache[i], i + 1)
  }

  ghost predicate NoDearer(best: Option<Costed>, bound: nat) {
    if best.None? then bound >= LLONG_MAX else best.value.cost < LLONG_MAX && best.value.cost <= bound
  }

  /** The loop that keeps the cheapest plan seen; it starts from a cost out of range. */
  method BestFrom(plans: seq<Costed>, start: Option<Costed>) returns (best: Option<Costed>)
    requires start.Some? ==> start.value.cost < LLONG_MAX
    ensures best == start || (best.Some? && best.value in plans)
    ensures start.Some? ==> NoDearer(best, start.value.cost)
    ensures forall p :: p in plans ==> NoDearer(best, p.cost)
  {
    best := start;
    var minCost := if start.None? then LLONG_MAX else start.value.cost;
    var i := 0;
    while i < |plans|
      invariant 0 <= i <= |plans|
      invariant if best.None? then minCost == LLONG_MAX else minCost == best.value.cost < LLONG_MAX
      invariant best == start || (best.Some? && best.value in plans)
      invariant start.Some? ==> NoDearer(best, start.value.cost)
      invariant forall j :: 0 <= j < i ==> minCost <= plans[j].cost
    {
      if plans[i].cost < minCost {
        best := Some(plans[i]);
        minCost := plans[i].cost;
      }
      i := i + 1;
    }
  }

  // ---------------------------------------------------------------- steps of the loops

  /** How far the next level is: everything kept is sound, and these keys are served. */
  ghost predicate Built(q: JoinGraph, c: Costs, binary: bool, before: seq<Level>, cache: seq<Level>, prev: Level,
                        done: set<Key>)
    requires done <= prev.Keys
  {
    (cache == before || (|cache| == |before| + 1 && cache[..|before|] == before)) &&
    Sound(q, c, binary, LevelOf(cache, |before| + 1), |before| + 1) &&
    AllServed(q, c, prev, LevelOf(cache, |before| + 1), done)
  }

  ghost predicate ServedAll(c: Costs, prev: Level, level: Level, key: Key, nodes: set<nat>)
    requires key in prev
  {
    forall v :: v in nodes ==> Served(c, prev, level, key, v)
  }

  /** A plan for a key and one of its next nodes goes into the next level. */
  lemma BuiltNext(q: JoinGraph, c: Costs, binary: bool, before: seq<Level>, level: Level, prev: Level, done: set<Key>,
                  key: Key, nodes: set<nat>, v: nat, p: Costed)
    requires GraphOk(q) && done <= prev.Keys && key in prev && IsKey(q, key, |before|) &&
             v in Frontier(q, Elements(key))
    requires Sound(q, c, binary, level, |before| + 1) && AllServed(q, c, prev, level, done) &&
             ServedAll(c, prev, level, key, nodes)
    requires PlanOk(q, c, binary, With(key, v), p) && forall b :: b in prev[key] ==> p.cost <= b.cost + c.step(key, v)
    requires |key| == 1 ==> p.cost <= c.pair(key[0], v)
    ensures var next := AddPlan(level, With(key, v), p);
            Sound(q, c, binary, next, |before| + 1) && AllServed(q, c, prev, next, done) &&
            ServedAll(c, prev, next, key, nodes + {v})
  {
    WithKey(q, key, v);
    AddPlanSound(q, c, binary, level, |before| + 1, With(key, v), p);
    forall at, u | at in done && u in Frontier(q, Elements(at))
      ensures Served(c, prev, AddPlan(level, With(key, v), p), at, u)
    {
      AddPlanServed(c, prev, level, With(key, v), p, at, u);
    }
    forall u | u in nodes
      ensures Served(c, prev, AddPlan(level, With(key, v), p), key, u)
    {
      AddPlanServed(c, prev, level, With(key, v), p, key, u);
    }
    assert p in AddPlan(level, With(key, v), p)[With(key, v)];
  }

  lemma BuiltKey(q: JoinGraph, c: Costs, binary: bool, before: seq<Level>, cache: seq<Level>, prev: Level,
                 done: set<Key>, key: Key)
    requires done <= prev.Keys && key in prev && Built(q, c, binary, before, cache, prev, done)
    requires ServedAll(c, prev, LevelOf(cache, |before| + 1), key, Frontier(q, Elements(key)))
    ensures Built(q, c, binary, before, cache, prev, done + {key})
  {
  }

  /** All keys served: the cache has one whole level more. */
  lemma BuiltAll(q: JoinGraph, c: Costs, binary: bool, before: seq<Level>, cache: seq<Level>, prev: Level)
    requires GraphOk(q) && Connected(q, Elements(q.nodes)) && 1 <= |before| < |q.nodes|
    requires LevelsOk(q, c, binary, before, |before|) && prev == before[|before| - 1]
    requires Built(q, c, binary, before, cache, prev, prev.Keys)
    ensures |cache| == |before| + 1 && cache[..|before|] == before && CacheOk(q, c, binary, cache)
  {
    NextLevel(q, c, binary, prev, LevelOf(cache, |before| + 1), |before|);
    LevelNotEmpty(q, c, binary, false, LevelOf(cache, |before| + 1), |before| + 1);
    forall i | 0 <= i < |before|
      ensures LevelOk(q, c, binary, true, cache[i], i + 1)
    {
      assert cache[i] == cache[..|before|][i];
    }
  }

  /** All levels whole but the last, where binary joins have not been tried yet. */
  ghost predicate CacheOk(q: JoinGraph, c: Costs, binary: bool, cache: seq<Level>) {
    cache != [] && LevelsOk(q, c, binary, cache, |cache| - 1) &&
    LevelOk(q, c, binary, false, cache[|cache| - 1], |cache|)
  }

  /** Where no binary join is tried, the last level is whole as it is. */
  lemma NoJoins(q: JoinGraph, c: Costs, binary: bool, cache: seq<Level>)
    requires CacheOk(q, c, binary, cache) && (!binary || |cache| < 5)
    ensures LevelsOk(q, c, binary, cache, |cache|)
  {
    var k := |cache|;
    var level := cache[k - 1];
    forall key | key in level
      ensures Cheapest(q, c, binary, true, key, level[key])
    {
      assert IsKey(q, key, k) && Cheapest(q, c, binary, false, key, level[key]);
      KeySize(key);
    }
  }

  // ---------------------------------------------------------------- binary joins

  /** The halves are given by the whole and its small part. */
  lemma HalvesUnique(q: JoinGraph, all: set<nat>, a: set<nat>, b: set<nat>, common: set<nat>)
    requires Halves(q, a, b, common) && a + b == all
    ensures b - a == all - a && common == JoinNodes(q, a, all - a) && b == (all - a) + common
  {
    assert b - a == all - a;
  }

  function PlansAt(cache: seq<Level>, key: Key): seq<Costed> {
    if 1 <= |key| <= |cache| && key in cache[|key| - 1] then cache[|key| - 1][key] else []
  }

  function JoinCost(c: Costs, small: Key, b: Key, p: Costed, r: Costed): nat {
    c.join(small, b) + p.cost + r.cost
  }

  /** Some plan of the key is no dearer than joining any plans of the two halves. */
  ghost predicate TriedWith(c: Costs, cache: seq<Level>, key: Key, small: Key, b: Key) {
    forall p, r {:trigger JoinCost(c, small, b, p, r)} :: p in PlansAt(cache, small) && r in PlansAt(cache, b) ==>
      Within(PlansAt(cache, key), JoinCost(c, small, b, p, r))
  }

  /** These are the halves of the key for its small part. */
  ghost predicate SplitsInto(q: JoinGraph, key: Key, small: Key, b: Key, common: set<nat>) {
    Sorted(b) && Elements(small) + Elements(b) == Elements(key) && Halves(q, Elements(small), Elements(b), common)
  }

  /** The binary join of a small plan with the rest of a key has been tried. */
  ghost predicate Tried(q: JoinGraph, c: Costs, cache: seq<Level>, key: Key, small: Key) {
    forall b, common :: SplitsInto(q, key, small, b, common) ==> TriedWith(c, cache, key, small, b)
  }

  lemma TriedOnce(q: JoinGraph, c: Costs, cache: seq<Level>, key: Key, small: Key, b: Key, common: set<nat>)
    requires SplitsInto(q, key, small, b, common) && TriedWith(c, cache, key, small, b)
    ensures Tried(q, c, cache, key, small)
  {
    forall b', common' | SplitsInto(q, key, small, b', common')
      ensures TriedWith(c, cache, key, small, b')
    {
      HalvesUnique(q, Elements(key), Elements(small), Elements(b), common);
      HalvesUnique(q, Elements(key), Elements(small), Elements(b'), common');
    }
  }

  lemma HalfSize(q: JoinGraph, key: Key, small: Key, b: Key, common: set<nat>)
    requires Sorted(key) && SplitsInto(q, key, small, b, common)
    ensures 1 <= |b| < |key| - 1
  {
    KeySize(b);
    KeySize(key);
    var x :| x in common;
    assert x in Elements(b);
  }

  /** The cache with one plan more on its last level. */
  function WithPlan(cache: seq<Level>, key: Key, p: Costed): seq<Level>
    requires cache != []
  {
    cache[|cache| - 1 := AddPlan(cache[|cache| - 1], key, p)]
  }

  lemma WithPlanAt(cache: seq<Level>, key: Key, p: Costed, at: Key)
    requires cache != [] && |key| == |cache|
    ensures |at| != |cache| ==> PlansAt(WithPlan(cache, key, p), at) == PlansAt(cache, at)
    ensures PlansAt(WithPlan(cache, key, p), key) == PlansAt(cache, key) + [p]
    ensures at != key ==> PlansAt(WithPlan(cache, key, p), at) == PlansAt(cache, at)
  {
  }

  /** Another plan on the last level undoes no trial. */
  lemma TriedKept(q: JoinGraph, c: Costs, cache: seq<Level>, key: Key, p: Costed, at: Key, small: Key)
    requires cache != [] && |key| == |cache| == |at| && |small| < |cache| && Sorted(at) && Tried(q, c, cache, at, small)
    ensures Tried(q, c, WithPlan(cache, key, p), at, small)
  {
    var next := WithPlan(cache, key, p);
    forall b, common | SplitsInto(q, at, small, b, common)
      ensures TriedWith(c, next, at, small, b)
    {
      HalfSize(q, at, small, b, common);
      WithPlanAt(cache, key, p, small);
      WithPlanAt(cache, key, p, b);
      WithPlanAt(cache, key, p, at);
      assert TriedWith(c, cache, at, small, b);
      forall x, r | x in PlansAt(next, small) && r in PlansAt(next, b)
        ensures Within(PlansAt(next, at), JoinCost(c, small, b, x, r))
      {
        MorePlans(PlansAt(cache, at), PlansAt(next, at), JoinCost(c, small, b, x, r));
      }
    }
  }

  lemma MorePlans(plans: seq<Costed>, more: seq<Costed>, bound: nat)
    requires Within(plans, bound) && plans <= more
    ensures Within(more, bound)
  {
    var p :| p in plans && p.cost <= bound;
    assert p in more;
  }

  ghost predicate AllTried(q: JoinGraph, c: Costs, cache: seq<Level>, key: Key, smalls: set<Key>) {
    forall small {:trigger Tried(q, c, cache, key, small)} :: small in smalls ==>
          |small| == 3 && Tried(q, c, cache, key, small)
  }

  lemma OneMoreTried(q: JoinGraph, c: Costs, cache: seq<Level>, key: Key, smalls: set<Key>, small: Key)
    requires AllTried(q, c, cache, key, smalls) && |small| == 3 && Tried(q, c, cache, key, small)
    ensures AllTried(q, c, cache, key, smalls + {small})
  {
    forall s | s in smalls + {small}
      ensures |s| == 3 && Tried(q, c, cache, key, s)
    {
      assert s in smalls ==> Tried(q, c, cache, key, s);
    }
  }

  lemma AllTriedKept(q: JoinGraph, c: Costs, cache: seq<Level>, key: Key, p: Costed, at: Key, smalls: set<Key>)
    requires |cache| >= 5 && |key| == |cache| == |at| && Sorted(at) && AllTried(q, c, cache, at, smalls)
    ensures AllTried(q, c, WithPlan(cache, key, p), at, smalls)
  {
    forall small | small in smalls
      ensures |small| == 3 && Tried(q, c, WithPlan(cache, key, p), at, small)
    {
      assert Tried(q, c, cache, at, small);
      TriedKept(q, c, cache, key, p, at, small);
    }
  }

  /** Every tree of the search space has a key in the cache, with a plan within its cost. */
  lemma TreeCached(q: JoinGraph, c: Costs, binary: bool, level: Level, t: PlanTree, n: nat)
    requires GraphOk(q) && InSpace(q, binary, t) && |TreeNodes(t)| == n && LevelOk(q, c, binary, true, level, n)
    ensures var key := SortedSeq(TreeNodes(t));
            Elements(key) == TreeNodes(t) && IsKey(q, key, n) && key in level && Within(level[key], TreeCost(c, t))
  {
    TreeConnected(q, binary, t);
    KeyOf(q, TreeNodes(t));
    var key := SortedSeq(TreeNodes(t));
    assert key in level && Cheapest(q, c, binary, true, key, level[key]);
    assert Over(q, binary, t, Elements(key));
  }

  /** The same for a tree smaller than the last level. */
  lemma HalfCached(q: JoinGraph, c: Costs, binary: bool, cache: seq<Level>, t: PlanTree)
    requires GraphOk(q) && CacheOk(q, c, binary, cache) && InSpace(q, binary, t) && |TreeNodes(t)| < |cache|
    ensures var key := SortedSeq(TreeNodes(t));
            1 <= |key| == |TreeNodes(t)| && key in cache[|key| - 1] && Within(PlansAt(cache, key), TreeCost(c, t))
  {
    TreeNotEmpty(t);
    var n, key := |TreeNodes(t)|, SortedSeq(TreeNodes(t));
    LevelAt(q, c, binary, cache, n);
    TreeCached(q, c, binary, cache[n - 1], t, n);
    assert |key| == n && PlansAt(cache, key) == cache[n - 1][key];
  }

  /** Joining two trees costs no less than some plan of a key the join was tried for. */
  lemma HalvesWithin(q: JoinGraph, c: Costs, binary: bool, cache: seq<Level>, key: Key, left: PlanTree, right: PlanTree)
    requires GraphOk(q) && CacheOk(q, c, binary, cache) && InSpace(q, binary, left) && InSpace(q, binary, right)
    requires |TreeNodes(left)| < |cache| && |TreeNodes(right)| < |cache|
    requires TriedWith(c, cache, key, SortedSeq(TreeNodes(left)), SortedSeq(TreeNodes(right)))
    ensures Within(PlansAt(cache, key),
                   c.join(SortedSeq(TreeNodes(left)), SortedSeq(TreeNodes(right))) + TreeCost(c, left) + TreeCost(c,
                     right))
  {
    HalfCached(q, c, binary, cache, left);
    HalfCached(q, c, binary, cache, right);
    JoinWithin(c, cache, key, SortedSeq(TreeNodes(left)), SortedSeq(TreeNodes(right)), TreeCost(c, left),
               TreeCost(c, right));
  }

  lemma TriedTree(q: JoinGraph, c: Costs, binary: bool, cache: seq<Level>, key: Key, t: PlanTree)
    requires t.JoinTrees? && Over(q, binary, t, Elements(key)) && Tried(q, c, cache, key, SortedSeq(TreeNodes(t.left)))
    ensures TriedWith(c, cache, key, SortedSeq(TreeNodes(t.left)), SortedSeq(TreeNodes(t.right)))
  {
    SortedSeqElements(TreeNodes(t.left));
    SortedSeqElements(TreeNodes(t.right));
    assert SplitsInto(q, key, SortedSeq(TreeNodes(t.left)), SortedSeq(TreeNodes(t.right)), t.common);
  }

  /** A binary join of the search space is no cheaper than every plan of a key all trials were made for. */
  lemma JoinCovered(q: JoinGraph, c: Costs, binary: bool, cache: seq<Level>, key: Key, t: PlanTree)
    requires GraphOk(q) && |cache| >= 5 && CacheOk(q, c, binary, cache) && |key| == |cache| && Sorted(key)
    requires AllTried(q, c, cache, key, cache[2].Keys) && t.JoinTrees? && Over(q, binary, t, Elements(key))
    ensures Within(PlansAt(cache, key), TreeCost(c, t))
  {
    var n := JoinSizes(q, binary, key, t);
    HalfCached(q, c, binary, cache, t.left);
    TriedTree(q, c, binary, cache, key, t);
    HalvesWithin(q, c, binary, cache, key, t.left, t.right);
  }

  lemma JoinSizes(q: JoinGraph, binary: bool, key: Key, t: PlanTree) returns (n: nat)
    requires Sorted(key) && t.JoinTrees? && Over(q, binary, t, Elements(key))
    ensures |TreeNodes(t.left)| == 3 && n == |TreeNodes(t.right)| && 1 <= n < |key| - 1
  {
    n := |TreeNodes(t.right)|;
    TreeNotEmpty(t.right);
    KeySize(key);
  }

  lemma JoinWithin(c: Costs, cache: seq<Level>, key: Key, small: Key, b: Key, x: nat, y: nat)
    requires TriedWith(c, cache, key, small, b) && Within(PlansAt(cache, small), x) && Within(PlansAt(cache, b), y)
    ensures Within(PlansAt(cache, key), c.join(small, b) + x + y)
  {
    var p :| p in PlansAt(cache, small) && p.cost <= x;
    var r :| r in PlansAt(cache, b) && r.cost <= y;
    WithinMore(PlansAt(cache, key), JoinCost(c, small, b, p, r), c.join(small, b) + x + y);
  }

  ghost predicate EveryKeyTried(q: JoinGraph, c: Costs, cache: seq<Level>, keys: set<Key>) {
    |cache| >= 5 && forall key {:trigger AllTried(q, c, cache, key, cache[2].Keys)} :: key in keys ==>
      |key| == |cache| && Sorted(key) && AllTried(q, c, cache, key, cache[2].Keys)
  }

  /** All trials made: the last level is whole. */
  lemma JoinsCovered(q: JoinGraph, c: Costs, binary: bool, cache: seq<Level>)
    requires GraphOk(q) && CacheOk(q, c, binary, cache) && |cache| >= 5
    requires EveryKeyTried(q, c, cache, cache[|cache| - 1].Keys)
    ensures LevelsOk(q, c, binary, cache, |cache|)
  {
    var k := |cache|;
    var level := cache[k - 1];
    forall key | key in level
      ensures Cheapest(q, c, binary, true, key, level[key])
    {
      assert IsKey(q, key, k) && Cheapest(q, c, binary, false, key, level[key]) && PlansAt(cache, key) == level[key];
      forall t | Over(q, binary, t, Elements(key))
        ensures Within(level[key], TreeCost(c, t))
      {
        if t.JoinTrees? {
          JoinCovered(q, c, binary, cache, key, t);
        }
      }
    }
  }

  /** The two halves of a key, as its small part gives them. */
  lemma HalvesExact(q: JoinGraph, key: Key, k: nat, small: Key, others: Key, common: set<nat>)
    requires GraphOk(q) && k >= 5 && IsKey(q, key, k) && Sorted(small) && |small| == 3 &&
             Elements(small) <= Elements(key)
    requires others == Subtract(key, small) && common == JoinNodes(q, Elements(small), Elements(others)) && common != {}
    ensures var b := Union(others, common);
            |others| + |common| < k - 1 ==> SplitsInto(q, key, small, b, common)
  {
    SubtractExact(key, small);
    UnionExact(others, common);
    SizeOfUnion(others, common);
    KeySize(key);
    KeySize(small);
    KeySize(Union(others, common));
    if |others| + |common| < k - 1 {
      HalvesOf(q, Elements(key), Elements(small), common);
    }
  }

  lemma HalvesOf(q: JoinGraph, all: set<nat>, a: set<nat>, common: set<nat>)
    requires a <= all && |a| == 3 && |all| >= 5 && common == JoinNodes(q, a, all - a) && common != {}
    requires |(all - a) + common| < |all| - 1
    ensures var b := (all - a) + common; a + b == all && Halves(q, a, b, common)
  {
    var b := (all - a) + common;
    assert a + b == all;
    assert b - a == all - a;
  }

  /** A small part that is not contained, or has no join nodes, or leaves too much, has no halves. */
  lemma NoHalves(q: JoinGraph, key: Key, k: nat, small: Key, b: Key, common: set<nat>)
    requires k >= 5 && IsKey(q, key, k) && Sorted(small) && SplitsInto(q, key, small, b, common)
    ensures Elements(small) <= Elements(key)
    ensures var others := Subtract(key, small);
            common == JoinNodes(q, Elements(small), Elements(others)) && |common| + |others| < k - 1
  {
    HalvesUnique(q, Elements(key), Elements(small), Elements(b), common);
    SubtractExact(key, small);
    KeySize(key);
    KeySize(Subtract(key, small));
    assert Elements(b) == Elements(Subtract(key, small)) + common;
  }

  /** Where the planner finds no split, there is none. */
  lemma NoneSplit(q: JoinGraph, key: Key, k: nat, small: Key)
    requires k >= 5 && IsKey(q, key, k) && Sorted(small)
    requires var others := Subtract(key, small);
             var found := JoinNodes(q, Elements(small), Elements(others));
             !(Elements(small) <= Elements(key)) || found == {} || |found| + |others| >= k - 1
    ensures forall b, common :: !SplitsInto(q, key, small, b, common)
  {
    forall b, common
      ensures !SplitsInto(q, key, small, b, common)
    {
      if SplitsInto(q, key, small, b, common) {
        NoHalves(q, key, k, small, b, common);
        assert false;
      }
    }
  }

  lemma WithinMore(plans: seq<Costed>, a: nat, b: nat)
    requires Within(plans, a) && a <= b
    ensures Within(plans, b)
  {
    var p :| p in plans && p.cost <= a;
  }

  /** A plan no dearer than joining the best plans is no dearer than joining any. */
  lemma TriedBest(c: Costs, cache: seq<Level>, key: Key, small: Key, b: Key, p: Costed, r: Costed)
    requires forall x :: x in PlansAt(cache, small) ==> p.cost <= x.cost
    requires forall x :: x in PlansAt(cache, b) ==> r.cost <= x.cost
    requires Within(PlansAt(cache, key), JoinCost(c, small, b, p, r))
    ensures TriedWith(c, cache, key, small, b)
  {
    forall x, y | x in PlansAt(cache, small) && y in PlansAt(cache, b)
      ensures Within(PlansAt(cache, key), JoinCost(c, small, b, x, y))
    {
      WithinMore(PlansAt(cache, key), JoinCost(c, small, b, p, r), JoinCost(c, small, b, x, y));
    }
  }

  /** A trial leaves the cache as it was, or with one sound plan more for the key. */
  ghost predicate Added(q: JoinGraph, c: Costs, binary: bool, before: seq<Level>, cache: seq<Level>, key: Key,
                        added: Option<Costed>) {
    before != [] && match added
    case None => cache == before
    case Some(p) => PlanOk(q, c, binary, key, p) && cache == WithPlan(before, key, p)
  }

  lemma SmallKey(q: JoinGraph, c: Costs, binary: bool, cache: seq<Level>, small: Key)
    requires |cache| >= 5 && CacheOk(q, c, binary, cache) && small in cache[2]
    ensures |small| == 3 && IsKey(q, small, 3)
  {
    assert LevelOk(q, c, binary, true, cache[2], 3) && IsKey(q, small, 3);
  }

  /** What the loops over trials keep: the cache in shape, lower levels and keys as at the start, and
      all trials made. */
  ghost predicate Trying(q: JoinGraph, c: Costs, binary: bool, first: seq<Level>, cache: seq<Level>, done: set<Key>) {
    |cache| == |first| >= 5 && CacheOk(q, c, binary, cache) && cache[..|first| - 1] == first[..|first| - 1] &&
    cache[2] == first[2] &&
    cache[|first| - 1].Keys == first[|first| - 1].Keys && EveryKeyTried(q, c, cache, done)
  }

  /** A trial keeps what all earlier trials established. */
  lemma AddedKeeps(q: JoinGraph, c: Costs, binary: bool, first: seq<Level>, before: seq<Level>, cache: seq<Level>,
                   key: Key,
                   added: Option<Costed>, done: set<Key>, smalls: set<Key>)
    requires Trying(q, c, binary, first, before, done) && key in before[|before| - 1]
    requires Added(q, c, binary, before, cache, key, added) && AllTried(q, c, before, key, smalls)
    ensures Trying(q, c, binary, first, cache, done) && AllTried(q, c, cache, key, smalls)
  {
    if added.Some? {
      assert IsKey(q, key, |before|);
      LevelReplaced(q, c, binary, before, key, added.value);
      AllTriedKept(q, c, before, key, added.value, key, smalls);
      forall at | at in done
        ensures |at| == |cache| && Sorted(at) && AllTried(q, c, cache, at, cache[2].Keys)
      {
        assert AllTried(q, c, before, at, before[2].Keys);
        AllTriedKept(q, c, before, key, added.value, at, before[2].Keys);
      }
    }
  }

  lemma KeyTried(q: JoinGraph, c: Costs, binary: bool, first: seq<Level>, cache: seq<Level>, key: Key, done: set<Key>)
    requires Trying(q, c, binary, first, cache, done) && key in cache[|cache| - 1] &&
             AllTried(q, c, cache, key, cache[2].Keys)
    ensures Trying(q, c, binary, first, cache, done + {key})
  {
    forall at | at in done + {key}
      ensures |at| == |cache| && Sorted(at) && AllTried(q, c, cache, at, cache[2].Keys)
    {
      if at == key {
        assert IsKey(q, key, |cache|);
      } else {
        assert AllTried(q, c, cache, at, cache[2].Keys);
      }
    }
  }

  lemma JoinOk(q: JoinGraph, c: Costs, binary: bool, key: Key, small: Key, b: Key, p: Costed, r: Costed,
               common: set<nat>)
    requires binary && Sorted(small) && PlanOk(q, c, binary, small, p) && PlanOk(q, c, binary, b, r)
    requires SplitsInto(q, key, small, b, common)
    ensures PlanOk(q, c, binary, key, Costed(JoinTrees(p.tree, r.tree, common), JoinCost(c, small, b, p, r)))
  {
    var t := JoinTrees(p.tree, r.tree, common);
    assert TreeCost(c, t) == JoinCost(c, small, b, p, r);
    assert InSpace(q, binary, t);
  }

  /** A plan that joins a plan of each half. */
  ghost predicate Joined(c: Costs, cache: seq<Level>, small: Key, b: Key, common: set<nat>, plan: Costed) {
    exists p, r {:trigger JoinCost(c, small, b, p, r)} :: p in PlansAt(cache, small) && r in PlansAt(cache, b) &&
      plan == Costed(JoinTrees(p.tree, r.tree, common), JoinCost(c, small, b, p, r))
  }

  lemma CachedOk(q: JoinGraph, c: Costs, binary: bool, cache: seq<Level>, key: Key, p: Costed)
    requires CacheOk(q, c, binary, cache) && |key| < |cache| && p in PlansAt(cache, key)
    ensures Sorted(key) && PlanOk(q, c, binary, key, p)
  {
    LevelAt(q, c, binary, cache, |key|);
    KeyKept(q, c, binary, true, cache[|key| - 1], |key|, key);
  }

  lemma JoinedOk(q: JoinGraph, c: Costs, binary: bool, cache: seq<Level>, key: Key, small: Key, b: Key,
                 common: set<nat>, plan: Costed)
    requires binary && CacheOk(q, c, binary, cache) && |small| < |cache| && |b| < |cache|
    requires SplitsInto(q, key, small, b, common) && Joined(c, cache, small, b, common, plan)
    ensures PlanOk(q, c, binary, key, plan)
  {
    var p, r :| p in PlansAt(cache, small) && r in PlansAt(cache, b) &&
      plan == Costed(JoinTrees(p.tree, r.tree, common), JoinCost(c, small, b, p, r));
    CachedOk(q, c, binary, cache, small, p);
    CachedOk(q, c, binary, cache, b, r);
    JoinOk(q, c, binary, key, small, b, p, r, common);
  }

  /** A trial either found nothing cheaper, or put the join of the two best plans behind the key's plans. */
  ghost predicate Made(c: Costs, before: seq<Level>, cache: seq<Level>, key: Key, small: Key, b: Key, common: set<nat>,
                       added: Option<Costed>) {
    before != [] && TriedWith(c, cache, key, small, b) &&
    if added.None? then cache == before
    else cache == WithPlan(before, key, added.value) && Joined(c, before, small, b, common, added.value)
  }

  lemma JoinMade(c: Costs, before: seq<Level>, key: Key, small: Key, b: Key, common: set<nat>, p: Costed, r: Costed)
    requires 1 <= |key| == |before| && key in before[|key| - 1] && |small| < |before| && |b| < |before|
    requires p in PlansAt(before, small) && forall x :: x in PlansAt(before, small) ==> p.cost <= x.cost
    requires r in PlansAt(before, b) && forall x :: x in PlansAt(before, b) ==> r.cost <= x.cost
    ensures var plan := Costed(JoinTrees(p.tree, r.tree, common), JoinCost(c, small, b, p, r));
            var cache := WithPlan(before, key, plan);
            Made(c, before, cache, key, small, b, common, Some(plan)) && Within(PlansAt(cache, key), plan.cost)
  {
    var plan := Costed(JoinTrees(p.tree, r.tree, common), JoinCost(c, small, b, p, r));
    var cache := WithPlan(before, key, plan);
    WithPlanAt(before, key, plan, small);
    WithPlanAt(before, key, plan, b);
    assert plan in PlansAt(cache, key);
    TriedBest(c, cache, key, small, b, p, r);
  }

  lemma MadeAdds(q: JoinGraph, c: Costs, binary: bool, before: seq<Level>, cache: seq<Level>, key: Key, small: Key,
                 b: Key,
                 common: set<nat>, added: Option<Costed>)
    requires binary && CacheOk(q, c, binary, before) && |small| < |before| && |b| < |before|
    requires SplitsInto(q, key, small, b, common) && Made(c, before, cache, key, small, b, common, added)
    ensures Added(q, c, binary, before, cache, key, added) && Tried(q, c, cache, key, small)
  {
    TriedOnce(q, c, cache, key, small, b, common);
    if added.Some? {
      JoinedOk(q, c, binary, before, key, small, b, common, added.value);
    }
  }

  lemma HalfWithin(q: JoinGraph, c: Costs, binary: bool, cache: seq<Level>, key: Key)
    requires GraphOk(q) && InRange(q, c) && CacheOk(q, c, binary, cache) && 1 <= |key| < |cache| &&
             key in cache[|key| - 1]
    ensures Within(PlansAt(cache, key), LLONG_MAX - 1)
  {
    LevelAt(q, c, binary, cache, |key|);
    LevelInRange(q, c, binary, true, cache[|key| - 1], |key|, key);
  }

  lemma LevelAt(q: JoinGraph, c: Costs, binary: bool, cache: seq<Level>, k: nat)
    requires CacheOk(q, c, binary, cache) && 1 <= k < |cache|
    ensures LevelOk(q, c, binary, true, cache[k - 1], k)
  {
  }

  lemma LevelReplaced(q: JoinGraph, c: Costs, binary: bool, cache: seq<Level>, key: Key, p: Costed)
    requires CacheOk(q, c, binary, cache) && key in cache[|cache| - 1] && PlanOk(q, c, binary, key, p)
    ensures var next := WithPlan(cache, key, p);
            CacheOk(q, c, binary, next) && next[|cache| - 1].Keys == cache[|cache| - 1].Keys &&
            next[..|cache| - 1] == cache[..|cache| - 1]
  {
    AddPlanLevel(q, c, binary, false, cache[|cache| - 1], |cache|, key, p);
  }

  ghost predicate BestIn(level: Level, best: Option<Costed>) {
    (best.Some? ==> exists key :: key in level && best.value in level[key]) &&
    forall key, p :: key in level && p in level[key] ==> NoDearer(best, p.cost)
  }

  /** The cheapest plan of the last level is a cheapest tree of the search space over all join nodes. */
  lemma WholeLevel(q: JoinGraph, c: Costs, binary: bool, level: Level, best: Option<Costed>)
    requires GraphOk(q) && InRange(q, c) && Connected(q, Elements(q.nodes)) &&
             LevelOk(q, c, binary, true, level, |q.nodes|)
    requires BestIn(level, best)
    ensures best.Some? && IsCheapest(q, c, binary, best.value.tree)
  {
    var whole := SortedSeq(Elements(q.nodes));
    KeyOf(q, Elements(q.nodes));
    assert Cheapest(q, c, binary, true, whole, level[whole]);
    forall t | Over(q, binary, t, Elements(q.nodes))
      ensures NoDearer(best, TreeCost(c, t))
    {
      var p :| p in level[whole] && p.cost <= TreeCost(c, t);
    }
    var order := OrderExists(q, Elements(q.nodes));
    LeftDeepSpace(q, binary, c, order);
    assert Over(q, binary, LeftDeep(order), Elements(q.nodes));
    assert NoDearer(best, OrderCost(c, order));
    var key :| key in level && best.value in level[key];
    assert IsKey(q, key, |q.nodes|) && PlanOk(q, c, binary, key, best.value);
    KeySize(key);
    WholeSet(q, key);
  }

  /** A tree over all join nodes, of the search space, and no dearer than any other such tree. */
  ghost predicate IsCheapest(q: JoinGraph, c: Costs, binary: bool, plan: PlanTree) {
    Over(q, binary, plan, Elements(q.nodes)) &&
    forall t {:trigger Over(q, binary, t, Elements(q.nodes))} :: Over(q, binary, t, Elements(q.nodes)) ==>
      TreeCost(c, plan) <= TreeCost(c, t)
  }

  /** So it costs no more than any order of all join nodes with connected prefixes. */
  lemma NoOrderCheaper(q: JoinGraph, c: Costs, binary: bool, plan: PlanTree, o: seq<nat>)
    requires IsCheapest(q, c, binary, plan) && Order(q, o) && Elements(o) == Elements(q.nodes)
    ensures TreeCost(c, plan) <= OrderCost(c, o)
  {
    LeftDeepSpace(q, binary, c, o);
    assert Over(q, binary, LeftDeep(o), Elements(q.nodes));
  }

  lemma WholeSet(q: JoinGraph, key: Key)
    requires GraphOk(q) && IsKey(q, key, |q.nodes|) && |Elements(key)| == |q.nodes|
    ensures Elements(key) == Elements(q.nodes)
  {
    var a, b := Elements(key), Elements(q.nodes);
    assert a <= b;
    assert b == a + (b - a);
  }

  /** The plan of a key with a next node behind it. */
  lemma ExtendOk(q: JoinGraph, c: Costs, binary: bool, key: Key, best: Costed, v: nat)
    requires GraphOk(q) && IsKey(q, key, |key|) && v in Frontier(q, Elements(key)) && PlanOk(q, c, binary, key, best)
    ensures PlanOk(q, c, binary, With(key, v), Costed(Extend(best.tree, v), best.cost + c.step(key, v)))
    ensures |key| == 1 ==> PlanOk(q, c, binary, With(key, v), Costed(Pair(key[0], v), c.pair(key[0], v)))
  {
    WithKey(q, key, v);
    if |key| == 1 {
      assert key == [key[0]] && key[0] in Elements(key) && Elements(key) == {key[0]};
    }
  }

  lemma {:induction false} ScanLevel(q: JoinGraph, c: Costs, binary: bool, level: Level)
    requires GraphOk(q)
    requires forall key: Key :: key in level <==> |key| == 1 && key[0] in q.nodes
    requires forall key: Key :: key in level ==> level[key] == [Costed(ScanVar(key[0]), c.scan(key[0]))]
    ensures LevelOk(q, c, binary, true, level, 1)
  {
    forall key | key in level
      ensures IsKey(q, key, 1) && PlansOk(q, c, binary, key, level[key]) &&
              Cheapest(q, c, binary, true, key, level[key])
    {
      assert key == [key[0]];
      assert Elements(key) == {key[0]};
      SingleConnected(q, key[0]);
      ScanCheapest(q, c, binary, key, level[key]);
    }
    forall key | IsKey(q, key, 1)
      ensures key in level
    {
      assert key[0] in Elements(key);
    }
  }

  lemma ScanCheapest(q: JoinGraph, c: Costs, binary: bool, key: Key, plans: seq<Costed>)
    requires |key| == 1 && Elements(key) == {key[0]} && plans == [Costed(ScanVar(key[0]), c.scan(key[0]))]
    ensures Cheapest(q, c, binary, true, key, plans)
  {
    forall t | Over(q, binary, t, Elements(key))
      ensures Within(plans, TreeCost(c, t))
    {
      OnlyScan(q, binary, t, key[0]);
      assert plans[0] in plans && plans[0].cost <= TreeCost(c, t);
    }
  }

  lemma {:induction false} TreeNotEmpty(t: PlanTree)
    ensures TreeNodes(t) != {}
  {
    if t.JoinTrees? {
      TreeNotEmpty(t.left);
    }
  }

  /** Every other tree has two nodes. */
  lemma TwoNodes(q: JoinGraph, binary: bool, t: PlanTree) returns (x: nat, y: nat)
    requires InSpace(q, binary, t) && !t.ScanVar?
    ensures x in TreeNodes(t) && y in TreeNodes(t) && x != y
  {
    match t
    case Pair(a, b) => x, y := a, b;
    case Extend(left, u) =>
      TreeNotEmpty(left);
      var z :| z in TreeNodes(left);
      x, y := z, u;
    case JoinTrees(left, right, _) =>
      var z :| z in TreeNodes(left);
      assert TreeNodes(left) - {z} != {};
      var w :| w in TreeNodes(left) - {z};
      x, y := z, w;
  }

  lemma OnlyScan(q: JoinGraph, binary: bool, t: PlanTree, v: nat)
    requires InSpace(q, binary, t) && TreeNodes(t) == {v}
    ensures t == ScanVar(v)
  {
    if t.ScanVar? {
      assert t.v in {v};
    } else {
      var x, y := TwoNodes(q, binary, t);
      assert false;
    }
  }

  lemma ExceptOne<T>(all: set<T>, rest: set<T>, x: T)
    requires x in rest && rest <= all
    ensures all - rest + {x} == all - (rest - {x})
  {
  }

  /** OrderedVector::subtract: what is left of one vector without the other's nodes, in order. */
  function Subtract(a: Key, b: Key): Key {
    if a == [] then [] else (if a[0] in b then [] else [a[0]]) + Subtract(a[1..], b)
  }

  lemma {:induction false} SubtractMember(a: Key, b: Key, x: nat)
    ensures x in Subtract(a, b) <==> x in a && x !in b
  {
    if a != [] {
      SubtractMember(a[1..], b, x);
      assert a == [a[0]] + a[1..];
    }
  }

  lemma {:induction false} SubtractIncreasing(a: Key, b: Key)
    requires Increasing(a)
    ensures Increasing(Subtract(a, b))
  {
    if a != [] {
      SubtractIncreasing(a[1..], b);
      var rest := Subtract(a[1..], b);
      forall i | 0 <= i < |rest|
        ensures a[0] < rest[i]
      {
        SubtractMember(a[1..], b, rest[i]);
      }
      IncreasingCons(a[0], rest);
    }
  }

  lemma SubtractExact(a: Key, b: Key)
    requires Sorted(a)
    ensures Sorted(Subtract(a, b)) && Elements(Subtract(a, b)) == Elements(a) - Elements(b)
  {
    IncreasingSorted(a);
    SubtractIncreasing(a, b);
    IncreasingSorted(Subtract(a, b));
    forall x
      ensures x in Elements(Subtract(a, b)) <==> x in Elements(a) - Elements(b)
    {
      SubtractMember(a, b, x);
    }
  }

  /** OrderedVector::vec_set_union: the missing nodes appended, then sorted. */
  function Union(a: Key, b: set<nat>): Key {
    Sort(a + Subtract(SortedSeq(b), a))
  }

  lemma UnionExact(a: Key, b: set<nat>)
    requires Sorted(a)
    ensures Sorted(Union(a, b)) && Elements(Union(a, b)) == Elements(a) + b
  {
    var more := Subtract(SortedSeq(b), a);
    SortedSeqElements(b);
    SubtractExact(SortedSeq(b), a);
    IncreasingSorted(a);
    IncreasingSorted(more);
    NoDupSplit(a, more);
    SortIsSortedSeq(a + more);
    assert Elements(a + more) == Elements(a) + Elements(more);
    SortedSeqElements(Elements(a + more));
  }

  lemma SizeOfUnion(a: Key, b: set<nat>)
    requires Sorted(a) && Elements(a) !! b
    ensures |Union(a, b)| == |a| + |b|
  {
    UnionExact(a, b);
    KeySize(a);
    KeySize(Union(a, b));
  }

  class PlanGenerator {
    const q: JoinGraph
    const c: Costs
    const useBinaryJoin: bool
    var planCache: seq<Level>

    constructor (q: JoinGraph, c: Costs, useBinaryJoin: bool)
      ensures this.q == q && this.c == c && this.useBinaryJoin == useBinaryJoin && planCache == []
    {
      this.q, this.c, this.useBinaryJoin, planCache := q, c, useBinaryJoin, [];
    }

    /** The edges of these nodes that lead to join nodes outside. */
    method GetNeighborBySubPlanNodes(key: Key) returns (neighbors: set<nat>)
      requires GraphOk(q) && NodesOf(q, Elements(key))
      ensures neighbors == Frontier(q, Elements(key))
    {
      neighbors := {};
      var i := 0;
      while i < |key|
        invariant 0 <= i <= |key|
        invariant forall v :: v in neighbors <==> v in q.nodes && v !in key && Crossing(q, Elements(key[..i]), {v})
      {
        assert key[i] in Elements(key);
        var found := OutsideNeighbors(key[i], key);
        forall v
          ensures Crossing(q, Elements(key[..i + 1]), {v}) <==>
                  Crossing(q, Elements(key[..i]), {v}) || Adj(q, key[i], v)
        {
          assert Elements(key[..i + 1]) == Elements(key[..i]) + {key[i]};
        }
        neighbors := neighbors + found;
        i := i + 1;
      }
      assert key[..|key|] == key;
    }

    method OutsideNeighbors(node: nat, key: Key) returns (found: set<nat>)
      requires node in q.nei
      ensures forall v :: v in found <==> v in q.nodes && v !in key && Adj(q, node, v)
    {
      found := {};
      var edges := q.nei[node];
      var j := 0;
      while j < |edges|
        invariant 0 <= j <= |edges|
        invariant forall v :: v in found <==> v in q.nodes && v !in key && VarNei(v) in edges[..j]
      {
        if edges[j].VarNei? && edges[j].id in q.nodes && edges[j].id !in key {
          found := found + {edges[j].id};
        }
        j := j + 1;
      }
      assert edges[..|edges|] == edges;
    }

    /** The nodes of a plan next to the other nodes. */
    method GetJoinNodes(planNodes: Key, others: Key) returns (joinNodes: set<nat>)
      requires GraphOk(q) && NodesOf(q, Elements(others))
      ensures joinNodes == JoinNodes(q, Elements(planNodes), Elements(others))
    {
      joinNodes := {};
      var i := 0;
      while i < |others|
        invariant 0 <= i <= |others|
        invariant forall v :: v in joinNodes <==> v in planNodes && Crossing(q, Elements(others[..i]), {v})
      {
        assert others[i] in Elements(others);
        var found := InsideNeighbors(others[i], planNodes);
        forall v
          ensures Crossing(q, Elements(others[..i + 1]), {v}) <==>
                  Crossing(q, Elements(others[..i]), {v}) || Adj(q, others[i], v)
        {
          assert Elements(others[..i + 1]) == Elements(others[..i]) + {others[i]};
        }
        joinNodes := joinNodes + found;
        i := i + 1;
      }
      assert others[..|others|] == others;
    }

    method InsideNeighbors(node: nat, key: Key) returns (found: set<nat>)
      requires node in q.nei
      ensures forall v :: v in found <==> v in key && Adj(q, node, v)
    {
      found := {};
      var edges := q.nei[node];
      var j := 0;
      while j < |edges|
        invariant 0 <= j <= |edges|
        invariant forall v :: v in found <==> v in key && VarNei(v) in edges[..j]
      {
        if edges[j].VarNei? && edges[j].id in key {
          found := found + {edges[j].id};
        }
        j := j + 1;
      }
      assert edges[..|edges|] == edges;
    }

    method InsertThisPlanToCache(plan: Costed, key: Key, varNum: nat)
      requires 0 < varNum <= |planCache| + 1
      modifies this
      ensures var next := AddPlan(LevelOf(old(planCache), varNum), key, plan);
              planCache == if old(|planCache|) < varNum then old(planCache) + [next]
              else old(planCache)[varNum - 1 := next]
    {
      assert [] + [plan] == [plan];
      if |planCache| < varNum {
        planCache := planCache + [map[key := [plan]]];
      } else if key !in planCache[varNum - 1] {
        planCache := planCache[varNum - 1 := planCache[varNum - 1][key := [plan]]];
      } else {
        planCache := planCache[varNum - 1 := planCache[varNum - 1][key := planCache[varNum - 1][key] + [plan]]];
      }
    }

    method GetBestPlanByNodes(key: Key) returns (best: Option<Costed>)
      requires 1 <= |key| <= |planCache| && key in planCache[|key| - 1]
      ensures best.Some? ==> best.value in planCache[|key| - 1][key]
      ensures forall p :: p in planCache[|key| - 1][key] ==> NoDearer(best, p.cost)
    {
      best := BestFrom(planCache[|key| - 1][key], None);
    }

    /** A scan of each join node. */
    method ConsiderVarScan()
      requires GraphOk(q) && q.nodes != [] && planCache == []
      modifies this
      ensures |planCache| == 1 && LevelOk(q, c, useBinaryJoin, true, planCache[0], 1)
    {
      var i := 0;
      while i < |q.nodes|
        invariant 0 <= i <= |q.nodes| && |planCache| == if i == 0 then 0 else 1
        invariant forall key: Key :: key in LevelOf(planCache, 1) <==> |key| == 1 && key[0] in q.nodes[..i]
        invariant forall key: Key :: key in LevelOf(planCache, 1) ==>
                    LevelOf(planCache, 1)[key] == [Costed(ScanVar(key[0]), c.scan(key[0]))]
      {
        var v := q.nodes[i];
        var plan := Costed(ScanVar(v), c.scan(v));
        assert forall key: Key :: |key| == 1 && key[0] == v ==> key == [v];
        if planCache == [] {
          planCache := [map[[v] := [plan]]];
        } else if [v] !in planCache[0] {
          planCache := [planCache[0][[v] := [plan]]];
        }
        i := i + 1;
      }
      ScanLevel(q, c, useBinaryJoin, planCache[0]);
    }

    /** One next node after the best plan of a key; for two nodes also the list of the edge's pairs. */
    method ExtendByNode(key: Key, best: Costed, v: nat, varNum: nat) returns (plan: Costed)
      requires 2 <= varNum <= |planCache| + 1
      requires GraphOk(q) && IsKey(q, key, varNum - 1) && v in Frontier(q, Elements(key)) &&
               PlanOk(q, c, useBinaryJoin, key, best)
      modifies this
      ensures PlanOk(q, c, useBinaryJoin, With(key, v), plan) && plan.cost <= best.cost + c.step(key, v)
      ensures varNum == 2 ==> plan.cost <= c.pair(key[0], v)
      ensures var next := AddPlan(LevelOf(old(planCache), varNum), With(key, v), plan);
              planCache == if old(|planCache|) < varNum then old(planCache) + [next]
              else old(planCache)[varNum - 1 := next]
    {
      ExtendOk(q, c, useBinaryJoin, key, best, v);
      plan := Costed(Extend(best.tree, v), best.cost + c.step(key, v));
      if varNum == 2 {
        var cost := c.pair(key[0], v);
        if cost < plan.cost {
          plan := Costed(Pair(key[0], v), cost);
        }
      }
      InsertThisPlanToCache(plan, With(key, v), varNum);
    }

    /** The same, as progress of the next level. */
    method ServeNode(key: Key, best: Costed, v: nat, varNum: nat, ghost before: seq<Level>, ghost prev: Level,
                     ghost done: set<Key>, ghost nodes: set<nat>)
      requires GraphOk(q) && varNum >= 2 && |before| == varNum - 1 && IsKey(q, key, varNum - 1) &&
               v in Frontier(q, Elements(key))
      requires done <= prev.Keys && Built(q, c, useBinaryJoin, before, planCache, prev, done)
      requires key in prev && ServedAll(c, prev, LevelOf(planCache, varNum), key, nodes)
      requires PlanOk(q, c, useBinaryJoin, key, best) && forall b :: b in prev[key] ==> best.cost <= b.cost
      modifies this
      ensures Built(q, c, useBinaryJoin, before, planCache, prev, done)
      ensures ServedAll(c, prev, LevelOf(planCache, varNum), key, nodes + {v})
    {
      ghost var level := LevelOf(planCache, varNum);
      var plan := ExtendByNode(key, best, v, varNum);
      BuiltNext(q, c, useBinaryJoin, before, level, prev, done, key, nodes, v, plan);
      assert LevelOf(planCache, varNum) == AddPlan(level, With(key, v), plan);
    }

    /** The best plan of a key with a plan in range. */
    method BestOf(key: Key) returns (best: Costed)
      requires 1 <= |key| <= |planCache| && key in planCache[|key| - 1] &&
               Within(PlansAt(planCache, key), LLONG_MAX - 1)
      ensures best in PlansAt(planCache, key) && forall p :: p in PlansAt(planCache, key) ==> best.cost <= p.cost
    {
      var found := GetBestPlanByNodes(key);
      best := found.value;
    }

    /** The best plan of a key of a level: there always is one. */
    method BestKept(key: Key, k: nat, ghost joins: bool) returns (best: Costed)
      requires GraphOk(q) && InRange(q, c) && 1 <= k <= |planCache| &&
               LevelOk(q, c, useBinaryJoin, joins, planCache[k - 1], k)
      requires key in planCache[k - 1]
      ensures IsKey(q, key, k) && PlanOk(q, c, useBinaryJoin, key, best) && best in planCache[k - 1][key]
      ensures forall p :: p in planCache[k - 1][key] ==> best.cost <= p.cost
    {
      KeyKept(q, c, useBinaryJoin, joins, planCache[k - 1], k, key);
      LevelInRange(q, c, useBinaryJoin, joins, planCache[k - 1], k, key);
      best := BestOf(key);
    }

    /** All next nodes of one key. */
    method ExtendKey(key: Key, varNum: nat, ghost before: seq<Level>, ghost prev: Level, ghost done: set<Key>)
      requires GraphOk(q) && InRange(q, c) && varNum >= 2 && |before| == varNum - 1
      requires prev == before[varNum - 2] && LevelOk(q, c, useBinaryJoin, true, prev, varNum - 1)
      requires key in prev && done <= prev.Keys && Built(q, c, useBinaryJoin, before, planCache, prev, done)
      modifies this
      ensures Built(q, c, useBinaryJoin, before, planCache, prev, done + {key})
    {
      assert planCache[varNum - 2] == prev;
      ghost var all := Frontier(q, Elements(key));
      KeyKept(q, c, useBinaryJoin, true, prev, varNum - 1, key);
      var neighbors := GetNeighborBySubPlanNodes(key);
      var best := BestKept(key, varNum - 1, true);
      while neighbors != {}
        invariant neighbors <= all
        invariant Built(q, c, useBinaryJoin, before, planCache, prev, done)
        invariant ServedAll(c, prev, LevelOf(planCache, varNum), key, all - neighbors)
      {
        var v :| v in neighbors;
        ServeNode(key, best, v, varNum, before, prev, done, all - neighbors);
        ExceptOne(all, neighbors, v);
        neighbors := neighbors - {v};
      }
      assert all - {} == all;
      BuiltKey(q, c, useBinaryJoin, before, planCache, prev, done, key);
    }

    /** One level more: every key of the level before with every node next to it. */
    method ConsiderWCOJoin(varNum: nat)
      requires GraphOk(q) && InRange(q, c) && Connected(q, Elements(q.nodes)) && 2 <= varNum <= |q.nodes|
      requires |planCache| == varNum - 1 && LevelsOk(q, c, useBinaryJoin, planCache, varNum - 1)
      modifies this
      ensures |planCache| == varNum && planCache[..varNum - 1] == old(planCache) &&
              CacheOk(q, c, useBinaryJoin, planCache)
    {
      ghost var before := planCache;
      var prev := planCache[varNum - 2];
      var todo := prev.Keys;
      while todo != {}
        invariant todo <= prev.Keys
        invariant Built(q, c, useBinaryJoin, before, planCache, prev, prev.Keys - todo)
      {
        var key :| key in todo;
        ExtendKey(key, varNum, before, prev, prev.Keys - todo);
        ExceptOne(prev.Keys, todo, key);
        todo := todo - {key};
      }
      assert prev.Keys - {} == prev.Keys;
      BuiltAll(q, c, useBinaryJoin, before, planCache, prev);
    }

    /** What a small plan leaves of a key: the other nodes and the join nodes. None exactly when the
        planner has no binary join for it. */
    method SplitKey(key: Key, small: Key, varNum: nat) returns (other: Option<(Key, set<nat>)>)
      requires GraphOk(q) && 5 <= varNum && IsKey(q, key, varNum) && IsKey(q, small, 3)
      ensures other.Some? ==> SplitsInto(q, key, small, other.value.0, other.value.1)
      ensures other.None? ==> forall b, common :: !SplitsInto(q, key, small, b, common)
    {
      if !(forall v :: v in small ==> v in key) {
        var v :| v in small && v !in key;
        assert v in Elements(small) && v !in Elements(key);
        NoneSplit(q, key, varNum, small);
        return None;
      }
      var others := Subtract(key, small);
      SubtractExact(key, small);
      var common := GetJoinNodes(small, others);
      if common == {} || |common| + |others| >= varNum - 1 {
        NoneSplit(q, key, varNum, small);
        return None;
      }
      HalvesExact(q, key, varNum, small, others, common);
      return Some((Union(others, common), common));
    }

    /** The same for keys of the cache. */
    method SplitCached(key: Key, small: Key) returns (other: Option<(Key, set<nat>)>)
      requires GraphOk(q) && |planCache| >= 5 && CacheOk(q, c, useBinaryJoin, planCache)
      requires key in planCache[|planCache| - 1] && small in planCache[2]
      ensures |key| == |planCache| && |small| == 3
      ensures other.Some? ==>
                SplitsInto(q, key, small, other.value.0, other.value.1) && 1 <= |other.value.0| < |planCache|
      ensures other.None? ==> Tried(q, c, planCache, key, small)
    {
      SmallKey(q, c, useBinaryJoin, planCache, small);
      other := SplitKey(key, small, |planCache|);
      if other.Some? {
        HalfSize(q, key, small, other.value.0, other.value.1);
      }
    }

    /** One small plan and the rest of the key's nodes: joined when that is cheaper than `smallest`,
        which is no less than the cost of some plan of the key. */
    method TryBinaryJoin(key: Key, small: Key, smallest: nat) returns (cost: nat, ghost added: Option<Costed>)
      requires GraphOk(q) && InRange(q, c) && useBinaryJoin && |planCache| >= 5 &&
               CacheOk(q, c, useBinaryJoin, planCache)
      requires key in planCache[|planCache| - 1] && small in planCache[2] && Within(PlansAt(planCache, key), smallest)
      modifies this
      ensures Added(q, c, useBinaryJoin, old(planCache), planCache, key, added)
      ensures Tried(q, c, planCache, key, small) && Within(PlansAt(planCache, key), cost)
    {
      cost, added := smallest, None;
      var other := SplitCached(key, small);
      if other.Some? {
        var b, common := other.value.0, other.value.1;
        if b in planCache[|b| - 1] {
          HalfWithin(q, c, useBinaryJoin, planCache, small);
          HalfWithin(q, c, useBinaryJoin, planCache, b);
          cost, added := JoinHalves(key, small, b, common, smallest);
        }
        MadeAdds(q, c, useBinaryJoin, old(planCache), planCache, key, small, b, common, added);
      }
    }

    /** The best plans of two halves joined. */
    method JoinHalves(key: Key, small: Key, b: Key, common: set<nat>, smallest: nat)
      returns (cost: nat, ghost added: Option<Costed>)
      requires 1 <= |key| == |planCache| && key in planCache[|key| - 1] && Within(PlansAt(planCache, key), smallest)
      requires 1 <= |small| < |planCache| && small in planCache[|small| - 1] &&
               Within(PlansAt(planCache, small), LLONG_MAX - 1)
      requires 1 <= |b| < |planCache| && b in planCache[|b| - 1] && Within(PlansAt(planCache, b), LLONG_MAX - 1)
      modifies this
      ensures Made(c, old(planCache), planCache, key, small, b, common, added) && Within(PlansAt(planCache, key), cost)
      ensures if added.None? then cost == smallest else cost == added.value.cost < smallest
    {
      cost, added := smallest, None;
      var p := BestOf(small);
      var r := BestOf(b);
      var now := c.join(small, b) + p.cost + r.cost;
      if now < smallest {
        var plan := Costed(JoinTrees(p.tree, r.tree, common), now);
        added := Some(plan);
        JoinMade(c, planCache, key, small, b, common, p, r);
        InsertThisPlanToCache(plan, key, |planCache|);
        assert planCache == WithPlan(old(planCache), key, plan);
        cost := now;
      } else {
        WithinMore(PlansAt(planCache, key), smallest, now);
        TriedBest(c, planCache, key, small, b, p, r);
      }
    }

    /** One trial keeps what all earlier ones established. */
    method TrySmallPlan(key: Key, small: Key, smallest: nat, ghost first: seq<Level>, ghost done: set<Key>,
                        ghost smalls: set<Key>) returns (cost: nat)
      requires GraphOk(q) && InRange(q, c) && useBinaryJoin && Trying(q, c, useBinaryJoin, first, planCache, done)
      requires key in planCache[|planCache| - 1] && small in planCache[2] && Within(PlansAt(planCache, key), smallest)
      requires AllTried(q, c, planCache, key, smalls)
      modifies this
      ensures Trying(q, c, useBinaryJoin, first, planCache, done) && Within(PlansAt(planCache, key), cost)
      ensures AllTried(q, c, planCache, key, smalls + {small})
    {
      ghost var before, added := planCache, None;
      SmallKey(q, c, useBinaryJoin, planCache, small);
      cost, added := TryBinaryJoin(key, small, smallest);
      AddedKeeps(q, c, useBinaryJoin, first, before, planCache, key, added, done, smalls);
      OneMoreTried(q, c, planCache, key, smalls, small);
    }

    /** All small plans of one size against one key. */
    method TrySmallPlans(key: Key, size: nat, smallest: nat, ghost first: seq<Level>, ghost done: set<Key>)
      returns (cost: nat)
      requires GraphOk(q) && InRange(q, c) && useBinaryJoin && size == 3 &&
               Trying(q, c, useBinaryJoin, first, planCache, done)
      requires key in planCache[|planCache| - 1] && Within(PlansAt(planCache, key), smallest)
      modifies this
      ensures Trying(q, c, useBinaryJoin, first, planCache, done + {key})
    {
      cost := smallest;
      var todo := planCache[size - 1].Keys;
      ghost var smalls := todo;
      while todo != {}
        invariant Trying(q, c, useBinaryJoin, first, planCache, done) && todo <= smalls == planCache[2].Keys
        invariant key in planCache[|planCache| - 1] && Within(PlansAt(planCache, key), cost)
        invariant AllTried(q, c, planCache, key, smalls - todo)
      {
        var small :| small in todo;
        cost := TrySmallPlan(key, small, cost, first, done, smalls - todo);
        ExceptOne(smalls, todo, small);
        todo := todo - {small};
      }
      assert smalls - {} == smalls;
      KeyTried(q, c, useBinaryJoin, first, planCache, key, done);
    }

    /** All small plans of every size tried for one key. */
    method TryKey(key: Key, varNum: nat, ghost first: seq<Level>, ghost done: set<Key>)
      requires GraphOk(q) && InRange(q, c) && useBinaryJoin && varNum == |planCache| &&
               Trying(q, c, useBinaryJoin, first, planCache, done)
      requires key in planCache[varNum - 1]
      modifies this
      ensures Trying(q, c, useBinaryJoin, first, planCache, done + {key})
    {
      var minSize := 3;
      var maxSize := if minSize < varNum - 2 then minSize else varNum - 2;
      var best := BestKept(key, varNum, false);
      var smallest := best.cost;
      var size := minSize;
      while size <= maxSize
        invariant size == 3 || size == 4
        invariant size == 3 ==> planCache == old(planCache) && Within(PlansAt(planCache, key), smallest)
        invariant size == 4 ==> Trying(q, c, useBinaryJoin, first, planCache, done + {key})
      {
        smallest := TrySmallPlans(key, size, smallest, first, done);
        size := size + 1;
      }
    }

    /** Binary joins with a small plan of three nodes, for every key of the last level. */
    method ConsiderBinaryJoin(varNum: nat)
      requires GraphOk(q) && InRange(q, c) && useBinaryJoin && 5 <= varNum == |planCache| &&
               CacheOk(q, c, useBinaryJoin, planCache)
      modifies this
      ensures |planCache| == varNum && LevelsOk(q, c, useBinaryJoin, planCache, varNum)
      ensures planCache[..varNum - 1] == old(planCache)[..varNum - 1] &&
              planCache[varNum - 1].Keys == old(planCache)[varNum - 1].Keys
    {
      var todo := planCache[varNum - 1].Keys;
      ghost var first, keys := planCache, todo;
      while todo != {}
        invariant Trying(q, c, useBinaryJoin, first, planCache, keys - todo) &&
                  todo <= keys == planCache[|planCache| - 1].Keys
      {
        var key :| key in todo;
        TryKey(key, varNum, first, keys - todo);
        ExceptOne(keys, todo, key);
        todo := todo - {key};
      }
      assert keys - {} == keys;
      JoinsCovered(q, c, useBinaryJoin, planCache);
    }

    /** The cheapest plan of a whole level. */
    method GetBestPlanByNum(totalVarNum: nat) returns (best: Option<Costed>)
      requires 1 <= totalVarNum <= |planCache|
      ensures BestIn(planCache[totalVarNum - 1], best)
    {
      best := None;
      var level := planCache[totalVarNum - 1];
      var todo := level.Keys;
      while todo != {}
        invariant todo <= level.Keys
        invariant best.Some? ==> best.value.cost < LLONG_MAX
        invariant best.Some? ==> exists key :: key in level && best.value in level[key]
        invariant forall key, p :: key in level && key !in todo && p in level[key] ==> NoDearer(best, p.cost)
      {
        var key :| key in todo;
        best := BestFrom(level[key], best);
        todo := todo - {key};
      }
    }

    /** The levels of the dynamic program, up to all join nodes. */
    method FillCache()
      requires GraphOk(q) && InRange(q, c) && q.nodes != [] && Connected(q, Elements(q.nodes)) && planCache == []
      modifies this
      ensures |planCache| == |q.nodes| && LevelsOk(q, c, useBinaryJoin, planCache, |q.nodes|)
    {
      ConsiderVarScan();
      var varNum := 2;
      while varNum <= |q.nodes|
        invariant 2 <= varNum <= |q.nodes| + 1 && |planCache| == varNum - 1 &&
                  LevelsOk(q, c, useBinaryJoin, planCache, varNum - 1)
      {
        ConsiderWCOJoin(varNum);
        if useBinaryJoin && varNum >= 5 {
          ConsiderBinaryJoin(varNum);
        } else {
          NoJoins(q, c, useBinaryJoin, planCache);
        }
        varNum := varNum + 1;
      }
    }

    /** The plan chosen is a cheapest tree of the whole search space over all join nodes. */
    method DPPlan() returns (plan: PlanTree)
      requires GraphOk(q) && InRange(q, c) && q.nodes != [] && Connected(q, Elements(q.nodes)) && planCache == []
      modifies this
      ensures |planCache| == |q.nodes| && LevelsOk(q, c, useBinaryJoin, planCache, |q.nodes|)
      ensures IsCheapest(q, c, useBinaryJoin, plan)
    {
      FillCache();
      var best := GetBestPlanByNum(|q.nodes|);
      WholeLevel(q, c, useBinaryJoin, planCache[|q.nodes| - 1], best);
      plan := best.value.tree;
    }
  }
}

/** The dynamic-programming planner: plans for ever larger connected sets of join nodes, level by
    level, and the best plan for all of them. */
module Planner {
  import opened Collections
  import opened JoinGraphs

  /** A node set as the cache is keyed by it: its nodes in increasing order. */
  type Key = seq<nat>

  datatype PlanTree =
    | ScanVar(v: nat)
    | Pair(a: nat, b: nat)
    | Extend(left: PlanTree, v: nat)
    | JoinTrees(left: PlanTree, right: PlanTree, common: set<nat>)

  datatype Costed = Costed(tree: PlanTree, cost: nat)

  type Level = map<Key, seq<Costed>>

  /** Estimated costs, whatever the estimates are: of a scan, of one more node after a node set,
      of listing both ends of an edge by its predicate, and of joining two tables. */
  datatype Costs = Costs(scan: nat -> nat, step: (Key, nat) -> nat, pair: (nat, nat) -> nat, join: (Key, Key) -> nat)

  const LLONG_MAX: nat := 0x7FFF_FFFF_FFFF_FFFF

  function TreeNodes(t: PlanTree): set<nat> {
    match t
    case ScanVar(v) => {v}
    case Pair(a, b) => {a, b}
    case Extend(left, v) => TreeNodes(left) + {v}
    case JoinTrees(left, right, _) => TreeNodes(left) + TreeNodes(right)
  }

  ghost function TreeCost(c: Costs, t: PlanTree): nat {
    match t
    case ScanVar(v) => c.scan(v)
    case Pair(a, b) => c.pair(a, b)
    case Extend(left, v) => TreeCost(c, left) + c.step(SortedSeq(TreeNodes(left)), v)
    case JoinTrees(left, right, _) =>
      c.join(SortedSeq(TreeNodes(left)), SortedSeq(TreeNodes(right))) + TreeCost(c, left) + TreeCost(c, right)
  }

  /** Two node sets split a query losslessly: they meet in `common`, and no edge runs between what
      is only in the one and what is only in the other. */
  ghost predicate Lossless(q: JoinGraph, a: set<nat>, b: set<nat>, common: set<nat>) {
    common == a * b && common != {} && !Crossing(q, a - common, b - common) && !Crossing(q, b - common, a - common)
  }

  ghost predicate TreeOk(q: JoinGraph, t: PlanTree) {
    match t
    case ScanVar(v) => v in q.nodes
    case Pair(a, b) => a in q.nodes && b in Frontier(q, {a})
    case Extend(left, v) => TreeOk(q, left) && v in Frontier(q, TreeNodes(left))
    case JoinTrees(left, right, common) =>
      TreeOk(q, left) && TreeOk(q, right) && Lossless(q, TreeNodes(left), TreeNodes(right), common)
  }

  /** The nodes of a adjacent to one of the others: where a binary join meets. */
  ghost function JoinNodes(q: JoinGraph, a: set<nat>, others: set<nat>): set<nat> {
    set v | v in a && Crossing(q, others, {v})
  }

  /** The halves of a binary join the planner tries: three nodes, and the others with the join nodes. */
  ghost predicate Halves(q: JoinGraph, a: set<nat>, b: set<nat>, common: set<nat>) {
    var others := b - a;
    |a| == 3 && |a + b| >= 5 && |b| < |a + b| - 1 &&
    common == JoinNodes(q, a, others) && common != {} && b == others + common
  }

  /** The trees the planner searches: any scan, pair list and extension by a neighbour, and the binary
      joins it tries. */
  ghost predicate InSpace(q: JoinGraph, binary: bool, t: PlanTree) {
    match t
    case ScanVar(v) => v in q.nodes
    case Pair(a, b) => a in q.nodes && b in Frontier(q, {a})
    case Extend(left, v) => InSpace(q, binary, left) && v in Frontier(q, TreeNodes(left))
    case JoinTrees(left, right, common) =>
      binary && InSpace(q, binary, left) && InSpace(q, binary, right) &&
      Halves(q, TreeNodes(left), TreeNodes(right), common)
  }

  lemma {:induction false} TreeConnected(q: JoinGraph, binary: bool, t: PlanTree)
    requires GraphOk(q) && InSpace(q, binary, t)
    ensures NodesOf(q, TreeNodes(t)) && Connected(q, TreeNodes(t))
  {
    match t
    case ScanVar(v) => SingleConnected(q, v);
    case Pair(a, b) =>
      SingleConnected(q, a);
      ConnectedGrow(q, {a}, b);
      assert {a} + {b} == {a, b};
    case Extend(left, v) =>
      TreeConnected(q, binary, left);
      ConnectedGrow(q, TreeNodes(left), v);
    case JoinTrees(left, right, common) =>
      TreeConnected(q, binary, left);
      TreeConnected(q, binary, right);
      var x :| x in common;
      assert x in TreeNodes(left) * TreeNodes(right);
      ConnectedUnion(q, TreeNodes(left), TreeNodes(right));
  }

  /** Every tree of the search space joins losslessly throughout. */
  lemma {:induction false} SpaceOk(q: JoinGraph, binary: bool, t: PlanTree)
    requires GraphOk(q) && InSpace(q, binary, t)
    ensures TreeOk(q, t)
  {
    match t
    case ScanVar(_) =>
    case Pair(_, _) =>
    case Extend(left, _) => SpaceOk(q, binary, left);
    case JoinTrees(left, right, common) =>
      SpaceOk(q, binary, left);
      SpaceOk(q, binary, right);
      TreeConnected(q, binary, t);
      HalvesLossless(q, TreeNodes(left), TreeNodes(right), common);
  }

  /** Any part of a node set, with the others and the join nodes, splits it losslessly. */
  lemma HalvesLossless(q: JoinGraph, a: set<nat>, b: set<nat>, common: set<nat>)
    requires GraphOk(q) && NodesOf(q, a + b) && common == JoinNodes(q, a, b - a) && common != {} &&
             b == (b - a) + common
    ensures Lossless(q, a, b, common)
  {
    assert b - common == b - a;
    assert a * b == common;
    forall x, y | x in b - a && y in a - common
      ensures !Adj(q, x, y) && !Adj(q, y, x)
    {
      assert !Crossing(q, b - a, {y});
      assert y in q.nodes && x in q.nodes;
    }
  }

  /** Every edge inside the whole lies wholly in one side of a lossless split. */
  lemma LosslessEdge(q: JoinGraph, a: set<nat>, b: set<nat>, common: set<nat>, x: nat, y: nat)
    requires Lossless(q, a, b, common) && x in a + b && y in a + b && Adj(q, x, y)
    ensures (x in a && y in a) || (x in b && y in b)
  {
    assert !Crossing(q, a - common, b - common) && !Crossing(q, b - common, a - common);
  }

  // ---------------------------------------------------------------- orders as trees

  /** What one order of the nodes costs when each is added to the ones before it. */
  ghost function OrderCost(c: Costs, o: seq<nat>): nat
    requires o != []
    decreases |o|
  {
    if |o| == 1 then c.scan(o[0])
    else OrderCost(c, o[..|o| - 1]) + c.step(SortedSeq(Elements(o[..|o| - 1])), o[|o| - 1])
  }

  /** The left-deep tree of an order. */
  function LeftDeep(o: seq<nat>): PlanTree
    requires o != []
  {
    if |o| == 1 then ScanVar(o[0]) else Extend(LeftDeep(o[..|o| - 1]), o[|o| - 1])
  }

  /** Every order with connected prefixes is a tree of the search space, at its cost. */
  lemma {:induction false} LeftDeepSpace(q: JoinGraph, binary: bool, c: Costs, o: seq<nat>)
    requires Order(q, o)
    ensures InSpace(q, binary, LeftDeep(o)) && !LeftDeep(o).JoinTrees?
    ensures TreeNodes(LeftDeep(o)) == Elements(o) && TreeCost(c, LeftDeep(o)) == OrderCost(c, o)
    decreases |o|
  {
    ElementsSnoc(o);
    if |o| == 1 {
      assert o[..0] == [];
    } else {
      LeftDeepSpace(q, binary, c, o[..|o| - 1]);
    }
  }

  /** The estimates stay in the range of the planner's cost type. */
  ghost predicate InRange(q: JoinGraph, c: Costs) {
    forall o: seq<nat> {:trigger Order(q, o)} :: Order(q, o) ==> OrderCost(c, o) < LLONG_MAX
  }

  // ---------------------------------------------------------------- what the cache holds

  ghost predicate IsKey(q: JoinGraph, key: Key, k: nat) {
    |key| == k && Sorted(key) && NodesOf(q, Elements(key)) && Connected(q, Elements(key))
  }

  ghost predicate PlanOk(q: JoinGraph, c: Costs, binary: bool, key: Key, p: Costed) {
    InSpace(q, binary, p.tree) && TreeNodes(p.tree) == Elements(key) && p.cost == TreeCost(c, p.tree)
  }

  ghost predicate PlansOk(q: JoinGraph, c: Costs, binary: bool, key: Key, plans: seq<Costed>) {
    forall p :: p in plans ==> PlanOk(q, c, binary, key, p)
  }

  /** Some plan costs no more than this bound. */
  ghost predicate Within(plans: seq<Costed>, bound: nat) {
    exists p :: p in plans && p.cost <= bound
  }

  /** No tree of the search space over these nodes is cheaper than every plan kept; with `joins`
      false, no tree that is not itself a binary join. */
  ghost predicate Cheapest(q: JoinGraph, c: Costs, binary: bool, joins: bool, key: Key, plans: seq<Costed>) {
    forall t {:trigger Over(q, binary, t, Elements(key))} ::
      Over(q, binary, t, Elements(key)) && (joins || !t.JoinTrees?) ==> Within(plans, TreeCost(c, t))
  }

  /** A tree of the search space over exactly these nodes. */
  ghost predicate Over(q: JoinGraph, binary: bool, t: PlanTree, nodes: set<nat>) {
    InSpace(q, binary, t) && TreeNodes(t) == nodes
  }

  ghost predicate Sound(q: JoinGraph, c: Costs, binary: bool, level: Level, k: nat) {
    forall key {:trigger IsKey(q, key, k)} {:trigger PlansOk(q, c, binary, key, level[key])} ::
      key in level ==> IsKey(q, key, k) && PlansOk(q, c, binary, key, level[key])
  }

  /** Level k: its keys are exactly the connected sets of k join nodes, and each has a cheapest tree. */
  ghost predicate LevelOk(q: JoinGraph, c: Costs, binary: bool, joins: bool, level: Level, k: nat) {
    Sound(q, c, binary, level, k) &&
    (forall key {:trigger IsKey(q, key, k)} :: IsKey(q, key, k) ==> key in level) &&
    (forall key {:trigger Cheapest(q, c, binary, joins, key, level[key])} :: key in level ==>
     Cheapest(q, c, binary, joins, key, level[key]))
  }

  /** The key of a node set with one node more, as the sort of the appended vector gives it. */
  function With(key: Key, v: nat): Key {
    Sort(key + [v])
  }

  ghost predicate Sorted(key: Key) {
    SortedSeq(Elements(key)) == key
  }

  lemma IncreasingSorted(key: Key)
    ensures Sorted(key) <==> Increasing(key)
  {
    SortedSeqIncreasing(Elements(key));
    if Increasing(key) {
      forall x
        ensures x in SortedSeq(Elements(key)) <==> x in key
      {
        SortedSeqMember(Elements(key), x);
      }
      IncreasingUnique(SortedSeq(Elements(key)), key);
    }
  }

  lemma KeySize(key: Key)
    requires Sorted(key)
    ensures |Elements(key)| == |key|
  {
    SortedSeqLength(Elements(key));
  }

  lemma WithExact(key: Key, v: nat)
    requires Sorted(key) && v !in key
    ensures Sorted(With(key, v)) && Elements(With(key, v)) == Elements(key) + {v} && |With(key, v)| == |key| + 1
  {
    var all := key + [v];
    IncreasingSorted(key);
    assert NoDup(all);
    SortIsSortedSeq(all);
    IncreasingSorted(Sort(all));
    assert Elements(all) == Elements(key) + {v};
    SortedSeqElements(Elements(all));
    KeySize(key);
    KeySize(Sort(all));
  }

  lemma WithKey(q: JoinGraph, key: Key, v: nat)
    requires GraphOk(q) && IsKey(q, key, |key|) && v in Frontier(q, Elements(key))
    ensures IsKey(q, With(key, v), |key| + 1) && Elements(With(key, v)) == Elements(key) + {v}
  {
    WithExact(key, v);
    ConnectedGrow(q, Elements(key), v);
  }

  lemma KeyOf(q: JoinGraph, s: set<nat>)
    requires NodesOf(q, s) && Connected(q, s)
    ensures IsKey(q, SortedSeq(s), |s|) && Elements(SortedSeq(s)) == s
  {
    SortedSeqElements(s);
    SortedSeqLength(s);
  }

  /** Node v was tried after this key: some plan is no dearer than any plan of the key and the step
      and, for the second node, than the pair list. */
  ghost predicate Served(c: Costs, prev: Level, level: Level, key: Key, v: nat)
    requires key in prev
  {
    With(key, v) in level &&
    (forall b :: b in prev[key] ==> Within(level[With(key, v)], b.cost + c.step(key, v))) &&
    (|key| == 1 ==> Within(level[With(key, v)], c.pair(key[0], v)))
  }

  lemma ServedWithin(c: Costs, prev: Level, level: Level, key: Key, v: nat, bound: nat)
    requires key in prev && Served(c, prev, level, key, v) && Within(prev[key], bound)
    ensures With(key, v) in level && Within(level[With(key, v)], bound + c.step(key, v))
  {
    var b :| b in prev[key] && b.cost <= bound;
    var p :| p in level[With(key, v)] && p.cost <= b.cost + c.step(key, v);
  }

  /** Serving every node next to every key of the level before makes a whole level. */
  ghost predicate AllServed(q: JoinGraph, c: Costs, prev: Level, level: Level, keys: set<Key>)
    requires keys <= prev.Keys
  {
    forall key, v :: key in keys && v in Frontier(q, Elements(key)) ==> Served(c, prev, level, key, v)
  }

  lemma ServedKey(q: JoinGraph, c: Costs, binary: bool, prev: Level, level: Level, key: Key, k: nat)
    requires GraphOk(q) && k >= 1 && LevelOk(q, c, binary, true, prev, k) && AllServed(q, c, prev, level, prev.Keys)
    requires IsKey(q, key, k + 1)
    ensures key in level
  {
    var from, v := KeySteps(q, key, k);
    assert Served(c, prev, level, from, v);
  }

  /** Every key is a key of the level before and a node next to it. */
  lemma KeySteps(q: JoinGraph, key: Key, k: nat) returns (from: Key, v: nat)
    requires GraphOk(q) && k >= 1 && IsKey(q, key, k + 1)
    ensures IsKey(q, from, k) && With(from, v) == key && v in Frontier(q, Elements(from))
  {
    var s := Elements(key);
    KeySize(key);
    v := RemovableNode(q, s);
    from := SortedSeq(s - {v});
    assert s - {v} + {v} == s;
    KeyOf(q, s - {v});
    WithKey(q, from, v);
  }

  /** A connected set with a neighbour is a key of one level and a node next to it. */
  lemma KeyGrows(q: JoinGraph, key: Key, k: nat, s: set<nat>, v: nat)
    requires GraphOk(q) && IsKey(q, key, k + 1) && NodesOf(q, s) && Connected(q, s) && v in Frontier(q, s)
    requires s + {v} == Elements(key)
    ensures IsKey(q, SortedSeq(s), k) && Elements(SortedSeq(s)) == s && With(SortedSeq(s), v) == key
  {
    KeySize(key);
    KeyOf(q, s);
    WithKey(q, SortedSeq(s), v);
  }

  /** A tree that is not a scan and not a join has a plan within its cost on the next level. */
  lemma ServedTree(q: JoinGraph, c: Costs, binary: bool, prev: Level, level: Level, key: Key, k: nat, t: PlanTree)
    requires GraphOk(q) && k >= 1 && LevelOk(q, c, binary, true, prev, k) && AllServed(q, c, prev, level, prev.Keys)
    requires IsKey(q, key, k + 1) && InSpace(q, binary, t) && !t.JoinTrees? && TreeNodes(t) == Elements(key)
    ensures key in level && Within(level[key], TreeCost(c, t))
  {
    KeySize(key);
    match t
    case ScanVar(v) => assert false;
    case Pair(a, b) => ServedPair(q, c, binary, prev, level, key, k, a, b);
    case Extend(left, v) =>
      TreeConnected(q, binary, left);
      var s := TreeNodes(left);
      KeyGrows(q, key, k, s, v);
      assert Cheapest(q, c, binary, true, SortedSeq(s), prev[SortedSeq(s)]) &&
             Over(q, binary, left, Elements(SortedSeq(s)));
      assert Served(c, prev, level, SortedSeq(s), v);
      ServedWithin(c, prev, level, SortedSeq(s), v, TreeCost(c, left));
  }

  lemma ServedPair(q: JoinGraph, c: Costs, binary: bool, prev: Level, level: Level, key: Key, k: nat, a: nat, b: nat)
    requires GraphOk(q) && k >= 1 && LevelOk(q, c, binary, true, prev, k) && AllServed(q, c, prev, level, prev.Keys)
    requires IsKey(q, key, k + 1) && a in q.nodes && b in Frontier(q, {a}) && {a, b} == Elements(key)
    ensures key in level && Within(level[key], c.pair(a, b))
  {
    SingleConnected(q, a);
    assert {a} + {b} == {a, b};
    KeyGrows(q, key, k, {a}, b);
    var from := SortedSeq({a});
    KeySize(from);
    assert from[0] in Elements(from);
    assert Served(c, prev, level, from, b);
  }

  /** The induction step of the planner: completeness of the next level, and optimality for all trees
      that are not themselves a binary join. */
  lemma NextLevel(q: JoinGraph, c: Costs, binary: bool, prev: Level, level: Level, k: nat)
    requires GraphOk(q) && k >= 1 && LevelOk(q, c, binary, true, prev, k) && Sound(q, c, binary, level, k + 1)
    requires AllServed(q, c, prev, level, prev.Keys)
    ensures LevelOk(q, c, binary, false, level, k + 1)
  {
    forall key | IsKey(q, key, k + 1)
      ensures key in level
    {
      ServedKey(q, c, binary, prev, level, key, k);
    }
    forall key | key in level
      ensures Cheapest(q, c, binary, false, key, level[key])
    {
      forall t | Over(q, binary, t, Elements(key)) && !t.JoinTrees?
        ensures Within(level[key], TreeCost(c, t))
      {
        ServedTree(q, c, binary, prev, level, key, k, t);
      }
    }
  }

  // ---------------------------------------------------------------- adding plans

  function AddPlan(level: Level, key: Key, p: Costed): Level {
    level[key := (if key in level then level[key] else []) + [p]]
  }

  lemma AddPlanWithin(level: Level, key: Key, p: Costed, at: Key, bound: nat)
    requires at in level && Within(level[at], bound)
    ensures at in AddPlan(level, key, p) && Within(AddPlan(level, key, p)[at], bound)
  {
    var x :| x in level[at] && x.cost <= bound;
    assert x in AddPlan(level, key, p)[at];
  }

  lemma AddPlanServed(c: Costs, prev: Level, level: Level, key: Key, p: Costed, at: Key, v: nat)
    requires at in prev && Served(c, prev, level, at, v)
    ensures Served(c, prev, AddPlan(level, key, p), at, v)
  {
    forall b | b in prev[at]
      ensures Within(AddPlan(level, key, p)[With(at, v)], b.cost + c.step(at, v))
    {
      AddPlanWithin(level, key, p, With(at, v), b.cost + c.step(at, v));
    }
    if |at| == 1 {
      AddPlanWithin(level, key, p, With(at, v), c.pair(at[0], v));
    }
  }

  lemma AddPlanSound(q: JoinGraph, c: Costs, binary: bool, level: Level, k: nat, key: Key, p: Costed)
    requires Sound(q, c, binary, level, k) && IsKey(q, key, k) && PlanOk(q, c, binary, key, p)
    ensures Sound(q, c, binary, AddPlan(level, key, p), k)
  {
  }

  lemma AddPlanCheapest(q: JoinGraph, c: Costs, binary: bool, joins: bool, level: Level, key: Key, p: Costed, at: Key)
    requires at in level && Cheapest(q, c, binary, joins, at, level[at])
    ensures at in AddPlan(level, key, p) && Cheapest(q, c, binary, joins, at, AddPlan(level, key, p)[at])
  {
    forall t | Over(q, binary, t, Elements(at)) && (joins || !t.JoinTrees?)
      ensures Within(AddPlan(level, key, p)[at], TreeCost(c, t))
    {
      AddPlanWithin(level, key, p, at, TreeCost(c, t));
    }
  }

  /** A sound plan more for a key of a level leaves it as whole as it was. */
  lemma AddPlanLevel(q: JoinGraph, c: Costs, binary: bool, joins: bool, level: Level, k: nat, key: Key, p: Costed)
    requires LevelOk(q, c, binary, joins, level, k) && key in level && PlanOk(q, c, binary, key, p)
    ensures LevelOk(q, c, binary, joins, AddPlan(level, key, p), k) && AddPlan(level, key, p).Keys == level.Keys
  {
    AddPlanSound(q, c, binary, level, k, key, p);
    forall at | at in level
      ensures Cheapest(q, c, binary, joins, at, AddPlan(level, key, p)[at])
    {
      AddPlanCheapest(q, c, binary, joins, level, key, p, at);
    }
  }

  lemma KeyKept(q: JoinGraph, c: Costs, binary: bool, joins: bool, level: Level, k: nat, key: Key)
    requires LevelOk(q, c, binary, joins, level, k) && key in level
    ensures IsKey(q, key, k) && PlansOk(q, c, binary, key, level[key])
  {
    assert IsKey(q, key, k);
  }

  /** Every key of a level has a plan in range. */
  lemma LevelInRange(q: JoinGraph, c: Costs, binary: bool, joins: bool, level: Level, k: nat, key: Key)
    requires GraphOk(q) && InRange(q, c) && LevelOk(q, c, binary, joins, level, k) && key in level
    ensures Within(level[key], LLONG_MAX - 1)
  {
    KeyKept(q, c, binary, joins, level, k, key);
    var o := OrderExists(q, Elements(key));
    LeftDeepSpace(q, binary, c, o);
    assert Cheapest(q, c, binary, joins, key, level[key]) && Over(q, binary, LeftDeep(o), Elements(key));
    var p :| p in level[key] && p.cost <= OrderCost(c, o);
  }

  /** Each level of a connected query has some key. */
  lemma LevelNotEmpty(q: JoinGraph, c: Costs, binary: bool, joins: bool, level: Level, k: nat)
    requires GraphOk(q) && Connected(q, Elements(q.nodes)) && 1 <= k <= |q.nodes|
    requires LevelOk(q, c, binary, joins, level, k)
    ensures level != map[]
  {
    var part := ConnectedPart(q, Elements(q.nodes), k);
    KeyOf(q, part);
    assert SortedSeq(part) in level;
  }
}

/** Intermediate tables, and what one step of a plan does to one row of a table. */
module Tables {
  import opened Collections
  import opened Rdf

  type Row = seq<Id>

  /** `cols[i]` is the variable of column i; an id-to-position map is its inverse. */
  datatype Table = Table(cols: seq<nat>, rows: seq<Row>)

  /** Candidate ids of some variables, each list in order. */
  type Caches = map<nat, seq<Id>>

  ghost predicate CachesOrdered(caches: Caches) {
    forall v :: v in caches ==> Increasing(caches[v])
  }

  /** The mapping a row stands for. */
  function Bind(cols: seq<nat>, row: Row): (mu: Binding)
    requires |cols| <= |row|
    ensures mu.Keys == Elements(cols)
  {
    map v | v in Elements(cols) :: row[Pos(cols, v)]
  }

  /** The row of a mapping. */
  function RowOf(cols: seq<nat>, mu: Binding): (row: Row)
    requires Elements(cols) <= mu.Keys
    ensures |row| == |cols|
  {
    seq(|cols|, i requires 0 <= i < |cols| => assert cols[i] in Elements(cols); mu[cols[i]])
  }

  lemma BindAt(cols: seq<nat>, row: Row, i: nat)
    requires NoDup(cols) && |cols| <= |row| && i < |cols|
    ensures cols[i] in Bind(cols, row) && Bind(cols, row)[cols[i]] == row[i]
  {
    assert Pos(cols, cols[i]) == i;
  }

  lemma RowRoundTrip(cols: seq<nat>, row: Row)
    requires NoDup(cols) && |cols| == |row|
    ensures RowOf(cols, Bind(cols, row)) == row
  {
    forall i | 0 <= i < |cols|
      ensures RowOf(cols, Bind(cols, row))[i] == row[i]
    {
      BindAt(cols, row, i);
    }
  }

  lemma BindRoundTrip(cols: seq<nat>, mu: Binding)
    requires mu.Keys == Elements(cols)
    ensures Bind(cols, RowOf(cols, mu)) == mu
  {
    forall v | v in Elements(cols)
      ensures Bind(cols, RowOf(cols, mu))[v] == mu[v]
    {
      assert cols[Pos(cols, v)] == v;
    }
  }

  lemma BindAppendAt(cols: seq<nat>, row: Row, more: seq<nat>, x: seq<Id>, i: nat)
    requires NoDup(cols + more) && |cols| == |row| && |more| <= |x| && i < |cols| + |more|
    requires NoDup(cols) && NoDup(more) && Elements(cols) !! Elements(more)
    ensures var v := (cols + more)[i];
            v in Bind(cols + more, row + x) && v in Bind(cols, row) + Bind(more, x) &&
            Bind(cols + more, row + x)[v] == (Bind(cols, row) + Bind(more, x))[v]
  {
    BindAt(cols + more, row + x, i);
    if i < |cols| {
      BindAt(cols, row, i);
      assert cols[i] in Elements(cols);
    } else {
      BindAt(more, x, i - |cols|);
    }
  }

  lemma BindAppend(cols: seq<nat>, row: Row, more: seq<nat>, x: seq<Id>)
    requires NoDup(cols + more) && |cols| == |row| && |more| <= |x|
    ensures Bind(cols + more, row + x) == Bind(cols, row) + Bind(more, x)
  {
    var all := cols + more;
    NoDupSplit(cols, more);
    assert Elements(all) == Elements(cols) + Elements(more);
    forall v | v in Elements(all)
      ensures Bind(all, row + x)[v] == (Bind(cols, row) + Bind(more, x))[v]
    {
      BindAppendAt(cols, row, more, x, Pos(all, v));
    }
  }

  // ---------------------------------------------------------------- sorted lists

  /** What intersecting two sorted lists leaves: repeated ids count as in bags. */
  function Intersect(a: seq<Id>, b: seq<Id>): seq<Id>
    decreases |a| + |b|
  {
    if a == [] || b == [] then []
    else if a[0] < b[0] then Intersect(a[1..], b)
    else if b[0] < a[0] then Intersect(a, b[1..])
    else [a[0]] + Intersect(a[1..], b[1..])
  }

  lemma {:induction false} IntersectMember(a: seq<Id>, b: seq<Id>, c: Id)
    requires Ordered(a) && Ordered(b)
    ensures c in Intersect(a, b) <==> c in a && c in b
    decreases |a| + |b|
  {
    if a != [] && b != [] {
      assert a == [a[0]] + a[1..] && b == [b[0]] + b[1..];
      if a[0] < b[0] {
        IntersectMember(a[1..], b, c);
      } else if b[0] < a[0] {
        IntersectMember(a, b[1..], c);
      } else {
        IntersectMember(a[1..], b[1..], c);
      }
    }
  }

  lemma {:induction false} IntersectOrdered(a: seq<Id>, b: seq<Id>)
    requires Ordered(a) && Ordered(b)
    ensures Ordered(Intersect(a, b))
    decreases |a| + |b|
  {
    if a != [] && b != [] {
      if a[0] < b[0] {
        IntersectOrdered(a[1..], b);
      } else if b[0] < a[0] {
        IntersectOrdered(a, b[1..]);
      } else {
        IntersectOrdered(a[1..], b[1..]);
        IntersectAbove(a[1..], b[1..], a[0]);
        OrderedCons(a[0], Intersect(a[1..], b[1..]));
      }
    }
  }

  lemma {:induction false} IntersectAbove(a: seq<Id>, b: seq<Id>, low: nat)
    requires Ordered(a) && Ordered(b)
    ensures (forall x :: x in a ==> low <= x) ==> forall i :: 0 <= i < |Intersect(a, b)| ==> low <= Intersect(a, b)[i]
    ensures (forall x :: x in a ==> low < x) || (forall x :: x in b ==> low < x) ==>
            forall i :: 0 <= i < |Intersect(a, b)| ==> low < Intersect(a, b)[i]
  {
    var r := Intersect(a, b);
    forall i | 0 <= i < |r|
      ensures r[i] in a && r[i] in b
    {
      IntersectMember(a, b, r[i]);
    }
  }

  lemma {:induction false} IntersectIncreasing(a: seq<Id>, b: seq<Id>)
    requires Ordered(a) && Ordered(b)
    requires Increasing(a) || Increasing(b)
    ensures Increasing(Intersect(a, b))
    decreases |a| + |b|
  {
    if a != [] && b != [] {
      if a[0] < b[0] {
        IntersectIncreasing(a[1..], b);
      } else if b[0] < a[0] {
        IntersectIncreasing(a, b[1..]);
      } else {
        IntersectIncreasing(a[1..], b[1..]);
        IntersectAbove(a[1..], b[1..], a[0]);
      }
    }
  }

  // ---------------------------------------------------------------- steps

  /** An edge of the query with the way a step uses it. */
  datatype Edge = Edge(pat: Pattern, how: JoinMethod)

  datatype PairMethod = S2PO | P2SO | O2PS

  datatype Step =
    | ExtendOne(v: nat, edges: seq<Edge>, distinct: bool)
    | ExtendTwo(v1: nat, v2: nat, pat: Pattern, via: PairMethod)
    | Satellite(v: nat, edges: seq<Edge>, distinct: bool)
    | Check(edges: seq<Edge>)

  function PairSlots(m: PairMethod): (Slot, Slot, Slot) {
    match m case S2PO => (S, P, O) case P2SO => (P, S, O) case O2PS => (O, P, S)
  }

  function NewCols(st: Step): seq<nat> {
    match st
    case ExtendOne(v, _, _) => [v]
    case ExtendTwo(v1, v2, _, _) => [v1, v2]
    case Satellite(_, _, _) => []
    case Check(_) => []
  }

  function SeenEdges(edges: seq<Edge>): set<Pattern> {
    set e | e in edges :: Seen(e.pat, e.how)
  }

  /** The patterns a step enforces. */
  function StepPatterns(st: Step): set<Pattern> {
    if st.ExtendTwo? then {st.pat} else SeenEdges(st.edges)
  }

  predicate Known(x: Item, cols: set<nat>) {
    x.Constant? || (x.Variable? && x.v in cols)
  }

  predicate GivenKnown(e: Edge, cols: set<nat>) {
    Known(Part(e.pat, Given(e.how).0), cols) && Known(Part(e.pat, Given(e.how).1), cols)
  }

  predicate EdgeInto(e: Edge, v: nat, cols: set<nat>) {
    Part(e.pat, Target(e.how)) == Variable(v) && GivenKnown(e, cols)
  }

  predicate EdgeInside(e: Edge, cols: set<nat>) {
    Known(Part(e.pat, Target(e.how)), cols) && GivenKnown(e, cols)
  }

  /** A step the executor can run on a table with these columns: an extension carries at
      least one edge, and every edge is between the new variable and what is placed. */
  predicate StepOk(st: Step, cols: set<nat>) {
    match st
    case ExtendOne(v, edges, _) => v !in cols && edges != [] && forall e :: e in edges ==> EdgeInto(e, v, cols)
    case Satellite(v, edges, _) => v !in cols && edges != [] && forall e :: e in edges ==> EdgeInto(e, v, cols)
    case ExtendTwo(v1, v2, pat, via) =>
      var (k, k1, k2) := PairSlots(via);
      v1 != v2 && v1 !in cols && v2 !in cols && Known(Part(pat, k), cols) &&
      Part(pat, k1) == Variable(v1) && Part(pat, k2) == Variable(v2)
    case Check(edges) => forall e :: e in edges ==> EdgeInside(e, cols)
  }

  lemma NewColsNoDup(st: Step, cols: seq<nat>)
    requires NoDup(cols) && StepOk(st, Elements(cols))
    ensures NoDup(cols + NewCols(st))
  {
    NoDupSplit(cols, NewCols(st));
  }

  predicate EdgesReady(edges: seq<Edge>, mu: Binding) {
    forall e :: e in edges ==> Ready(e.pat, e.how, mu)
  }

  function MeetFrom(g: Graph, acc: seq<Id>, edges: seq<Edge>, mu: Binding, distinct: bool): seq<Id>
    requires EdgesReady(edges, mu)
    decreases |edges|
  {
    if edges == [] then acc
    else
      var l := EdgeList(g, edges[0].pat, edges[0].how, mu, distinct);
      MeetFrom(g, Intersect(acc, l), edges[1..], mu, distinct)
  }

  /** The candidates of a new variable for one row: what the lists of all edges share,
      cut down to the variable's cache. */
  function Candidates(g: Graph, caches: Caches, v: nat, edges: seq<Edge>, distinct: bool, mu: Binding): seq<Id>
    requires EdgesReady(edges, mu)
  {
    var met := if edges == [] then []
               else MeetFrom(g, EdgeList(g, edges[0].pat, edges[0].how, mu, distinct), edges[1..], mu, distinct);
    if v in caches then Intersect(met, caches[v]) else met
  }

  predicate InCache(caches: Caches, v: nat, c: Id) {
    v in caches ==> c in caches[v]
  }

  predicate PairKept(caches: Caches, v1: nat, v2: nat, pair: seq<Id>) {
    |pair| == 2 && InCache(caches, v1, pair[0]) && InCache(caches, v2, pair[1])
  }

  function FilterPairs(caches: Caches, v1: nat, v2: nat, ps: seq<seq<Id>>): seq<seq<Id>> {
    if ps == [] then []
    else
      var last := ps[|ps| - 1];
      FilterPairs(caches, v1, v2, ps[..|ps| - 1]) + if PairKept(caches, v1, v2, last) then [last] else []
  }

  predicate StepReady(st: Step, mu: Binding) {
    match st
    case ExtendOne(_, edges, _) => EdgesReady(edges, mu)
    case Satellite(_, edges, _) => EdgesReady(edges, mu)
    case ExtendTwo(_, _, pat, via) => Ground(Part(pat, PairSlots(via).0), mu)
    case Check(edges) => EdgesReady(edges, mu) && forall e :: e in edges ==> Ground(Part(e.pat, Target(e.how)), mu)
  }

  predicate EdgePasses(g: Graph, e: Edge, mu: Binding) {
    Ready(e.pat, e.how, mu) && Ground(Part(e.pat, Target(e.how)), mu) &&
    Val(Part(e.pat, Target(e.how)), mu) in EdgeList(g, e.pat, e.how, mu, true)
  }

  function PairsOf(g: Graph, pat: Pattern, via: PairMethod, mu: Binding): seq<seq<Id>>
    requires Ground(Part(pat, PairSlots(via).0), mu)
  {
    var (k, k1, k2) := PairSlots(via);
    Pairs(g, k, Val(Part(pat, k), mu), k1, k2)
  }

  function Singles(ids: seq<Id>): (r: seq<seq<Id>>)
    ensures |r| == |ids|
  {
    seq(|ids|, i requires 0 <= i < |ids| => [ids[i]])
  }

  lemma SinglesMember(ids: seq<Id>, x: seq<Id>)
    ensures x in Singles(ids) <==> |x| == 1 && x[0] in ids
  {
    if |x| == 1 && x[0] in ids {
      assert Singles(ids)[Pos(ids, x[0])] == x;
    }
  }

  function Empties(n: nat): (r: seq<seq<Id>>)
    ensures |r| == n
  {
    seq(n, i => [])
  }

  /** What a step appends to one row: one result row per entry. */
  function Exts(g: Graph, caches: Caches, st: Step, mu: Binding): seq<seq<Id>>
    requires StepReady(st, mu)
  {
    match st
    case ExtendOne(v, edges, distinct) =>
      Singles(Candidates(g, caches, v, edges, distinct, mu))
    case ExtendTwo(v1, v2, pat, via) => FilterPairs(caches, v1, v2, PairsOf(g, pat, via, mu))
    case Satellite(v, edges, distinct) =>
      var c := Candidates(g, caches, v, edges, distinct, mu);
      Empties(if !distinct then |c| else if c == [] then 0 else 1)
    case Check(edges) => if forall e :: e in edges ==> EdgePasses(g, e, mu) then [[]] else []
  }

  function Grow(row: Row, exts: seq<seq<Id>>): (r: seq<Row>)
    ensures |r| == |exts|
  {
    seq(|exts|, i requires 0 <= i < |exts| => row + exts[i])
  }

  ghost predicate RowsFit(cols: seq<nat>, rows: seq<Row>) {
    forall r :: r in rows ==> |r| == |cols|
  }

  lemma OkReady(st: Step, mu: Binding)
    requires StepOk(st, mu.Keys)
    ensures StepReady(st, mu)
  {
  }

  /** A step on one row. */
  function RowRun(g: Graph, caches: Caches, st: Step, cols: seq<nat>, row: Row): seq<Row> {
    if |row| == |cols| && StepReady(st, Bind(cols, row)) then Grow(row, Exts(g, caches, st, Bind(cols, row))) else []
  }

  function Stepper(g: Graph, caches: Caches, st: Step, cols: seq<nat>): Row -> seq<Row> {
    row => RowRun(g, caches, st, cols, row)
  }

  /** A step on a whole table: its rows in order, each replaced by its extensions. */
  function Run(g: Graph, caches: Caches, st: Step, cols: seq<nat>, rows: seq<Row>): seq<Row> {
    FlatMap(Stepper(g, caches, st, cols), rows)
  }

  // ---------------------------------------------------------------- what a step means

  ghost predicate CachesHold(caches: Caches, vs: seq<nat>, mu: Binding) {
    forall v :: v in vs ==> v in mu && InCache(caches, v, mu[v])
  }

  lemma {:induction false} MeetFromOrdered(g: Graph, acc: seq<Id>, edges: seq<Edge>, mu: Binding, distinct: bool)
    requires EdgesReady(edges, mu) && Ordered(acc)
    ensures Ordered(MeetFrom(g, acc, edges, mu, distinct))
    decreases |edges|
  {
    if edges != [] {
      var l := EdgeList(g, edges[0].pat, edges[0].how, mu, distinct);
      EdgeListOrdered(g, edges[0].pat, edges[0].how, mu, distinct);
      IntersectOrdered(acc, l);
      MeetFromOrdered(g, Intersect(acc, l), edges[1..], mu, distinct);
    }
  }

  ghost predicate Listed(g: Graph, e: Edge, mu: Binding, distinct: bool, c: Id) {
    Ready(e.pat, e.how, mu) && c in EdgeList(g, e.pat, e.how, mu, distinct)
  }

  lemma ListedCons(g: Graph, edges: seq<Edge>, mu: Binding, distinct: bool, c: Id)
    requires edges != []
    ensures (forall e :: e in edges ==> Listed(g, e, mu, distinct, c)) <==>
            Listed(g, edges[0], mu, distinct, c) && forall e :: e in edges[1..] ==> Listed(g, e, mu, distinct, c)
  {
    assert edges == [edges[0]] + edges[1..];
  }

  lemma {:induction false} MeetFromExact(g: Graph, acc: seq<Id>, edges: seq<Edge>, mu: Binding, distinct: bool, c: Id)
    requires EdgesReady(edges, mu) && Ordered(acc)
    ensures c in MeetFrom(g, acc, edges, mu, distinct) <==>
            c in acc && forall e :: e in edges ==> Listed(g, e, mu, distinct, c)
    decreases |edges|
  {
    if edges != [] {
      var l := EdgeList(g, edges[0].pat, edges[0].how, mu, distinct);
      EdgeListOrdered(g, edges[0].pat, edges[0].how, mu, distinct);
      IntersectOrdered(acc, l);
      IntersectMember(acc, l, c);
      MeetFromExact(g, Intersect(acc, l), edges[1..], mu, distinct, c);
      ListedCons(g, edges, mu, distinct, c);
    }
  }

  /** Candidates are exactly the ids every edge and the cache accept. */
  lemma CandidatesExact(g: Graph, caches: Caches, v: nat, edges: seq<Edge>, distinct: bool, mu: Binding, c: Id)
    requires EdgesReady(edges, mu) && edges != [] && CachesOrdered(caches)
    ensures c in Candidates(g, caches, v, edges, distinct, mu) <==>
            InCache(caches, v, c) && forall e :: e in edges ==> Listed(g, e, mu, distinct, c)
  {
    var first := EdgeList(g, edges[0].pat, edges[0].how, mu, distinct);
    var met := MeetFrom(g, first, edges[1..], mu, distinct);
    EdgeListOrdered(g, edges[0].pat, edges[0].how, mu, distinct);
    MeetFromExact(g, first, edges[1..], mu, distinct, c);
    MeetFromOrdered(g, first, edges[1..], mu, distinct);
    ListedCons(g, edges, mu, distinct, c);
    if v in caches {
      IntersectMember(met, caches[v], c);
    }
  }

  /** For a variable not yet placed, listing an id means the edge holds once it is bound. */
  lemma EdgeIntoExact(g: Graph, e: Edge, v: nat, mu: Binding, distinct: bool, c: Id)
    requires v !in mu && EdgeInto(e, v, mu.Keys)
    ensures c in EdgeList(g, e.pat, e.how, mu, distinct) <==> Holds(g, Seen(e.pat, e.how), mu[v := c])
  {
    EdgeListMember(g, e.pat, e.how, mu, distinct, c);
    var seen := Seen(e.pat, e.how);
    var filled := With(seen, Target(e.how), Constant(c));
    assert Part(seen, Target(e.how)) == Variable(v);
    assert forall t :: Matches(filled, mu, t) == Matches(seen, mu[v := c], t);
  }

  lemma EdgePassesExact(g: Graph, e: Edge, mu: Binding)
    requires EdgeInside(e, mu.Keys)
    ensures EdgePasses(g, e, mu) <==> Holds(g, Seen(e.pat, e.how), mu)
  {
    var c := Val(Part(e.pat, Target(e.how)), mu);
    EdgeListMember(g, e.pat, e.how, mu, true, c);
    var seen := Seen(e.pat, e.how);
    var filled := With(seen, Target(e.how), Constant(c));
    assert Part(seen, Target(e.how)) == Part(e.pat, Target(e.how));
    assert forall t :: Matches(filled, mu, t) == Matches(seen, mu, t);
  }
}

/** The main result about plans: evaluation returns exactly the solutions of the covered
    patterns, whatever mix of extend, check and table-join nodes the tree has. */
module Solutions {
  import opened Collections
  import opened Rdf
  import opened Tables
  import opened Plans

  function Restrict(mu: Binding, vs: set<nat>): (nu: Binding)
    ensures nu.Keys == mu.Keys * vs
    ensures forall v :: v in nu ==> nu[v] == mu[v]
  {
    map v | v in mu && v in vs :: mu[v]
  }

  // ---------------------------------------------------------------- one step

  ghost predicate StepHolds(g: Graph, caches: Caches, st: Step, mu: Binding) {
    AllHold(g, StepPatterns(st), mu) && CachesHold(caches, NewCols(st), mu)
  }

  lemma EdgesIntoExact(g: Graph, edges: seq<Edge>, v: nat, mu: Binding, distinct: bool, c: Id)
    requires v !in mu && forall e :: e in edges ==> EdgeInto(e, v, mu.Keys)
    ensures (forall e :: e in edges ==> Listed(g, e, mu, distinct, c)) <==> AllHold(g, SeenEdges(edges), mu[v := c])
  {
    forall e | e in edges
      ensures Listed(g, e, mu, distinct, c) <==> Holds(g, Seen(e.pat, e.how), mu[v := c])
      ensures Seen(e.pat, e.how) in SeenEdges(edges)
    {
      EdgeIntoExact(g, e, v, mu, distinct, c);
    }
  }

  lemma ExtendOneExact(g: Graph, caches: Caches, v: nat, edges: seq<Edge>, distinct: bool, mu: Binding, c: Id)
    requires CachesOrdered(caches) && edges != []
    requires v !in mu && forall e :: e in edges ==> EdgeInto(e, v, mu.Keys)
    ensures EdgesReady(edges, mu)
    ensures c in Candidates(g, caches, v, edges, distinct, mu) <==>
            InCache(caches, v, c) && AllHold(g, SeenEdges(edges), mu[v := c])
  {
    CandidatesExact(g, caches, v, edges, distinct, mu, c);
    EdgesIntoExact(g, edges, v, mu, distinct, c);
  }

  lemma ExtendTwoExact(g: Graph, st: Step, mu: Binding, x: seq<Id>)
    requires st.ExtendTwo? && StepOk(st, mu.Keys) && |x| == 2
    ensures x in PairsOf(g, st.pat, st.via, mu) <==> Holds(g, st.pat, mu + Bind([st.v1, st.v2], x))
  {
    var (k, k1, k2) := PairSlots(st.via);
    var a := Val(Part(st.pat, k), mu);
    PairsExact(g, k, a, k1, k2, x);
    var nu := mu + Bind([st.v1, st.v2], x);
    BindAt([st.v1, st.v2], x, 0);
    BindAt([st.v1, st.v2], x, 1);
    assert forall t :: Matches(st.pat, nu, t) <==> Get(t, k) == a && Get(t, k1) == x[0] && Get(t, k2) == x[1];
  }

  lemma CheckExact(g: Graph, edges: seq<Edge>, mu: Binding)
    requires forall e :: e in edges ==> EdgeInside(e, mu.Keys)
    ensures (forall e :: e in edges ==> EdgePasses(g, e, mu)) <==> AllHold(g, SeenEdges(edges), mu)
  {
    forall e | e in edges
      ensures EdgePasses(g, e, mu) <==> Holds(g, Seen(e.pat, e.how), mu)
      ensures Seen(e.pat, e.how) in SeenEdges(edges)
    {
      EdgePassesExact(g, e, mu);
    }
  }

  /** A step appends exactly the values under which its patterns and caches hold. */
  lemma ExtsExact(g: Graph, caches: Caches, st: Step, mu: Binding, x: seq<Id>)
    requires CachesOrdered(caches) && StepOk(st, mu.Keys) && !st.Satellite?
    requires |x| == |NewCols(st)|
    ensures StepReady(st, mu)
    ensures x in Exts(g, caches, st, mu) <==> StepHolds(g, caches, st, mu + Bind(NewCols(st), x))
  {
    OkReady(st, mu);
    match st
    case ExtendOne(_, _, _) => ExtsOneExact(g, caches, st, mu, x);
    case ExtendTwo(_, _, _, _) => ExtsTwoExact(g, caches, st, mu, x);
    case Check(edges) =>
      assert mu + Bind([], x) == mu;
      CheckExact(g, edges, mu);
  }

  lemma ExtsOneExact(g: Graph, caches: Caches, st: Step, mu: Binding, x: seq<Id>)
    requires CachesOrdered(caches) && StepOk(st, mu.Keys) && st.ExtendOne? && |x| == 1
    ensures StepReady(st, mu)
    ensures x in Exts(g, caches, st, mu) <==> StepHolds(g, caches, st, mu + Bind([st.v], x))
  {
    OkReady(st, mu);
    var c := Candidates(g, caches, st.v, st.edges, st.distinct, mu);
    BindAt([st.v], x, 0);
    assert mu + Bind([st.v], x) == mu[st.v := x[0]];
    ExtendOneExact(g, caches, st.v, st.edges, st.distinct, mu, x[0]);
    SinglesMember(c, x);
  }

  lemma ExtsTwoExact(g: Graph, caches: Caches, st: Step, mu: Binding, x: seq<Id>)
    requires StepOk(st, mu.Keys) && st.ExtendTwo? && |x| == 2
    ensures StepReady(st, mu)
    ensures x in Exts(g, caches, st, mu) <==> StepHolds(g, caches, st, mu + Bind([st.v1, st.v2], x))
  {
    var nu := mu + Bind([st.v1, st.v2], x);
    assert nu[st.v1] == x[0] && nu[st.v2] == x[1] by {
      BindAt([st.v1, st.v2], x, 0);
      BindAt([st.v1, st.v2], x, 1);
    }
    assert CachesHold(caches, [st.v1, st.v2], nu) <==> InCache(caches, st.v1, x[0]) && InCache(caches, st.v2, x[1]) by {
      assert st.v1 in [st.v1, st.v2] && st.v2 in [st.v1, st.v2];
    }
    assert AllHold(g, StepPatterns(st), nu) <==> Holds(g, st.pat, nu);
    ExtendTwoExact(g, st, mu, x);
    FilterPairsMember(caches, st.v1, st.v2, PairsOf(g, st.pat, st.via, mu), x);
  }

  // ---------------------------------------------------------------- no row twice

  /** An extension whose candidate list cannot repeat an id. */
  ghost predicate Plain(st: Step) {
    st.ExtendOne? ==> st.distinct || exists e :: e in st.edges && (TwoGiven(e.how) || Target(e.how) == P)
  }

  lemma {:induction false} MeetFromIncreasing(g: Graph, acc: seq<Id>, edges: seq<Edge>, mu: Binding, distinct: bool)
    requires EdgesReady(edges, mu) && Ordered(acc)
    requires Increasing(acc) || exists e :: e in edges && (distinct || TwoGiven(e.how) || Target(e.how) == P)
    ensures Increasing(MeetFrom(g, acc, edges, mu, distinct))
    decreases |edges|
  {
    if edges != [] {
      var e := edges[0];
      var l := EdgeList(g, e.pat, e.how, mu, distinct);
      EdgeListOrdered(g, e.pat, e.how, mu, distinct);
      IntersectOrdered(acc, l);
      if Increasing(acc) {
        IntersectIncreasing(acc, l);
      } else if distinct || TwoGiven(e.how) || Target(e.how) == P {
        EdgeListIncreasing(g, e.pat, e.how, mu, distinct);
        IntersectIncreasing(acc, l);
      }
      assert edges == [e] + edges[1..];
      MeetFromIncreasing(g, Intersect(acc, l), edges[1..], mu, distinct);
    }
  }

  lemma CandidatesIncreasing(g: Graph, caches: Caches, v: nat, edges: seq<Edge>, distinct: bool, mu: Binding)
    requires EdgesReady(edges, mu) && edges != [] && CachesOrdered(caches)
    requires Plain(ExtendOne(v, edges, distinct))
    ensures Increasing(Candidates(g, caches, v, edges, distinct, mu))
  {
    var e := edges[0];
    var first := EdgeList(g, e.pat, e.how, mu, distinct);
    EdgeListOrdered(g, e.pat, e.how, mu, distinct);
    if distinct || TwoGiven(e.how) || Target(e.how) == P {
      EdgeListIncreasing(g, e.pat, e.how, mu, distinct);
    }
    assert edges == [e] + edges[1..];
    MeetFromIncreasing(g, first, edges[1..], mu, distinct);
    if v in caches {
      IntersectIncreasing(MeetFrom(g, first, edges[1..], mu, distinct), caches[v]);
    }
  }

  lemma {:induction false} FilterPairsNoDup(caches: Caches, v1: nat, v2: nat, ps: seq<seq<Id>>)
    requires NoDup(ps)
    ensures NoDup(FilterPairs(caches, v1, v2, ps))
  {
    if ps != [] {
      var front := ps[..|ps| - 1];
      FilterPairsNoDup(caches, v1, v2, front);
      FilterPairsMember(caches, v1, v2, front, ps[|ps| - 1]);
      assert ps[|ps| - 1] !in front;
    }
  }

  lemma ExtsNoDup(g: Graph, caches: Caches, st: Step, mu: Binding)
    requires CachesOrdered(caches) && StepOk(st, mu.Keys) && (st.Satellite? ==> st.distinct) && Plain(st)
    ensures StepReady(st, mu) && NoDup(Exts(g, caches, st, mu))
  {
    OkReady(st, mu);
    match st
    case ExtendOne(v, edges, distinct) =>
      CandidatesIncreasing(g, caches, v, edges, distinct, mu);
    case ExtendTwo(v1, v2, pat, via) =>
      var (k, k1, k2) := PairSlots(via);
      PairsNoDup(g, k, Val(Part(pat, k), mu), k1, k2);
      FilterPairsNoDup(caches, v1, v2, PairsOf(g, pat, via, mu));
    case Satellite(_, _, _) =>
    case Check(edges) =>
  }

  lemma GrowNoDup(row: Row, exts: seq<seq<Id>>)
    requires NoDup(exts)
    ensures NoDup(Grow(row, exts))
  {
    forall i, j | 0 <= i < j < |exts|
      ensures Grow(row, exts)[i] != Grow(row, exts)[j]
    {
      assert Grow(row, exts)[i][|row|..] == exts[i];
      assert Grow(row, exts)[j][|row|..] == exts[j];
    }
  }

  lemma {:induction false} RunNoDup(g: Graph, caches: Caches, st: Step, cols: seq<nat>, rows: seq<Row>)
    requires CachesOrdered(caches) && StepOk(st, Elements(cols)) && RowsFit(cols, rows)
    requires (st.Satellite? ==> st.distinct) && Plain(st) && NoDup(rows)
    ensures NoDup(Run(g, caches, st, cols, rows))
  {
    if rows != [] {
      var row := rows[0];
      ExtsNoDup(g, caches, st, Bind(cols, row));
      var here := Grow(row, Exts(g, caches, st, Bind(cols, row)));
      var rest := Run(g, caches, st, cols, rows[1..]);
      GrowNoDup(row, Exts(g, caches, st, Bind(cols, row)));
      RunNoDup(g, caches, st, cols, rows[1..]);
      forall r | r in here
        ensures r !in rest
      {
        GrowMember(row, Exts(g, caches, st, Bind(cols, row)), r);
        RunMember(g, caches, st, cols, rows[1..], r);
        assert row !in rows[1..];
      }
      NoDupSplit(here, rest);
    }
  }

  // ---------------------------------------------------------------- scopes

  /** A plan's patterns speak of its columns only. */
  lemma {:induction false} PatternsScoped(plan: Plan, e: Pattern)
    requires Wf(plan) && NoSatellite(plan) && e in PlanPatterns(plan)
    ensures PatternVars(e) <= PlanCols(plan)
  {
    match plan
    case Unit =>
    case Scan(_, _) =>
    case AllTriples(_, _, _) =>
    case Apply(left, st) =>
      if e in PlanPatterns(left) {
        PatternsScoped(left, e);
      } else {
        StepScoped(st, PlanCols(left), e);
      }
    case Join(left, right, _) =>
      if e in PlanPatterns(left) { PatternsScoped(left, e); } else { PatternsScoped(right, e); }
  }

  lemma StepScoped(st: Step, cols: set<nat>, e: Pattern)
    requires StepOk(st, cols) && !st.Satellite? && e in StepPatterns(st)
    ensures PatternVars(e) <= cols + Elements(NewCols(st))
  {
    if st.ExtendTwo? {
      assert st.v1 in NewCols(st) && st.v2 in NewCols(st);
    } else {
      var ed :| ed in st.edges && e == Seen(ed.pat, ed.how);
      if st.ExtendOne? { assert st.v in NewCols(st) && EdgeInto(ed, st.v, cols); } else { assert EdgeInside(ed, cols); }
    }
  }

  ghost predicate NoSatellite(plan: Plan) {
    match plan
    case Unit => true
    case Scan(_, _) => true
    case AllTriples(_, _, _) => true
    case Apply(left, st) => NoSatellite(left) && !st.Satellite?
    case Join(left, right, _) => NoSatellite(left) && NoSatellite(right)
  }

  ghost predicate AllPlain(plan: Plan) {
    match plan
    case Unit => true
    case Scan(_, _) => true
    case AllTriples(_, _, _) => true
    case Apply(left, st) => AllPlain(left) && Plain(st)
    case Join(left, right, _) => AllPlain(left) && AllPlain(right)
  }

  lemma {:induction false} ListsLocal(caches: Caches, plan: Plan, mu: Binding)
    requires PlanCols(plan) <= mu.Keys
    ensures ListsHold(caches, plan, mu) == ListsHold(caches, plan, Restrict(mu, PlanCols(plan)))
  {
    ListsAgree(caches, plan, mu, Restrict(mu, PlanCols(plan)));
  }

  lemma {:induction false} ListsAgree(caches: Caches, plan: Plan, mu: Binding, nu: Binding)
    requires PlanCols(plan) <= mu.Keys && PlanCols(plan) <= nu.Keys
    requires forall v :: v in PlanCols(plan) ==> mu[v] == nu[v]
    ensures ListsHold(caches, plan, mu) == ListsHold(caches, plan, nu)
  {
    match plan
    case Unit =>
    case Scan(_, _) =>
    case AllTriples(_, _, _) =>
    case Apply(left, st) =>
      ListsAgree(caches, left, mu, nu);
      assert forall v :: v in NewCols(st) ==> v in Elements(NewCols(st));
    case Join(left, right, _) =>
      ListsAgree(caches, left, mu, nu);
      ListsAgree(caches, right, mu, nu);
  }

  /** The part of a plan's answer that belongs to a subtree. */
  lemma AnswerPart(g: Graph, caches: Caches, plan: Plan, mu: Binding)
    requires Wf(plan) && NoSatellite(plan) && PlanCols(plan) <= mu.Keys
    ensures Answer(g, caches, plan, Restrict(mu, PlanCols(plan))) <==>
            AllHold(g, PlanPatterns(plan), mu) && ListsHold(caches, plan, mu)
  {
    var nu := Restrict(mu, PlanCols(plan));
    ListsLocal(caches, plan, mu);
    forall e | e in PlanPatterns(plan)
      ensures Holds(g, e, mu) == Holds(g, e, nu)
    {
      PatternsScoped(plan, e);
      HoldsLocal(g, e, mu, nu);
    }
  }

  // ---------------------------------------------------------------- table join

  /** A row is the row of a mapping exactly when they agree on every column. */
  lemma AgreeRow(cols: seq<nat>, row: Row, mu: Binding)
    requires NoDup(cols) && |row| == |cols| && Elements(cols) <= mu.Keys
    ensures row == RowOf(cols, mu) <==> forall v :: v in cols ==> Bind(cols, row)[v] == mu[v]
  {
    forall i | 0 <= i < |cols|
      ensures cols[i] in Bind(cols, row) && Bind(cols, row)[cols[i]] == row[i]
      ensures RowOf(cols, mu)[i] == mu[cols[i]]
    {
      BindAt(cols, row, i);
    }
  }

  lemma AgreeTuple(vs: seq<nat>, mu: Binding, nu: Binding)
    requires Elements(vs) <= mu.Keys && Elements(vs) <= nu.Keys
    ensures RowOf(vs, mu) == RowOf(vs, nu) <==> forall v :: v in vs ==> mu[v] == nu[v]
  {
    forall i | 0 <= i < |vs|
      ensures RowOf(vs, mu)[i] == mu[vs[i]] && RowOf(vs, nu)[i] == nu[vs[i]]
    {
    }
    if RowOf(vs, mu) == RowOf(vs, nu) {
      forall v | v in vs
        ensures mu[v] == nu[v]
      {
        assert vs[Pos(vs, v)] == v;
      }
    }
  }

  ghost predicate Splits(big: Table, small: Table, common: seq<nat>, r: Row) {
    TableOk(big) && TableOk(small) && Joinable(big, small, common) &&
    |r| == |big.cols| + |Rest(small.cols, common)|
  }

  lemma JoinCols(big: Table, small: Table, common: seq<nat>, r: Row)
    requires Splits(big, small, common, r)
    ensures var all := big.cols + Rest(small.cols, common);
            NoDup(all) && Elements(all) == Elements(big.cols) + Elements(small.cols) &&
            RowOf(big.cols, Bind(all, r)) == r[..|big.cols|] &&
            RowOf(Rest(small.cols, common), Bind(all, r)) == r[|big.cols|..]
  {
    var rest := Rest(small.cols, common);
    var all := big.cols + rest;
    RestNoDup(small.cols, common);
    forall v | v in big.cols
      ensures v !in rest
    {
      assert v in Elements(big.cols) * Elements(small.cols) <==> v in Elements(common);
    }
    assert Elements(big.cols) !! Elements(rest);
    NoDupSplit(big.cols, rest);
    forall v
      ensures v in Elements(all) <==> v in Elements(big.cols) + Elements(small.cols)
    {
      assert v in Elements(big.cols) * Elements(small.cols) <==> v in Elements(common);
      assert v in all <==> v in big.cols || v in rest;
    }
    RowOfPart(big.cols, rest, r);
  }

  lemma RowOfPart(cols: seq<nat>, more: seq<nat>, r: Row)
    requires NoDup(cols + more) && |r| == |cols| + |more|
    ensures Elements(cols) <= Elements(cols + more) && Elements(more) <= Elements(cols + more)
    ensures RowOf(cols, Bind(cols + more, r)) == r[..|cols|]
    ensures RowOf(more, Bind(cols + more, r)) == r[|cols|..]
  {
    var all := cols + more;
    forall i | 0 <= i < |cols|
      ensures RowOf(cols, Bind(all, r))[i] == r[i]
    {
      assert all[i] == cols[i];
      BindAt(all, r, i);
    }
    forall i | 0 <= i < |more|
      ensures RowOf(more, Bind(all, r))[i] == r[|cols| + i]
    {
      assert all[|cols| + i] == more[i];
      BindAt(all, r, |cols| + i);
    }
  }

  /** A big row and a small row combine to r exactly when r's mapping restricts to both. */
  lemma CombinesExact(big: Table, small: Table, common: seq<nat>, s: Row, r: Row)
    requires Splits(big, small, common, r) && |s| == |small.cols|
    ensures Elements(big.cols) <= Elements(big.cols + Rest(small.cols, common))
    ensures Elements(small.cols) <= Elements(big.cols + Rest(small.cols, common))
    ensures var mu := Bind(big.cols + Rest(small.cols, common), r);
            Combines(big.cols, big.rows, small.cols, s, common, r) <==>
            RowOf(big.cols, mu) in big.rows && s == RowOf(small.cols, mu)
  {
    var rest := Rest(small.cols, common);
    var mu := Bind(big.cols + rest, r);
    var front := r[..|big.cols|];
    JoinCols(big, small, common, r);
    AgreeRow(small.cols, s, mu);
    AgreeRow(big.cols, front, mu);
    AgreeTuple(common, Bind(big.cols, front), Bind(small.cols, s));
    AgreeTuple(rest, mu, Bind(small.cols, s));
    CommonCols(big, small, common);
  }

  lemma CommonCols(big: Table, small: Table, common: seq<nat>)
    requires Joinable(big, small, common)
    ensures forall v :: v in small.cols <==> v in common || v in Rest(small.cols, common)
    ensures forall v :: v in common ==> v in big.cols
  {
    forall v
      ensures v in common ==> v in big.cols && v in small.cols
    {
      assert v in Elements(common) <==> v in Elements(big.cols) && v in Elements(small.cols);
    }
  }

  /** Table join is the join of solution mappings of section 18.5 of SPARQL 1.1 Query. */
  lemma JoinRowsExact(big: Table, small: Table, common: seq<nat>, r: Row)
    requires Splits(big, small, common, r)
    ensures Elements(big.cols) <= Elements(big.cols + Rest(small.cols, common))
    ensures Elements(small.cols) <= Elements(big.cols + Rest(small.cols, common))
    ensures var mu := Bind(big.cols + Rest(small.cols, common), r);
            r in JoinRows(big.cols, big.rows, small.cols, small.rows, common) <==>
            RowOf(big.cols, mu) in big.rows && RowOf(small.cols, mu) in small.rows
  {
    JoinCols(big, small, common, r);
    JoinRowsMember(big.cols, big.rows, small.cols, small.rows, common, r);
    var mu := Bind(big.cols + Rest(small.cols, common), r);
    forall s | |s| == |small.cols|
      ensures Combines(big.cols, big.rows, small.cols, s, common, r) <==>
              RowOf(big.cols, mu) in big.rows && s == RowOf(small.cols, mu)
    {
      CombinesExact(big, small, common, s, r);
    }
  }

  /** Whichever table is bigger, a row is in the join exactly when it restricts to a row of each. */
  lemma JoinTablesExact(a: Table, b: Table, common: seq<nat>, r: Row)
    requires TableOk(a) && TableOk(b) && Joinable(a, b, common)
    requires |r| == |JoinTables(a, b, common).cols|
    ensures Elements(JoinTables(a, b, common).cols) == Elements(a.cols) + Elements(b.cols)
    ensures var mu := Bind(JoinTables(a, b, common).cols, r);
            r in JoinTables(a, b, common).rows <==> RowOf(a.cols, mu) in a.rows && RowOf(b.cols, mu) in b.rows
  {
    JoinTablesOk(a, b, common);
    assert Elements(a.cols) * Elements(b.cols) == Elements(b.cols) * Elements(a.cols);
    if |a.rows| > |b.rows| {
      JoinRowsExact(a, b, common, r);
    } else {
      JoinRowsExact(b, a, common, r);
    }
  }

  function Times(n: nat, k: nat): nat {
    if k == 0 then 0 else n + Times(n, k - 1)
  }

  lemma {:induction false} TimesExact(n: nat, k: nat)
    ensures Times(n, k) == n * k
  {
    if k > 0 {
      TimesExact(n, k - 1);
      assert n * k == n + n * (k - 1);
    }
  }

  lemma TimesSwap(n: nat, k: nat)
    ensures Times(n, k) == Times(k, n)
  {
    TimesExact(n, k);
    TimesExact(k, n);
  }

  ghost predicate MatchesAt(cols: seq<nat>, key: seq<Id>, added: seq<Id>, common: seq<nat>, r: Row)
    requires Elements(common) <= Elements(cols) && |cols| <= |r|
  {
    r[|cols|..] == added && Key(cols, r[..|cols|], common) == key
  }

  lemma {:induction false} MatchRowsCount(bigCols: seq<nat>, big: seq<Row>, key: seq<Id>, added: seq<Id>,
                                          common: seq<nat>, r: Row)
    requires RowsFit(bigCols, big) && Elements(common) <= Elements(bigCols) && |bigCols| <= |r|
    ensures Count(MatchRows(bigCols, big, key, added, common), r) ==
            if MatchesAt(bigCols, key, added, common, r) then Count(big, r[..|bigCols|]) else 0
  {
    if big != [] {
      var here := if Key(bigCols, big[0], common) == key then [big[0] + added] else [];
      var rest := MatchRows(bigCols, big[1..], key, added, common);
      MatchRowsCount(bigCols, big[1..], key, added, common, r);
      CountConcat(here, rest, r);
      assert r == big[0] + added <==> r[..|bigCols|] == big[0] && r[|bigCols|..] == added;
    }
  }

  /** A small row fits behind the front of r exactly when it is the part of r's mapping. */
  lemma FitsBehind(big: Table, small: Table, common: seq<nat>, s: Row, r: Row)
    requires Splits(big, small, common, r) && |s| == |small.cols|
    ensures Elements(small.cols) <= Elements(big.cols + Rest(small.cols, common))
    ensures var mu := Bind(big.cols + Rest(small.cols, common), r);
            MatchesAt(big.cols, Key(small.cols, s, common), Added(small.cols, s, common), common, r) <==>
            s == RowOf(small.cols, mu)
  {
    var front := big.(rows := [r[..|big.cols|]]);
    JoinCols(big, small, common, r);
    CombinesExact(front, small, common, s, r);
  }

  lemma JoinRowsStep(big: Table, small: Table, common: seq<nat>, r: Row, part: Row)
    requires Splits(big, small, common, r) && Elements(small.cols) <= Elements(big.cols + Rest(small.cols, common))
    requires part == RowOf(small.cols, Bind(big.cols + Rest(small.cols, common), r)) && small.rows != []
    ensures Count(JoinRows(big.cols, big.rows, small.cols, small.rows, common), r) ==
            (if small.rows[0] == part then Count(big.rows, r[..|big.cols|]) else 0) +
            Count(JoinRows(big.cols, big.rows, small.cols, small.rows[1..], common), r)
  {
    var s := small.rows[0];
    var here := MatchRows(big.cols, big.rows, Key(small.cols, s, common), Added(small.cols, s, common), common);
    MatchRowsCount(big.cols, big.rows, Key(small.cols, s, common), Added(small.cols, s, common), common, r);
    FitsBehind(big, small, common, s, r);
    CountConcat(here, JoinRows(big.cols, big.rows, small.cols, small.rows[1..], common), r);
  }

  lemma CountNext(rows: seq<Row>, r: Row, n: nat)
    requires rows != []
    ensures Times(n, Count(rows, r)) == (if rows[0] == r then n else 0) + Times(n, Count(rows[1..], r))
  {
  }

  lemma TailSplits(big: Table, small: Table, common: seq<nat>, r: Row)
    requires Splits(big, small, common, r) && small.rows != []
    ensures Splits(big, small.(rows := small.rows[1..]), common, r)
  {
  }

  lemma {:induction false} JoinRowsCount(big: Table, small: Table, common: seq<nat>, r: Row, part: Row, n: nat)
    requires Splits(big, small, common, r) && Elements(small.cols) <= Elements(big.cols + Rest(small.cols, common))
    requires part == RowOf(small.cols, Bind(big.cols + Rest(small.cols, common), r)) &&
             n == Count(big.rows, r[..|big.cols|])
    ensures Count(JoinRows(big.cols, big.rows, small.cols, small.rows, common), r) == Times(n, Count(small.rows, part))
    decreases |small.rows|
  {
    if small.rows != [] {
      TailSplits(big, small, common, r);
      JoinRowsStep(big, small, common, r, part);
      JoinRowsCount(big, small.(rows := small.rows[1..]), common, r, part, n);
      CountNext(small.rows, part, n);
    }
  }

  lemma JoinBagOf(big: Table, small: Table, common: seq<nat>, r: Row)
    requires Splits(big, small, common, r)
    ensures var all := big.cols + Rest(small.cols, common);
            Elements(all) == Elements(big.cols) + Elements(small.cols) &&
            Count(JoinRows(big.cols, big.rows, small.cols, small.rows, common), r) ==
            Times(Count(big.rows, RowOf(big.cols, Bind(all, r))), Count(small.rows, RowOf(small.cols, Bind(all, r))))
  {
    JoinCols(big, small, common, r);
    JoinRowsCount(big, small, common, r, RowOf(small.cols, Bind(big.cols + Rest(small.cols, common), r)),
                  Count(big.rows, r[..|big.cols|]));
  }

  lemma JoinTablesCount(a: Table, b: Table, common: seq<nat>, r: Row)
    requires TableOk(a) && TableOk(b) && Joinable(a, b, common) && |r| == |JoinTables(a, b, common).cols|
    ensures var t := JoinTables(a, b, common);
            Elements(t.cols) == Elements(a.cols) + Elements(b.cols) &&
            Count(t.rows, r) ==
            Times(Count(a.rows, RowOf(a.cols, Bind(t.cols, r))), Count(b.rows, RowOf(b.cols, Bind(t.cols, r))))
  {
    assert Elements(a.cols) * Elements(b.cols) == Elements(b.cols) * Elements(a.cols);
    if |a.rows| > |b.rows| {
      JoinBagOf(a, b, common, r);
    } else {
      JoinBagOf(b, a, common, r);
      var x, y := RowOf(a.cols, Bind(JoinTables(a, b, common).cols, r)),
          RowOf(b.cols, Bind(JoinTables(a, b, common).cols, r));
      TimesSwap(Count(a.rows, x), Count(b.rows, y));
    }
  }

  /** As bags: a row is in the join as often as its parts are in the two tables, multiplied. */
  lemma JoinTablesBag(a: Table, b: Table, common: seq<nat>, t: Table, mu: Binding)
    requires TableOk(a) && TableOk(b) && Joinable(a, b, common) && t == JoinTables(a, b, common)
    requires mu.Keys == Elements(a.cols) + Elements(b.cols)
    ensures Elements(t.cols) == mu.Keys
    ensures multiset(t.rows)[RowOf(t.cols, mu)] ==
            multiset(a.rows)[RowOf(a.cols, mu)] * multiset(b.rows)[RowOf(b.cols, mu)]
  {
    JoinTablesOk(a, b, common);
    var r, x, y := RowOf(t.cols, mu), RowOf(a.cols, mu), RowOf(b.cols, mu);
    BindRoundTrip(t.cols, mu);
    JoinTablesCount(a, b, common, r);
    CountBag(t.rows, r);
    CountBag(a.rows, x);
    CountBag(b.rows, y);
    TimesExact(Count(a.rows, x), Count(b.rows, y));
  }

  lemma {:induction false} MatchRowsNoDup(bigCols: seq<nat>, big: seq<Row>, key: seq<Id>, added: seq<Id>,
                                          common: seq<nat>)
    requires RowsFit(bigCols, big) && Elements(common) <= Elements(bigCols) && NoDup(big)
    ensures NoDup(MatchRows(bigCols, big, key, added, common))
  {
    if big != [] {
      MatchRowsNoDup(bigCols, big[1..], key, added, common);
      MatchRowsMember(bigCols, big[1..], key, added, common, big[0] + added);
      assert (big[0] + added)[..|bigCols|] == big[0];
      assert big[0] !in big[1..];
    }
  }

  lemma {:induction false} JoinRowsNoDup(big: Table, small: Table, common: seq<nat>)
    requires TableOk(big) && TableOk(small) && Joinable(big, small, common)
    requires NoDup(big.rows) && NoDup(small.rows)
    ensures NoDup(JoinRows(big.cols, big.rows, small.cols, small.rows, common))
    decreases |small.rows|
  {
    if small.rows != [] {
      var s := small.rows[0];
      var tail := small.(rows := small.rows[1..]);
      var here := MatchRows(big.cols, big.rows, Key(small.cols, s, common), Added(small.cols, s, common), common);
      var rest := JoinRows(big.cols, big.rows, small.cols, tail.rows, common);
      MatchRowsNoDup(big.cols, big.rows, Key(small.cols, s, common), Added(small.cols, s, common), common);
      JoinRowsNoDup(big, tail, common);
      forall r | r in here
        ensures r !in rest
      {
        MatchRowsMember(big.cols, big.rows, Key(small.cols, s, common), Added(small.cols, s, common), common, r);
        CombinesExact(big, small, common, s, r);
        JoinRowsExact(big, tail, common, r);
        assert s !in tail.rows;
      }
      NoDupSplit(here, rest);
    }
  }

  // ---------------------------------------------------------------- the whole tree

  /** The rows of a table are the answers of a plan. */
  ghost predicate Right(g: Graph, caches: Caches, plan: Plan, t: Table) {
    TableOk(t) && Elements(t.cols) == PlanCols(plan) &&
    forall r {:trigger r in t.rows} :: |r| == |t.cols| ==> (r in t.rows <==> Answer(g, caches, plan, Bind(t.cols, r)))
  }

  /** A table holds exactly the answers of a plan, each once. */
  ghost predicate Exact(g: Graph, caches: Caches, plan: Plan, t: Table) {
    Right(g, caches, plan, t) && NoDup(t.rows)
  }

  lemma ScanExact(g: Graph, caches: Caches, plan: Plan)
    requires plan.Scan? && Wf(plan) && CachesOrdered(caches)
    ensures Exact(g, caches, plan, Eval(g, caches, plan))
  {
    var t := Eval(g, caches, plan);
    var ids := if plan.v in caches then caches[plan.v] else plan.all;
    forall r: Row | |r| == 1
      ensures r in t.rows <==> Answer(g, caches, plan, Bind(t.cols, r))
    {
      BindAt(t.cols, r, 0);
      if r[0] in ids {
        var i :| 0 <= i < |ids| && ids[i] == r[0];
        assert t.rows[i] == r;
      }
    }
  }

  lemma {:induction false} AllRowsMember(g: Graph, ps: seq<Id>, r: Row)
    requires |r| == 3
    ensures r in AllRows(g, ps) <==> r[1] in ps && Triple(r[0], r[1], r[2]) in g
  {
    if ps != [] {
      AllRowsMember(g, ps[1..], r);
      PairsLength(g, P, ps[0], S, O);
      TripleRowsMember(ps[0], Pairs(g, P, ps[0], S, O), r);
      PairsExact(g, P, ps[0], S, O, [r[0], r[2]]);
      assert Has2(g, P, ps[0], S, r[0], O, r[2]) <==> Triple(r[0], ps[0], r[2]) in g;
      assert ps == [ps[0]] + ps[1..];
    }
  }

  lemma TripleRowsMember(p: Id, pairs: seq<seq<Id>>, r: Row)
    requires |r| == 3 && forall i :: 0 <= i < |pairs| ==> |pairs[i]| == 2
    ensures r in TripleRows(p, pairs) <==> r[1] == p && [r[0], r[2]] in pairs
  {
    if r in TripleRows(p, pairs) {
      var i := Pos(TripleRows(p, pairs), r);
      assert pairs[i] == [r[0], r[2]];
    }
    if r[1] == p && [r[0], r[2]] in pairs {
      assert TripleRows(p, pairs)[Pos(pairs, [r[0], r[2]])] == r;
    }
  }

  lemma TripleRowsNoDup(p: Id, pairs: seq<seq<Id>>)
    requires NoDup(pairs) && forall i :: 0 <= i < |pairs| ==> |pairs[i]| == 2
    ensures NoDup(TripleRows(p, pairs))
  {
    forall i, j | 0 <= i < j < |pairs|
      ensures TripleRows(p, pairs)[i] != TripleRows(p, pairs)[j]
    {
      var a, b := TripleRow(pairs[i], p), TripleRow(pairs[j], p);
      assert pairs[i] == [a[0], a[2]] && pairs[j] == [b[0], b[2]];
    }
  }

  lemma {:induction false} AllRowsNoDup(g: Graph, ps: seq<Id>)
    requires Increasing(ps)
    ensures NoDup(AllRows(g, ps))
  {
    if ps != [] {
      var pairs := Pairs(g, P, ps[0], S, O);
      PairsNoDup(g, P, ps[0], S, O);
      PairsLength(g, P, ps[0], S, O);
      TripleRowsNoDup(ps[0], pairs);
      AllRowsNoDup(g, ps[1..]);
      forall r | r in TripleRows(ps[0], pairs)
        ensures r !in AllRows(g, ps[1..])
      {
        TripleRowsMember(ps[0], pairs, r);
        AllRowsMember(g, ps[1..], r);
      }
      NoDupSplit(TripleRows(ps[0], pairs), AllRows(g, ps[1..]));
    }
  }

  lemma AllTriplesExact(g: Graph, caches: Caches, plan: Plan)
    requires plan.AllTriples? && Wf(plan)
    ensures Exact(g, caches, plan, Eval(g, caches, plan))
  {
    var t := Eval(g, caches, plan);
    var ps := SortedSeq(PredicatesOf(g));
    var e := Pattern(Variable(plan.s), Variable(plan.p), Variable(plan.o));
    SortedSeqIncreasing(PredicatesOf(g));
    AllRowsNoDup(g, ps);
    assert PlanPatterns(plan) == {e};
    forall r: Row | |r| == 3
      ensures r in t.rows <==> Answer(g, caches, plan, Bind(t.cols, r))
    {
      AllRowsMember(g, ps, r);
      OpenPattern(g, plan.s, plan.p, plan.o, r);
      SortedSeqMember(PredicatesOf(g), r[1]);
      assert Triple(r[0], r[1], r[2]) in g ==> r[1] in PredicatesOf(g);
    }
  }

  /** A pattern of three distinct variables holds of exactly the triples. */
  lemma OpenPattern(g: Graph, s: nat, p: nat, o: nat, r: Row)
    requires |r| == 3 && s != p && s != o && p != o
    ensures Holds(g, Pattern(Variable(s), Variable(p), Variable(o)), Bind([s, p, o], r)) <==>
            Triple(r[0], r[1], r[2]) in g
  {
    BindAt([s, p, o], r, 0);
    BindAt([s, p, o], r, 1);
    BindAt([s, p, o], r, 2);
    var mu := Bind([s, p, o], r);
    assert forall x :: Matches(Pattern(Variable(s), Variable(p), Variable(o)), mu, x) <==>
             x == Triple(r[0], r[1], r[2]);
  }

  lemma AnswerApply(g: Graph, caches: Caches, plan: Plan, mu: Binding)
    requires plan.Apply? && Wf(plan) && NoSatellite(plan)
    requires mu.Keys == PlanCols(plan)
    ensures Answer(g, caches, plan, mu) <==>
            Answer(g, caches, plan.left, Restrict(mu, PlanCols(plan.left))) && StepHolds(g, caches, plan.st, mu)
  {
    AnswerPart(g, caches, plan.left, mu);
    assert AllHold(g, PlanPatterns(plan), mu) <==>
      AllHold(g, PlanPatterns(plan.left), mu) && AllHold(g, StepPatterns(plan.st), mu);
  }

  lemma SplitRow(cols: seq<nat>, more: seq<nat>, r: Row)
    requires NoDup(cols + more) && |r| == |cols| + |more|
    ensures var n := |cols|;
            Bind(cols + more, r) == Bind(cols, r[..n]) + Bind(more, r[n..]) &&
            Restrict(Bind(cols + more, r), Elements(cols)) == Bind(cols, r[..n]) &&
            Bind(cols + more, r).Keys == Elements(cols) + Elements(more)
  {
    var n := |cols|;
    assert r == r[..n] + r[n..];
    NoDupSplit(cols, more);
    BindAppend(cols, r[..n], more, r[n..]);
  }

  lemma ApplyRowExact(g: Graph, caches: Caches, plan: Plan, l: Table, r: Row)
    requires plan.Apply? && Wf(plan) && NoSatellite(plan) && CachesOrdered(caches)
    requires Right(g, caches, plan.left, l)
    requires |r| == |l.cols| + |NewCols(plan.st)|
    ensures r in Run(g, caches, plan.st, l.cols, l.rows) <==>
            Answer(g, caches, plan, Bind(l.cols + NewCols(plan.st), r))
  {
    var n := |l.cols|;
    NewColsNoDup(plan.st, l.cols);
    SplitRow(l.cols, NewCols(plan.st), r);
    AnswerApply(g, caches, plan, Bind(l.cols + NewCols(plan.st), r));
    RunMember(g, caches, plan.st, l.cols, l.rows, r);
    ExtsExact(g, caches, plan.st, Bind(l.cols, r[..n]), r[n..]);
  }

  lemma ApplyRight(g: Graph, caches: Caches, plan: Plan)
    requires plan.Apply? && Wf(plan) && NoSatellite(plan) && CachesOrdered(caches)
    requires Right(g, caches, plan.left, Eval(g, caches, plan.left))
    ensures Right(g, caches, plan, Eval(g, caches, plan))
  {
    var l := Eval(g, caches, plan.left);
    forall r: Row | |r| == |l.cols| + |NewCols(plan.st)|
      ensures r in Run(g, caches, plan.st, l.cols, l.rows) <==>
              Answer(g, caches, plan, Bind(l.cols + NewCols(plan.st), r))
    {
      ApplyRowExact(g, caches, plan, l, r);
    }
  }

  lemma ApplyExact(g: Graph, caches: Caches, plan: Plan)
    requires plan.Apply? && Wf(plan) && NoSatellite(plan) && AllPlain(plan) && CachesOrdered(caches)
    requires Exact(g, caches, plan.left, Eval(g, caches, plan.left))
    ensures Exact(g, caches, plan, Eval(g, caches, plan))
  {
    var l := Eval(g, caches, plan.left);
    RunNoDup(g, caches, plan.st, l.cols, l.rows);
    ApplyRight(g, caches, plan);
  }

  lemma JoinRight(g: Graph, caches: Caches, plan: Plan)
    requires plan.Join? && Wf(plan) && NoSatellite(plan)
    requires Right(g, caches, plan.left, Eval(g, caches, plan.left))
    requires Right(g, caches, plan.right, Eval(g, caches, plan.right))
    ensures Right(g, caches, plan, Eval(g, caches, plan))
  {
    var a := Eval(g, caches, plan.left);
    var b := Eval(g, caches, plan.right);
    var t := Eval(g, caches, plan);
    forall r: Row | |r| == |t.cols|
      ensures r in t.rows <==> Answer(g, caches, plan, Bind(t.cols, r))
    {
      var mu := Bind(t.cols, r);
      JoinTablesExact(a, b, plan.common, r);
      RowAnswer(g, caches, plan.left, a, mu);
      RowAnswer(g, caches, plan.right, b, mu);
      assert AllHold(g, PlanPatterns(plan), mu) <==>
        AllHold(g, PlanPatterns(plan.left), mu) && AllHold(g, PlanPatterns(plan.right), mu);
    }
  }

  lemma JoinExact(g: Graph, caches: Caches, plan: Plan)
    requires plan.Join? && Wf(plan) && NoSatellite(plan)
    requires Exact(g, caches, plan.left, Eval(g, caches, plan.left))
    requires Exact(g, caches, plan.right, Eval(g, caches, plan.right))
    ensures Exact(g, caches, plan, Eval(g, caches, plan))
  {
    var a := Eval(g, caches, plan.left);
    var b := Eval(g, caches, plan.right);
    var (big, small) := if |a.rows| > |b.rows| then (a, b) else (b, a);
    assert Elements(a.cols) * Elements(b.cols) == Elements(b.cols) * Elements(a.cols);
    assert Joinable(big, small, plan.common);
    JoinRowsNoDup(big, small, plan.common);
    JoinRight(g, caches, plan);
  }

  lemma RowAnswer(g: Graph, caches: Caches, plan: Plan, t: Table, mu: Binding)
    requires Wf(plan) && NoSatellite(plan) && Right(g, caches, plan, t) && PlanCols(plan) <= mu.Keys
    ensures RowOf(t.cols, mu) in t.rows <==>
            AllHold(g, PlanPatterns(plan), mu) && ListsHold(caches, plan, mu)
  {
    var nu := Restrict(mu, PlanCols(plan));
    assert RowOf(t.cols, mu) == RowOf(t.cols, nu);
    BindRoundTrip(t.cols, nu);
    AnswerPart(g, caches, plan, mu);
  }

  /** For every well-formed plan tree, breadth-first evaluation returns exactly the mappings
      that satisfy every pattern the plan covers, each once. */
  lemma {:induction false} EvalExact(g: Graph, caches: Caches, plan: Plan)
    requires Wf(plan) && NoSatellite(plan) && AllPlain(plan) && CachesOrdered(caches)
    ensures Exact(g, caches, plan, Eval(g, caches, plan))
  {
    match plan
    case Unit =>
    case Scan(_, _) => ScanExact(g, caches, plan);
    case AllTriples(_, _, _) => AllTriplesExact(g, caches, plan);
    case Apply(left, _) =>
      EvalExact(g, caches, left);
      ApplyExact(g, caches, plan);
    case Join(left, right, _) =>
      EvalExact(g, caches, left);
      EvalExact(g, caches, right);
      JoinExact(g, caches, plan);
  }

  /** As a set, the result is right for extensions that can repeat an id as well. */
  lemma {:induction false} EvalRight(g: Graph, caches: Caches, plan: Plan)
    requires Wf(plan) && NoSatellite(plan) && CachesOrdered(caches)
    ensures Right(g, caches, plan, Eval(g, caches, plan))
  {
    match plan
    case Unit =>
    case Scan(_, _) => ScanExact(g, caches, plan);
    case AllTriples(_, _, _) => AllTriplesExact(g, caches, plan);
    case Apply(left, _) =>
      EvalRight(g, caches, left);
      ApplyRight(g, caches, plan);
    case Join(left, right, _) =>
      EvalRight(g, caches, left);
      EvalRight(g, caches, right);
      JoinRight(g, caches, plan);
  }

  lemma EvalRows(g: Graph, caches: Caches, plan: Plan, mu: Binding)
    requires Wf(plan) && NoSatellite(plan) && CachesOrdered(caches) && mu.Keys == PlanCols(plan)
    ensures Answer(g, caches, plan, mu) <==> RowOf(Eval(g, caches, plan).cols, mu) in Eval(g, caches, plan).rows
  {
    EvalRight(g, caches, plan);
    BindRoundTrip(Eval(g, caches, plan).cols, mu);
  }

  /** Column order does not matter: the mappings of the rows are the answers. */
  lemma EvalSolutions(g: Graph, caches: Caches, plan: Plan, mu: Binding)
    requires Wf(plan) && NoSatellite(plan) && AllPlain(plan) && CachesOrdered(caches)
    requires mu.Keys == PlanCols(plan)
    ensures Answer(g, caches, plan, mu) <==> RowOf(Eval(g, caches, plan).cols, mu) in Eval(g, caches, plan).rows
    ensures multiset(Eval(g, caches, plan).rows)[RowOf(Eval(g, caches, plan).cols, mu)] <= 1
  {
    EvalExact(g, caches, plan);
    BindRoundTrip(Eval(g, caches, plan).cols, mu);
    OccursOnce(Eval(g, caches, plan).rows, RowOf(Eval(g, caches, plan).cols, mu));
  }
}

/** Plan trees, the patterns they cover, and the table each one evaluates to. */
module Plans {
  import opened Collections
  import opened Rdf
  import opened Tables

  /** A plan tree. `Unit` stands for the missing child of a leaf, so a leaf that extends from
      constants is a step on `Unit`. `Scan` carries the ids the whole dictionary would give. */
  datatype Plan =
    | Unit
    | Scan(v: nat, all: seq<Id>)
    | AllTriples(s: nat, p: nat, o: nat)
    | Apply(left: Plan, st: Step)
    | Join(left: Plan, right: Plan, common: seq<nat>)

  function PlanCols(plan: Plan): set<nat> {
    match plan
    case Unit => {}
    case Scan(v, _) => {v}
    case AllTriples(s, p, o) => {s, p, o}
    case Apply(left, st) => PlanCols(left) + Elements(NewCols(st))
    case Join(left, right, _) => PlanCols(left) + PlanCols(right)
  }

  /** The patterns a plan covers. */
  function PlanPatterns(plan: Plan): set<Pattern> {
    match plan
    case Unit => {}
    case Scan(_, _) => {}
    case AllTriples(s, p, o) => {Pattern(Variable(s), Variable(p), Variable(o))}
    case Apply(left, st) => PlanPatterns(left) + StepPatterns(st)
    case Join(left, right, _) => PlanPatterns(left) + PlanPatterns(right)
  }

  /** The lists a plan restricts its variables to: a cache where there is one. */
  ghost predicate ListsHold(caches: Caches, plan: Plan, mu: Binding) {
    match plan
    case Unit => true
    case Scan(v, all) => v in mu && mu[v] in (if v in caches then caches[v] else all)
    case AllTriples(_, _, _) => true
    case Apply(left, st) => ListsHold(caches, left, mu) && CachesHold(caches, NewCols(st), mu)
    case Join(left, right, _) => ListsHold(caches, left, mu) && ListsHold(caches, right, mu)
  }

  /** The solutions a plan stands for. */
  ghost predicate Answer(g: Graph, caches: Caches, plan: Plan, mu: Binding) {
    mu.Keys == PlanCols(plan) && AllHold(g, PlanPatterns(plan), mu) && ListsHold(caches, plan, mu)
  }

  ghost predicate Wf(plan: Plan) {
    match plan
    case Unit => true
    case Scan(_, all) => Increasing(all)
    case AllTriples(s, p, o) => s != p && p != o && s != o
    case Apply(left, st) =>
      Wf(left) && StepOk(st, PlanCols(left)) && (left.Unit? ==> st.ExtendOne? || st.ExtendTwo?)
    case Join(left, right, common) =>
      Wf(left) && Wf(right) && NoDup(common) && Elements(common) == PlanCols(left) * PlanCols(right)
  }

  // ---------------------------------------------------------------- hash join, as a value

  /** The key of a row: its values of the shared variables. */
  function Key(cols: seq<nat>, row: Row, common: seq<nat>): (k: seq<Id>)
    requires |row| == |cols| && Elements(common) <= Elements(cols)
  {
    RowOf(common, Bind(cols, row))
  }

  /** The columns the smaller table adds. */
  function Rest(cols: seq<nat>, common: seq<nat>): (r: seq<nat>)
    ensures forall v :: v in r <==> v in cols && v !in common
  {
    if cols == [] then []
    else (if cols[0] in common then [] else [cols[0]]) + Rest(cols[1..], common)
  }

  lemma {:induction false} RestNoDup(cols: seq<nat>, common: seq<nat>)
    requires NoDup(cols)
    ensures NoDup(Rest(cols, common))
  {
    if cols != [] {
      RestNoDup(cols[1..], common);
      assert cols[0] !in cols[1..];
    }
  }

  function Added(cols: seq<nat>, row: Row, common: seq<nat>): (r: seq<Id>)
    requires |row| == |cols|
  {
    assert Elements(Rest(cols, common)) <= Elements(cols);
    RowOf(Rest(cols, common), Bind(cols, row))
  }

  /** The rows one small row makes with the big rows of the same key, in their order. */
  function MatchRows(bigCols: seq<nat>, big: seq<Row>, key: seq<Id>, added: seq<Id>, common: seq<nat>): seq<Row>
    requires RowsFit(bigCols, big) && Elements(common) <= Elements(bigCols)
  {
    if big == [] then []
    else
      (if Key(bigCols, big[0], common) == key then [big[0] + added] else []) +
      MatchRows(bigCols, big[1..], key, added, common)
  }

  function JoinRows(bigCols: seq<nat>, big: seq<Row>, smallCols: seq<nat>, small: seq<Row>, common: seq<nat>): seq<Row>
    requires RowsFit(bigCols, big) && RowsFit(smallCols, small)
    requires Elements(common) <= Elements(bigCols) && Elements(common) <= Elements(smallCols)
  {
    if small == [] then []
    else
      MatchRows(bigCols, big, Key(smallCols, small[0], common), Added(smallCols, small[0], common), common) +
      JoinRows(bigCols, big, smallCols, small[1..], common)
  }

  ghost predicate TableOk(t: Table) {
    NoDup(t.cols) && RowsFit(t.cols, t.rows)
  }

  predicate Joinable(a: Table, b: Table, common: seq<nat>) {
    Elements(common) == Elements(a.cols) * Elements(b.cols)
  }

  /** Columns are the bigger table's, then what the smaller one adds; on a tie `b` is the big one. */
  function JoinTables(a: Table, b: Table, common: seq<nat>): (t: Table)
    requires TableOk(a) && TableOk(b) && Joinable(a, b, common)
  {
    var (big, small) := if |a.rows| > |b.rows| then (a, b) else (b, a);
    Table(big.cols + Rest(small.cols, common), JoinRows(big.cols, big.rows, small.cols, small.rows, common))
  }

  // ---------------------------------------------------------------- evaluation

  /** A subject-object pair of predicate p as a row. */
  function TripleRow(pair: seq<Id>, p: Id): Row {
    if |pair| == 2 then [pair[0], p, pair[1]] else []
  }

  function TripleRows(p: Id, pairs: seq<seq<Id>>): (r: seq<Row>)
    ensures |r| == |pairs|
  {
    seq(|pairs|, i requires 0 <= i < |pairs| => TripleRow(pairs[i], p))
  }

  /** GetAllTriple: every triple, predicate by predicate. */
  function AllRows(g: Graph, ps: seq<Id>): seq<Row> {
    if ps == [] then [] else TripleRows(ps[0], Pairs(g, P, ps[0], S, O)) + AllRows(g, ps[1..])
  }

  function PredicatesOf(g: Graph): set<Id> {
    set t | t in g :: t.p
  }

  /** ExecutionBreathFirst, as a value. */
  function Eval(g: Graph, caches: Caches, plan: Plan): (t: Table)
    requires Wf(plan)
    ensures TableOk(t) && Elements(t.cols) == PlanCols(plan)
  {
    match plan
    case Unit => Table([], [[]])
    case Scan(v, all) =>
      var ids := if v in caches then caches[v] else all;
      Table([v], seq(|ids|, i requires 0 <= i < |ids| => [ids[i]]))
    case AllTriples(s, p, o) =>
      AllRowsFit(g, SortedSeq(PredicatesOf(g)));
      Table([s, p, o], AllRows(g, SortedSeq(PredicatesOf(g))))
    case Apply(left, st) =>
      var t := Eval(g, caches, left);
      RunFits(g, caches, st, t.cols, t.rows);
      Table(t.cols + NewCols(st), Run(g, caches, st, t.cols, t.rows))
    case Join(left, right, common) =>
      var a := Eval(g, caches, left);
      var b := Eval(g, caches, right);
      JoinTablesOk(a, b, common);
      JoinTables(a, b, common)
  }

  lemma {:induction false} AllRowsFit(g: Graph, ps: seq<Id>)
    ensures forall r :: r in AllRows(g, ps) ==> |r| == 3
  {
    if ps != [] {
      PairsLength(g, P, ps[0], S, O);
      AllRowsFit(g, ps[1..]);
    }
  }

  lemma ExtsFit(g: Graph, caches: Caches, st: Step, mu: Binding, x: seq<Id>)
    requires StepReady(st, mu) && x in Exts(g, caches, st, mu)
    ensures |x| == |NewCols(st)|
  {
    if st.ExtendTwo? {
      FilterPairsMember(caches, st.v1, st.v2, PairsOf(g, st.pat, st.via, mu), x);
    }
  }

  lemma {:induction false} FilterPairsMember(caches: Caches, v1: nat, v2: nat, ps: seq<seq<Id>>, x: seq<Id>)
    ensures x in FilterPairs(caches, v1, v2, ps) <==> x in ps && PairKept(caches, v1, v2, x)
  {
    if ps != [] {
      var front := ps[..|ps| - 1];
      FilterPairsMember(caches, v1, v2, front, x);
      assert ps == front + [ps[|ps| - 1]];
    }
  }

  lemma GrowMember(row: Row, exts: seq<seq<Id>>, r: Row)
    ensures r in Grow(row, exts) <==> |row| <= |r| && r[..|row|] == row && r[|row|..] in exts
  {
    if |row| <= |r| && r[..|row|] == row && r[|row|..] in exts {
      var i :| 0 <= i < |exts| && exts[i] == r[|row|..];
      assert Grow(row, exts)[i] == r;
    }
    if r in Grow(row, exts) {
      var i :| 0 <= i < |exts| && Grow(row, exts)[i] == r;
      assert r[|row|..] == exts[i] && r[..|row|] == row;
    }
  }

  /** A row of the result is a row of the table followed by one of its extensions. */
  lemma {:induction false} RunMember(g: Graph, caches: Caches, st: Step, cols: seq<nat>, rows: seq<Row>, r: Row)
    requires StepOk(st, Elements(cols)) && RowsFit(cols, rows)
    ensures r in Run(g, caches, st, cols, rows) <==>
            |cols| <= |r| && r[..|cols|] in rows &&
            StepReady(st, Bind(cols, r[..|cols|])) && r[|cols|..] in Exts(g, caches, st, Bind(cols, r[..|cols|]))
  {
    if rows != [] {
      var row := rows[0];
      OkReady(st, Bind(cols, row));
      var exts := Exts(g, caches, st, Bind(cols, row));
      RunMember(g, caches, st, cols, rows[1..], r);
      assert rows == [row] + rows[1..];
      GrowMember(row, exts, r);
    }
  }

  lemma RunFits(g: Graph, caches: Caches, st: Step, cols: seq<nat>, rows: seq<Row>)
    requires NoDup(cols) && StepOk(st, Elements(cols)) && RowsFit(cols, rows)
    ensures TableOk(Table(cols + NewCols(st), Run(g, caches, st, cols, rows)))
    ensures Elements(cols + NewCols(st)) == Elements(cols) + Elements(NewCols(st))
  {
    NewColsNoDup(st, cols);
    forall r | r in Run(g, caches, st, cols, rows)
      ensures |r| == |cols + NewCols(st)|
    {
      RunMember(g, caches, st, cols, rows, r);
      ExtsFit(g, caches, st, Bind(cols, r[..|cols|]), r[|cols|..]);
    }
  }

  lemma {:induction false} MatchRowsMember(bigCols: seq<nat>, big: seq<Row>, key: seq<Id>, added: seq<Id>,
                                           common: seq<nat>, r: Row)
    requires RowsFit(bigCols, big) && Elements(common) <= Elements(bigCols)
    ensures r in MatchRows(bigCols, big, key, added, common) <==>
            |bigCols| <= |r| && r[..|bigCols|] in big && r[|bigCols|..] == added &&
            Key(bigCols, r[..|bigCols|], common) == key
  {
    if big != [] {
      MatchRowsMember(bigCols, big[1..], key, added, common, r);
      assert big == [big[0]] + big[1..];
      assert r == big[0] + added <==> |bigCols| <= |r| && r[..|bigCols|] == big[0] && r[|bigCols|..] == added;
    }
  }

  ghost predicate Combines(bigCols: seq<nat>, big: seq<Row>, smallCols: seq<nat>, s: Row, common: seq<nat>, r: Row)
    requires |s| == |smallCols| && Elements(common) <= Elements(bigCols) && Elements(common) <= Elements(smallCols)
  {
    |bigCols| <= |r| && r[..|bigCols|] in big && r[|bigCols|..] == Added(smallCols, s, common) &&
    Key(bigCols, r[..|bigCols|], common) == Key(smallCols, s, common)
  }

  lemma {:induction false} JoinRowsMember(bigCols: seq<nat>, big: seq<Row>, smallCols: seq<nat>, small: seq<Row>,
                                          common: seq<nat>, r: Row)
    requires RowsFit(bigCols, big) && RowsFit(smallCols, small)
    requires Elements(common) <= Elements(bigCols) && Elements(common) <= Elements(smallCols)
    ensures r in JoinRows(bigCols, big, smallCols, small, common) <==>
            exists s :: s in small && Combines(bigCols, big, smallCols, s, common, r)
  {
    if small != [] {
      JoinRowsMember(bigCols, big, smallCols, small[1..], common, r);
      MatchRowsMember(bigCols, big, Key(smallCols, small[0], common), Added(smallCols, small[0], common), common, r);
      assert small == [small[0]] + small[1..];
    }
  }

  lemma JoinTablesOk(a: Table, b: Table, common: seq<nat>)
    requires TableOk(a) && TableOk(b) && Joinable(a, b, common)
    ensures TableOk(JoinTables(a, b, common))
    ensures Elements(JoinTables(a, b, common).cols) == Elements(a.cols) + Elements(b.cols)
  {
    var (big, small) := if |a.rows| > |b.rows| then (a, b) else (b, a);
    var rest := Rest(small.cols, common);
    RestNoDup(small.cols, common);
    forall v | v in big.cols
      ensures v !in rest
    {
      assert v in Elements(a.cols) * Elements(b.cols) <==> v in Elements(common);
    }
    assert Elements(big.cols) !! Elements(rest);
    NoDupSplit(big.cols, rest);
    forall r | r in JoinRows(big.cols, big.rows, small.cols, small.rows, common)
      ensures |r| == |big.cols + rest|
    {
      JoinRowsMember(big.cols, big.rows, small.cols, small.rows, common, r);
    }
    forall v
      ensures v in big.cols + rest <==> v in Elements(a.cols) + Elements(b.cols)
    {
      assert v in Elements(common) <==> v in Elements(a.cols) && v in Elements(b.cols);
    }
  }
}

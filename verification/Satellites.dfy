/** Satellite steps count matches without keeping the matched value. A plan with satellites
    returns, row for row, what the plan that keeps every satellite column returns with those
    columns projected away. */
module Satellites {
  import opened Collections
  import opened Rdf
  import opened Tables
  import opened Plans
  import opened Solutions

  function Kept(st: Step): Step {
    if st.Satellite? then ExtendOne(st.v, st.edges, st.distinct) else st
  }

  /** The same plan with every satellite variable kept as a column. */
  function Saturate(plan: Plan): Plan {
    match plan
    case Unit => Unit
    case Scan(_, _) => plan
    case AllTriples(_, _, _) => plan
    case Apply(left, st) => Apply(Saturate(left), Kept(st))
    case Join(left, right, common) => Join(Saturate(left), Saturate(right), common)
  }

  ghost predicate CountsAll(plan: Plan) {
    match plan
    case Unit => true
    case Scan(_, _) => true
    case AllTriples(_, _, _) => true
    case Apply(left, st) => CountsAll(left) && (st.Satellite? ==> !st.distinct)
    case Join(left, right, _) => CountsAll(left) && CountsAll(right)
  }

  ghost predicate Agrees(mu: Binding, nu: Binding) {
    forall v :: v in mu ==> v in nu && nu[v] == mu[v]
  }

  // ---------------------------------------------------------------- a step sees only what it is given

  lemma EdgeListLocal(g: Graph, e: Edge, mu: Binding, nu: Binding, distinct: bool)
    requires Agrees(mu, nu) && GivenKnown(e, mu.Keys)
    ensures Ready(e.pat, e.how, mu) && Ready(e.pat, e.how, nu)
    ensures EdgeList(g, e.pat, e.how, mu, distinct) == EdgeList(g, e.pat, e.how, nu, distinct)
  {
  }

  lemma {:induction false} MeetFromLocal(g: Graph, acc: seq<Id>, edges: seq<Edge>, mu: Binding, nu: Binding,
                                         distinct: bool)
    requires Agrees(mu, nu) && forall e :: e in edges ==> GivenKnown(e, mu.Keys)
    ensures EdgesReady(edges, mu) && EdgesReady(edges, nu)
    ensures MeetFrom(g, acc, edges, mu, distinct) == MeetFrom(g, acc, edges, nu, distinct)
    decreases |edges|
  {
    if edges != [] {
      EdgeListLocal(g, edges[0], mu, nu, distinct);
      var l := EdgeList(g, edges[0].pat, edges[0].how, mu, distinct);
      assert edges == [edges[0]] + edges[1..];
      MeetFromLocal(g, Intersect(acc, l), edges[1..], mu, nu, distinct);
    }
  }

  lemma CandidatesLocal(g: Graph, caches: Caches, v: nat, edges: seq<Edge>, distinct: bool, mu: Binding, nu: Binding)
    requires Agrees(mu, nu) && forall e :: e in edges ==> GivenKnown(e, mu.Keys)
    ensures EdgesReady(edges, mu) && EdgesReady(edges, nu)
    ensures Candidates(g, caches, v, edges, distinct, mu) == Candidates(g, caches, v, edges, distinct, nu)
  {
    if edges != [] {
      EdgeListLocal(g, edges[0], mu, nu, distinct);
      assert edges == [edges[0]] + edges[1..];
      MeetFromLocal(g, EdgeList(g, edges[0].pat, edges[0].how, mu, distinct), edges[1..], mu, nu, distinct);
    }
  }

  lemma ExtsLocal(g: Graph, caches: Caches, st: Step, mu: Binding, nu: Binding)
    requires Agrees(mu, nu) && StepOk(st, mu.Keys)
    ensures StepReady(st, mu) && StepReady(st, nu)
    ensures Exts(g, caches, st, mu) == Exts(g, caches, st, nu)
  {
    match st
    case ExtendOne(v, edges, distinct) => CandidatesLocal(g, caches, v, edges, distinct, mu, nu);
    case Satellite(v, edges, distinct) => CandidatesLocal(g, caches, v, edges, distinct, mu, nu);
    case ExtendTwo(_, _, _, _) =>
    case Check(edges) =>
      forall e | e in edges
        ensures EdgeInside(e, mu.Keys) && EdgePasses(g, e, mu) == EdgePasses(g, e, nu)
        ensures Ready(e.pat, e.how, nu) && Ground(Part(e.pat, Target(e.how)), nu)
      {
        EdgeListLocal(g, e, mu, nu, true);
      }
  }

  // ---------------------------------------------------------------- row-for-row projection

  /** Row i of t is row i of f without the columns t does not have. */
  ghost predicate Covers(t: Table, f: Table) {
    RowsFit(t.cols, t.rows) && RowsFit(f.cols, f.rows) && |t.rows| == |f.rows| &&
    forall i :: 0 <= i < |t.rows| ==> Under(t.cols, t.rows[i], f.cols, f.rows[i])
  }

  ghost predicate Under(cols: seq<nat>, row: Row, fullCols: seq<nat>, full: Row) {
    |row| == |cols| && |full| == |fullCols| && Agrees(Bind(cols, row), Bind(fullCols, full))
  }

  lemma CoversConcat(cols: seq<nat>, a: seq<Row>, b: seq<Row>, fullCols: seq<nat>, fa: seq<Row>, fb: seq<Row>)
    requires Covers(Table(cols, a), Table(fullCols, fa)) && Covers(Table(cols, b), Table(fullCols, fb))
    ensures Covers(Table(cols, a + b), Table(fullCols, fa + fb))
  {
  }

  lemma UnderAppend(cols: seq<nat>, row: Row, fullCols: seq<nat>, full: Row, more: seq<nat>, x: seq<Id>)
    requires Under(cols, row, fullCols, full) && |x| == |more|
    requires NoDup(cols + more) && NoDup(fullCols + more)
    ensures Under(cols + more, row + x, fullCols + more, full + x)
  {
    BindAppend(cols, row, more, x);
    BindAppend(fullCols, full, more, x);
  }

  lemma GrowUnder(cols: seq<nat>, row: Row, fullCols: seq<nat>, full: Row, more: seq<nat>, exts: seq<seq<Id>>)
    requires Under(cols, row, fullCols, full) && NoDup(cols + more) && NoDup(fullCols + more)
    requires forall x :: x in exts ==> |x| == |more|
    ensures Covers(Table(cols + more, Grow(row, exts)), Table(fullCols + more, Grow(full, exts)))
  {
    forall i | 0 <= i < |exts|
      ensures Under(cols + more, Grow(row, exts)[i], fullCols + more, Grow(full, exts)[i])
    {
      UnderAppend(cols, row, fullCols, full, more, exts[i]);
    }
  }

  lemma GrowUnderSatellite(cols: seq<nat>, row: Row, fullCols: seq<nat>, full: Row, v: nat, empties: seq<seq<Id>>,
                           exts: seq<seq<Id>>)
    requires Under(cols, row, fullCols, full) && NoDup(fullCols + [v])
    requires forall x :: x in exts ==> |x| == 1
    requires |empties| == |exts| && forall x :: x in empties ==> x == []
    ensures Covers(Table(cols + [], Grow(row, empties)), Table(fullCols + [v], Grow(full, exts)))
  {
    assert cols + [] == cols;
    NoDupSplit(fullCols, [v]);
    forall i | 0 <= i < |exts|
      ensures Under(cols, Grow(row, empties)[i], fullCols + [v], Grow(full, exts)[i])
    {
      assert empties[i] in empties && row + empties[i] == row;
      BindAppend(fullCols, full, [v], exts[i]);
    }
  }

  /** One row, one step: a kept satellite column is the only difference. */
  lemma GrowCovers(g: Graph, caches: Caches, st: Step, cols: seq<nat>, row: Row, fullCols: seq<nat>, full: Row)
    requires Under(cols, row, fullCols, full) && NoDup(cols) && NoDup(fullCols)
    requires StepOk(st, Elements(cols)) && StepOk(Kept(st), Elements(fullCols)) && (st.Satellite? ==> !st.distinct)
    ensures StepReady(st, Bind(cols, row)) && StepReady(Kept(st), Bind(fullCols, full))
    ensures Covers(Table(cols + NewCols(st), Grow(row, Exts(g, caches, st, Bind(cols, row)))),
                   Table(fullCols + NewCols(Kept(st)), Grow(full, Exts(g, caches, Kept(st), Bind(fullCols, full)))))
  {
    var mu, nu := Bind(cols, row), Bind(fullCols, full);
    OkReady(st, mu);
    ExtsLocal(g, caches, Kept(st), mu, nu);
    forall x | x in Exts(g, caches, Kept(st), nu)
      ensures |x| == |NewCols(Kept(st))|
    {
      ExtsFit(g, caches, Kept(st), nu, x);
    }
    NewColsNoDup(Kept(st), fullCols);
    if st.Satellite? {
      GrowUnderSatellite(cols, row, fullCols, full, st.v, Exts(g, caches, st, mu), Exts(g, caches, Kept(st), nu));
    } else {
      NewColsNoDup(st, cols);
      GrowUnder(cols, row, fullCols, full, NewCols(st), Exts(g, caches, st, mu));
    }
  }

  lemma {:induction false} RunCovers(g: Graph, caches: Caches, st: Step, cols: seq<nat>, rows: seq<Row>,
                                     fullCols: seq<nat>, fulls: seq<Row>)
    requires Covers(Table(cols, rows), Table(fullCols, fulls)) && NoDup(cols) && NoDup(fullCols)
    requires StepOk(st, Elements(cols)) && StepOk(Kept(st), Elements(fullCols)) && (st.Satellite? ==> !st.distinct)
    ensures Covers(Table(cols + NewCols(st), Run(g, caches, st, cols, rows)),
                   Table(fullCols + NewCols(Kept(st)), Run(g, caches, Kept(st), fullCols, fulls)))
    decreases |rows|
  {
    if rows != [] {
      assert Under(cols, rows[0], fullCols, fulls[0]);
      GrowCovers(g, caches, st, cols, rows[0], fullCols, fulls[0]);
      forall i | 0 <= i < |rows[1..]|
        ensures Under(cols, rows[1..][i], fullCols, fulls[1..][i])
      {
        assert rows[1..][i] == rows[i + 1] && fulls[1..][i] == fulls[i + 1];
      }
      RunCovers(g, caches, st, cols, rows[1..], fullCols, fulls[1..]);
      CoversConcat(cols + NewCols(st), Grow(rows[0], Exts(g, caches, st, Bind(cols, rows[0]))),
                   Run(g, caches, st, cols, rows[1..]),
                   fullCols + NewCols(Kept(st)), Grow(fulls[0], Exts(g, caches, Kept(st), Bind(fullCols, fulls[0]))),
                   Run(g, caches, Kept(st), fullCols, fulls[1..]));
    }
  }

  // ---------------------------------------------------------------- joins of covered tables

  /** The mapping of a joined row is the big row's, then the small row's. */
  lemma MergedBind(big: Table, small: Table, common: seq<nat>, b: Row, s: Row, v: nat)
    requires TableOk(big) && TableOk(small) && Joinable(big, small, common)
    requires |b| == |big.cols| && |s| == |small.cols|
    ensures |b + Added(small.cols, s, common)| == |big.cols + Rest(small.cols, common)|
    ensures Elements(big.cols + Rest(small.cols, common)) == Elements(big.cols) + Elements(small.cols)
    ensures var mu := Bind(big.cols + Rest(small.cols, common), b + Added(small.cols, s, common));
            v in big.cols ==> v in mu && mu[v] == Bind(big.cols, b)[v]
    ensures var mu := Bind(big.cols + Rest(small.cols, common), b + Added(small.cols, s, common));
            v in small.cols && v !in big.cols ==> v in mu && mu[v] == Bind(small.cols, s)[v]
  {
    var rest := Rest(small.cols, common);
    var added := Added(small.cols, s, common);
    JoinCols(big, small, common, b + added);
    BindAppend(big.cols, b, rest, added);
    assert v in Elements(common) <==> v in Elements(big.cols) && v in Elements(small.cols);
    if v in small.cols && v !in big.cols {
      var i := Pos(rest, v);
      RestNoDup(small.cols, common);
      BindAt(rest, added, i);
    }
    NoDupSplit(big.cols, rest);
    assert v in big.cols ==> v !in rest;
  }

  ghost predicate JoinUnder(t: Table, f: Table, u: Table, h: Table, common: seq<nat>) {
    TableOk(t) && TableOk(f) && TableOk(u) && TableOk(h) && Covers(t, f) && Covers(u, h) &&
    Joinable(t, u, common) && Joinable(f, h, common)
  }

  lemma JoinedUnder(t: Table, f: Table, u: Table, h: Table, common: seq<nat>, b: Row, fb: Row, s: Row, fs: Row)
    requires JoinUnder(t, f, u, h, common)
    requires Elements(t.cols) <= Elements(f.cols) && Elements(u.cols) <= Elements(h.cols)
    requires Under(t.cols, b, f.cols, fb) && Under(u.cols, s, h.cols, fs)
    ensures Under(t.cols + Rest(u.cols, common), b + Added(u.cols, s, common),
                  f.cols + Rest(h.cols, common), fb + Added(h.cols, fs, common))
  {
    var all := t.cols + Rest(u.cols, common);
    var mu := Bind(all, b + Added(u.cols, s, common));
    var nu := Bind(f.cols + Rest(h.cols, common), fb + Added(h.cols, fs, common));
    MergedBind(f, h, common, fb, fs, 0);
    forall v | v in mu
      ensures v in nu && nu[v] == mu[v]
    {
      MergedBind(t, u, common, b, s, v);
      MergedBind(f, h, common, fb, fs, v);
      if v in t.cols {
        assert v in Bind(t.cols, b) && v in Bind(f.cols, fb);
      } else {
        assert v in Bind(u.cols, s) && v in Bind(h.cols, fs);
        assert v in Elements(common) <==> v in Elements(f.cols) * Elements(h.cols);
        assert v in Elements(common) <==> v in Elements(t.cols) * Elements(u.cols);
      }
    }
    MergedBind(t, u, common, b, s, 0);
  }

  lemma KeyUnder(cols: seq<nat>, row: Row, fullCols: seq<nat>, full: Row, common: seq<nat>)
    requires Under(cols, row, fullCols, full)
    requires Elements(common) <= Elements(cols) && Elements(common) <= Elements(fullCols)
    ensures Key(cols, row, common) == Key(fullCols, full, common)
  {
    AgreeTuple(common, Bind(cols, row), Bind(fullCols, full));
    assert forall v :: v in common ==> v in Elements(common);
  }

  lemma {:induction false} MatchCovers(t: Table, f: Table, u: Table, h: Table, common: seq<nat>, s: Row, fs: Row)
    requires JoinUnder(t, f, u, h, common)
    requires Elements(t.cols) <= Elements(f.cols) && Elements(u.cols) <= Elements(h.cols)
    requires Under(u.cols, s, h.cols, fs)
    ensures Covers(Table(t.cols + Rest(u.cols, common),
                         MatchRows(t.cols, t.rows, Key(u.cols, s, common), Added(u.cols, s, common), common)),
                   Table(f.cols + Rest(h.cols, common),
                         MatchRows(f.cols, f.rows, Key(h.cols, fs, common), Added(h.cols, fs, common), common)))
    decreases |t.rows|
  {
    if t.rows != [] {
      var b, fb := t.rows[0], f.rows[0];
      var t', f' := Table(t.cols, t.rows[1..]), Table(f.cols, f.rows[1..]);
      assert Under(t.cols, b, f.cols, fb);
      forall i | 0 <= i < |t'.rows|
        ensures Under(t.cols, t'.rows[i], f.cols, f'.rows[i])
      {
        assert t'.rows[i] == t.rows[i + 1] && f'.rows[i] == f.rows[i + 1];
      }
      MatchCovers(t', f', u, h, common, s, fs);
      KeyUnder(t.cols, b, f.cols, fb, common);
      KeyUnder(u.cols, s, h.cols, fs, common);
      JoinedUnder(t, f, u, h, common, b, fb, s, fs);
      var key, added, fadded := Key(u.cols, s, common), Added(u.cols, s, common), Added(h.cols, fs, common);
      var hit := Key(t.cols, b, common) == key;
      CoversConcat(t.cols + Rest(u.cols, common), if hit then [b + added] else [],
                   MatchRows(t.cols, t'.rows, key, added, common),
                   f.cols + Rest(h.cols, common), if hit then [fb + fadded] else [],
                   MatchRows(f.cols, f'.rows, key, fadded, common));
    }
  }

  lemma {:induction false} JoinRowsCovers(t: Table, f: Table, u: Table, h: Table, common: seq<nat>)
    requires JoinUnder(t, f, u, h, common)
    requires Elements(t.cols) <= Elements(f.cols) && Elements(u.cols) <= Elements(h.cols)
    ensures Covers(Table(t.cols + Rest(u.cols, common), JoinRows(t.cols, t.rows, u.cols, u.rows, common)),
                   Table(f.cols + Rest(h.cols, common), JoinRows(f.cols, f.rows, h.cols, h.rows, common)))
    decreases |u.rows|
  {
    if u.rows != [] {
      var s, fs := u.rows[0], h.rows[0];
      var u', h' := Table(u.cols, u.rows[1..]), Table(h.cols, h.rows[1..]);
      assert Under(u.cols, s, h.cols, fs);
      forall i | 0 <= i < |u'.rows|
        ensures Under(u.cols, u'.rows[i], h.cols, h'.rows[i])
      {
        assert u'.rows[i] == u.rows[i + 1] && h'.rows[i] == h.rows[i + 1];
      }
      JoinRowsCovers(t, f, u', h', common);
      MatchCovers(t, f, u, h, common, s, fs);
      CoversConcat(t.cols + Rest(u.cols, common),
                   MatchRows(t.cols, t.rows, Key(u.cols, s, common), Added(u.cols, s, common), common),
                   JoinRows(t.cols, t.rows, u.cols, u'.rows, common),
                   f.cols + Rest(h.cols, common),
                   MatchRows(f.cols, f.rows, Key(h.cols, fs, common), Added(h.cols, fs, common), common),
                   JoinRows(f.cols, f.rows, h.cols, h'.rows, common));
    }
  }

  lemma JoinCovers(t: Table, f: Table, u: Table, h: Table, common: seq<nat>)
    requires JoinUnder(t, f, u, h, common)
    requires Elements(t.cols) <= Elements(f.cols) && Elements(u.cols) <= Elements(h.cols)
    ensures Covers(JoinTables(t, u, common), JoinTables(f, h, common))
  {
    assert Elements(t.cols) * Elements(u.cols) == Elements(u.cols) * Elements(t.cols);
    assert Elements(f.cols) * Elements(h.cols) == Elements(h.cols) * Elements(f.cols);
    if |t.rows| > |u.rows| {
      JoinRowsCovers(t, f, u, h, common);
    } else {
      JoinRowsCovers(u, h, t, f, common);
    }
  }

  lemma {:induction false} SaturateCols(plan: Plan)
    ensures PlanCols(plan) <= PlanCols(Saturate(plan))
  {
    match plan
    case Unit =>
    case Scan(_, _) =>
    case AllTriples(_, _, _) =>
    case Apply(left, _) => SaturateCols(left);
    case Join(left, right, _) =>
      SaturateCols(left);
      SaturateCols(right);
  }

  /** A plan that counts its satellites returns, in order, the projection of the plan that
      keeps them: one row per solution of all the patterns, as bags demand. */
  lemma {:induction false} SatelliteProjection(g: Graph, caches: Caches, plan: Plan)
    requires Wf(plan) && Wf(Saturate(plan)) && CountsAll(plan)
    ensures Covers(Eval(g, caches, plan), Eval(g, caches, Saturate(plan)))
  {
    match plan
    case Unit =>
    case Scan(_, _) =>
    case AllTriples(_, _, _) =>
    case Apply(left, st) =>
      SatelliteProjection(g, caches, left);
      var t, f := Eval(g, caches, left), Eval(g, caches, Saturate(left));
      RunCovers(g, caches, st, t.cols, t.rows, f.cols, f.rows);
    case Join(left, right, common) =>
      SatelliteProjection(g, caches, left);
      SatelliteProjection(g, caches, right);
      SaturateCols(left);
      SaturateCols(right);
      JoinCovers(Eval(g, caches, left), Eval(g, caches, Saturate(left)),
                 Eval(g, caches, right), Eval(g, caches, Saturate(right)), common);
  }

  // ---------------------------------------------------------------- distinct or not, the same set

  /** The rows of t are exactly the rows of f with the other columns dropped, as a set. */
  ghost predicate Shadows(t: Table, f: Table) {
    TableOk(t) && TableOk(f) &&
    forall r {:trigger r in t.rows} :: |r| == |t.cols| ==>
          (r in t.rows <==> exists full :: full in f.rows && Under(t.cols, r, f.cols, full))
  }

  lemma ShadowRow(t: Table, f: Table, row: Row, full: Row)
    requires Shadows(t, f) && full in f.rows && Under(t.cols, row, f.cols, full)
    ensures row in t.rows
  {
  }

  lemma UnderSplit(cols: seq<nat>, more: seq<nat>, r: Row, fullCols: seq<nat>, full: Row)
    requires NoDup(cols + more) && NoDup(fullCols + more)
    requires |r| == |cols| + |more| && |full| == |fullCols| + |more|
    ensures Under(cols + more, r, fullCols + more, full) <==>
            (Under(cols, r[..|cols|], fullCols, full[..|fullCols|]) && r[|cols|..] == full[|fullCols|..])
  {
    var n, m := |cols|, |fullCols|;
    SplitRow(cols, more, r);
    SplitRow(fullCols, more, full);
    NoDupSplit(cols, more);
    NoDupSplit(fullCols, more);
    RowRoundTrip(more, r[n..]);
    RowRoundTrip(more, full[m..]);
    AgreeTuple(more, Bind(more, r[n..]), Bind(more, full[m..]));
    if Under(cols + more, r, fullCols + more, full) {
      forall v | v in cols
        ensures v in Bind(fullCols, full[..m]) && Bind(fullCols, full[..m])[v] == Bind(cols, r[..n])[v]
      {
        assert v in Bind(cols + more, r) && v in Elements(cols) && v !in Elements(more);
      }
      forall v | v in more
        ensures Bind(more, full[m..])[v] == Bind(more, r[n..])[v]
      {
        assert v in Elements(more) && v in Bind(cols + more, r);
      }
    }
  }

  lemma RunPrefix(g: Graph, caches: Caches, st: Step, f: Table, full: Row)
    requires TableOk(f) && StepOk(st, Elements(f.cols)) && full in Run(g, caches, st, f.cols, f.rows)
    ensures |f.cols| <= |full| && full[..|f.cols|] in f.rows
  {
    RunMember(g, caches, st, f.cols, f.rows, full);
  }

  /** Related rows grow by the same values, to related rows. */
  lemma GrownAlike(g: Graph, caches: Caches, st: Step, t: Table, f: Table, row: Row, full: Row, x: seq<Id>)
    requires TableOk(t) && TableOk(f) && !st.Satellite? && |x| == |NewCols(st)|
    requires StepOk(st, Elements(t.cols)) && StepOk(st, Elements(f.cols))
    requires Under(t.cols, row, f.cols, full) && row in t.rows && full in f.rows
    ensures row + x in Run(g, caches, st, t.cols, t.rows) <==> full + x in Run(g, caches, st, f.cols, f.rows)
    ensures Under(t.cols + NewCols(st), row + x, f.cols + NewCols(st), full + x)
  {
    assert row + x in Run(g, caches, st, t.cols, t.rows) <==> full + x in Run(g, caches, st, f.cols, f.rows) by {
      ExtsLocal(g, caches, st, Bind(t.cols, row), Bind(f.cols, full));
      assert (row + x)[..|t.cols|] == row && (row + x)[|t.cols|..] == x;
      assert (full + x)[..|f.cols|] == full && (full + x)[|f.cols|..] == x;
      RunMember(g, caches, st, t.cols, t.rows, row + x);
      RunMember(g, caches, st, f.cols, f.rows, full + x);
    }
    NewColsNoDup(st, t.cols);
    NewColsNoDup(st, f.cols);
    UnderAppend(t.cols, row, f.cols, full, NewCols(st), x);
  }

  lemma RunShadowed(g: Graph, caches: Caches, st: Step, t: Table, f: Table, r: Row) returns (full: Row)
    requires Shadows(t, f) && !st.Satellite? && |r| == |t.cols| + |NewCols(st)|
    requires StepOk(st, Elements(t.cols)) && StepOk(st, Elements(f.cols))
    requires r in Run(g, caches, st, t.cols, t.rows)
    ensures full in Run(g, caches, st, f.cols, f.rows) && Under(t.cols + NewCols(st), r, f.cols + NewCols(st), full)
  {
    var row, x := r[..|t.cols|], r[|t.cols|..];
    assert r == row + x;
    RunMember(g, caches, st, t.cols, t.rows, r);
    var base :| base in f.rows && Under(t.cols, row, f.cols, base);
    GrownAlike(g, caches, st, t, f, row, base, x);
    full := base + x;
  }

  lemma UnderParts(st: Step, t: Table, f: Table, r: Row, full: Row)
    requires TableOk(t) && TableOk(f) && StepOk(st, Elements(t.cols)) && StepOk(st, Elements(f.cols))
    requires Under(t.cols + NewCols(st), r, f.cols + NewCols(st), full)
    ensures Under(t.cols, r[..|t.cols|], f.cols, full[..|f.cols|])
    ensures r == r[..|t.cols|] + r[|t.cols|..] && full == full[..|f.cols|] + r[|t.cols|..]
  {
    NewColsNoDup(st, t.cols);
    NewColsNoDup(st, f.cols);
    UnderSplit(t.cols, NewCols(st), r, f.cols, full);
  }

  lemma RunShadowing(g: Graph, caches: Caches, st: Step, t: Table, f: Table, r: Row, full: Row)
    requires Shadows(t, f) && !st.Satellite? && |r| == |t.cols| + |NewCols(st)|
    requires StepOk(st, Elements(t.cols)) && StepOk(st, Elements(f.cols))
    requires full in Run(g, caches, st, f.cols, f.rows) && Under(t.cols + NewCols(st), r, f.cols + NewCols(st), full)
    ensures r in Run(g, caches, st, t.cols, t.rows)
  {
    UnderParts(st, t, f, r, full);
    RunPrefix(g, caches, st, f, full);
    ShadowRow(t, f, r[..|t.cols|], full[..|f.cols|]);
    GrownAlike(g, caches, st, t, f, r[..|t.cols|], full[..|f.cols|], r[|t.cols|..]);
  }

  lemma SatelliteShadowed(g: Graph, caches: Caches, st: Step, t: Table, f: Table, r: Row) returns (full: Row)
    requires Shadows(t, f) && st.Satellite? && |r| == |t.cols|
    requires StepOk(st, Elements(t.cols)) && StepOk(Kept(st), Elements(f.cols))
    requires r in Run(g, caches, st, t.cols, t.rows)
    ensures full in Run(g, caches, Kept(st), f.cols, f.rows) && Under(t.cols, r, f.cols + [st.v], full)
  {
    var mu := Bind(t.cols, r);
    RunMember(g, caches, st, t.cols, t.rows, r);
    assert r[..|t.cols|] == r && r[|t.cols|..] == [];
    var base :| base in f.rows && Under(t.cols, r, f.cols, base);
    var x := Exts(g, caches, Kept(st), mu)[0];
    full := base + x;
    ExtsLocal(g, caches, Kept(st), mu, Bind(f.cols, base));
    assert full[..|f.cols|] == base && full[|f.cols|..] == x;
    RunMember(g, caches, Kept(st), f.cols, f.rows, full);
    NoDupSplit(f.cols, [st.v]);
    BindAppend(f.cols, base, [st.v], x);
  }

  lemma UnderDrop(cols: seq<nat>, r: Row, fullCols: seq<nat>, full: Row, v: nat)
    requires NoDup(fullCols) && v !in fullCols && v !in cols && |r| == |cols| && |full| == |fullCols| + 1
    requires Under(cols, r, fullCols + [v], full)
    ensures Under(cols, r, fullCols, full[..|fullCols|])
  {
    var m, mu := |fullCols|, Bind(cols, r);
    NoDupSplit(fullCols, [v]);
    SplitRow(fullCols, [v], full);
    forall u | u in mu
      ensures u in Bind(fullCols, full[..m]) && Bind(fullCols, full[..m])[u] == mu[u]
    {
      assert u != v;
    }
  }

  lemma SatelliteShadowing(g: Graph, caches: Caches, st: Step, t: Table, f: Table, r: Row, full: Row)
    requires Shadows(t, f) && st.Satellite? && |r| == |t.cols|
    requires StepOk(st, Elements(t.cols)) && StepOk(Kept(st), Elements(f.cols)) && st.v !in t.cols
    requires full in Run(g, caches, Kept(st), f.cols, f.rows) && Under(t.cols, r, f.cols + [st.v], full)
    ensures r in Run(g, caches, st, t.cols, t.rows)
  {
    var m, mu := |f.cols|, Bind(t.cols, r);
    RunMember(g, caches, Kept(st), f.cols, f.rows, full);
    UnderDrop(t.cols, r, f.cols, full, st.v);
    ExtsLocal(g, caches, Kept(st), mu, Bind(f.cols, full[..m]));
    assert r[..|t.cols|] == r && r[|t.cols|..] == [];
    SatelliteCounts(g, caches, st, mu);
    RunMember(g, caches, st, t.cols, t.rows, r);
  }

  /** A satellite repeats the row as often as the kept variable has candidates, or with distinct lets
      it through once if there is one. */
  lemma SatelliteCounts(g: Graph, caches: Caches, st: Step, mu: Binding)
    requires st.Satellite? && StepOk(st, mu.Keys)
    ensures StepReady(st, mu) && StepReady(Kept(st), mu)
    ensures Exts(g, caches, Kept(st), mu) != [] <==> [] in Exts(g, caches, st, mu)
    ensures multiset(Exts(g, caches, st, mu))[[]] == |Exts(g, caches, st, mu)| ==
            if st.distinct && Exts(g, caches, Kept(st), mu) != [] then 1 else |Exts(g, caches, Kept(st), mu)|
  {
    OkReady(st, mu);
    if Exts(g, caches, Kept(st), mu) != [] {
      assert Exts(g, caches, st, mu)[0] == [];
    }
    EmptiesBag(|Exts(g, caches, st, mu)|);
  }

  lemma {:induction false} EmptiesBag(n: nat)
    ensures multiset(Empties(n))[[]] == n
  {
    if n > 0 {
      EmptiesBag(n - 1);
      assert Empties(n) == Empties(n - 1) + [[]];
    }
  }

  lemma PartUnder(cols: seq<nat>, mu: Binding, fullCols: seq<nat>, nu: Binding)
    requires NoDup(cols) && NoDup(fullCols) && Elements(cols) <= Elements(fullCols)
    requires Elements(cols) <= mu.Keys && Elements(fullCols) <= nu.Keys && Agrees(mu, nu)
    ensures Under(cols, RowOf(cols, mu), fullCols, RowOf(fullCols, nu))
  {
    AgreeRow(cols, RowOf(cols, mu), mu);
    AgreeRow(fullCols, RowOf(fullCols, nu), nu);
  }

  ghost predicate JoinShadow(t: Table, f: Table, u: Table, h: Table, common: seq<nat>) {
    Shadows(t, f) && Shadows(u, h) && Joinable(t, u, common) && Joinable(f, h, common) &&
    Elements(t.cols) <= Elements(f.cols) && Elements(u.cols) <= Elements(h.cols)
  }

  lemma JoinShadowing(t: Table, f: Table, u: Table, h: Table, common: seq<nat>, r: Row, full: Row)
    requires JoinShadow(t, f, u, h, common)
    requires full in JoinTables(f, h, common).rows
    requires Under(JoinTables(t, u, common).cols, r, JoinTables(f, h, common).cols, full)
    ensures r in JoinTables(t, u, common).rows
  {
    var mu, nu := Bind(JoinTables(t, u, common).cols, r), Bind(JoinTables(f, h, common).cols, full);
    JoinTablesExact(t, u, common, r);
    JoinTablesExact(f, h, common, full);
    PartUnder(t.cols, mu, f.cols, nu);
    PartUnder(u.cols, mu, h.cols, nu);
    ShadowRow(t, f, RowOf(t.cols, mu), RowOf(f.cols, nu));
    ShadowRow(u, h, RowOf(u.cols, mu), RowOf(h.cols, nu));
  }

  /** Mappings of the two sides that agree with one mapping of the join merge into one. */
  lemma MergeAgrees(t: Table, f: Table, u: Table, h: Table, common: seq<nat>, mu: Binding, fa: Row, fb: Row)
    requires JoinShadow(t, f, u, h, common) && mu.Keys == Elements(t.cols) + Elements(u.cols)
    requires Under(t.cols, RowOf(t.cols, mu), f.cols, fa) && Under(u.cols, RowOf(u.cols, mu), h.cols, fb)
    ensures var nu := Bind(f.cols, fa) + Bind(h.cols, fb);
            Agrees(mu, nu) && RowOf(f.cols, nu) == fa && RowOf(h.cols, nu) == fb
  {
    var nu := Bind(f.cols, fa) + Bind(h.cols, fb);
    AgreeRow(t.cols, RowOf(t.cols, mu), mu);
    AgreeRow(u.cols, RowOf(u.cols, mu), mu);
    forall v | v in f.cols && v in h.cols
      ensures Bind(f.cols, fa)[v] == Bind(h.cols, fb)[v]
    {
      assert v in Elements(f.cols) * Elements(h.cols);
      assert v in Elements(common) && v in Elements(t.cols) * Elements(u.cols);
      assert v in Bind(t.cols, RowOf(t.cols, mu)) && v in Bind(u.cols, RowOf(u.cols, mu));
    }
    AgreeRow(f.cols, fa, nu);
    AgreeRow(h.cols, fb, nu);
    forall v | v in mu
      ensures v in nu && nu[v] == mu[v]
    {
      if v in t.cols {
        assert v in Bind(t.cols, RowOf(t.cols, mu)) && v in f.cols;
      } else {
        assert v in Bind(u.cols, RowOf(u.cols, mu)) && v in h.cols;
      }
    }
  }

  lemma JoinShadowed(t: Table, f: Table, u: Table, h: Table, common: seq<nat>, r: Row) returns (full: Row)
    requires JoinShadow(t, f, u, h, common)
    requires |r| == |JoinTables(t, u, common).cols| && r in JoinTables(t, u, common).rows
    ensures full in JoinTables(f, h, common).rows
    ensures Under(JoinTables(t, u, common).cols, r, JoinTables(f, h, common).cols, full)
  {
    var mu := Bind(JoinTables(t, u, common).cols, r);
    JoinTablesExact(t, u, common, r);
    var fa :| fa in f.rows && Under(t.cols, RowOf(t.cols, mu), f.cols, fa);
    var fb :| fb in h.rows && Under(u.cols, RowOf(u.cols, mu), h.cols, fb);
    MergeAgrees(t, f, u, h, common, mu, fa, fb);
    JoinTablesOk(f, h, common);
    var nu := Bind(f.cols, fa) + Bind(h.cols, fb);
    full := RowOf(JoinTables(f, h, common).cols, nu);
    BindRoundTrip(JoinTables(f, h, common).cols, nu);
    JoinTablesExact(f, h, common, full);
  }

  lemma JoinKeepsShadows(t: Table, f: Table, u: Table, h: Table, common: seq<nat>)
    requires JoinShadow(t, f, u, h, common)
    ensures Shadows(JoinTables(t, u, common), JoinTables(f, h, common))
  {
    var t', f' := JoinTables(t, u, common), JoinTables(f, h, common);
    JoinTablesOk(t, u, common);
    JoinTablesOk(f, h, common);
    forall r | |r| == |t'.cols|
      ensures r in t'.rows <==> exists full :: full in f'.rows && Under(t'.cols, r, f'.cols, full)
    {
      if r in t'.rows { var full := JoinShadowed(t, f, u, h, common, r); }
      forall full | full in f'.rows && Under(t'.cols, r, f'.cols, full)
        ensures r in t'.rows
      {
        JoinShadowing(t, f, u, h, common, r, full);
      }
    }
  }

  lemma SameShadows(t: Table)
    requires TableOk(t)
    ensures Shadows(t, t)
  {
    forall r | |r| == |t.cols|
      ensures r in t.rows <==> exists full :: full in t.rows && Under(t.cols, r, t.cols, full)
    {
      if r in t.rows { assert Under(t.cols, r, t.cols, r); }
      forall full | full in t.rows && Under(t.cols, r, t.cols, full)
        ensures r in t.rows
      {
        AgreeRow(t.cols, r, Bind(t.cols, full));
        RowRoundTrip(t.cols, full);
      }
    }
  }

  /** With or without distinct, the rows of a plan are exactly the solutions of all its
      patterns with the satellite values dropped. */
  lemma {:induction false} SatelliteSet(g: Graph, caches: Caches, plan: Plan)
    requires Wf(plan) && Wf(Saturate(plan))
    ensures Shadows(Eval(g, caches, plan), Eval(g, caches, Saturate(plan)))
  {
    match plan
    case Unit => SameShadows(Eval(g, caches, plan));
    case Scan(_, _) => SameShadows(Eval(g, caches, plan));
    case AllTriples(_, _, _) => SameShadows(Eval(g, caches, plan));
    case Apply(left, st) =>
      SatelliteSet(g, caches, left);
      ApplyShadows(g, caches, plan);
    case Join(left, right, common) =>
      SatelliteSet(g, caches, left);
      SatelliteSet(g, caches, right);
      JoinShadows(g, caches, plan);
  }

  lemma ApplyShadows(g: Graph, caches: Caches, plan: Plan)
    requires plan.Apply? && Wf(plan) && Wf(Saturate(plan))
    requires Shadows(Eval(g, caches, plan.left), Eval(g, caches, Saturate(plan.left)))
    ensures Shadows(Eval(g, caches, plan), Eval(g, caches, Saturate(plan)))
  {
    var t, f := Eval(g, caches, plan.left), Eval(g, caches, Saturate(plan.left));
    var t', f' := Eval(g, caches, plan), Eval(g, caches, Saturate(plan));
    forall r | |r| == |t'.cols|
      ensures r in t'.rows <==> exists full :: full in f'.rows && Under(t'.cols, r, f'.cols, full)
    {
      if plan.st.Satellite? {
        assert t'.cols == t.cols;
        if r in t'.rows { var full := SatelliteShadowed(g, caches, plan.st, t, f, r); }
        forall full | full in f'.rows && Under(t'.cols, r, f'.cols, full)
          ensures r in t'.rows
        {
          SatelliteShadowing(g, caches, plan.st, t, f, r, full);
        }
      } else {
        if r in t'.rows { var full := RunShadowed(g, caches, plan.st, t, f, r); }
        forall full | full in f'.rows && Under(t'.cols, r, f'.cols, full)
          ensures r in t'.rows
        {
          RunShadowing(g, caches, plan.st, t, f, r, full);
        }
      }
    }
  }

  lemma JoinShadows(g: Graph, caches: Caches, plan: Plan)
    requires plan.Join? && Wf(plan) && Wf(Saturate(plan))
    requires Shadows(Eval(g, caches, plan.left), Eval(g, caches, Saturate(plan.left)))
    requires Shadows(Eval(g, caches, plan.right), Eval(g, caches, Saturate(plan.right)))
    ensures Shadows(Eval(g, caches, plan), Eval(g, caches, Saturate(plan)))
  {
    var t, f := Eval(g, caches, plan.left), Eval(g, caches, Saturate(plan.left));
    var u, h := Eval(g, caches, plan.right), Eval(g, caches, Saturate(plan.right));
    SaturateCols(plan.left);
    SaturateCols(plan.right);
    JoinKeepsShadows(t, f, u, h, plan.common);
  }
}

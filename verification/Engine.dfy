/** A plan run breadth-first over whole tables: leaves make tables, inner nodes run steps on them. */
module Engine {
  import opened Collections
  import opened Rdf
  import opened Tables
  import opened Plans
  import opened Executor

  // ---------------------------------------------------------------- leaves

  /** ConvertToTable: the first ids of a list, one per row. */
  method ConvertToTable(ids: seq<Id>, limit: nat) returns (rows: seq<Row>)
    ensures rows == Singles(ids)[..Allowed(limit, |ids|)]
  {
    var size := if limit != NO_LIMIT && limit < |ids| then limit else |ids|;
    rows := [];
    var i := 0;
    while i < size
      invariant 0 <= i <= size
      invariant rows == Singles(ids)[..i]
    {
      rows := rows + [[ids[i]]];
      i := i + 1;
    }
  }

  function PredicateRows(g: Graph, p: Id): seq<Row> {
    TripleRows(p, Pairs(g, P, p, S, O))
  }

  lemma {:induction false} AllRowsConcat(g: Graph, a: seq<Id>, b: seq<Id>)
    ensures AllRows(g, a + b) == AllRows(g, a) + AllRows(g, b)
  {
    if a == [] {
      assert a + b == b;
    } else {
      assert (a + b)[1..] == a[1..] + b;
      AllRowsConcat(g, a[1..], b);
    }
  }

  /** The inner loop of GetAllTriple. */
  method InsertTriples(g: Graph, p: Id, source: seq<Row>, maxOutput: nat, ghost limit: nat)
    returns (rows: seq<Row>, left: nat)
    requires Counts(maxOutput, limit, |source|) && maxOutput > 0
    ensures Counts(left, limit, |rows|) && rows <= source + PredicateRows(g, p)
    ensures left > 0 ==> rows == source + PredicateRows(g, p)
  {
    rows, left := source, maxOutput;
    var pairs := Pairs(g, P, p, S, O);
    ghost var mine := PredicateRows(g, p);
    PairsLength(g, P, p, S, O);
    var j := 0;
    assert source + mine[..0] == source;
    while j < |pairs|
      invariant 0 <= j <= |pairs|
      invariant rows == source + mine[..j]
      invariant Counts(left, limit, |rows|) && left > 0
    {
      assert source + mine[..j + 1] == rows + [mine[j]];
      rows, left := CheckedInsert(rows, left, [pairs[j][0], p, pairs[j][1]]);
      j := j + 1;
      if left == 0 {
        return;
      }
    }
    assert mine[..|pairs|] == mine;
  }

  lemma AllRowsNext(g: Graph, ps: seq<Id>, i: nat)
    requires i < |ps|
    ensures AllRows(g, ps[..i + 1]) == AllRows(g, ps[..i]) + PredicateRows(g, ps[i])
  {
    assert ps[..i + 1] == ps[..i] + [ps[i]];
    AllRowsConcat(g, ps[..i], [ps[i]]);
    assert AllRows(g, [ps[i]][1..]) == [];
  }

  lemma AllRowsPrefix(g: Graph, ps: seq<Id>, i: nat)
    requires i <= |ps|
    ensures AllRows(g, ps[..i]) <= AllRows(g, ps)
  {
    assert ps == ps[..i] + ps[i..];
    AllRowsConcat(g, ps[..i], ps[i..]);
  }

  /** GetAllTriple: predicate by predicate until the limit. */
  method GetAllTriple(g: Graph, limit: nat) returns (rows: seq<Row>)
    requires 0 < limit <= NO_LIMIT
    ensures var full := AllRows(g, SortedSeq(PredicatesOf(g))); rows == full[..Allowed(limit, |full|)]
  {
    var ps := SortedSeq(PredicatesOf(g));
    ghost var full := AllRows(g, ps);
    rows := [];
    var left := limit;
    var i := 0;
    AllRowsPrefix(g, ps, 0);
    while i < |ps| && left > 0
      invariant 0 <= i <= |ps|
      invariant rows <= full && Counts(left, limit, |rows|)
      invariant left > 0 ==> rows == AllRows(g, ps[..i])
    {
      AllRowsNext(g, ps, i);
      AllRowsPrefix(g, ps, i + 1);
      rows, left := InsertTriples(g, ps[i], rows, left, limit);
      i := i + 1;
    }
    assert left > 0 ==> ps[..i] == ps;
    FirstRows(rows, full, limit, left);
  }

  lemma FirstRows(rows: seq<Row>, full: seq<Row>, limit: nat, left: nat)
    requires rows <= full && Counts(left, limit, |rows|) && (left > 0 ==> rows == full)
    ensures rows == full[..Allowed(limit, |full|)]
  {
  }

  predicate IsLeaf(plan: Plan) {
    plan.Scan? || plan.AllTriples? || (plan.Apply? && plan.left.Unit?)
  }

  lemma UnitRun(g: Graph, caches: Caches, st: Step)
    requires StepOk(st, {})
    ensures StepReady(st, map[]) && RowsFit([], [[]])
    ensures Run(g, caches, st, [], [[]]) == Exts(g, caches, st, map[])
  {
    OkReady(st, map[]);
    assert Bind([], []) == map[];
    var exts := Exts(g, caches, st, map[]);
    assert Run(g, caches, st, [], [[]][1..]) == [];
    assert forall i :: 0 <= i < |exts| ==> [] + exts[i] == exts[i];
    assert Grow([], exts) == exts;
  }

  /** InitialTable: the table of a leaf, cut to a limit. */
  method InitialTable(g: Graph, caches: Caches, plan: Plan, limit: nat) returns (t: Table)
    requires IsLeaf(plan) && Wf(plan) && 0 < limit <= NO_LIMIT
    ensures var full := Eval(g, caches, plan); t == Table(full.cols, full.rows[..Allowed(limit, |full.rows|)])
  {
    match plan
    case Scan(v, all) =>
      var rows := ConvertToTable(if v in caches then caches[v] else all, limit);
      t := Table([v], rows);
    case AllTriples(s, p, o) =>
      var rows := GetAllTriple(g, limit);
      t := Table([s, p, o], rows);
    case Apply(_, st) =>
      UnitRun(g, caches, st);
      assert Bind([], []) == map[];
      if st.ExtendOne? {
        var ids := ExtendRecordOneNode(g, caches, st.v, st.edges, st.distinct, [], []);
        assert Exts(g, caches, st, map[]) == Singles(ids);
        var rows := ConvertToTable(ids, limit);
        t := Table([] + [st.v], rows);
      } else {
        var pairs := ExtendRecordTwoNode(g, caches, st, [], []);
        t := Table([] + [st.v1, st.v2], pairs[..Allowed(limit, |pairs|)]);
      }
  }

  // ---------------------------------------------------------------- breadth first

  lemma {:induction false} CheckIgnoresCaches(g: Graph, caches: Caches, edges: seq<Edge>, cols: seq<nat>,
                                              rows: seq<Row>)
    requires StepOk(Check(edges), Elements(cols)) && RowsFit(cols, rows)
    ensures Run(g, caches, Check(edges), cols, rows) == Run(g, map[], Check(edges), cols, rows)
  {
    if rows != [] {
      OkReady(Check(edges), Bind(cols, rows[0]));
      CheckIgnoresCaches(g, caches, edges, cols, rows[1..]);
    }
  }

  /** One inner node with one child: OperateOneNode, ExtendTwoNode or TableCheck. */
  method RunStep(g: Graph, caches: Caches, st: Step, cols: seq<nat>, rows: seq<Row>, limit: nat) returns (out: seq<Row>)
    requires StepOk(st, Elements(cols)) && RowsFit(cols, rows) && 0 < limit <= NO_LIMIT
    requires st.Check? ==> limit == NO_LIMIT || |rows| <= limit
    ensures Cut(out, Run(g, caches, st, cols, rows), limit, |cols| + |NewCols(st)|)
  {
    ghost var full := Run(g, caches, st, cols, rows);
    if st.ExtendTwo? {
      out := JoinTwoNode(g, caches, st, cols, rows, limit);
      RunWidth(g, caches, st, cols, rows);
    } else if st.Check? {
      out := ANodeEdgesConstraintFilter(g, st.edges, cols, rows);
      CheckIgnoresCaches(g, caches, st.edges, cols, rows);
      CheckShrinks(g, caches, st, cols, rows);
      RunWidth(g, caches, st, cols, rows);
    } else {
      var kept;
      out, kept := AffectANode(g, caches, st, cols, rows, false, limit);
    }
  }

  lemma RunWidth(g: Graph, caches: Caches, st: Step, cols: seq<nat>, rows: seq<Row>)
    requires StepOk(st, Elements(cols)) && RowsFit(cols, rows)
    ensures forall j :: 0 <= j < |Run(g, caches, st, cols, rows)| ==>
              |Run(g, caches, st, cols, rows)[j]| == |cols| + |NewCols(st)|
  {
    forall j | 0 <= j < |Run(g, caches, st, cols, rows)|
      ensures |Run(g, caches, st, cols, rows)[j]| == |cols| + |NewCols(st)|
    {
      var r := Run(g, caches, st, cols, rows)[j];
      RunMember(g, caches, st, cols, rows, r);
      ExtsFit(g, caches, st, Bind(cols, r[..|cols|]), r[|cols|..]);
    }
  }

  lemma {:induction false} CheckShrinks(g: Graph, caches: Caches, st: Step, cols: seq<nat>, rows: seq<Row>)
    requires st.Check? && StepOk(st, Elements(cols)) && RowsFit(cols, rows)
    ensures |Run(g, caches, st, cols, rows)| <= |rows|
  {
    if rows != [] {
      OkReady(st, Bind(cols, rows[0]));
      CheckShrinks(g, caches, st, cols, rows[1..]);
    }
  }

  /** ExecutionBreathFirst: children first, then the node's own operation on their tables. */
  method ExecutionBreadthFirst(g: Graph, caches: Caches, plan: Plan) returns (t: Table)
    requires Wf(plan)
    ensures t == Eval(g, caches, plan)
    decreases plan
  {
    match plan
    case Unit => t := Table([], [[]]);
    case Scan(_, _) => t := InitialTable(g, caches, plan, NO_LIMIT);
    case AllTriples(_, _, _) => t := InitialTable(g, caches, plan, NO_LIMIT);
    case Apply(left, st) =>
      if left.Unit? {
        t := InitialTable(g, caches, plan, NO_LIMIT);
      } else {
        var l := ExecutionBreadthFirst(g, caches, left);
        var rows := RunStep(g, caches, st, l.cols, l.rows, NO_LIMIT);
        t := Table(l.cols + NewCols(st), rows);
      }
    case Join(left, right, common) =>
      var a := ExecutionBreadthFirst(g, caches, left);
      var b := ExecutionBreadthFirst(g, caches, right);
      t := JoinTable(a, b, common);
  }
}

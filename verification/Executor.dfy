/** The executor's loops over tables, proved against the values of module Plans. Old rows are
    consumed or kept, new rows counted down from a limit. */
module Executor {
  import opened Collections
  import opened Rdf
  import opened Tables
  import opened Plans

  /** static_cast<size_t>(-1): no limit on the output. */
  const NO_LIMIT: nat := 0xFFFF_FFFF_FFFF_FFFF

  /** How many of n rows a limit lets through. */
  function Allowed(limit: nat, n: nat): nat {
    if limit == NO_LIMIT || n <= limit then n else limit
  }

  /** Whether row number n is still within the limit. */
  predicate Room(limit: nat, n: nat) {
    limit == NO_LIMIT || n < limit
  }

  /** What max_output has become once n rows are out. */
  predicate Counts(left: nat, limit: nat, n: nat) {
    if limit == NO_LIMIT then left == NO_LIMIT else limit < NO_LIMIT && n <= limit && left == limit - n
  }

  method CheckedInsert(newRows: seq<Row>, maxOutput: nat, row: Row) returns (rows: seq<Row>, left: nat)
    ensures maxOutput == 0 ==> rows == newRows && left == 0
    ensures maxOutput != 0 ==> rows == newRows + [row]
    ensures maxOutput != 0 ==> left == if maxOutput == NO_LIMIT then NO_LIMIT else maxOutput - 1
  {
    rows, left := newRows, maxOutput;
    if maxOutput != NO_LIMIT && maxOutput == 0 {
      return;
    }
    rows := newRows + [row];
    if maxOutput != NO_LIMIT {
      left := maxOutput - 1;
    }
  }

  // ---------------------------------------------------------------- one record

  lemma MeetStep(g: Graph, list: seq<Id>, edges: seq<Edge>, i: nat, mu: Binding, distinct: bool)
    requires i < |edges| && EdgesReady(edges, mu)
    ensures MeetFrom(g, list, edges[i..], mu, distinct) ==
            MeetFrom(g, Intersect(list, EdgeList(g, edges[i].pat, edges[i].how, mu, distinct)), edges[i + 1..], mu,
                     distinct)
  {
    assert edges[i..][1..] == edges[i + 1..] && edges[i..][0] == edges[i];
  }

  /** ExtendRecordOneNode: the lists of all edges intersected one by one, then the cache. */
  method ExtendRecordOneNode(g: Graph, caches: Caches, v: nat, edges: seq<Edge>, distinct: bool, cols: seq<nat>,
                             row: Row)
    returns (list: seq<Id>)
    requires |cols| <= |row| && EdgesReady(edges, Bind(cols, row))
    ensures list == Candidates(g, caches, v, edges, distinct, Bind(cols, row))
  {
    var mu := Bind(cols, row);
    ghost var all := if edges == [] then []
        else MeetFrom(g, EdgeList(g, edges[0].pat, edges[0].how, mu, distinct), edges[1..], mu, distinct);
    list := [];
    var prepared := false;
    var i := 0;
    while i < |edges|
      invariant 0 <= i <= |edges|
      invariant prepared == (i > 0)
      invariant i > 0 ==> MeetFrom(g, list, edges[i..], mu, distinct) == all
      invariant i == 0 ==> list == []
    {
      var e := edges[i];
      if prepared && list == [] {
        EmptyMeet(g, edges[i..], mu, distinct);
        EmptyMeet(g, edges[i + 1..], mu, distinct);
      } else {
        MeetStep(g, list, edges, i, mu, distinct);
        var l := EdgeList(g, e.pat, e.how, mu, distinct);
        if prepared {
          list := Intersect(list, l);
        } else {
          list := l;
        }
        prepared := true;
      }
      i := i + 1;
    }
    if v in caches {
      list := Intersect(list, caches[v]);
    }
  }

  lemma {:induction false} EmptyMeet(g: Graph, edges: seq<Edge>, mu: Binding, distinct: bool)
    requires EdgesReady(edges, mu)
    ensures MeetFrom(g, [], edges, mu, distinct) == []
    decreases |edges|
  {
    if edges != [] {
      EmptyMeet(g, edges[1..], mu, distinct);
    }
  }

  /** ExtendRecordTwoNode: the pairs of the edge that both caches accept. */
  method ExtendRecordTwoNode(g: Graph, caches: Caches, st: Step, cols: seq<nat>, row: Row) returns (pairs: seq<seq<Id>>)
    requires st.ExtendTwo? && |cols| <= |row| && StepReady(st, Bind(cols, row))
    ensures pairs == Exts(g, caches, st, Bind(cols, row))
  {
    var (k, k1, k2) := PairSlots(st.via);
    PairsLength(g, k, Val(Part(st.pat, k), Bind(cols, row)), k1, k2);
    pairs := KeepCached(caches, st.v1, st.v2, PairsOf(g, st.pat, st.via, Bind(cols, row)));
  }

  method KeepCached(caches: Caches, v1: nat, v2: nat, all: seq<seq<Id>>) returns (pairs: seq<seq<Id>>)
    requires forall j :: 0 <= j < |all| ==> |all[j]| == 2
    ensures pairs == FilterPairs(caches, v1, v2, all)
  {
    pairs := [];
    var i := 0;
    while i < |all|
      invariant 0 <= i <= |all|
      invariant pairs == FilterPairs(caches, v1, v2, all[..i])
    {
      var pair := all[i];
      assert all[..i + 1][..i] == all[..i];
      if v1 in caches && pair[0] !in caches[v1] {
        i := i + 1;
        continue;
      }
      if v2 in caches && pair[1] !in caches[v2] {
        i := i + 1;
        continue;
      }
      pairs := pairs + [pair];
      i := i + 1;
    }
    assert all[..|all|] == all;
  }

  // ---------------------------------------------------------------- whole tables

  lemma RunNext(g: Graph, caches: Caches, st: Step, cols: seq<nat>, rows: seq<Row>, i: nat)
    requires StepOk(st, Elements(cols)) && RowsFit(cols, rows) && i < |rows|
    ensures |rows[i]| == |cols| && StepReady(st, Bind(cols, rows[i]))
    ensures Run(g, caches, st, cols, rows[..i + 1]) ==
            Run(g, caches, st, cols, rows[..i]) + Grow(rows[i], Exts(g, caches, st, Bind(cols, rows[i])))
  {
    assert rows[i] in rows;
    OkReady(st, Bind(cols, rows[i]));
    FlatMapNext(Stepper(g, caches, st, cols), rows, i);
  }

  /** What a limited step leaves: the first rows of the full result. The last one may carry ids
      past its width, which were appended after the limit was reached. */
  ghost predicate Cut(rows: seq<Row>, full: seq<Row>, limit: nat, width: nat) {
    |rows| == Allowed(limit, |full|) &&
    (forall j :: 0 <= j < |rows| ==> |rows[j]| >= width && rows[j][..width] == full[j]) &&
    (|rows| == |full| ==> rows == full)
  }

  lemma CutExtend(rows: seq<Row>, full: seq<Row>, limit: nat, width: nat, next: Row)
    requires Cut(rows, full, limit, width) && |next| == width
    ensures Room(limit, |full|) ==> Cut(rows + [next], full + [next], limit, width)
    ensures !Room(limit, |full|) ==> Cut(rows, full + [next], limit, width)
  {
  }

  /** Ids put behind the last row do not change what the table is cut to. */
  lemma CutSurplus(rows: seq<Row>, full: seq<Row>, limit: nat, width: nat, id: Id)
    requires Cut(rows, full, limit, width) && 0 < |rows| < |full|
    ensures Cut(rows[|rows| - 1 := rows[|rows| - 1] + [id]], full, limit, width)
  {
    var last := rows[|rows| - 1];
    assert (last + [id])[..width] == last[..width];
  }

  /** The inner loop of AffectANode for a kept node: copies of the record, each with one id. Once
      the limit is reached no record is added, yet the id still goes to the last one. */
  method InsertExtended(newRows: seq<Row>, maxOutput: nat, row: Row, ids: seq<Id>, ghost done: seq<Row>,
                        ghost limit: nat)
    returns (rows: seq<Row>, left: nat)
    requires limit > 0 && Cut(newRows, done, limit, |row| + 1) && Counts(maxOutput, limit, |newRows|)
    ensures Cut(rows, done + Grow(row, Singles(ids)), limit, |row| + 1)
    ensures Counts(left, limit, |rows|)
  {
    rows, left := newRows, maxOutput;
    ghost var grown := Grow(row, Singles(ids));
    var i := 0;
    assert done + grown[..0] == done;
    while i < |ids|
      invariant 0 <= i <= |ids|
      invariant Cut(rows, done + grown[..i], limit, |row| + 1)
      invariant Counts(left, limit, |rows|)
    {
      CutExtend(rows, done + grown[..i], limit, |row| + 1, row + [ids[i]]);
      assert done + grown[..i + 1] == done + grown[..i] + [row + [ids[i]]];
      if left != 0 {
        rows, left := CheckedInsert(rows, left, row);
        assert rows[..|rows| - 1] + [row + [ids[i]]] == rows[|rows| - 1 := row + [ids[i]]];
      } else {
        rows, left := CheckedInsert(rows, left, row);
        CutSurplus(rows, done + grown[..i + 1], limit, |row| + 1, ids[i]);
      }
      rows := rows[|rows| - 1 := rows[|rows| - 1] + [ids[i]]];
      i := i + 1;
    }
    assert grown[..|ids|] == grown;
  }

  /** The inner loop for a satellite: plain copies of the record. */
  method InsertCopies(newRows: seq<Row>, maxOutput: nat, row: Row, n: nat, ghost exts: seq<seq<Id>>,
                      ghost done: seq<Row>, ghost limit: nat)
    returns (rows: seq<Row>, left: nat)
    requires n == |exts| && forall x :: x in exts ==> x == []
    requires Cut(newRows, done, limit, |row|) && Counts(maxOutput, limit, |newRows|)
    ensures Cut(rows, done + Grow(row, exts), limit, |row|)
    ensures Counts(left, limit, |rows|)
  {
    rows, left := newRows, maxOutput;
    ghost var grown := Grow(row, exts);
    var i := 0;
    assert done + grown[..0] == done;
    while i < n
      invariant 0 <= i <= n
      invariant Cut(rows, done + grown[..i], limit, |row|)
      invariant Counts(left, limit, |rows|)
    {
      assert exts[i] in exts && row + exts[i] == row;
      CutExtend(rows, done + grown[..i], limit, |row|, row);
      assert done + grown[..i + 1] == done + grown[..i] + [row];
      rows, left := CheckedInsert(rows, left, row);
      i := i + 1;
    }
    assert grown[..n] == grown;
  }

  lemma CutFull(rows: seq<Row>, done: seq<Row>, full: seq<Row>, limit: nat, width: nat)
    requires Cut(rows, done, limit, width) && done <= full
    requires done == full || |rows| == limit != NO_LIMIT
    ensures Cut(rows, full, limit, width)
  {
  }

  /** The body of AffectANode's loop: everything one record contributes. */
  method AffectARecord(g: Graph, caches: Caches, st: Step, cols: seq<nat>, row: Row, newRows: seq<Row>, maxOutput: nat,
                       ghost done: seq<Row>, ghost limit: nat)
    returns (rows: seq<Row>, left: nat)
    requires (st.ExtendOne? || st.Satellite?) && |row| == |cols| && StepReady(st, Bind(cols, row))
    requires limit > 0 && Cut(newRows, done, limit, |cols| + |NewCols(st)|) && Counts(maxOutput, limit, |newRows|)
    ensures Cut(rows, done + Grow(row, Exts(g, caches, st, Bind(cols, row))), limit, |cols| + |NewCols(st)|)
    ensures Counts(left, limit, |rows|)
  {
    var ids := ExtendRecordOneNode(g, caches, st.v, st.edges, st.distinct, cols, row);
    if st.ExtendOne? {
      assert Exts(g, caches, st, Bind(cols, row)) == Singles(ids);
      rows, left := InsertExtended(newRows, maxOutput, row, ids, done, limit);
    } else {
      var n := if st.distinct then (if |ids| > 0 then 1 else 0) else |ids|;
      rows, left := InsertCopies(newRows, maxOutput, row, n, Exts(g, caches, st, Bind(cols, row)), done, limit);
    }
  }

  /** The loop of AffectANode: records in order until none is left or the limit is reached. */
  method AffectRecords(g: Graph, caches: Caches, st: Step, cols: seq<nat>, source: seq<Row>, remainOld: bool,
                       limit: nat)
    returns (newRows: seq<Row>, kept: seq<Row>, left: nat, i: nat)
    requires (st.ExtendOne? || st.Satellite?) && StepOk(st, Elements(cols)) && RowsFit(cols, source)
    requires 0 < limit <= NO_LIMIT
    ensures i <= |source| && RowsFit(cols, source[..i]) && (left == 0 || i == |source|)
    ensures Cut(newRows, Run(g, caches, st, cols, source[..i]), limit, |cols| + |NewCols(st)|)
    ensures Counts(left, limit, |newRows|)
    ensures kept == if remainOld then source else source[i..]
  {
    newRows, kept, left, i := [], source, limit, 0;
    while i < |source|
      invariant i <= |source| && RowsFit(cols, source[..i])
      invariant Cut(newRows, Run(g, caches, st, cols, source[..i]), limit, |cols| + |NewCols(st)|)
      invariant Counts(left, limit, |newRows|)
      invariant kept == if remainOld then source else source[i..]
    {
      RunNext(g, caches, st, cols, source, i);
      newRows, left := AffectARecord(g, caches, st, cols, source[i], newRows, left,
                                     Run(g, caches, st, cols, source[..i]), limit);
      if !remainOld {
        kept := kept[1..];
      }
      i := i + 1;
      if left == 0 {
        break;
      }
    }
  }

  /** AffectANode: extend every record by one node, keeping its value or only counting it. */
  method AffectANode(g: Graph, caches: Caches, st: Step, cols: seq<nat>, source: seq<Row>, remainOld: bool, limit: nat)
    returns (newRows: seq<Row>, kept: seq<Row>)
    requires (st.ExtendOne? || st.Satellite?) && StepOk(st, Elements(cols)) && RowsFit(cols, source)
    requires 0 < limit <= NO_LIMIT
    ensures Cut(newRows, Run(g, caches, st, cols, source), limit, |cols| + |NewCols(st)|)
    ensures kept == if remainOld then source else []
  {
    var left, i;
    newRows, kept, left, i := AffectRecords(g, caches, st, cols, source, remainOld, limit);
    if !remainOld && left == 0 {
      kept := [];
    }
    assert left != 0 ==> source[..i] == source;
    FlatMapPrefix(Stepper(g, caches, st, cols), source, i);
    CutFull(newRows, Run(g, caches, st, cols, source[..i]), Run(g, caches, st, cols, source), limit,
            |cols| + |NewCols(st)|);
  }

  /** The inner loop of JoinTwoNode: it stops as soon as the limit is reached. */
  method InsertPairs(newRows: seq<Row>, maxOutput: nat, row: Row, pairs: seq<seq<Id>>, ghost limit: nat)
    returns (rows: seq<Row>, left: nat)
    requires Counts(maxOutput, limit, |newRows|) && maxOutput > 0
    ensures Counts(left, limit, |rows|) && newRows <= rows <= newRows + Grow(row, pairs)
    ensures left > 0 ==> rows == newRows + Grow(row, pairs)
  {
    rows, left := newRows, maxOutput;
    ghost var grown := Grow(row, pairs);
    var j := 0;
    assert newRows + grown[..0] == newRows;
    while j < |pairs|
      invariant 0 <= j <= |pairs|
      invariant rows == newRows + grown[..j]
      invariant Counts(left, limit, |rows|) && left > 0
    {
      assert newRows + grown[..j + 1] == rows + [row + pairs[j]];
      rows, left := CheckedInsert(rows, left, row);
      rows := rows[|rows| - 1 := rows[|rows| - 1] + pairs[j]];
      j := j + 1;
      if left == 0 {
        return;
      }
    }
    assert grown[..|pairs|] == grown;
  }

  /** The loop of JoinTwoNode. */
  method JoinRecords(g: Graph, caches: Caches, st: Step, cols: seq<nat>, source: seq<Row>, limit: nat)
    returns (newRows: seq<Row>, left: nat, i: nat)
    requires st.ExtendTwo? && StepOk(st, Elements(cols)) && RowsFit(cols, source)
    requires 0 < limit <= NO_LIMIT
    ensures i <= |source| && RowsFit(cols, source[..i]) && Counts(left, limit, |newRows|)
    ensures newRows <= Run(g, caches, st, cols, source[..i])
    ensures left == 0 || (i == |source| && newRows == Run(g, caches, st, cols, source[..i]))
  {
    newRows, left, i := [], limit, 0;
    while i < |source|
      invariant i <= |source| && RowsFit(cols, source[..i])
      invariant newRows == Run(g, caches, st, cols, source[..i])
      invariant Counts(left, limit, |newRows|) && left > 0
    {
      RunNext(g, caches, st, cols, source, i);
      var pairs := ExtendRecordTwoNode(g, caches, st, cols, source[i]);
      newRows, left := InsertPairs(newRows, left, source[i], pairs, limit);
      i := i + 1;
      if left == 0 {
        return;
      }
    }
  }

  /** JoinTwoNode: extend every record by the pairs of one edge, stopping at the limit. */
  method JoinTwoNode(g: Graph, caches: Caches, st: Step, cols: seq<nat>, source: seq<Row>, limit: nat)
    returns (newRows: seq<Row>)
    requires st.ExtendTwo? && StepOk(st, Elements(cols)) && RowsFit(cols, source)
    requires 0 < limit <= NO_LIMIT
    ensures var full := Run(g, caches, st, cols, source); newRows == full[..Allowed(limit, |full|)]
  {
    var left, i;
    newRows, left, i := JoinRecords(g, caches, st, cols, source, limit);
    assert left != 0 ==> source[..i] == source;
    FlatMapPrefix(Stepper(g, caches, st, cols), source, i);
  }

  // ---------------------------------------------------------------- edge checks

  lemma CheckGrow(g: Graph, edges: seq<Edge>, cols: seq<nat>, row: Row)
    requires |row| == |cols| && StepReady(Check(edges), Bind(cols, row))
    ensures Grow(row, Exts(g, map[], Check(edges), Bind(cols, row))) ==
            if forall e :: e in edges ==> EdgePasses(g, e, Bind(cols, row)) then [row] else []
  {
    assert row + [] == row;
  }

  /** Filtering by one more edge is one more check. */
  lemma {:induction false} CheckCompose(g: Graph, edges: seq<Edge>, e: Edge, cols: seq<nat>, rows: seq<Row>)
    requires StepOk(Check(edges + [e]), Elements(cols)) && StepOk(Check(edges), Elements(cols)) &&
             StepOk(Check([e]), Elements(cols))
    requires RowsFit(cols, rows) && RowsFit(cols, Run(g, map[], Check(edges), cols, rows))
    ensures Run(g, map[], Check(edges + [e]), cols, rows) ==
            Run(g, map[], Check([e]), cols, Run(g, map[], Check(edges), cols, rows))
  {
    if rows != [] {
      var row, mu := rows[0], Bind(cols, rows[0]);
      OkReady(Check(edges), mu);
      OkReady(Check([e]), mu);
      OkReady(Check(edges + [e]), mu);
      var head := Grow(row, Exts(g, map[], Check(edges), mu));
      var tail := Run(g, map[], Check(edges), cols, rows[1..]);
      assert RowsFit(cols, tail) by { assert forall r :: r in tail ==> r in head + tail; }
      CheckCompose(g, edges, e, cols, rows[1..]);
      CheckGrow(g, edges, cols, row);
      CheckGrow(g, [e], cols, row);
      CheckGrow(g, edges + [e], cols, row);
      assert (forall x :: x in edges + [e] ==> EdgePasses(g, x, mu)) <==>
             (forall x :: x in edges ==> EdgePasses(g, x, mu)) && (forall x :: x in [e] ==> EdgePasses(g, x, mu));
      FlatMapConcat(Stepper(g, map[], Check([e]), cols), head, tail);
      if head == [row] {
        assert Run(g, map[], Check([e]), cols, [row][1..]) == [];
      }
    }
  }

  lemma CheckFits(g: Graph, edges: seq<Edge>, cols: seq<nat>, rows: seq<Row>)
    requires StepOk(Check(edges), Elements(cols)) && RowsFit(cols, rows)
    ensures RowsFit(cols, Run(g, map[], Check(edges), cols, rows))
  {
    forall r | r in Run(g, map[], Check(edges), cols, rows)
      ensures |r| == |cols|
    {
      RunMember(g, map[], Check(edges), cols, rows, r);
      ExtsFit(g, map[], Check(edges), Bind(cols, r[..|cols|]), r[|cols|..]);
    }
  }

  lemma CheckAnother(g: Graph, edges: seq<Edge>, i: nat, cols: seq<nat>, rows: seq<Row>)
    requires StepOk(Check(edges), Elements(cols)) && RowsFit(cols, rows) && i < |edges|
    ensures EdgeInside(edges[i], Elements(cols))
    ensures Run(g, map[], Check(edges[..i + 1]), cols, rows) ==
            Run(g, map[], Check([edges[i]]), cols, Run(g, map[], Check(edges[..i]), cols, rows))
    ensures RowsFit(cols, Run(g, map[], Check(edges[..i + 1]), cols, rows))
  {
    assert edges[i] in edges && edges[..i + 1] == edges[..i] + [edges[i]];
    assert StepOk(Check(edges[..i]), Elements(cols)) && StepOk(Check(edges[..i + 1]), Elements(cols));
    CheckFits(g, edges[..i], cols, rows);
    CheckFits(g, edges[..i + 1], cols, rows);
    CheckCompose(g, edges[..i], edges[i], cols, rows);
  }

  lemma CheckNext(g: Graph, e: Edge, cols: seq<nat>, rows: seq<Row>, i: nat)
    requires EdgeInside(e, Elements(cols)) && RowsFit(cols, rows) && i < |rows|
    ensures |rows[i]| == |cols|
    ensures Run(g, map[], Check([e]), cols, rows[..i + 1]) ==
            Run(g, map[], Check([e]), cols, rows[..i]) + if EdgePasses(g, e, Bind(cols, rows[i])) then [rows[i]] else []
  {
    RunNext(g, map[], Check([e]), cols, rows, i);
    CheckGrow(g, [e], cols, rows[i]);
    assert e in [e];
  }

  predicate FixedEnds(e: Edge) {
    Part(e.pat, Given(e.how).0).Constant? && Part(e.pat, Given(e.how).1).Constant?
  }

  /** Whether one record satisfies the edge; `shared` is the list when constants determine it. */
  method RecordPasses(g: Graph, e: Edge, mu: Binding, constant: bool, shared: seq<Id>) returns (passes: bool)
    requires EdgeInside(e, mu.Keys)
    requires constant == FixedEnds(e)
    requires constant ==> shared == EdgeList(g, e.pat, e.how, map[], true)
    ensures passes == EdgePasses(g, e, mu)
  {
    var list := if constant then shared else EdgeList(g, e.pat, e.how, mu, true);
    passes := Val(Part(e.pat, Target(e.how)), mu) in list;
  }

  /** OneEdgeConstraintFilter, with FilterAVariableOnIDList for an edge whose given ends are constants. */
  method OneEdgeConstraintFilter(g: Graph, e: Edge, cols: seq<nat>, rows: seq<Row>) returns (passed: seq<Row>)
    requires EdgeInside(e, Elements(cols)) && RowsFit(cols, rows)
    ensures passed == Run(g, map[], Check([e]), cols, rows)
  {
    var constant := FixedEnds(e);
    var shared := if constant then EdgeList(g, e.pat, e.how, map[], true) else [];
    passed := [];
    var i := 0;
    while i < |rows|
      invariant 0 <= i <= |rows|
      invariant passed == Run(g, map[], Check([e]), cols, rows[..i])
    {
      CheckNext(g, e, cols, rows, i);
      var passes := RecordPasses(g, e, Bind(cols, rows[i]), constant, shared);
      if passes {
        passed := passed + [rows[i]];
      }
      i := i + 1;
    }
    assert rows[..|rows|] == rows;
  }

  /** The rows that pass the first i edges. */
  ghost predicate PassedFirst(g: Graph, edges: seq<Edge>, i: nat, cols: seq<nat>, rows: seq<Row>, passed: seq<Row>)
    requires StepOk(Check(edges), Elements(cols)) && RowsFit(cols, rows)
  {
    i <= |edges| && RowsFit(cols, passed) && passed == Run(g, map[], Check(edges[..i]), cols, rows)
  }

  /** ANodeEdgesConstraintFilter: the table filtered edge by edge. */
  method ANodeEdgesConstraintFilter(g: Graph, edges: seq<Edge>, cols: seq<nat>, rows: seq<Row>)
    returns (passed: seq<Row>)
    requires StepOk(Check(edges), Elements(cols)) && RowsFit(cols, rows)
    ensures passed == Run(g, map[], Check(edges), cols, rows)
  {
    passed := rows;
    NoCheck(g, cols, rows);
    var i := 0;
    while i < |edges|
      invariant PassedFirst(g, edges, i, cols, rows, passed)
    {
      CheckAnother(g, edges, i, cols, rows);
      passed := OneEdgeConstraintFilter(g, edges[i], cols, passed);
      i := i + 1;
    }
    assert edges[..|edges|] == edges;
  }

  lemma {:induction false} NoCheck(g: Graph, cols: seq<nat>, rows: seq<Row>)
    requires RowsFit(cols, rows)
    ensures Run(g, map[], Check([]), cols, rows) == rows
  {
    if rows != [] {
      CheckGrow(g, [], cols, rows[0]);
      NoCheck(g, cols, rows[1..]);
    }
  }

  // ---------------------------------------------------------------- hash join

  /** The big rows with one key, in table order. */
  function Bucket(cols: seq<nat>, rows: seq<Row>, common: seq<nat>, key: seq<Id>): seq<Row>
    requires RowsFit(cols, rows) && Elements(common) <= Elements(cols)
  {
    if rows == [] then []
    else (if Key(cols, rows[0], common) == key then [rows[0]] else []) + Bucket(cols, rows[1..], common, key)
  }

  lemma {:induction false} BucketSnoc(cols: seq<nat>, rows: seq<Row>, row: Row, common: seq<nat>, key: seq<Id>)
    requires RowsFit(cols, rows) && |row| == |cols| && Elements(common) <= Elements(cols) && RowsFit(cols, rows + [row])
    ensures Bucket(cols, rows + [row], common, key) ==
            Bucket(cols, rows, common, key) + if Key(cols, row, common) == key then [row] else []
  {
    if rows == [] {
      assert (rows + [row])[1..] == [];
    } else {
      assert (rows + [row])[1..] == rows[1..] + [row];
      BucketSnoc(cols, rows[1..], row, common, key);
    }
  }

  function WithAdded(rows: seq<Row>, added: seq<Id>): seq<Row> {
    seq(|rows|, i requires 0 <= i < |rows| => rows[i] + added)
  }

  lemma {:induction false} MatchIsBucket(cols: seq<nat>, rows: seq<Row>, common: seq<nat>, key: seq<Id>, added: seq<Id>)
    requires RowsFit(cols, rows) && Elements(common) <= Elements(cols)
    ensures MatchRows(cols, rows, key, added, common) == WithAdded(Bucket(cols, rows, common, key), added)
  {
    if rows != [] {
      MatchIsBucket(cols, rows[1..], common, key, added);
    }
  }

  ghost predicate Indexes(index: map<seq<Id>, seq<Row>>, cols: seq<nat>, rows: seq<Row>, common: seq<nat>)
    requires RowsFit(cols, rows) && Elements(common) <= Elements(cols)
  {
    forall k :: Bucket(cols, rows, common, k) == if k in index then index[k] else []
  }

  lemma IndexNext(index: map<seq<Id>, seq<Row>>, cols: seq<nat>, rows: seq<Row>, common: seq<nat>, i: nat)
    requires RowsFit(cols, rows) && Elements(common) <= Elements(cols) && i < |rows|
    requires RowsFit(cols, rows[..i]) && Indexes(index, cols, rows[..i], common)
    ensures |rows[i]| == |cols| && RowsFit(cols, rows[..i + 1])
    ensures var key := Key(cols, rows[i], common);
            Indexes(index[key := (if key in index then index[key] else []) + [rows[i]]], cols, rows[..i + 1], common)
  {
    assert rows[i] in rows && rows[..i + 1] == rows[..i] + [rows[i]];
    var key := Key(cols, rows[i], common);
    var next := index[key := (if key in index then index[key] else []) + [rows[i]]];
    forall k
      ensures Bucket(cols, rows[..i + 1], common, k) == if k in next then next[k] else []
    {
      BucketSnoc(cols, rows[..i], rows[i], common, k);
    }
  }

  /** Build the hash index of the big table: key to its rows. */
  method BuildIndex(cols: seq<nat>, rows: seq<Row>, common: seq<nat>) returns (index: map<seq<Id>, seq<Row>>)
    requires RowsFit(cols, rows) && Elements(common) <= Elements(cols)
    ensures Indexes(index, cols, rows, common)
  {
    index := map[];
    var i := 0;
    while i < |rows|
      invariant 0 <= i <= |rows|
      invariant RowsFit(cols, rows[..i]) && Indexes(index, cols, rows[..i], common)
    {
      IndexNext(index, cols, rows, common, i);
      var key := Key(cols, rows[i], common);
      if key in index {
        index := index[key := index[key] + [rows[i]]];
      } else {
        index := index[key := [rows[i]]];
      }
      i := i + 1;
    }
    assert rows[..|rows|] == rows;
  }

  lemma ProbeStep(big: Table, small: Table, common: seq<nat>, i: nat)
    requires TableOk(big) && TableOk(small) && Elements(common) <= Elements(big.cols) &&
             Elements(common) <= Elements(small.cols)
    requires i < |small.rows|
    ensures RowsFit(small.cols, small.rows[i..]) && RowsFit(small.cols, small.rows[i + 1..]) &&
            |small.rows[i]| == |small.cols|
    ensures JoinRows(big.cols, big.rows, small.cols, small.rows[i..], common) ==
            WithAdded(Bucket(big.cols, big.rows, common, Key(small.cols, small.rows[i], common)),
                      Added(small.cols, small.rows[i], common)) +
            JoinRows(big.cols, big.rows, small.cols, small.rows[i + 1..], common)
  {
    assert small.rows[i] in small.rows && small.rows[i..][1..] == small.rows[i + 1..];
    MatchIsBucket(big.cols, big.rows, common, Key(small.cols, small.rows[i], common),
                  Added(small.cols, small.rows[i], common));
  }

  ghost predicate ProbeOk(big: Table, small: Table, common: seq<nat>, index: map<seq<Id>, seq<Row>>) {
    TableOk(big) && TableOk(small) && Elements(common) <= Elements(big.cols) &&
    Elements(common) <= Elements(small.cols) &&
    Indexes(index, big.cols, big.rows, common)
  }

  /** What the small rows from i on make with the big table. */
  ghost function JoinFrom(big: Table, small: Table, common: seq<nat>, i: nat): seq<Row>
    requires TableOk(big) && TableOk(small) && Elements(common) <= Elements(big.cols) &&
             Elements(common) <= Elements(small.cols)
    requires i <= |small.rows|
  {
    assert RowsFit(small.cols, small.rows[i..]) by { assert forall r :: r in small.rows[i..] ==> r in small.rows; }
    JoinRows(big.cols, big.rows, small.cols, small.rows[i..], common)
  }

  /** The rows one small row makes: those its key finds, each with the small row's own values. */
  method Probe(big: Table, small: Table, common: seq<nat>, index: map<seq<Id>, seq<Row>>, i: nat)
    returns (matched: seq<Row>)
    requires ProbeOk(big, small, common, index) && i < |small.rows|
    ensures JoinFrom(big, small, common, i) == matched + JoinFrom(big, small, common, i + 1)
  {
    var row := small.rows[i];
    assert row in small.rows;
    var key := Key(small.cols, row, common);
    matched := if key in index then WithAdded(index[key], Added(small.cols, row, common)) else [];
    ProbeStep(big, small, common, i);
  }

  /** Probe the index with every small row. */
  method ProbeIndex(big: Table, small: Table, common: seq<nat>, index: map<seq<Id>, seq<Row>>) returns (rows: seq<Row>)
    requires ProbeOk(big, small, common, index)
    ensures rows == JoinFrom(big, small, common, 0)
  {
    rows := [];
    var i := 0;
    ghost var left := JoinFrom(big, small, common, 0);
    while i < |small.rows|
      invariant 0 <= i <= |small.rows|
      invariant left == JoinFrom(big, small, common, i)
      invariant JoinFrom(big, small, common, 0) == rows + left
    {
      var matched := Probe(big, small, common, index, i);
      left := JoinFrom(big, small, common, i + 1);
      rows := rows + matched;
      i := i + 1;
    }
  }

  /** JoinTable: hash the bigger table on the shared variables and probe it with the smaller. */
  method JoinTable(a: Table, b: Table, common: seq<nat>) returns (t: Table)
    requires TableOk(a) && TableOk(b) && Joinable(a, b, common)
    ensures t == JoinTables(a, b, common)
  {
    var big := if |a.rows| > |b.rows| then a else b;
    var small := if |a.rows| <= |b.rows| then a else b;
    var index := BuildIndex(big.cols, big.rows, common);
    var rows := ProbeIndex(big, small, common, index);
    assert small.rows[0..] == small.rows;
    t := Table(big.cols + Rest(small.cols, common), rows);
  }
}

/** Depth-first execution of a linear plan under a LIMIT of at least one row, and the copy of the
    result into the selected columns. */
module DepthFirst {
  import opened Collections
  import opened Rdf
  import opened Tables
  import opened Plans
  import opened Executor
  import opened Engine

  /** GenerateResultTemplate: the columns after all the steps. */
  function ColsAfter(cols: seq<nat>, steps: seq<Step>): seq<nat>
    decreases |steps|
  {
    if steps == [] then cols else ColsAfter(cols + NewCols(steps[0]), steps[1..])
  }

  predicate StepsOk(steps: seq<Step>, cols: seq<nat>)
    decreases |steps|
  {
    steps == [] || (StepOk(steps[0], Elements(cols)) && StepsOk(steps[1..], cols + NewCols(steps[0])))
  }

  lemma RunRowsFit(g: Graph, caches: Caches, st: Step, cols: seq<nat>, rows: seq<Row>)
    requires StepOk(st, Elements(cols)) && RowsFit(cols, rows)
    ensures RowsFit(cols + NewCols(st), Run(g, caches, st, cols, rows))
  {
    RunWidth(g, caches, st, cols, rows);
  }

  /** Breadth-first: every step over the whole table. */
  function RunAll(g: Graph, caches: Caches, steps: seq<Step>, cols: seq<nat>, rows: seq<Row>): seq<Row>
    decreases |steps|
  {
    if steps == [] then rows
    else RunAll(g, caches, steps[1..], cols + NewCols(steps[0]), Run(g, caches, steps[0], cols, rows))
  }

  lemma {:induction false} RunAllConcat(g: Graph, caches: Caches, steps: seq<Step>, cols: seq<nat>, a: seq<Row>,
                                        b: seq<Row>)
    ensures RunAll(g, caches, steps, cols, a + b) ==
            RunAll(g, caches, steps, cols, a) + RunAll(g, caches, steps, cols, b)
    decreases |steps|
  {
    if steps != [] {
      var st := steps[0];
      FlatMapConcat(Stepper(g, caches, st, cols), a, b);
      RunAllConcat(g, caches, steps[1..], cols + NewCols(st), Run(g, caches, st, cols, a), Run(g, caches, st, cols, b));
    }
  }

  lemma {:induction false} RunAllEmpty(g: Graph, caches: Caches, steps: seq<Step>, cols: seq<nat>)
    ensures RunAll(g, caches, steps, cols, []) == []
    decreases |steps|
  {
    if steps != [] {
      RunAllEmpty(g, caches, steps[1..], cols + NewCols(steps[0]));
    }
  }

  /** Everything the remaining steps make of one record. */
  function Deep(g: Graph, caches: Caches, steps: seq<Step>, cols: seq<nat>): Row -> seq<Row> {
    row => RunAll(g, caches, steps, cols, [row])
  }

  lemma {:induction false} RunAllDeep(g: Graph, caches: Caches, steps: seq<Step>, cols: seq<nat>, rows: seq<Row>)
    ensures RunAll(g, caches, steps, cols, rows) == FlatMap(Deep(g, caches, steps, cols), rows)
  {
    if rows == [] {
      RunAllEmpty(g, caches, steps, cols);
    } else {
      assert rows == [rows[0]] + rows[1..];
      RunAllConcat(g, caches, steps, cols, [rows[0]], rows[1..]);
      RunAllDeep(g, caches, steps, cols, rows[1..]);
    }
  }

  // ---------------------------------------------------------------- cut tables, one after another

  lemma CutConcat(a: seq<Row>, fullA: seq<Row>, b: seq<Row>, fullB: seq<Row>, limit: nat, width: nat)
    requires limit < NO_LIMIT && |a| < limit
    requires Cut(a, fullA, limit, width) && Cut(b, fullB, limit - |a|, width)
    ensures Cut(a + b, fullA + fullB, limit, width)
  {
  }

  /** The rows found from the first i records are what the limit leaves of all those records give. */
  ghost predicate Progress(f: Row -> seq<Row>, table: seq<Row>, i: nat, rows: seq<Row>, limit: nat, width: nat) {
    i <= |table| && limit < NO_LIMIT && Cut(rows, FlatMap(f, table[..i]), limit, width)
  }

  lemma ProgressStart(f: Row -> seq<Row>, table: seq<Row>, limit: nat, width: nat)
    requires limit < NO_LIMIT
    ensures Progress(f, table, 0, [], limit, width)
  {
  }

  lemma ProgressNext(f: Row -> seq<Row>, table: seq<Row>, i: nat, rows: seq<Row>, more: seq<Row>, limit: nat,
                     width: nat)
    requires i < |table| && |rows| < limit && Progress(f, table, i, rows, limit, width)
    requires Cut(more, f(table[i]), limit - |rows|, width)
    ensures Progress(f, table, i + 1, rows + more, limit, width) && |rows + more| <= limit
  {
    FlatMapNext(f, table, i);
    CutConcat(rows, FlatMap(f, table[..i]), more, f(table[i]), limit, width);
  }

  /** Rows cut to the limit stay so when records after the limit are not looked at. */
  lemma ProgressEnd(f: Row -> seq<Row>, table: seq<Row>, i: nat, rows: seq<Row>, limit: nat, width: nat)
    requires Progress(f, table, i, rows, limit, width)
    requires |rows| == limit || i == |table|
    ensures Cut(rows, FlatMap(f, table), limit, width)
  {
    FlatMapPrefix(f, table, i);
    assert i == |table| ==> table[..i] == table;
    CutFull(rows, FlatMap(f, table[..i]), FlatMap(f, table), limit, width);
  }

  ghost predicate IsDeep(deep: Row -> seq<Row>, g: Graph, caches: Caches, steps: seq<Step>, cols: seq<nat>) {
    forall row {:trigger RunAll(g, caches, steps, cols, [row])} :: deep(row) == RunAll(g, caches, steps, cols, [row])
  }

  /** One layer for one record. The counter is exact on return: it grew by the rows returned, and
      they are the first rows breadth-first execution of the remaining steps would give. */
  method DepthSearchOneLayer(g: Graph, caches: Caches, steps: seq<Step>, cols: seq<nat>, row: Row, soFar: nat,
                             limit: nat)
    returns (success: bool, rows: seq<Row>, now: nat)
    requires steps != [] && StepsOk(steps, cols) && |row| == |cols|
    requires soFar < limit < NO_LIMIT
    ensures now == soFar + |rows| && (!success ==> rows == [])
    ensures Cut(rows, RunAll(g, caches, steps, cols, [row]), limit - soFar, |ColsAfter(cols, steps)|)
    decreases |steps|, 1
  {
    var st, cols' := steps[0], cols + NewCols(steps[0]);
    var last := |steps| == 1;
    var table := RunStep(g, caches, st, cols, [row], if last then limit - soFar else NO_LIMIT);
    RunRowsFit(g, caches, st, cols, [row]);
    if table == [] {
      RunAllEmpty(g, caches, steps[1..], cols');
      return false, [], soFar;
    }
    if last {
      return true, table, soFar + |table|;
    }
    success := true;
    rows, now := DeeperRecords(g, caches, steps[1..], cols', table, soFar, limit, Deep(g, caches, steps[1..], cols'));
    RunAllDeep(g, caches, steps[1..], cols', table);
  }

  /** A layer for record i of a table, as both loops below take it. */
  method NextRecord(g: Graph, caches: Caches, steps: seq<Step>, cols: seq<nat>, row: Row, soFar: nat, now: nat,
                    limit: nat,
                    ghost deep: Row -> seq<Row>, ghost table: seq<Row>, ghost i: nat, ghost rows: seq<Row>)
    returns (success: bool, more: seq<Row>, count: nat)
    requires steps != [] && StepsOk(steps, cols) && i < |table| && row == table[i] && RowsFit(cols, table)
    requires soFar <= now < limit < NO_LIMIT && now == soFar + |rows|
    requires IsDeep(deep, g, caches, steps, cols)
    requires Progress(deep, table, i, rows, limit - soFar, |ColsAfter(cols, steps)|)
    ensures now <= count <= limit && count == now + |more| && (!success ==> more == [])
    ensures Progress(deep, table, i + 1, rows + more, limit - soFar, |ColsAfter(cols, steps)|)
    decreases |steps|, 2
  {
    assert table[i] in table;
    success, more, count := DepthSearchOneLayer(g, caches, steps, cols, row, now, limit);
    ProgressNext(deep, table, i, rows, more, limit - soFar, |ColsAfter(cols, steps)|);
  }

  /** The loop that goes deeper for every record of a layer until enough results are found. */
  method DeeperRecords(g: Graph, caches: Caches, steps: seq<Step>, cols: seq<nat>, table: seq<Row>, soFar: nat,
                       limit: nat,
                       ghost deep: Row -> seq<Row>)
    returns (rows: seq<Row>, now: nat)
    requires steps != [] && StepsOk(steps, cols) && RowsFit(cols, table)
    requires soFar < limit < NO_LIMIT && IsDeep(deep, g, caches, steps, cols)
    ensures now == soFar + |rows|
    ensures Cut(rows, FlatMap(deep, table), limit - soFar, |ColsAfter(cols, steps)|)
    decreases |steps|, 3
  {
    rows, now := [], soFar;
    var i := 0;
    ghost var width := |ColsAfter(cols, steps)|;
    ProgressStart(deep, table, limit - soFar, width);
    while i < |table| && now < limit
      invariant 0 <= i <= |table|
      invariant soFar <= now <= limit && now == soFar + |rows|
      invariant Progress(deep, table, i, rows, limit - soFar, width)
    {
      var success, more, count := NextRecord(g, caches, steps, cols, table[i], soFar, now, limit, deep, table, i, rows);
      rows, now := rows + more, count;
      i := i + 1;
    }
    ProgressEnd(deep, table, i, rows, limit - soFar, width);
  }

  // ---------------------------------------------------------------- the whole search

  /** The tree of a join order: one step on top of the other. */
  function Linear(leaf: Plan, steps: seq<Step>): Plan
    decreases |steps|
  {
    if steps == [] then leaf else Linear(Apply(leaf, steps[0]), steps[1..])
  }

  lemma {:induction false} LinearEval(g: Graph, caches: Caches, leaf: Plan, steps: seq<Step>)
    requires Wf(Linear(leaf, steps))
    ensures Wf(leaf)
    ensures var t := Eval(g, caches, leaf);
            StepsOk(steps, t.cols) &&
            Eval(g, caches, Linear(leaf, steps)) ==
            Table(ColsAfter(t.cols, steps), RunAll(g, caches, steps, t.cols, t.rows))
    decreases |steps|
  {
    if steps != [] {
      LinearEval(g, caches, Apply(leaf, steps[0]), steps[1..]);
    }
  }

  function Flatten<T>(parts: seq<seq<T>>): seq<T> {
    if parts == [] then [] else Flatten(parts[..|parts| - 1]) + parts[|parts| - 1]
  }

  lemma {:induction false} FlattenGrows<T>(parts: seq<seq<T>>, k: nat)
    requires k <= |parts|
    ensures |Flatten(parts[..k])| <= |Flatten(parts)|
  {
    if k == |parts| {
      assert parts[..k] == parts;
    } else {
      assert parts[..|parts| - 1][..k] == parts[..k];
      FlattenGrows(parts[..|parts| - 1], k);
    }
  }

  lemma FlattenNext<T>(parts: seq<seq<T>>, part: seq<T>)
    ensures Flatten(parts + [part]) == Flatten(parts) + part
    ensures part == [] ==> Flatten(parts) + part == Flatten(parts)
  {
    assert (parts + [part])[..|parts|] == parts;
  }

  lemma PopFront<T>(s: seq<T>, i: nat)
    requires i < |s|
    ensures s[i..][0] == s[i] && s[i..][1..] == s[i + 1..] && s[i] in s && (s[i + 1..] == [] <==> i + 1 == |s|)
  {
  }

  /** The loop over the first node's candidates. It ends when they are used up or when the limit
      is reached, and keeps the non-empty results. */
  method SearchCandidates(g: Graph, caches: Caches, steps: seq<Step>, cols: seq<nat>, first: seq<Row>, limit: nat,
                          ghost deep: Row -> seq<Row>)
    returns (container: seq<seq<Row>>)
    requires steps != [] && StepsOk(steps, cols) && RowsFit(cols, first) && first != []
    requires 0 < limit < NO_LIMIT && IsDeep(deep, g, caches, steps, cols)
    ensures Cut(Flatten(container), FlatMap(deep, first), limit, |ColsAfter(cols, steps)|)
  {
    container := [];
    var list, now := first, 0;
    ghost var i, rows, width := 0, [], |ColsAfter(cols, steps)|;
    ProgressStart(deep, first, limit, width);
    while now <= limit
      invariant 0 <= i < |first| && list == first[i..] && now < limit
      invariant rows == Flatten(container) && now == |rows|
      invariant Progress(deep, first, i, rows, limit, width)
      decreases |list|
    {
      PopFront(first, i);
      var front := list[0];
      list := list[1..];
      var success, more, count := NextRecord(g, caches, steps, cols, front, 0, now, limit, deep, first, i, rows);
      FlattenNext(container, more);
      i, rows, now := i + 1, rows + more, count;
      if success {
        if more != [] {
          container := container + [more];
        }
        if now >= limit {
          break;
        }
      }
      if list == [] {
        break;
      }
    }
    ProgressEnd(deep, first, i, rows, limit, width);
  }

  /** The merge loop. Its break leaves only the inner loop, which is enough because the parts
      never hold more rows than the limit. */
  method MergeResults(container: seq<seq<Row>>, limit: nat) returns (values: seq<Row>)
    requires |Flatten(container)| <= limit
    ensures values == Flatten(container)
  {
    values := [];
    var counter, k := 0, 0;
    while k < |container|
      invariant 0 <= k <= |container|
      invariant values == Flatten(container[..k]) && counter == |values|
    {
      var item := container[k];
      ghost var before := values;
      assert container[..k + 1][..k] == container[..k];
      FlattenGrows(container, k + 1);
      var j := 0;
      while j < |item|
        invariant 0 <= j <= |item|
        invariant values == before + item[..j] && counter == |values|
      {
        values := values + [item[j]];
        counter := counter + 1;
        j := j + 1;
        if counter == limit {
          break;
        }
      }
      assert item[..j] == item;
      k := k + 1;
    }
    assert container[..k] == container;
  }

  /** ExecutionDepthFirst from a first table with rows on. */
  method SearchDeeper(g: Graph, caches: Caches, first: Table, steps: seq<Step>, limit: nat) returns (t: Table)
    requires steps != [] && StepsOk(steps, first.cols) && RowsFit(first.cols, first.rows) && first.rows != []
    requires 0 < limit < NO_LIMIT
    ensures t.cols == ColsAfter(first.cols, steps)
    ensures Cut(t.rows, RunAll(g, caches, steps, first.cols, first.rows), limit, |t.cols|)
  {
    ghost var deep := Deep(g, caches, steps, first.cols);
    var container := SearchCandidates(g, caches, steps, first.cols, first.rows, limit, deep);
    RunAllDeep(g, caches, steps, first.cols, first.rows);
    var values := MergeResults(container, limit);
    t := Table(ColsAfter(first.cols, steps), values);
  }

  lemma PrefixCut(rows: seq<Row>, full: Table, limit: nat)
    requires TableOk(full) && rows == full.rows[..Allowed(limit, |full.rows|)]
    ensures Cut(rows, full.rows, limit, |full.cols|)
  {
    forall j | 0 <= j < |rows|
      ensures |rows[j]| == |full.cols|
    {
      assert full.rows[j] in full.rows;
    }
  }

  /** ExecutionDepthFirst after its first table, which is cut already when it is the only one. An
      empty first table is returned as it is, with its own columns only. */
  method AfterFirst(g: Graph, caches: Caches, first: Table, steps: seq<Step>, limit: nat, ghost full: Table)
    returns (t: Table)
    requires TableOk(full) && StepsOk(steps, full.cols) && 0 < limit < NO_LIMIT
    requires first == Table(full.cols, full.rows[..Allowed(if steps == [] then limit else NO_LIMIT, |full.rows|)])
    ensures t.cols == ColsAfter(full.cols, steps) || (t.rows == [] && t.cols == full.cols)
    ensures Cut(t.rows, RunAll(g, caches, steps, full.cols, full.rows), limit, |ColsAfter(full.cols, steps)|)
  {
    if steps == [] {
      PrefixCut(first.rows, full, limit);
      return first;
    }
    assert first.rows == full.rows;
    if first.rows == [] {
      RunAllEmpty(g, caches, steps, first.cols);
      return first;
    }
    t := SearchDeeper(g, caches, first, steps, limit);
  }

  method ExecutionDepthFirst(g: Graph, caches: Caches, leaf: Plan, steps: seq<Step>, limit: nat) returns (t: Table)
    requires IsLeaf(leaf) && Wf(Linear(leaf, steps)) && 0 < limit < NO_LIMIT
    ensures var full := Eval(g, caches, Linear(leaf, steps));
            (t.rows != [] ==> t.cols == full.cols) && NoDup(t.cols) && Cut(t.rows, full.rows, limit, |full.cols|)
  {
    LinearEval(g, caches, leaf, steps);
    var first := InitialTable(g, caches, leaf, if steps == [] then limit else NO_LIMIT);
    t := AfterFirst(g, caches, first, steps, limit, Eval(g, caches, leaf));
  }

  // ---------------------------------------------------------------- the selected columns

  function Select(selected: seq<nat>, cols: seq<nat>, row: Row): Row
    requires |cols| <= |row| && Elements(selected) <= Elements(cols)
  {
    RowOf(selected, Bind(cols, row))
  }

  function SelectAll(selected: seq<nat>, cols: seq<nat>, rows: seq<Row>): (r: seq<Row>)
    requires RowsFit(cols, rows) && Elements(selected) <= Elements(cols)
    ensures |r| == |rows|
  {
    seq(|rows|, i requires 0 <= i < |rows| => assert rows[i] in rows; Select(selected, cols, rows[i]))
  }

  lemma DistinctColumns(selected: seq<nat>, cols: seq<nat>)
    requires NoDup(selected) && NoDup(cols) && Elements(selected) <= Elements(cols)
    ensures |selected| <= |cols|
  {
    NoDupLength(selected);
    NoDupLength(cols);
    SubsetSize(Elements(selected), Elements(cols));
  }

  lemma {:induction false} SubsetSize(a: set<nat>, b: set<nat>)
    requires a <= b
    ensures |a| <= |b|
  {
    assert b == a + (b - a);
  }

  /** CopyToResult for one record: gather the selected values, write them over the front of the
      record, and shrink it to them. */
  method CopyRecord(selected: seq<nat>, cols: seq<nat>, row: Row) returns (record: Row)
    requires NoDup(selected) && NoDup(cols) && Elements(selected) <= Elements(cols) && |cols| <= |row|
    ensures record == Select(selected, cols, row)
  {
    DistinctColumns(selected, cols);
    var tmp, c := [], 0;
    while c < |selected|
      invariant 0 <= c <= |selected|
      invariant tmp == Select(selected, cols, row)[..c]
    {
      assert selected[c] in Elements(selected);
      tmp := tmp + [row[Pos(cols, selected[c])]];
      c := c + 1;
    }
    record, c := row, 0;
    while c < |selected|
      invariant 0 <= c <= |selected|
      invariant |record| == |row| && record[..c] == tmp[..c]
    {
      record := record[c := tmp[c]];
      c := c + 1;
    }
    record := record[..|selected|];
  }

  method CopyToResult(selected: seq<nat>, t: Table) returns (target: seq<Row>)
    requires NoDup(selected) && NoDup(t.cols)
    requires t.rows != [] ==> Elements(selected) <= Elements(t.cols)
    requires forall j :: 0 <= j < |t.rows| ==> |t.cols| <= |t.rows[j]|
    ensures |target| == |t.rows|
    ensures forall j :: 0 <= j < |target| ==> target[j] == Select(selected, t.cols, t.rows[j])
  {
    target := [];
    var i := 0;
    while i < |t.rows|
      invariant 0 <= i <= |t.rows| && |target| == i
      invariant forall j :: 0 <= j < i ==> target[j] == Select(selected, t.cols, t.rows[j])
    {
      var record := CopyRecord(selected, t.cols, t.rows[i]);
      target := target + [record];
      i := i + 1;
    }
  }

  lemma SelectFront(selected: seq<nat>, cols: seq<nat>, row: Row)
    requires |cols| <= |row| && Elements(selected) <= Elements(cols)
    ensures Select(selected, cols, row) == Select(selected, cols, row[..|cols|])
  {
    assert Bind(cols, row) == Bind(cols, row[..|cols|]);
  }

  /** Depth-first execution under a limit, copied out: exactly the first rows of what
      breadth-first execution of the same plan gives, in the same order. */
  method LimitedResult(g: Graph, caches: Caches, leaf: Plan, steps: seq<Step>, selected: seq<nat>, limit: nat)
    returns (target: seq<Row>)
    requires IsLeaf(leaf) && Wf(Linear(leaf, steps)) && 0 < limit < NO_LIMIT
    requires NoDup(selected) && Elements(selected) <= PlanCols(Linear(leaf, steps))
    ensures var full := Eval(g, caches, Linear(leaf, steps));
            target == SelectAll(selected, full.cols, full.rows)[..Allowed(limit, |full.rows|)]
  {
    var t := ExecutionDepthFirst(g, caches, leaf, steps, limit);
    ghost var full := Eval(g, caches, Linear(leaf, steps));
    target := CopyToResult(selected, t);
    forall j | 0 <= j < |target|
      ensures target[j] == SelectAll(selected, full.cols, full.rows)[j]
    {
      SelectFront(selected, full.cols, t.rows[j]);
    }
  }
}

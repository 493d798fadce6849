/** The stack loop of the older multi-way join: which node is joined next, which triples are dealt
    with, and what the table holds at the end. */
module MultiJoinLoop {
  import opened Collections
  import opened Rdf
  import opened Tables
  import opened MultiJoins
  import opened JoinInPlace

  /** The edges and candidates of each variable; `retrieve` leaves out satellites. */
  datatype JoinQuery = JoinQuery(edges: map<nat, seq<VarEdge>>, retrieve: set<nat>, can: map<nat, seq<Id>>,
                                 ready: set<nat>)

  ghost predicate Has(q: JoinQuery, v: nat, e: VarEdge) {
    v in q.edges && e in q.edges[v] && e.inJoin
  }

  /** The edge as its other end lists it. */
  ghost predicate Back(q: JoinQuery, v: nat, e: VarEdge, back: VarEdge) {
    Has(q, e.neighbor, back) && back.neighbor == v && back.triple == e.triple
  }

  /** Edges are listed at both ends, and none leads from a variable to itself. */
  ghost predicate Symmetric(q: JoinQuery) {
    forall v, e :: Has(q, v, e) ==> e.neighbor != v && exists back :: Back(q, v, e, back)
  }

  /** A triple is one edge: it has the same two ends wherever it is listed. */
  ghost predicate OneEdgeEach(q: JoinQuery) {
    forall v, e, u, f :: Has(q, v, e) && Has(q, u, f) && e.triple == f.triple ==>
      (v == u && e.neighbor == f.neighbor) || (v == f.neighbor && e.neighbor == u)
  }

  ghost predicate QueryOk(q: JoinQuery) {
    Symmetric(q) && OneEdgeEach(q) && forall v :: v in q.edges ==> v in q.can && Increasing(q.can[v])
  }

  ghost function Triples(q: JoinQuery): set<nat> {
    set v, e | v in q.edges && e in q.edges[v] && e.inJoin :: e.triple
  }

  // ---------------------------------------------------------------- edges to the columns

  function EdgesAmong(es: seq<VarEdge>, u: nat): seq<VarEdge> {
    if es == [] then [] else (if es[0].inJoin && es[0].neighbor == u then [es[0]] else []) + EdgesAmong(es[1..], u)
  }

  lemma {:induction false} EdgesAmongMember(es: seq<VarEdge>, u: nat, e: VarEdge)
    ensures e in EdgesAmong(es, u) <==> e in es && e.inJoin && e.neighbor == u
  {
    if es != [] {
      EdgesAmongMember(es[1..], u, e);
      assert es == [es[0]] + es[1..];
    }
  }

  function ColumnEdges(q: JoinQuery, v: nat, cols: seq<nat>): (r: seq<seq<VarEdge>>)
    requires v in q.edges
    ensures |r| == |cols|
  {
    seq(|cols|, i requires 0 <= i < |cols| => EdgesAmong(q.edges[v], cols[i]))
  }

  /** The triples between a variable and the columns. */
  ghost function NewTriples(q: JoinQuery, v: nat, cols: seq<nat>): set<nat>
    requires v in q.edges
  {
    set e | e in q.edges[v] && e.inJoin && e.neighbor in cols :: e.triple
  }

  /** Exactly the triples between two columns are dealt with. */
  ghost predicate DealtExact(q: JoinQuery, cols: seq<nat>, dealt: set<nat>) {
    forall v, e :: Has(q, v, e) ==> (e.triple in dealt <==> v in cols && e.neighbor in cols)
  }

  /** A triple is new exactly when it runs between v and a column. */
  lemma NewTriple(q: JoinQuery, cols: seq<nat>, v: nat, u: nat, e: VarEdge)
    requires Symmetric(q) && OneEdgeEach(q) && v in q.edges && Has(q, u, e)
    ensures e.triple in NewTriples(q, v, cols) <==> (u == v && e.neighbor in cols) || (e.neighbor == v && u in cols)
  {
    if e.triple in NewTriples(q, v, cols) {
      var f :| f in q.edges[v] && f.inJoin && f.neighbor in cols && f.triple == e.triple;
      assert Has(q, v, f);
    }
    if e.neighbor == v && u in cols {
      var back :| Back(q, u, e, back);
      assert back.triple in NewTriples(q, v, cols);
    }
  }

  lemma DealtNext(q: JoinQuery, cols: seq<nat>, dealt: set<nat>, v: nat)
    requires QueryOk(q) && v in q.edges && DealtExact(q, cols, dealt)
    ensures DealtExact(q, cols + [v], dealt + NewTriples(q, v, cols))
  {
    forall u, e | Has(q, u, e)
      ensures e.triple in dealt + NewTriples(q, v, cols) <==> u in cols + [v] && e.neighbor in cols + [v]
    {
      NewTriple(q, cols, v, u, e);
      assert e.neighbor != u;
    }
  }

  // ---------------------------------------------------------------- rows of the table

  /** A row over these columns: a start candidate, and at every next column an id that joins. */
  ghost predicate RowIn(g: Graph, q: JoinQuery, start: seq<Id>, cols: seq<nat>, r: Row)
    decreases |cols|
  {
    |r| == |cols| && cols != [] && Listed(q, cols) &&
    var n := |cols| - 1;
    if n == 0 then r[0] in start
    else
      RowIn(g, q, start, cols[..n], r[..n]) &&
      r[n] in Answers(g, ColumnEdges(q, cols[n], cols[..n]), q.can[cols[n]], cols[n] in q.ready, r[..n])
  }

  /** Each column after the first has an edge to an earlier one. */
  ghost predicate LinkedOrder(q: JoinQuery, cols: seq<nat>) {
    cols != [] && Listed(q, cols) && forall k :: 1 <= k < |cols| ==> LinkedTo(q, cols, k)
  }

  ghost predicate Listed(q: JoinQuery, cols: seq<nat>) {
    forall i :: 0 <= i < |cols| ==> cols[i] in q.edges && cols[i] in q.can
  }

  ghost predicate LinkedTo(q: JoinQuery, cols: seq<nat>, k: nat)
    requires Listed(q, cols) && k < |cols|
  {
    exists j :: 0 <= j < k && EdgesAmong(q.edges[cols[k]], cols[j]) != []
  }

  /** The edges of column k to the columns before it, and its candidates. */
  ghost predicate ColumnOk(g: Graph, q: JoinQuery, cols: seq<nat>, r: Row, k: nat)
    requires k < |cols| == |r| && LinkedOrder(q, cols)
  {
    (cols[k] in q.ready ==> r[k] in q.can[cols[k]]) &&
    forall j :: 0 <= j < k ==> PairOk(g, EdgesAmong(q.edges[cols[k]], cols[j]), r[j], r[k])
  }

  lemma LinkedPrefix(q: JoinQuery, cols: seq<nat>, n: nat)
    requires LinkedOrder(q, cols) && 1 <= n <= |cols|
    ensures LinkedOrder(q, cols[..n])
  {
    forall k | 1 <= k < n
      ensures LinkedTo(q, cols[..n], k)
    {
      assert LinkedTo(q, cols, k);
      var j :| 0 <= j < k && EdgesAmong(q.edges[cols[k]], cols[j]) != [];
      assert cols[..n][j] == cols[j] && cols[..n][k] == cols[k];
    }
  }

  lemma LastColumn(g: Graph, q: JoinQuery, cols: seq<nat>, r: Row)
    requires QueryOk(q) && LinkedOrder(q, cols) && |r| == |cols| >= 2
    ensures var n := |cols| - 1;
            r[n] in Answers(g, ColumnEdges(q, cols[n], cols[..n]), q.can[cols[n]], cols[n] in q.ready, r[..n]) <==>
            ColumnOk(g, q, cols, r, n)
  {
    var n := |cols| - 1;
    var edges := ColumnEdges(q, cols[n], cols[..n]);
    assert LinkedTo(q, cols, n);
    var j :| 0 <= j < n && EdgesAmong(q.edges[cols[n]], cols[j]) != [];
    assert edges[j] != [];
    AnswersExact(g, edges, q.can[cols[n]], cols[n] in q.ready, r[..n], r[n]);
    assert RowOk(g, edges, r[..n], r[n]) <==>
      forall i :: 0 <= i < n ==> PairOk(g, EdgesAmong(q.edges[cols[n]], cols[i]), r[i], r[n]) by {
      assert forall i :: 0 <= i < n ==> edges[i] == EdgesAmong(q.edges[cols[n]], cols[i]) && r[..n][i] == r[i];
    }
  }

  lemma ColumnPrefix(g: Graph, q: JoinQuery, cols: seq<nat>, r: Row, k: nat, n: nat)
    requires LinkedOrder(q, cols) && |r| == |cols| && k < n <= |cols|
    ensures LinkedOrder(q, cols[..n]) && (ColumnOk(g, q, cols[..n], r[..n], k) <==> ColumnOk(g, q, cols, r, k))
  {
    LinkedPrefix(q, cols, n);
    assert forall j :: 0 <= j <= k ==> cols[..n][j] == cols[j] && r[..n][j] == r[j];
  }

  ghost predicate ColumnsOk(g: Graph, q: JoinQuery, cols: seq<nat>, r: Row, n: nat)
    requires n <= |cols| == |r| && LinkedOrder(q, cols)
  {
    forall k :: 1 <= k < n ==> ColumnOk(g, q, cols, r, k)
  }

  lemma ColumnsPrefix(g: Graph, q: JoinQuery, cols: seq<nat>, r: Row, n: nat)
    requires LinkedOrder(q, cols) && |r| == |cols| && 1 <= n <= |cols|
    ensures LinkedOrder(q, cols[..n]) && (ColumnsOk(g, q, cols[..n], r[..n], n) <==> ColumnsOk(g, q, cols, r, n))
  {
    LinkedPrefix(q, cols, n);
    forall k | 1 <= k < n
      ensures ColumnOk(g, q, cols[..n], r[..n], k) <==> ColumnOk(g, q, cols, r, k)
    {
      ColumnPrefix(g, q, cols, r, k, n);
    }
  }

  /** The rows are exactly the tuples that satisfy every edge between two columns and every ready
      candidate list. */
  lemma {:induction false} RowInExact(g: Graph, q: JoinQuery, start: seq<Id>, cols: seq<nat>, r: Row)
    requires QueryOk(q) && LinkedOrder(q, cols) && |r| == |cols|
    ensures RowIn(g, q, start, cols, r) <==> r[0] in start && ColumnsOk(g, q, cols, r, |cols|)
    decreases |cols|
  {
    var n := |cols| - 1;
    if n > 0 {
      ColumnsPrefix(g, q, cols, r, n);
      RowInExact(g, q, start, cols[..n], r[..n]);
      LastColumn(g, q, cols, r);
      assert ColumnsOk(g, q, cols, r, n + 1) <==> ColumnsOk(g, q, cols, r, n) && ColumnOk(g, q, cols, r, n);
    }
  }

  // ---------------------------------------------------------------- the stack loop

  /** The edge leads to a variable that takes part in the join and is retrieved. */
  predicate Wanted(q: JoinQuery, e: VarEdge) {
    e.inJoin && e.neighbor in q.retrieve
  }

  /** Columns that are off the stack have all their wanted neighbours as columns. */
  ghost predicate Closed(q: JoinQuery, cols: seq<nat>, stack: seq<nat>) {
    forall v, e :: v in cols && v !in stack && Has(q, v, e) && Wanted(q, e) ==> e.neighbor in cols
  }

  ghost predicate Positions(cols: seq<nat>, id2pos: map<nat, nat>) {
    id2pos.Keys == Elements(cols) && forall i :: 0 <= i < |cols| ==> cols[i] in id2pos && id2pos[cols[i]] == i
  }

  /** Columns and positions, dealt triples, stack: what every round of the loop keeps. */
  ghost predicate LoopOk(q: JoinQuery, cols: seq<nat>, id2pos: map<nat, nat>, stack: seq<nat>, dealt: set<nat>) {
    LinkedOrder(q, cols) && NoDup(cols) && Positions(cols, id2pos) && DealtExact(q, cols, dealt) &&
    Closed(q, cols, stack) &&
    (forall v :: v in stack ==> v in cols) && dealt <= Triples(q)
  }

  ghost predicate TableExact(g: Graph, q: JoinQuery, start: seq<Id>, cols: seq<nat>, table: seq<Row>) {
    forall r :: r in table <==> RowIn(g, q, start, cols, r)
  }

  /** No row comes twice. */
  ghost predicate Once(table: seq<Row>) {
    NoDup(table)
  }

  lemma TriplesHas(q: JoinQuery, v: nat, e: VarEdge)
    requires Has(q, v, e)
    ensures e.triple in Triples(q)
  {
  }

  /** An undealt wanted edge of a column leads to a new variable, whose own edge to it is new. */
  lemma NextIsNew(q: JoinQuery, cols: seq<nat>, dealt: set<nat>, id: nat, e: VarEdge)
    requires QueryOk(q) && DealtExact(q, cols, dealt) && id in cols && Has(q, id, e) && e.triple !in dealt
    ensures e.neighbor !in cols && e.neighbor in q.edges && e.triple in NewTriples(q, e.neighbor, cols)
    ensures exists j :: 0 <= j < |cols| && EdgesAmong(q.edges[e.neighbor], cols[j]) != []
  {
    var back :| Back(q, id, e, back);
    assert back in q.edges[e.neighbor] && back.triple in NewTriples(q, e.neighbor, cols);
    EdgesAmongMember(q.edges[e.neighbor], id, back);
    assert cols[Pos(cols, id)] == id;
  }

  lemma LoopNext(q: JoinQuery, cols: seq<nat>, id2pos: map<nat, nat>, stack: seq<nat>, dealt: set<nat>, id: nat,
                 e: VarEdge)
    requires QueryOk(q) && LoopOk(q, cols, id2pos, stack, dealt) && id in cols && Has(q, id, e) && e.triple !in dealt
    ensures var v := e.neighbor;
            v !in cols && v in q.edges &&
            LoopOk(q, cols + [v], id2pos[v := |cols|], stack + [v], dealt + NewTriples(q, v, cols)) &&
            Triples(q) - (dealt + NewTriples(q, v, cols)) < Triples(q) - dealt
  {
    var v := e.neighbor;
    NextIsNew(q, cols, dealt, id, e);
    DealtNext(q, cols, dealt, v);
    LinkedNext(q, cols, v);
    assert Positions(cols + [v], id2pos[v := |cols|]);
    assert NewTriples(q, v, cols) <= Triples(q);
    TriplesHas(q, id, e);
    assert e.triple in Triples(q) - dealt && e.triple !in Triples(q) - (dealt + NewTriples(q, v, cols));
    assert Closed(q, cols + [v], stack + [v]);
  }

  lemma LinkedNext(q: JoinQuery, cols: seq<nat>, v: nat)
    requires QueryOk(q) && LinkedOrder(q, cols) && v in q.edges
    requires exists j :: 0 <= j < |cols| && EdgesAmong(q.edges[v], cols[j]) != []
    ensures LinkedOrder(q, cols + [v])
  {
    var all := cols + [v];
    forall k | 1 <= k < |all|
      ensures LinkedTo(q, all, k)
    {
      if k < |cols| {
        assert LinkedTo(q, cols, k);
        var j :| 0 <= j < k && EdgesAmong(q.edges[cols[k]], cols[j]) != [];
        assert all[j] == cols[j] && all[k] == cols[k];
      } else {
        var j :| 0 <= j < |cols| && EdgesAmong(q.edges[v], cols[j]) != [];
        assert all[j] == cols[j] && all[k] == v;
      }
    }
  }

  lemma LoopPop(q: JoinQuery, cols: seq<nat>, id2pos: map<nat, nat>, stack: seq<nat>, dealt: set<nat>)
    requires LoopOk(q, cols, id2pos, stack, dealt) && stack != []
    requires forall e :: Has(q, stack[|stack| - 1], e) && Wanted(q, e) ==> e.triple in dealt
    ensures LoopOk(q, cols, id2pos, stack[..|stack| - 1], dealt)
  {
    var front, id := stack[..|stack| - 1], stack[|stack| - 1];
    assert stack == front + [id];
    forall v, e | v in cols && v !in front && Has(q, v, e) && Wanted(q, e)
      ensures e.neighbor in cols
    {
      if v == id {
        assert e.triple in dealt;
      } else {
        assert v !in stack;
      }
    }
  }

  // ---------------------------------------------------------------- the order of the columns

  /** The triples between two columns. */
  ghost function Between(q: JoinQuery, cols: seq<nat>): set<nat> {
    set v, e | v in q.edges && e in q.edges[v] && e.inJoin && v in cols && e.neighbor in cols :: e.triple
  }

  lemma DealtBetween(q: JoinQuery, cols: seq<nat>, dealt: set<nat>)
    requires DealtExact(q, cols, dealt) && dealt <= Triples(q)
    ensures dealt == Between(q, cols)
  {
    forall t
      ensures t in dealt <==> t in Between(q, cols)
    {
      if t in dealt {
        var v, e :| v in q.edges && e in q.edges[v] && e.inJoin && e.triple == t;
        assert Has(q, v, e);
      }
      if t in Between(q, cols) {
        var v, e :| v in q.edges && e in q.edges[v] && e.inJoin && v in cols && e.neighbor in cols && e.triple == t;
        assert Has(q, v, e);
      }
    }
  }

  /** A wanted edge to a variable that is no column yet. */
  predicate OpenEdge(q: JoinQuery, cols: seq<nat>, e: VarEdge) {
    Wanted(q, e) && e.neighbor !in cols
  }

  /** The columns from position a on have no such edge. */
  ghost predicate ClosedFrom(q: JoinQuery, cols: seq<nat>, a: nat) {
    forall b, e :: a <= b < |cols| && Has(q, cols[b], e) ==> !OpenEdge(q, cols, e)
  }

  /** The first of the open edges whose other ends score best. */
  ghost predicate BestEdge(q: JoinQuery, score: (set<nat>, nat) -> real, cols: seq<nat>, edges: seq<VarEdge>, i: nat) {
    var d := Between(q, cols);
    i < |edges| && OpenEdge(q, cols, edges[i]) &&
    forall j :: 0 <= j < |edges| && OpenEdge(q, cols, edges[j]) ==>
      score(d, edges[j].neighbor) <= score(d, edges[i].neighbor) &&
      (j < i ==> score(d, edges[j].neighbor) < score(d, edges[i].neighbor))
  }

  /** The next column is the best neighbour of the latest column that has an open edge. */
  ghost predicate NextFrom(q: JoinQuery, score: (set<nat>, nat) -> real, cols: seq<nat>, v: nat, a: nat, i: nat) {
    a < |cols| && cols[a] in q.edges && ClosedFrom(q, cols, a + 1) &&
    BestEdge(q, score, cols, q.edges[cols[a]], i) && q.edges[cols[a]][i].neighbor == v
  }

  ghost predicate NextColumn(q: JoinQuery, score: (set<nat>, nat) -> real, cols: seq<nat>, v: nat) {
    exists a: nat, i: nat :: NextFrom(q, score, cols, v, a, i)
  }

  ghost predicate DeepAt(q: JoinQuery, score: (set<nat>, nat) -> real, cols: seq<nat>, k: nat)
    requires k < |cols|
  {
    NextColumn(q, score, cols[..k], cols[k])
  }

  /** Deep first and best first: every column is the next one of those before it. */
  ghost predicate DeepFirst(q: JoinQuery, score: (set<nat>, nat) -> real, cols: seq<nat>) {
    forall k {:trigger DeepAt(q, score, cols, k)} :: 1 <= k < |cols| ==> DeepAt(q, score, cols, k)
  }

  lemma DeepFirstNext(q: JoinQuery, score: (set<nat>, nat) -> real, cols: seq<nat>, v: nat)
    requires DeepFirst(q, score, cols) && NextColumn(q, score, cols, v)
    ensures DeepFirst(q, score, cols + [v])
  {
    var all := cols + [v];
    forall k | 1 <= k < |all|
      ensures DeepAt(q, score, all, k)
    {
      assert all[..k] == cols[..k];
      assert cols[..|cols|] == cols;
      assert k < |cols| ==> DeepAt(q, score, cols, k);
    }
  }

  /** The stack holds columns in the order they came in. */
  ghost predicate StackOk(cols: seq<nat>, id2pos: map<nat, nat>, stack: seq<nat>) {
    (forall i :: 0 <= i < |stack| ==> stack[i] in id2pos && id2pos[stack[i]] < |cols|) &&
    forall i, j :: 0 <= i < j < |stack| ==> id2pos[stack[i]] < id2pos[stack[j]]
  }

  lemma StackPush(cols: seq<nat>, id2pos: map<nat, nat>, stack: seq<nat>, v: nat)
    requires StackOk(cols, id2pos, stack) && v !in id2pos
    ensures StackOk(cols + [v], id2pos[v := |cols|], stack + [v])
  {
  }

  lemma TopClosed(q: JoinQuery, cols: seq<nat>, id2pos: map<nat, nat>, stack: seq<nat>, dealt: set<nat>)
    requires LoopOk(q, cols, id2pos, stack, dealt) && StackOk(cols, id2pos, stack) && stack != []
    ensures ClosedFrom(q, cols, id2pos[stack[|stack| - 1]] + 1)
  {
    forall b, e | id2pos[stack[|stack| - 1]] + 1 <= b < |cols| && Has(q, cols[b], e)
      ensures !OpenEdge(q, cols, e)
    {
      assert id2pos[cols[b]] == b;
      assert cols[b] !in stack;
    }
  }

  /** An edge of a column is open exactly when it is wanted and its triple not dealt with. */
  lemma OpenUndealt(q: JoinQuery, cols: seq<nat>, dealt: set<nat>, v: nat, e: VarEdge)
    requires DealtExact(q, cols, dealt) && v in cols && Has(q, v, e)
    ensures OpenEdge(q, cols, e) <==> Wanted(q, e) && e.triple !in dealt
  {
  }

  /** The node chosen at the top of the stack is the next column. */
  lemma ChosenNext(q: JoinQuery, score: (set<nat>, nat) -> real, cols: seq<nat>, id2pos: map<nat, nat>,
                   stack: seq<nat>, dealt: set<nat>, i: nat)
    requires LoopOk(q, cols, id2pos, stack, dealt) && StackOk(cols, id2pos, stack) && stack != []
    requires stack[|stack| - 1] in q.edges && BestUndealt(q, score, dealt, q.edges[stack[|stack| - 1]], i)
    ensures NextColumn(q, score, cols, q.edges[stack[|stack| - 1]][i].neighbor)
  {
    var id := stack[|stack| - 1];
    var edges := q.edges[id];
    TopClosed(q, cols, id2pos, stack, dealt);
    DealtBetween(q, cols, dealt);
    assert id in cols && cols[id2pos[id]] == id by {
      assert id in stack && id in Elements(cols);
    }
    forall j | 0 <= j < |edges| && edges[j].inJoin
      ensures OpenEdge(q, cols, edges[j]) <==> Wanted(q, edges[j]) && edges[j].triple !in dealt
    {
      OpenUndealt(q, cols, dealt, id, edges[j]);
    }
    assert BestEdge(q, score, cols, edges, i);
    assert NextFrom(q, score, cols, edges[i].neighbor, id2pos[id], i);
  }

  /** The same with the triples dealt with, as the loop knows them. */
  ghost predicate BestUndealt(q: JoinQuery, score: (set<nat>, nat) -> real, dealt: set<nat>, edges: seq<VarEdge>,
                              i: nat)
  {
    i < |edges| && Wanted(q, edges[i]) && edges[i].triple !in dealt &&
    forall j :: 0 <= j < |edges| && Wanted(q, edges[j]) && edges[j].triple !in dealt ==>
      score(dealt, edges[j].neighbor) <= score(dealt, edges[i].neighbor) &&
      (j < i ==> score(dealt, edges[j].neighbor) < score(dealt, edges[i].neighbor))
  }

  lemma NextUnique(q: JoinQuery, score: (set<nat>, nat) -> real, cols: seq<nat>, v: nat, w: nat)
    requires NextColumn(q, score, cols, v) && NextColumn(q, score, cols, w)
    ensures v == w
  {
    var a: nat, i: nat :| NextFrom(q, score, cols, v, a, i);
    var b: nat, j: nat :| NextFrom(q, score, cols, w, b, j);
    assert Has(q, cols[a], q.edges[cols[a]][i]) && Has(q, cols[b], q.edges[cols[b]][j]);
    assert a == b;
    assert i == j;
  }

  lemma {:induction false} DeepFirstPrefix(q: JoinQuery, score: (set<nat>, nat) -> real, a: seq<nat>, b: seq<nat>,
                                           n: nat)
    requires DeepFirst(q, score, a) && DeepFirst(q, score, b) && 1 <= n && n <= |a| && n <= |b| && a[0] == b[0]
    ensures a[..n] == b[..n]
  {
    if n > 1 {
      var k := n - 1;
      DeepFirstPrefix(q, score, a, b, k);
      assert DeepAt(q, score, a, k) && DeepAt(q, score, b, k);
      NextUnique(q, score, a[..k], a[k], b[k]);
      assert a[..n] == a[..k] + [a[k]] && b[..n] == b[..k] + [b[k]];
    }
  }

  lemma DeepFirstGoesOn(q: JoinQuery, score: (set<nat>, nat) -> real, cols: seq<nat>, k: nat)
    requires DeepFirst(q, score, cols) && 1 <= k < |cols|
    ensures !ClosedFrom(q, cols[..k], 0)
  {
    assert DeepAt(q, score, cols, k);
    var a: nat, i: nat :| NextFrom(q, score, cols[..k], cols[k], a, i);
    assert Has(q, cols[..k][a], q.edges[cols[..k][a]][i]);
  }

  lemma DeepFirstEnds(q: JoinQuery, score: (set<nat>, nat) -> real, a: seq<nat>, b: seq<nat>)
    requires DeepFirst(q, score, b) && 1 <= |a| <= |b| && a == b[..|a|] && ClosedFrom(q, a, 0)
    ensures a == b
  {
    if |a| < |b| {
      DeepFirstGoesOn(q, score, b, |a|);
      assert false;
    }
  }

  /** Query and scores leave one order from a start node that ends with no edge open. */
  lemma DeepFirstUnique(q: JoinQuery, score: (set<nat>, nat) -> real, a: seq<nat>, b: seq<nat>)
    requires DeepFirst(q, score, a) && DeepFirst(q, score, b) && a != [] && b != [] && a[0] == b[0]
    requires ClosedFrom(q, a, 0) && ClosedFrom(q, b, 0)
    ensures a == b
  {
    assert a[..|a|] == a && b[..|b|] == b;
    if |a| <= |b| {
      DeepFirstPrefix(q, score, a, b, |a|);
      DeepFirstEnds(q, score, a, b);
    } else {
      DeepFirstPrefix(q, score, a, b, |b|);
      DeepFirstEnds(q, score, b, a);
    }
  }

  /** Where the loop stands in that order. */
  ghost predicate OrderOk(q: JoinQuery, score: (set<nat>, nat) -> real, cols: seq<nat>, id2pos: map<nat, nat>,
                          stack: seq<nat>)
  {
    StackOk(cols, id2pos, stack) && DeepFirst(q, score, cols)
  }

  lemma OrderNext(q: JoinQuery, score: (set<nat>, nat) -> real, cols: seq<nat>, id2pos: map<nat, nat>,
                  stack: seq<nat>, dealt: set<nat>, i: nat)
    requires LoopOk(q, cols, id2pos, stack, dealt) && OrderOk(q, score, cols, id2pos, stack) && stack != []
    requires stack[|stack| - 1] in q.edges && BestUndealt(q, score, dealt, q.edges[stack[|stack| - 1]], i)
    requires q.edges[stack[|stack| - 1]][i].neighbor !in cols
    ensures var v := q.edges[stack[|stack| - 1]][i].neighbor;
            DeepFirst(q, score, cols + [v]) && OrderOk(q, score, cols + [v], id2pos[v := |cols|], stack + [v])
  {
    var v := q.edges[stack[|stack| - 1]][i].neighbor;
    ChosenNext(q, score, cols, id2pos, stack, dealt, i);
    DeepFirstNext(q, score, cols, v);
    assert v !in id2pos;
    StackPush(cols, id2pos, stack, v);
  }

  lemma AllClosed(q: JoinQuery, cols: seq<nat>, id2pos: map<nat, nat>, dealt: set<nat>)
    requires LoopOk(q, cols, id2pos, [], dealt)
    ensures ClosedFrom(q, cols, 0)
  {
    forall b, e | 0 <= b < |cols| && Has(q, cols[b], e)
      ensures !OpenEdge(q, cols, e)
    {
      assert cols[b] in cols;
    }
  }

  lemma TopListed(q: JoinQuery, cols: seq<nat>, id2pos: map<nat, nat>, stack: seq<nat>, dealt: set<nat>)
    requires LoopOk(q, cols, id2pos, stack, dealt) && stack != []
    ensures stack[|stack| - 1] in q.edges
  {
    assert stack[|stack| - 1] in stack && stack[|stack| - 1] in cols;
  }

  lemma OrderPop(q: JoinQuery, score: (set<nat>, nat) -> real, cols: seq<nat>, id2pos: map<nat, nat>, stack: seq<nat>)
    requires OrderOk(q, score, cols, id2pos, stack) && stack != []
    ensures OrderOk(q, score, cols, id2pos, stack[..|stack| - 1])
  {
  }

  /** c joins to a row over these columns. */
  ghost predicate Joins(g: Graph, q: JoinQuery, cols: seq<nat>, v: nat, row: Row, c: Id)
    requires v in q.edges && v in q.can
  {
    |row| == |cols| && c in Answers(g, ColumnEdges(q, v, cols), q.can[v], v in q.ready, row)
  }

  lemma RowNext(g: Graph, q: JoinQuery, start: seq<Id>, cols: seq<nat>, v: nat, row: Row, c: Id)
    requires cols != [] && Listed(q, cols) && v in q.edges && v in q.can
    ensures RowIn(g, q, start, cols + [v], row + [c]) <==> RowIn(g, q, start, cols, row) && Joins(g, q, cols, v, row, c)
  {
    var all, r := cols + [v], row + [c];
    assert all[..|cols|] == cols && all[|cols|] == v && Listed(q, all);
    assert |row| == |cols| ==> r[..|cols|] == row && r[|cols|] == c;
  }

  /** The table of the next column. */
  lemma TableNext(g: Graph, q: JoinQuery, start: seq<Id>, cols: seq<nat>, table: seq<Row>, v: nat, f: Row -> seq<Id>)
    requires cols != [] && Listed(q, cols) && v in q.edges && v in q.can && TableExact(g, q, start, cols, table)
    requires IsAnswers(f, g, ColumnEdges(q, v, cols), q.can[v], v in q.ready)
    ensures TableExact(g, q, start, cols + [v], Joined(f, table))
  {
    forall r
      ensures r in Joined(f, table) <==> RowIn(g, q, start, cols + [v], r)
    {
      JoinedMember(f, table, r);
      if r != [] {
        var row, c := r[..|r| - 1], r[|r| - 1];
        assert r == row + [c];
        RowNext(g, q, start, cols, v, row, c);
        JoinsExact(g, q, cols, v, f, row, c);
      }
    }
  }

  lemma JoinsExact(g: Graph, q: JoinQuery, cols: seq<nat>, v: nat, f: Row -> seq<Id>, row: Row, c: Id)
    requires v in q.edges && v in q.can && IsAnswers(f, g, ColumnEdges(q, v, cols), q.can[v], v in q.ready)
    ensures |row| == |cols| ==> (Joins(g, q, cols, v, row, c) <==> c in f(row))
  {
  }

  function AnswersFor(g: Graph, q: JoinQuery, v: nat, cols: seq<nat>): Row -> seq<Id>
    requires v in q.edges && v in q.can
  {
    row => if |row| == |cols| then Answers(g, ColumnEdges(q, v, cols), q.can[v], v in q.ready, row) else []
  }

  lemma AnswersOnce(g: Graph, q: JoinQuery, v: nat, cols: seq<nat>, row: Row)
    requires QueryOk(q) && v in q.edges && |row| == |cols|
    requires exists i :: 0 <= i < |cols| && ColumnEdges(q, v, cols)[i] != []
    ensures NoDup(AnswersFor(g, q, v, cols)(row))
  {
    AnswersExact(g, ColumnEdges(q, v, cols), q.can[v], v in q.ready, row, 0);
  }

  lemma OnceNext(g: Graph, q: JoinQuery, v: nat, cols: seq<nat>, table: seq<Row>)
    requires QueryOk(q) && v in q.edges && Once(table) && forall i :: 0 <= i < |table| ==> |table[i]| == |cols|
    requires exists i :: 0 <= i < |cols| && ColumnEdges(q, v, cols)[i] != []
    ensures Once(Joined(AnswersFor(g, q, v, cols), table))
  {
    forall row | row in table
      ensures NoDup(AnswersFor(g, q, v, cols)(row))
    {
      AnswersOnce(g, q, v, cols, row);
    }
    JoinedOnce(AnswersFor(g, q, v, cols), table);
  }

  lemma StartOnce(ids: seq<Id>, table: seq<Row>)
    requires Increasing(ids) && |table| == |ids| && forall i :: 0 <= i < |ids| ==> table[i] == [ids[i]]
    ensures Once(table)
  {
    forall i, j | 0 <= i < j < |table|
      ensures table[i] != table[j]
    {
      assert table[i][0] == ids[i] && table[j][0] == ids[j];
    }
  }

  lemma NoCandidates(g: Graph, q: JoinQuery, start: seq<Id>, cols: seq<nat>, v: nat, r: Row)
    requires QueryOk(q) && LinkedOrder(q, cols + [v]) && v in q.ready && v in q.can && q.can[v] == [] && cols != []
    ensures !RowIn(g, q, start, cols + [v], r)
  {
    if |r| == |cols| + 1 {
      RowInExact(g, q, start, cols + [v], r);
      assert ColumnsOk(g, q, cols + [v], r, |r|) ==> ColumnOk(g, q, cols + [v], r, |cols|);
    }
  }

  lemma StartOk(g: Graph, q: JoinQuery, id: nat, start: seq<Id>, table: seq<Row>)
    requires QueryOk(q) && id in q.edges && |table| == |start| &&
             forall i :: 0 <= i < |start| ==> table[i] == [start[i]]
    ensures LoopOk(q, [id], map[id := 0], [id], {}) && TableExact(g, q, start, [id], table)
  {
    assert Elements([id]) == {id};
    forall v, e | Has(q, v, e)
      ensures !(v in [id] && e.neighbor in [id])
    {
      assert e.neighbor != v;
    }
    forall r
      ensures r in table <==> RowIn(g, q, start, [id], r)
    {
      if r in table {
        assert r == [start[Pos(table, r)]];
      }
      if |r| == 1 && r[0] in start {
        assert table[Pos(start, r[0])] == r;
      }
    }
  }

  class MultiJoin {
    const g: Graph
    const q: JoinQuery
    const score: (set<nat>, nat) -> real
    const rows: JoinTable
    var pos2id: seq<nat>
    var id2pos: map<nat, nat>
    var stack: seq<nat>
    var dealt: set<nat>

    constructor (g: Graph, q: JoinQuery, score: (set<nat>, nat) -> real)
      ensures this.g == g && this.q == q && this.score == score && fresh(rows)
      ensures pos2id == [] && id2pos == map[] && stack == [] && dealt == {} && rows.table == [] && rows.newStart == 0
    {
      this.g, this.q, this.score := g, q, score;
      rows := new JoinTable([]);
      pos2id, id2pos, stack, dealt := [], map[], [], {};
    }

    /** The first wanted undealt edge whose other end scores best, if there is one. */
    method ChooseNextNode(id: nat) returns (maxi: Option<nat>)
      requires id in q.edges && forall d, v :: score(d, v) > 0.0
      ensures maxi.None? ==> forall e :: Has(q, id, e) && Wanted(q, e) ==> e.triple in dealt
      ensures maxi.Some? ==> BestUndealt(q, score, dealt, q.edges[id], maxi.value)
    {
      maxi := None;
      var best := 0.0;
      var edges := q.edges[id];
      var i := 0;
      while i < |edges|
        invariant 0 <= i <= |edges| && (maxi.None? <==> best == 0.0) && best >= 0.0
        invariant maxi.None? ==> forall j :: 0 <= j < i && Wanted(q, edges[j]) ==> edges[j].triple in dealt
        invariant maxi.Some? ==> maxi.value < i && Wanted(q, edges[maxi.value]) && edges[maxi.value].triple !in dealt
        invariant maxi.Some? ==> best == score(dealt, edges[maxi.value].neighbor)
        invariant forall j :: 0 <= j < i && Wanted(q, edges[j]) && edges[j].triple !in dealt ==>
                    score(dealt, edges[j].neighbor) <= best &&
                    (maxi.Some? && j < maxi.value ==> score(dealt, edges[j].neighbor) < best)
      {
        if !edges[i].inJoin || edges[i].neighbor !in q.retrieve || edges[i].triple in dealt {
          i := i + 1;
          continue;
        }
        var s := score(dealt, edges[i].neighbor);
        if best < s {
          maxi, best := Some(i), s;
        }
        i := i + 1;
      }
    }

    /** Marks the triples between the new node and every column. */
    method MarkDealt(edges: seq<seq<VarEdge>>, v: nat)
      requires v in q.edges && edges == ColumnEdges(q, v, pos2id)
      modifies this`dealt
      ensures dealt == old(dealt) + NewTriples(q, v, pos2id)
    {
      ghost var before := dealt;
      var i := 0;
      while i < |pos2id|
        invariant 0 <= i <= |pos2id| && dealt == before + NewTriples(q, v, pos2id[..i])
      {
        MarkColumn(edges[i]);
        forall t
          ensures t in NewTriples(q, v, pos2id[..i + 1]) <==>
                  t in NewTriples(q, v, pos2id[..i]) || t in TriplesOf(edges[i])
        {
          MarkedColumn(q, v, pos2id, i, t);
        }
        i := i + 1;
      }
      assert pos2id[..i] == pos2id;
    }

    method MarkColumn(es: seq<VarEdge>)
      modifies this`dealt
      ensures dealt == old(dealt) + TriplesOf(es)
    {
      ghost var before := dealt;
      var j := 0;
      while j < |es|
        invariant 0 <= j <= |es| && dealt == before + TriplesOf(es[..j])
      {
        assert TriplesOf(es[..j + 1]) == TriplesOf(es[..j]) + {es[j].triple} by {
          assert es[..j + 1] == es[..j] + [es[j]];
        }
        dealt := dealt + {es[j].triple};
        j := j + 1;
      }
      assert es[..j] == es;
    }

    /** The table with one column more. */
    method JoinRows(v: nat, edges: seq<seq<VarEdge>>, ghost start: seq<Id>) returns (found: bool)
      requires QueryOk(q) && v in q.edges && LinkedOrder(q, pos2id) && LinkedOrder(q, pos2id + [v])
      requires edges == ColumnEdges(q, v, pos2id)
      requires TableExact(g, q, start, pos2id, rows.table) && Once(rows.table) && rows.newStart == |rows.table|
      modifies rows
      ensures found ==> TableExact(g, q, start, pos2id + [v], rows.table) && Once(rows.table)
      ensures !found ==> NoRows(g, q, start, pos2id + [v])
    {
      ghost var f := AnswersFor(g, q, v, pos2id);
      TableWidth(g, q, start, pos2id, rows.table);
      TableNext(g, q, start, pos2id, rows.table, v, f);
      LastLinked(q, pos2id, v);
      OnceNext(g, q, v, pos2id, rows.table);
      found := rows.JoinNode(g, edges, q.can[v], v in q.ready, f);
      if !found {
        Nothing(g, q, start, pos2id, v, rows.table);
      }
    }

    /** Joins the other end of an undealt edge: one column more, or no rows at all. */
    method JoinNextNode(id: nat, e: VarEdge, ghost start: seq<Id>) returns (ok: bool)
      requires QueryOk(q) && LoopOk(q, pos2id, id2pos, stack, dealt) && rows.newStart == |rows.table|
      requires TableExact(g, q, start, pos2id, rows.table) && Once(rows.table)
      requires id in pos2id && Has(q, id, e) && e.triple !in dealt
      modifies this, rows
      ensures e.neighbor !in old(pos2id)
      ensures ok ==> LoopOk(q, pos2id, id2pos, stack, dealt) && rows.newStart == |rows.table|
      ensures ok ==>
                TableExact(g, q, start, pos2id, rows.table) && Once(rows.table) && pos2id == old(pos2id) + [e.neighbor]
      ensures ok ==> Triples(q) - dealt < old(Triples(q) - dealt)
      ensures ok ==> id2pos == old(id2pos)[e.neighbor := |old(pos2id)|] && stack == old(stack) + [e.neighbor]
      ensures !ok ==> LinkedOrder(q, old(pos2id) + [e.neighbor]) && NoRows(g, q, start, old(pos2id) + [e.neighbor])
    {
      var v := e.neighbor;
      LoopNext(q, pos2id, id2pos, stack, dealt, id, e);
      var edges := ColumnEdges(q, v, pos2id);
      var found := JoinRows(v, edges, start);
      if !found {
        return false;
      }
      MarkDealt(edges, v);
      rows.newStart := |rows.table|;
      id2pos := id2pos[v := |pos2id|];
      pos2id := pos2id + [v];
      stack := stack + [v];
      ok := true;
    }

    /** What every round of the loop keeps. */
    ghost predicate RoundOk(start: seq<Id>)
      reads this, rows
    {
      LoopOk(q, pos2id, id2pos, stack, dealt) && OrderOk(q, score, pos2id, id2pos, stack) &&
      TableExact(g, q, start, pos2id, rows.table) && Once(rows.table) && rows.newStart == |rows.table|
    }

    /** The columns tried have no rows. */
    ghost predicate Failed(start: seq<Id>, tried: seq<nat>) {
      LinkedOrder(q, tried) && DeepFirst(q, score, tried) && NoRows(g, q, start, tried)
    }

    /** The top of the stack has no open edge. */
    method Pop(ghost start: seq<Id>)
      requires RoundOk(start) && stack != []
      requires forall e :: Has(q, stack[|stack| - 1], e) && Wanted(q, e) ==> e.triple in dealt
      modifies this`stack
      ensures RoundOk(start) && |stack| < |old(stack)|
    {
      LoopPop(q, pos2id, id2pos, stack, dealt);
      OrderPop(q, score, pos2id, id2pos, stack);
      stack := stack[..|stack| - 1];
    }

    /** The best edge of the top of the stack leads to the next column. */
    method Deepen(i: nat, ghost start: seq<Id>) returns (ok: bool, ghost tried: seq<nat>)
      requires QueryOk(q) && RoundOk(start) && stack != []
      requires stack[|stack| - 1] in q.edges && BestUndealt(q, score, dealt, q.edges[stack[|stack| - 1]], i)
      modifies this, rows
      ensures ok ==> RoundOk(start) && Triples(q) - dealt < old(Triples(q) - dealt)
      ensures ok ==> old(pos2id) <= pos2id
      ensures !ok ==> Failed(start, tried) && old(pos2id) <= tried
    {
      var id := stack[|stack| - 1];
      var e := q.edges[id][i];
      assert id in stack && id in pos2id && Has(q, id, e);
      NextIsNew(q, pos2id, dealt, id, e);
      OrderNext(q, score, pos2id, id2pos, stack, dealt, i);
      tried := pos2id + [e.neighbor];
      ok := JoinNextNode(id, e, start);
    }

    /** multi_join from a start node with its candidates. Success leaves the connected part of the
        start node as columns, deep first and best first, all triples between columns dealt, and exactly
        the rows that satisfy them, each once; failure means that no row satisfies the columns tried. */
    method Run(startId: nat) returns (ok: bool, ghost tried: seq<nat>)
      requires QueryOk(q) && startId in q.edges && forall d, v :: score(d, v) > 0.0
      requires pos2id == [] && id2pos == map[] && stack == [] && dealt == {} && rows.table == []
      modifies this, rows
      ensures ok ==> LoopOk(q, pos2id, id2pos, [], dealt) && pos2id[0] == startId
      ensures ok ==> TableExact(g, q, q.can[startId], pos2id, rows.table) && Once(rows.table)
      ensures ok ==> DeepFirst(q, score, pos2id) && ClosedFrom(q, pos2id, 0)
      ensures !ok ==> LinkedOrder(q, tried) && tried[0] == startId && NoRows(g, q, q.can[startId], tried)
      ensures !ok ==> DeepFirst(q, score, tried)
    {
      ghost var start := q.can[startId];
      tried := [];
      Start(startId);
      while stack != []
        invariant RoundOk(start) && [startId] <= pos2id
        decreases Triples(q) - dealt, |stack|
      {
        TopListed(q, pos2id, id2pos, stack, dealt);
        var maxi := ChooseNextNode(stack[|stack| - 1]);
        if maxi.None? {
          Pop(start);
        } else {
          ok, tried := Deepen(maxi.value, start);
          if !ok {
            return;
          }
        }
      }
      ok := true;
      AllClosed(q, pos2id, id2pos, dealt);
    }

    /** The start node with its candidates. */
    method Start(startId: nat)
      requires QueryOk(q) && startId in q.edges && dealt == {} && rows.table == []
      modifies this, rows
      ensures RoundOk(q.can[startId]) && pos2id == [startId]
    {
      FillStart(q.can[startId]);
      pos2id, id2pos, stack := [startId], map[startId := 0], [startId];
      StartOk(g, q, startId, q.can[startId], rows.table);
      StartOnce(q.can[startId], rows.table);
    }

    /** One row per start candidate. */
    method FillStart(ids: seq<Id>)
      requires rows.table == []
      modifies rows
      ensures |rows.table| == |ids| == rows.newStart && forall i :: 0 <= i < |ids| ==> rows.table[i] == [ids[i]]
    {
      var i := 0;
      while i < |ids|
        invariant 0 <= i <= |ids| && |rows.table| == i && forall j :: 0 <= j < i ==> rows.table[j] == [ids[j]]
      {
        rows.table := rows.table + [[ids[i]]];
        i := i + 1;
      }
      rows.newStart := |rows.table|;
    }
  }

  lemma LastLinked(q: JoinQuery, cols: seq<nat>, v: nat)
    requires v in q.edges && cols != [] && LinkedOrder(q, cols + [v])
    ensures exists i :: 0 <= i < |cols| && ColumnEdges(q, v, cols)[i] != []
  {
    assert LinkedTo(q, cols + [v], |cols|);
    var j :| 0 <= j < |cols| && EdgesAmong(q.edges[(cols + [v])[|cols|]], (cols + [v])[j]) != [];
    assert ColumnEdges(q, v, cols)[j] != [];
  }

  lemma TableWidth(g: Graph, q: JoinQuery, start: seq<Id>, cols: seq<nat>, table: seq<Row>)
    requires TableExact(g, q, start, cols, table)
    ensures forall i :: 0 <= i < |table| ==> |table[i]| == |cols|
  {
    forall i | 0 <= i < |table|
      ensures |table[i]| == |cols|
    {
      assert RowIn(g, q, start, cols, table[i]);
    }
  }

  /** An empty result of the join, or an empty candidate list: no row over the new columns. */
  lemma Nothing(g: Graph, q: JoinQuery, start: seq<Id>, cols: seq<nat>, v: nat, table: seq<Row>)
    requires QueryOk(q) && LinkedOrder(q, cols) && LinkedOrder(q, cols + [v])
    requires (v in q.ready && v in q.can && q.can[v] == []) ||
             (table == [] && TableExact(g, q, start, cols + [v], table))
    ensures NoRows(g, q, start, cols + [v])
  {
    if v in q.ready && v in q.can && q.can[v] == [] {
      forall r
        ensures !RowIn(g, q, start, cols + [v], r)
      {
        NoCandidates(g, q, start, cols, v, r);
      }
    } else {
      forall r
        ensures !RowIn(g, q, start, cols + [v], r)
      {
        assert r !in table;
      }
    }
  }

  ghost predicate NoRows(g: Graph, q: JoinQuery, start: seq<Id>, cols: seq<nat>) {
    forall r :: !RowIn(g, q, start, cols, r)
  }

  function TriplesOf(es: seq<VarEdge>): set<nat> {
    set e | e in es :: e.triple
  }

  lemma MarkedColumn(q: JoinQuery, v: nat, cols: seq<nat>, i: nat, t: nat)
    requires v in q.edges && i < |cols|
    ensures t in NewTriples(q, v, cols[..i + 1]) <==>
            t in NewTriples(q, v, cols[..i]) || t in TriplesOf(EdgesAmong(q.edges[v], cols[i]))
  {
    assert cols[..i + 1] == cols[..i] + [cols[i]];
    if t in NewTriples(q, v, cols[..i + 1]) {
      var e :| e in q.edges[v] && e.inJoin && e.neighbor in cols[..i + 1] && e.triple == t;
      EdgesAmongMember(q.edges[v], cols[i], e);
    }
    if t in TriplesOf(EdgesAmong(q.edges[v], cols[i])) {
      var e :| e in EdgesAmong(q.edges[v], cols[i]) && e.triple == t;
      EdgesAmongMember(q.edges[v], cols[i], e);
    }
  }
}

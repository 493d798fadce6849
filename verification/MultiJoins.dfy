/** The older multi-way join: which ids join to one row, as a value. */
module MultiJoins {
  import opened Collections
  import opened Rdf
  import opened Tables

  /** Seen from the node being joined: an edge to it, or an edge from it. */
  datatype Direction = In | Out

  datatype Predicate = Known(p: Id) | PreVar | Invalid

  /** One edge of a variable. `inJoin` is false for constants and variables outside the join. */
  datatype VarEdge = VarEdge(inJoin: bool, neighbor: nat, triple: nat, dir: Direction, pred: Predicate)

  // ---------------------------------------------------------------- the lists of one column

  function KnownIds(g: Graph, e: VarEdge, ele: Id): seq<Id> {
    if !e.pred.Known? then []
    else if e.dir.In? then List2(g, S, ele, P, e.pred.p, O)
    else List2(g, O, ele, P, e.pred.p, S)
  }

  function KnownLists(g: Graph, es: seq<VarEdge>, ele: Id): seq<seq<Id>> {
    if es == [] then []
    else
      var last := es[|es| - 1];
      KnownLists(g, es[..|es| - 1], ele) + if last.pred.PreVar? then [] else [KnownIds(g, last, ele)]
  }

  predicate HasKnown(es: seq<VarEdge>) {
    exists e :: e in es && !e.pred.PreVar?
  }

  predicate HasVar(es: seq<VarEdge>, dir: Direction) {
    exists e :: e in es && e.pred.PreVar? && e.dir == dir
  }

  function VarLists(g: Graph, es: seq<VarEdge>, ele: Id): seq<seq<Id>> {
    (if HasVar(es, In) then [List1(g, S, ele, O, true)] else []) +
    (if HasVar(es, Out) then [List1(g, O, ele, S, true)] else [])
  }

  /** The lists the edges to one column give. Edges with a known predicate make the lists of the
      edges with a predicate variable superfluous. */
  function ColumnLists(g: Graph, es: seq<VarEdge>, ele: Id): seq<seq<Id>> {
    if HasKnown(es) then KnownLists(g, es, ele) else VarLists(g, es, ele)
  }

  function RowLists(g: Graph, edges: seq<seq<VarEdge>>, row: Row): seq<seq<Id>>
    requires |edges| == |row|
  {
    if row == [] then []
    else RowLists(g, edges[..|row| - 1], row[..|row| - 1]) + ColumnLists(g, edges[|row| - 1], row[|row| - 1])
  }

  // ---------------------------------------------------------------- intersecting them

  /** update_answer_list: the candidate list takes part once, with the first list. */
  function Update(valid: Option<seq<Id>>, can: seq<Id>, ready: bool, list: seq<Id>): Option<seq<Id>> {
    match valid
    case None => if ready then Some(Intersect(can, list)) else Some(list)
    case Some(ids) => Some(Intersect(ids, list))
  }

  function Fold(valid: Option<seq<Id>>, can: seq<Id>, ready: bool, lists: seq<seq<Id>>): Option<seq<Id>>
    decreases |lists|
  {
    if lists == [] then valid else Fold(Update(valid, can, ready, lists[0]), can, ready, lists[1..])
  }

  lemma {:induction false} FoldEmpty(can: seq<Id>, ready: bool, lists: seq<seq<Id>>)
    ensures Fold(Some([]), can, ready, lists) == Some([])
  {
    if lists != [] {
      FoldEmpty(can, ready, lists[1..]);
    }
  }

  /** The ids that join to a row. */
  function Answers(g: Graph, edges: seq<seq<VarEdge>>, can: seq<Id>, ready: bool, row: Row): seq<Id>
    requires |edges| == |row|
  {
    var folded := Fold(None, can, ready, RowLists(g, edges, row));
    if folded.None? then [] else folded.value
  }

  // ---------------------------------------------------------------- what they mean

  ghost predicate EdgeOk(g: Graph, e: VarEdge, ele: Id, c: Id) {
    e.pred.Known? && if e.dir.In? then Triple(ele, e.pred.p, c) in g else Triple(c, e.pred.p, ele) in g
  }

  /** The edges between the new node, bound to c, and a column bound to ele. */
  ghost predicate PairOk(g: Graph, es: seq<VarEdge>, ele: Id, c: Id) {
    if HasKnown(es) then forall e :: e in es && !e.pred.PreVar? ==> EdgeOk(g, e, ele, c)
    else (HasVar(es, In) ==> exists p :: Triple(ele, p, c) in g) &&
          (HasVar(es, Out) ==> exists p :: Triple(c, p, ele) in g)
  }

  lemma KnownIdsExact(g: Graph, e: VarEdge, ele: Id, c: Id)
    requires !e.pred.PreVar?
    ensures c in KnownIds(g, e, ele) <==> EdgeOk(g, e, ele, c)
  {
    if e.pred.Known? {
      if e.dir.In? {
        List2Member(g, S, ele, P, e.pred.p, O, c);
        assert Triple(ele, e.pred.p, c) in g ==> Has2(g, S, ele, P, e.pred.p, O, c);
      } else {
        List2Member(g, O, ele, P, e.pred.p, S, c);
        assert Triple(c, e.pred.p, ele) in g ==> Has2(g, O, ele, P, e.pred.p, S, c);
      }
    }
  }

  ghost predicate InAll(lists: seq<seq<Id>>, c: Id) {
    forall i :: 0 <= i < |lists| ==> c in lists[i]
  }

  lemma InAllConcat(a: seq<seq<Id>>, b: seq<seq<Id>>, c: Id)
    ensures InAll(a + b, c) <==> InAll(a, c) && InAll(b, c)
  {
    if InAll(a + b, c) {
      forall i | 0 <= i < |a| ensures c in a[i] { assert a[i] == (a + b)[i]; }
      forall i | 0 <= i < |b| ensures c in b[i] { assert b[i] == (a + b)[|a| + i]; }
    }
  }

  lemma InAllOne(list: seq<Id>, c: Id)
    ensures InAll([list], c) <==> c in list
  {
    assert [list][0] == list;
  }

  lemma {:induction false} KnownListsExact(g: Graph, es: seq<VarEdge>, ele: Id, c: Id)
    ensures InAll(KnownLists(g, es, ele), c) <==> forall e :: e in es && !e.pred.PreVar? ==> EdgeOk(g, e, ele, c)
  {
    if es != [] {
      var front, last := es[..|es| - 1], es[|es| - 1];
      KnownListsExact(g, front, ele, c);
      assert es == front + [last];
      if !last.pred.PreVar? {
        KnownIdsExact(g, last, ele, c);
        InAllConcat(KnownLists(g, front, ele), [KnownIds(g, last, ele)], c);
        InAllOne(KnownIds(g, last, ele), c);
      } else {
        assert KnownLists(g, front, ele) + [] == KnownLists(g, front, ele);
      }
    }
  }

  lemma NeighborIn(g: Graph, ele: Id, c: Id)
    ensures c in List1(g, S, ele, O, true) <==> exists p :: Triple(ele, p, c) in g
    ensures c in List1(g, O, ele, S, true) <==> exists p :: Triple(c, p, ele) in g
  {
    List1Member(g, S, ele, O, true, c);
    List1Member(g, O, ele, S, true, c);
    if Has1(g, S, ele, O, c) {
      var t :| t in g && Get(t, S) == ele && Get(t, O) == c;
      assert t == Triple(ele, t.p, c);
    }
    if Has1(g, O, ele, S, c) {
      var t :| t in g && Get(t, O) == ele && Get(t, S) == c;
      assert t == Triple(c, t.p, ele);
    }
  }

  lemma ColumnListsExact(g: Graph, es: seq<VarEdge>, ele: Id, c: Id)
    ensures InAll(ColumnLists(g, es, ele), c) <==> PairOk(g, es, ele, c)
  {
    if HasKnown(es) {
      KnownListsExact(g, es, ele, c);
    } else {
      var ins := if HasVar(es, In) then [List1(g, S, ele, O, true)] else [];
      var outs := if HasVar(es, Out) then [List1(g, O, ele, S, true)] else [];
      NeighborIn(g, ele, c);
      InAllOne(List1(g, S, ele, O, true), c);
      InAllOne(List1(g, O, ele, S, true), c);
      InAllConcat(ins, outs, c);
    }
  }

  /** All edges between the new node, bound to c, and the columns of a row. */
  ghost predicate RowOk(g: Graph, edges: seq<seq<VarEdge>>, row: Row, c: Id)
    requires |edges| == |row|
  {
    forall i :: 0 <= i < |row| ==> PairOk(g, edges[i], row[i], c)
  }

  lemma RowOkNext(g: Graph, edges: seq<seq<VarEdge>>, row: Row, c: Id)
    requires |edges| == |row| > 0
    ensures var n := |row| - 1;
            RowOk(g, edges, row, c) <==> RowOk(g, edges[..n], row[..n], c) && PairOk(g, edges[n], row[n], c)
  {
    var n := |row| - 1;
    if RowOk(g, edges[..n], row[..n], c) && PairOk(g, edges[n], row[n], c) {
      forall i | 0 <= i < |row|
        ensures PairOk(g, edges[i], row[i], c)
      {
        assert i < n ==> edges[i] == edges[..n][i] && row[i] == row[..n][i];
      }
    }
    if RowOk(g, edges, row, c) {
      forall i | 0 <= i < n
        ensures PairOk(g, edges[..n][i], row[..n][i], c)
      {
        assert PairOk(g, edges[i], row[i], c);
      }
    }
  }

  lemma {:induction false} RowListsExact(g: Graph, edges: seq<seq<VarEdge>>, row: Row, c: Id)
    requires |edges| == |row|
    ensures InAll(RowLists(g, edges, row), c) <==> RowOk(g, edges, row, c)
  {
    if row != [] {
      var n := |row| - 1;
      RowListsExact(g, edges[..n], row[..n], c);
      ColumnListsExact(g, edges[n], row[n], c);
      InAllConcat(RowLists(g, edges[..n], row[..n]), ColumnLists(g, edges[n], row[n]), c);
      RowOkNext(g, edges, row, c);
    }
  }

  // ---------------------------------------------------------------- order and membership of the answers

  ghost predicate AllIncreasing(lists: seq<seq<Id>>) {
    forall i :: 0 <= i < |lists| ==> Increasing(lists[i])
  }

  lemma IncreasingOrdered(s: seq<nat>)
    requires Increasing(s)
    ensures Ordered(s)
  {
  }

  lemma List1Increasing(g: Graph, k: Slot, a: Id, target: Slot)
    requires k != target
    ensures Increasing(List1(g, k, a, target, true))
  {
    SortedSeqIncreasing(List1Set(g, k, a, target));
  }

  lemma KnownIdsIncreasing(g: Graph, e: VarEdge, ele: Id)
    ensures Increasing(KnownIds(g, e, ele))
  {
    if e.pred.Known? {
      SortedSeqIncreasing(List2Set(g, S, ele, P, e.pred.p, O));
      SortedSeqIncreasing(List2Set(g, O, ele, P, e.pred.p, S));
    }
  }

  lemma {:induction false} KnownListsIncreasing(g: Graph, es: seq<VarEdge>, ele: Id)
    ensures AllIncreasing(KnownLists(g, es, ele))
  {
    if es != [] {
      KnownListsIncreasing(g, es[..|es| - 1], ele);
      KnownIdsIncreasing(g, es[|es| - 1], ele);
    }
  }

  lemma AllIncreasingConcat(a: seq<seq<Id>>, b: seq<seq<Id>>)
    requires AllIncreasing(a) && AllIncreasing(b)
    ensures AllIncreasing(a + b)
  {
  }

  lemma ColumnListsIncreasing(g: Graph, es: seq<VarEdge>, ele: Id)
    ensures AllIncreasing(ColumnLists(g, es, ele))
  {
    KnownListsIncreasing(g, es, ele);
    List1Increasing(g, S, ele, O);
    List1Increasing(g, O, ele, S);
  }

  lemma {:induction false} RowListsIncreasing(g: Graph, edges: seq<seq<VarEdge>>, row: Row)
    requires |edges| == |row|
    ensures AllIncreasing(RowLists(g, edges, row))
  {
    if row != [] {
      var n := |row| - 1;
      RowListsIncreasing(g, edges[..n], row[..n]);
      ColumnListsIncreasing(g, edges[n], row[n]);
      AllIncreasingConcat(RowLists(g, edges[..n], row[..n]), ColumnLists(g, edges[n], row[n]));
    }
  }

  lemma UpdateExact(valid: Option<seq<Id>>, can: seq<Id>, ready: bool, list: seq<Id>, c: Id)
    requires Increasing(list) && (ready ==> Increasing(can)) && (valid.Some? ==> Increasing(valid.value))
    ensures var next := Update(valid, can, ready, list).value;
            Increasing(next) &&
            (c in next <==> c in list && if valid.Some? then c in valid.value else ready ==> c in can)
  {
    IncreasingOrdered(list);
    if valid.Some? {
      IncreasingOrdered(valid.value);
      IntersectIncreasing(valid.value, list);
      IntersectMember(valid.value, list, c);
    } else if ready {
      IncreasingOrdered(can);
      IntersectIncreasing(can, list);
      IntersectMember(can, list, c);
    }
  }

  lemma {:induction false} FoldExact(valid: Option<seq<Id>>, can: seq<Id>, ready: bool, lists: seq<seq<Id>>, c: Id)
    requires AllIncreasing(lists) && (ready ==> Increasing(can)) && (valid.Some? ==> Increasing(valid.value))
    ensures var folded := Fold(valid, can, ready, lists);
            (folded.None? <==> lists == [] && valid.None?) &&
            (folded.Some? ==> Increasing(folded.value)) &&
            (folded.Some? ==>
               (c in folded.value <==> InAll(lists, c) && if valid.Some? then c in valid.value else ready ==> c in can))
    decreases |lists|
  {
    if lists != [] {
      UpdateExact(valid, can, ready, lists[0], c);
      FoldExact(Update(valid, can, ready, lists[0]), can, ready, lists[1..], c);
      assert lists == [lists[0]] + lists[1..];
      InAllConcat([lists[0]], lists[1..], c);
      InAllOne(lists[0], c);
    }
  }

  lemma {:induction false} RowListsSome(g: Graph, edges: seq<seq<VarEdge>>, row: Row, i: nat)
    requires |edges| == |row| && i < |row| && edges[i] != []
    ensures RowLists(g, edges, row) != []
  {
    var n := |row| - 1;
    if i < n {
      RowListsSome(g, edges[..n], row[..n], i);
    } else {
      ColumnListsSome(g, edges[n], row[n]);
    }
  }

  lemma ColumnListsSome(g: Graph, es: seq<VarEdge>, ele: Id)
    requires es != []
    ensures ColumnLists(g, es, ele) != []
  {
    if HasKnown(es) {
      KnownListsSome(g, es, ele);
    } else {
      assert es[0] in es && HasVar(es, es[0].dir);
    }
  }

  lemma {:induction false} KnownListsSome(g: Graph, es: seq<VarEdge>, ele: Id)
    requires HasKnown(es)
    ensures KnownLists(g, es, ele) != []
  {
    var front, last := es[..|es| - 1], es[|es| - 1];
    assert es == front + [last];
    if last.pred.PreVar? {
      KnownListsSome(g, front, ele);
    }
  }

  /** The ids that join to a row, each once: those every edge to a column accepts, and the
      candidate list where it is ready. */
  lemma AnswersExact(g: Graph, edges: seq<seq<VarEdge>>, can: seq<Id>, ready: bool, row: Row, c: Id)
    requires |edges| == |row| && (ready ==> Increasing(can)) && exists i :: 0 <= i < |row| && edges[i] != []
    ensures Increasing(Answers(g, edges, can, ready, row))
    ensures c in Answers(g, edges, can, ready, row) <==>
            (ready ==> c in can) && RowOk(g, edges, row, c)
  {
    var i :| 0 <= i < |row| && edges[i] != [];
    RowListsSome(g, edges, row, i);
    RowListsIncreasing(g, edges, row);
    FoldExact(None, can, ready, RowLists(g, edges, row), c);
    RowListsExact(g, edges, row, c);
  }
}

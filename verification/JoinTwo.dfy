/** The older multi-way join's loops over the edges of one row: the ids that join to it. */
module JoinTwo {
  import opened Collections
  import opened Rdf
  import opened Tables
  import opened MultiJoins

  lemma {:induction false} FoldConcat(valid: Option<seq<Id>>, can: seq<Id>, ready: bool, a: seq<seq<Id>>,
                                      b: seq<seq<Id>>)
    ensures Fold(valid, can, ready, a + b) == Fold(Fold(valid, can, ready, a), can, ready, b)
    decreases |a|
  {
    if a == [] {
      assert a + b == b;
    } else {
      assert (a + b)[1..] == a[1..] + b;
      FoldConcat(Update(valid, can, ready, a[0]), can, ready, a[1..], b);
    }
  }

  lemma {:induction false} KnownListsPrefix(g: Graph, es: seq<VarEdge>, ele: Id, j: nat)
    requires j <= |es|
    ensures KnownLists(g, es[..j], ele) <= KnownLists(g, es, ele)
  {
    if j == |es| {
      assert es[..j] == es;
    } else {
      assert es[..|es| - 1][..j] == es[..j];
      KnownListsPrefix(g, es[..|es| - 1], ele, j);
    }
  }

  /** When nothing is left after some of the lists, nothing is left after all of them. */
  lemma NothingLeft(valid: Option<seq<Id>>, can: seq<Id>, ready: bool, a: seq<seq<Id>>, all: seq<seq<Id>>)
    requires a <= all && Fold(valid, can, ready, a) == Some([])
    ensures Fold(valid, can, ready, all) == Some([])
  {
    assert all == a + all[|a|..];
    FoldConcat(valid, can, ready, a, all[|a|..]);
    FoldEmpty(can, ready, all[|a|..]);
  }

  lemma OneMore(valid: Option<seq<Id>>, can: seq<Id>, ready: bool, lists: seq<seq<Id>>, list: seq<Id>)
    ensures Fold(valid, can, ready, lists + [list]) == Update(Fold(valid, can, ready, lists), can, ready, list)
    ensures list == [] ==> Fold(valid, can, ready, lists + [list]) == Some([])
  {
    FoldConcat(valid, can, ready, lists, [list]);
    assert [list][1..] == [];
  }

  lemma KnownNext(g: Graph, es: seq<VarEdge>, ele: Id, j: nat)
    requires j < |es|
    ensures es[j].pred.PreVar? ==> KnownLists(g, es[..j + 1], ele) == KnownLists(g, es[..j], ele)
    ensures !es[j].pred.PreVar? ==>
              KnownLists(g, es[..j + 1], ele) == KnownLists(g, es[..j], ele) + [KnownIds(g, es[j], ele)]
    ensures HasKnown(es[..j + 1]) <==> HasKnown(es[..j]) || !es[j].pred.PreVar?
    ensures forall d :: HasVar(es[..j + 1], d) <==> HasVar(es[..j], d) || (es[j].pred.PreVar? && es[j].dir == d)
  {
    assert es[..j + 1][..j] == es[..j];
    assert es[..j + 1] == es[..j] + [es[j]];
    assert KnownLists(g, es[..j], ele) + [] == KnownLists(g, es[..j], ele);
  }

  /** The loop over the parallel edges to one column: lists of known predicates are intersected as
      they come; of the others only the directions are noted. */
  method KnownEdges(g: Graph, es: seq<VarEdge>, ele: Id, can: seq<Id>, ready: bool, start: Option<seq<Id>>)
    returns (valid: Option<seq<Id>>, matched: bool, known: bool, s2o: bool, o2s: bool)
    ensures matched ==> valid == Fold(start, can, ready, KnownLists(g, es, ele))
    ensures matched ==> known == HasKnown(es) && s2o == HasVar(es, In) && o2s == HasVar(es, Out)
    ensures !matched ==> HasKnown(es) && Fold(start, can, ready, KnownLists(g, es, ele)) == Some([])
    ensures matched && start != Some([]) ==> valid != Some([])
  {
    valid, matched, known, s2o, o2s := start, true, false, false, false;
    var j := 0;
    while j < |es|
      invariant 0 <= j <= |es|
      invariant valid == Fold(start, can, ready, KnownLists(g, es[..j], ele))
      invariant known == HasKnown(es[..j]) && s2o == HasVar(es[..j], In) && o2s == HasVar(es[..j], Out)
      invariant start != Some([]) ==> valid != Some([])
    {
      KnownNext(g, es, ele, j);
      KnownListsPrefix(g, es, ele, j + 1);
      if es[j].pred.PreVar? {
        if es[j].dir.In? {
          s2o := true;
        } else {
          o2s := true;
        }
        j := j + 1;
        continue;
      }
      known := true;
      var list := KnownIds(g, es[j], ele);
      OneMore(start, can, ready, KnownLists(g, es[..j], ele), list);
      if list != [] {
        valid := Update(valid, can, ready, list);
      }
      if list == [] || valid.value == [] {
        NothingLeft(start, can, ready, KnownLists(g, es[..j + 1], ele), KnownLists(g, es, ele));
        assert es[j] in es;
        matched := false;
        return;
      }
      j := j + 1;
    }
    assert es[..|es|] == es;
  }

  /** All edges to one column. */
  method ColumnEdges(g: Graph, es: seq<VarEdge>, ele: Id, can: seq<Id>, ready: bool, start: Option<seq<Id>>)
    returns (valid: Option<seq<Id>>, matched: bool)
    requires start != Some([])
    ensures matched ==> valid == Fold(start, can, ready, ColumnLists(g, es, ele)) && valid != Some([])
    ensures !matched ==> Fold(start, can, ready, ColumnLists(g, es, ele)) == Some([])
  {
    var known, s2o, o2s;
    valid, matched, known, s2o, o2s := KnownEdges(g, es, ele, can, ready, start);
    if !matched || known {
      return;
    }
    NoKnown(g, es, ele);
    ghost var ins := if s2o then [List1(g, S, ele, O, true)] else [];
    ghost var outs := if o2s then [List1(g, O, ele, S, true)] else [];
    assert [] + ins == ins && ins + [] == ins && ins <= ins + outs;
    if s2o {
      OneMore(start, can, ready, [], List1(g, S, ele, O, true));
      valid := Update(valid, can, ready, List1(g, S, ele, O, true));
      if valid.value == [] {
        NothingLeft(start, can, ready, ins, ins + outs);
        return valid, false;
      }
    }
    if o2s {
      OneMore(start, can, ready, ins, List1(g, O, ele, S, true));
      valid := Update(valid, can, ready, List1(g, O, ele, S, true));
      if valid.value == [] {
        return valid, false;
      }
    }
  }

  lemma {:induction false} NoKnown(g: Graph, es: seq<VarEdge>, ele: Id)
    requires !HasKnown(es)
    ensures KnownLists(g, es, ele) == []
  {
    if es != [] {
      assert es == es[..|es| - 1] + [es[|es| - 1]];
      assert es[|es| - 1] in es;
      assert !HasKnown(es[..|es| - 1]) by {
        assert forall e :: e in es[..|es| - 1] ==> e in es;
      }
      NoKnown(g, es[..|es| - 1], ele);
    }
  }

  lemma {:induction false} RowListsPrefix(g: Graph, edges: seq<seq<VarEdge>>, row: Row, i: nat)
    requires |edges| == |row| && i <= |row|
    ensures RowLists(g, edges[..i], row[..i]) <= RowLists(g, edges, row)
  {
    if i == |row| {
      assert edges[..i] == edges && row[..i] == row;
    } else {
      var n := |row| - 1;
      assert edges[..n][..i] == edges[..i] && row[..n][..i] == row[..i];
      RowListsPrefix(g, edges[..n], row[..n], i);
    }
  }

  lemma {:induction false} FoldSome(valid: Option<seq<Id>>, can: seq<Id>, ready: bool, lists: seq<seq<Id>>)
    requires lists != [] || valid.Some?
    ensures Fold(valid, can, ready, lists).Some?
    decreases |lists|
  {
    if lists != [] {
      FoldSome(Update(valid, can, ready, lists[0]), can, ready, lists[1..]);
    }
  }

  /** One more column; if it leaves nothing, so does the whole row. */
  lemma ColumnNext(g: Graph, edges: seq<seq<VarEdge>>, can: seq<Id>, ready: bool, row: Row, i: nat)
    requires |edges| == |row| && i < |row|
    ensures var next := Fold(Fold(None, can, ready, RowLists(g, edges[..i], row[..i])), can, ready,
                             ColumnLists(g, edges[i], row[i]));
            Fold(None, can, ready, RowLists(g, edges[..i + 1], row[..i + 1])) == next &&
            (next == Some([]) ==> Answers(g, edges, can, ready, row) == [])
  {
    assert edges[..i + 1][..i] == edges[..i] && row[..i + 1][..i] == row[..i];
    FoldConcat(None, can, ready, RowLists(g, edges[..i], row[..i]), ColumnLists(g, edges[i], row[i]));
    if Fold(None, can, ready, RowLists(g, edges[..i + 1], row[..i + 1])) == Some([]) {
      RowListsPrefix(g, edges, row, i + 1);
      NothingLeft(None, can, ready, RowLists(g, edges[..i + 1], row[..i + 1]), RowLists(g, edges, row));
    }
  }

  /** The ids that join to one row: the loop over its columns. */
  method RowAnswers(g: Graph, edges: seq<seq<VarEdge>>, can: seq<Id>, ready: bool, row: Row) returns (ids: seq<Id>)
    requires |edges| == |row| && exists i :: 0 <= i < |row| && edges[i] != []
    ensures ids == Answers(g, edges, can, ready, row)
  {
    var valid := None;
    var i := 0;
    while i < |row|
      invariant 0 <= i <= |row| && valid != Some([])
      invariant valid == Fold(None, can, ready, RowLists(g, edges[..i], row[..i]))
    {
      ColumnNext(g, edges, can, ready, row, i);
      var next, ok := ColumnEdges(g, edges[i], row[i], can, ready, valid);
      if !ok {
        return [];
      }
      valid := next;
      i := i + 1;
    }
    assert edges[..i] == edges && row[..i] == row;
    var k :| 0 <= k < |row| && edges[k] != [];
    RowListsSome(g, edges, row, k);
    FoldSome(None, can, ready, RowLists(g, edges, row));
    ids := valid.value;
  }
}

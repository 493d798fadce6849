/** One node joined to the table in place. The rows an old row gains beyond its first go behind a
    sentinel, so that the walk over the old rows never meets them. */
module JoinInPlace {
  import opened Collections
  import opened Rdf
  import opened Tables
  import opened MultiJoins
  import opened JoinTwo

  function Extended(row: Row, ids: seq<Id>): (r: seq<Row>)
    ensures |r| == |ids|
  {
    seq(|ids|, i requires 0 <= i < |ids| => row + [ids[i]])
  }

  function AllOf(f: Row -> seq<Id>): Row -> seq<Row> {
    row => Extended(row, f(row))
  }

  function FirstOf(f: Row -> seq<Id>): Row -> seq<Row> {
    row => if f(row) == [] then [] else [row + [f(row)[0]]]
  }

  function RestOf(f: Row -> seq<Id>): Row -> seq<Row> {
    row => if f(row) == [] then [] else Extended(row, f(row)[1..])
  }

  /** What the walk makes of a table: first every matched row with its first id, then the others. */
  function Joined(f: Row -> seq<Id>, rows: seq<Row>): seq<Row> {
    FlatMap(FirstOf(f), rows) + FlatMap(RestOf(f), rows)
  }

  lemma RowParts(f: Row -> seq<Id>, row: Row)
    ensures FirstOf(f)(row) + RestOf(f)(row) == AllOf(f)(row)
  {
    var ids := f(row);
    if ids != [] {
      forall i | 0 <= i < |ids|
        ensures ([row + [ids[0]]] + Extended(row, ids[1..]))[i] == Extended(row, ids)[i]
      {
        assert i > 0 ==> ids[i] == ids[1..][i - 1];
      }
    }
  }

  /** The table becomes exactly the bag of each old row followed by each of its ids. */
  lemma {:induction false} JoinedBag(f: Row -> seq<Id>, rows: seq<Row>)
    ensures multiset(Joined(f, rows)) == multiset(FlatMap(AllOf(f), rows))
  {
    if rows != [] {
      JoinedBag(f, rows[1..]);
      RowParts(f, rows[0]);
      var a, b := FirstOf(f)(rows[0]), RestOf(f)(rows[0]);
      var as', bs := FlatMap(FirstOf(f), rows[1..]), FlatMap(RestOf(f), rows[1..]);
      assert multiset(Joined(f, rows)) == multiset(a) + multiset(as') + multiset(b) + multiset(bs);
      assert multiset(a + b) == multiset(a) + multiset(b);
    }
  }

  lemma ExtendedMember(row: Row, ids: seq<Id>, r: Row)
    ensures r in Extended(row, ids) <==> |r| == |row| + 1 && r[..|row|] == row && r[|row|] in ids
  {
    if |r| == |row| + 1 && r[..|row|] == row && r[|row|] in ids {
      assert Extended(row, ids)[Pos(ids, r[|row|])] == r;
    }
  }

  /** As a set: a row and an id that joins to it. */
  lemma JoinedMember(f: Row -> seq<Id>, rows: seq<Row>, r: Row)
    ensures r in Joined(f, rows) <==> r != [] && r[..|r| - 1] in rows && r[|r| - 1] in f(r[..|r| - 1])
  {
    JoinedBag(f, rows);
    assert r in Joined(f, rows) <==> r in multiset(Joined(f, rows));
    assert r in FlatMap(AllOf(f), rows) <==> r in multiset(FlatMap(AllOf(f), rows));
    FlatMapMember(AllOf(f), rows, r);
    if r in FlatMap(AllOf(f), rows) {
      var row :| row in rows && r in AllOf(f)(row);
      ExtendedMember(row, f(row), r);
    }
    if r != [] && r[..|r| - 1] in rows && r[|r| - 1] in f(r[..|r| - 1]) {
      ExtendedMember(r[..|r| - 1], f(r[..|r| - 1]), r);
      assert r in AllOf(f)(r[..|r| - 1]);
    }
  }

  lemma ExtendedOnce(row: Row, ids: seq<Id>)
    requires NoDup(ids)
    ensures NoDup(Extended(row, ids))
  {
    forall i, j | 0 <= i < j < |ids|
      ensures Extended(row, ids)[i] != Extended(row, ids)[j]
    {
      assert Extended(row, ids)[i][|row|] == ids[i] && Extended(row, ids)[j][|row|] == ids[j];
    }
  }

  lemma {:induction false} AllOnce(f: Row -> seq<Id>, rows: seq<Row>)
    requires NoDup(rows) && forall row :: row in rows ==> NoDup(f(row))
    ensures NoDup(FlatMap(AllOf(f), rows))
  {
    if rows != [] {
      var row, here, rest := rows[0], AllOf(f)(rows[0]), FlatMap(AllOf(f), rows[1..]);
      AllOnce(f, rows[1..]);
      ExtendedOnce(row, f(row));
      forall r | r in here
        ensures r !in rest
      {
        ExtendedMember(row, f(row), r);
        FlatMapMember(AllOf(f), rows[1..], r);
        if r in rest {
          var other :| other in rows[1..] && r in AllOf(f)(other);
          ExtendedMember(other, f(other), r);
          assert false;
        }
      }
      NoDupSplit(here, rest);
    }
  }

  /** Rows that come once and have each id once give rows that come once. */
  lemma JoinedOnce(f: Row -> seq<Id>, rows: seq<Row>)
    requires NoDup(rows) && forall row :: row in rows ==> NoDup(f(row))
    ensures NoDup(Joined(f, rows))
  {
    JoinedBag(f, rows);
    AllOnce(f, rows);
    forall r
      ensures multiset(Joined(f, rows))[r] <= 1
    {
      OccursOnce(FlatMap(AllOf(f), rows), r);
    }
    CountedOnce(Joined(f, rows));
  }

  ghost predicate IsAnswers(f: Row -> seq<Id>, g: Graph, edges: seq<seq<VarEdge>>, can: seq<Id>, ready: bool) {
    forall row {:trigger Answers(g, edges, can, ready, row)} :: |row| == |edges| ==>
          f(row) == Answers(g, edges, can, ready, row)
  }

  /** The state of the walk after k old rows. */
  ghost predicate Walked(f: Row -> seq<Id>, rows: seq<Row>, k: nat, table: seq<Row>, at: nat, newStart: nat) {
    k <= |rows| &&
    var firsts, rests := FlatMap(FirstOf(f), rows[..k]), FlatMap(RestOf(f), rows[..k]);
    table == firsts + rows[k..] + rests && at == |firsts| && newStart == |firsts| + |rows| - k
  }

  lemma WalkMatched(f: Row -> seq<Id>, rows: seq<Row>, k: nat, table: seq<Row>, at: nat, newStart: nat)
    requires Walked(f, rows, k, table, at, newStart) && k < |rows| && f(rows[k]) != []
    ensures at < |table| && table[at] == rows[k]
    ensures Walked(f, rows, k + 1, table[at := rows[k] + [f(rows[k])[0]]] + Extended(rows[k], f(rows[k])[1..]), at + 1,
                   newStart)
  {
    FlatMapNext(FirstOf(f), rows, k);
    FlatMapNext(RestOf(f), rows, k);
    var firsts, rests := FlatMap(FirstOf(f), rows[..k]), FlatMap(RestOf(f), rows[..k]);
    var first := rows[k] + [f(rows[k])[0]];
    assert rows[k..] == [rows[k]] + rows[k + 1..];
    AtPosition(firsts, rows[k], rows[k + 1..], rests, first);
    Regroup(firsts, [first], rows[k + 1..], rests, Extended(rows[k], f(rows[k])[1..]));
  }

  lemma AtPosition<T>(a: seq<T>, x: T, b: seq<T>, c: seq<T>, y: T)
    ensures var s := a + ([x] + b) + c;
            |a| < |s| && s[|a|] == x && s[|a| := y] == a + [y] + b + c && s[..|a|] + s[|a| + 1..] == a + b + c
  {
  }

  lemma Regroup<T>(a: seq<T>, x: seq<T>, b: seq<T>, c: seq<T>, d: seq<T>)
    ensures (a + x + b + c) + d == (a + x) + b + (c + d)
  {
  }

  lemma NoneOf(f: Row -> seq<Id>, rows: seq<Row>, k: nat)
    requires k < |rows| && f(rows[k]) == []
    ensures FlatMap(FirstOf(f), rows[..k + 1]) == FlatMap(FirstOf(f), rows[..k])
    ensures FlatMap(RestOf(f), rows[..k + 1]) == FlatMap(RestOf(f), rows[..k])
  {
    FlatMapNext(FirstOf(f), rows, k);
    FlatMapNext(RestOf(f), rows, k);
  }

  lemma WalkErased(f: Row -> seq<Id>, rows: seq<Row>, k: nat, table: seq<Row>, at: nat, newStart: nat)
    requires Walked(f, rows, k, table, at, newStart) && k < |rows| && f(rows[k]) == []
    ensures at < |table| && table[at] == rows[k] && newStart > 0
    ensures Walked(f, rows, k + 1, table[..at] + table[at + 1..], at, newStart - 1)
  {
    NoneOf(f, rows, k);
    assert rows[k..] == [rows[k]] + rows[k + 1..];
    AtPosition(FlatMap(FirstOf(f), rows[..k]), rows[k], rows[k + 1..], FlatMap(RestOf(f), rows[..k]), []);
  }

  lemma WalkHere(f: Row -> seq<Id>, rows: seq<Row>, k: nat, table: seq<Row>, at: nat, newStart: nat)
    requires Walked(f, rows, k, table, at, newStart) && k < |rows|
    ensures at < |table| && table[at] == rows[k]
  {
    AtPosition(FlatMap(FirstOf(f), rows[..k]), rows[k], rows[k + 1..], FlatMap(RestOf(f), rows[..k]), []);
    assert rows[k..] == [rows[k]] + rows[k + 1..];
  }

  lemma WalkStart(f: Row -> seq<Id>, rows: seq<Row>)
    ensures Walked(f, rows, 0, rows, 0, |rows|)
  {
    assert rows[..0] == [] && [] + rows + [] == rows;
  }

  lemma WalkEnd(f: Row -> seq<Id>, rows: seq<Row>, k: nat, table: seq<Row>, at: nat, newStart: nat)
    requires Walked(f, rows, k, table, at, newStart) && at == newStart
    ensures k == |rows| && table == Joined(f, rows) && at == |FlatMap(FirstOf(f), rows)|
  {
    assert rows[..k] == rows && rows[k..] == [];
  }

  /** The table of the join and its sentinel: where the rows that this join appended begin. */
  class JoinTable {
    var table: seq<Row>
    var newStart: nat

    constructor (rows: seq<Row>)
      ensures table == rows && newStart == |rows|
    {
      table, newStart := rows, |rows|;
    }

    /** A copy of a row that already has the new column, with another id in it. */
    method AddNewToResults(at: nat, id: Id)
      requires at < |table| && table[at] != []
      modifies this
      ensures newStart == old(newStart) && table == old(table) + [old(table[at])[|old(table[at])| - 1 := id]]
    {
      var tmp := table[at];
      table := table + [tmp[|tmp| - 1 := id]];
    }

    /** A matched row: its first id in place, the others appended. */
    method Append(at: nat, ids: seq<Id>, ifNewStart: bool) returns (started: bool)
      requires at < |table| && ids != []
      modifies this
      ensures table == old(table)[at := old(table)[at] + [ids[0]]] + Extended(old(table)[at], ids[1..])
      ensures started == (ifNewStart || |ids| > 1)
      ensures newStart == if !ifNewStart && |ids| > 1 then |old(table)| else old(newStart)
    {
      ghost var before, row := table, table[at];
      table := table[at := table[at] + [ids[0]]];
      ghost var base := table;
      started := ifNewStart;
      var begin := 1;
      if !ifNewStart && |ids| > 1 {
        AddNewToResults(at, ids[1]);
        assert (row + [ids[0]])[|row| := ids[1]] == row + [ids[1]];
        started := true;
        newStart := |table| - 1;
        begin := 2;
      }
      assert table == base + Extended(row, ids[1..begin]);
      while begin < |ids|
        invariant 1 <= begin <= |ids|
        invariant table == base + Extended(row, ids[1..begin]) && |base| == |before|
        invariant newStart == if !ifNewStart && |ids| > 1 then |before| else old(newStart)
      {
        AddNewToResults(at, ids[begin]);
        assert (row + [ids[0]])[|row| := ids[begin]] == row + [ids[begin]];
        assert Extended(row, ids[1..begin + 1]) == Extended(row, ids[1..begin]) + [row + [ids[begin]]];
        begin := begin + 1;
      }
      assert ids[1..begin] == ids[1..];
    }

    /** One matched or erased row of the walk. */
    method WalkOn(g: Graph, edges: seq<seq<VarEdge>>, can: seq<Id>, ready: bool, at: nat, ifNewStart: bool,
                  ghost f: Row -> seq<Id>, ghost rows: seq<Row>, ghost k: nat)
      returns (next: nat, started: bool)
      requires Walked(f, rows, k, table, at, newStart) && k < |rows| && |rows[k]| == |edges|
      requires IsAnswers(f, g, edges, can, ready) && exists i :: 0 <= i < |edges| && edges[i] != []
      requires !ifNewStart ==> newStart == |table|
      modifies this
      ensures Walked(f, rows, k + 1, table, next, newStart) && (!started ==> newStart == |table|)
      ensures next == if f(rows[k]) == [] then at else at + 1
    {
      WalkHere(f, rows, k, table, at, newStart);
      var ids := RowAnswers(g, edges, can, ready, table[at]);
      if ids != [] {
        WalkMatched(f, rows, k, table, at, newStart);
        started := Append(at, ids, ifNewStart);
        next := at + 1;
      } else {
        WalkErased(f, rows, k, table, at, newStart);
        table := table[..at] + table[at + 1..];
        newStart := newStart - 1;
        next, started := at, ifNewStart;
      }
    }

    /** join_two: every old row is followed by each id that joins to it, rows without one are gone,
        and no appended row is visited. */
    method JoinNode(g: Graph, edges: seq<seq<VarEdge>>, can: seq<Id>, ready: bool, ghost f: Row -> seq<Id>)
      returns (found: bool)
      requires newStart == |table| && forall i :: 0 <= i < |table| ==> |table[i]| == |edges|
      requires IsAnswers(f, g, edges, can, ready) && exists i :: 0 <= i < |edges| && edges[i] != []
      modifies this
      ensures ready && can == [] ==> !found && table == old(table)
      ensures !(ready && can == []) ==> table == Joined(f, old(table)) && found == (table != [])
    {
      if can == [] && ready {
        return false;
      }
      found := false;
      var started, at := false, 0;
      ghost var rows, k := table, 0;
      WalkStart(f, rows);
      while at != newStart
        invariant Walked(f, rows, k, table, at, newStart) && (!started ==> newStart == |table|)
        invariant found == (at > 0)
        decreases |rows| - k
      {
        var next;
        next, started := WalkOn(g, edges, can, ready, at, started, f, rows, k);
        found := found || next > at;
        at := next;
        k := k + 1;
      }
      WalkEnd(f, rows, k, table, at, newStart);
      NothingJoined(f, rows);
    }
  }

  lemma {:induction false} NothingJoined(f: Row -> seq<Id>, rows: seq<Row>)
    ensures Joined(f, rows) == [] <==> FlatMap(FirstOf(f), rows) == []
  {
    if rows != [] {
      NothingJoined(f, rows[1..]);
    }
  }
}

/** The results of one row with its satellites: every combination of their values, written one
    after another into one shared record. */
module Cartesian {
  import opened Collections
  import opened Rdf
  import opened Tables

  /** A satellite: its selected column and the values it can take. */
  datatype Sat = Sat(vpos: nat, ids: seq<Id>)

  function Put(rec: Row, p: nat, c: Id): (r: Row)
    ensures |r| == |rec|
  {
    if p < |rec| then rec[p := c] else rec
  }

  /** The records for all combinations, in order. */
  function Combos(rec: Row, sats: seq<Sat>): seq<Row>
    decreases |sats|, 0
  {
    if sats == [] then [rec] else CombosFrom(rec, sats, sats[0].ids)
  }

  function CombosFrom(rec: Row, sats: seq<Sat>, ids: seq<Id>): seq<Row>
    requires sats != []
    decreases |sats| - 1, |ids| + 1
  {
    if ids == [] then [] else Combos(Put(rec, sats[0].vpos, ids[0]), sats[1..]) + CombosFrom(rec, sats, ids[1..])
  }

  lemma {:induction false} CombosNext(rec: Row, sats: seq<Sat>, ids: seq<Id>, c: Id)
    requires sats != []
    ensures CombosFrom(rec, sats, ids + [c]) ==
            CombosFrom(rec, sats, ids) + Combos(Put(rec, sats[0].vpos, c), sats[1..])
    decreases |ids|
  {
    if ids == [] {
      assert (ids + [c])[1..] == [];
    } else {
      assert (ids + [c])[1..] == ids[1..] + [c];
      CombosNext(rec, sats, ids[1..], c);
    }
  }

  function Columns(sats: seq<Sat>): set<nat> {
    set s | s in sats :: s.vpos
  }

  /** Records that differ only in the satellites' columns. */
  ghost predicate Alike(a: Row, b: Row, sats: seq<Sat>) {
    |a| == |b| && forall i :: 0 <= i < |a| && i !in Columns(sats) ==> a[i] == b[i]
  }

  lemma ColumnsSplit(sats: seq<Sat>)
    requires sats != []
    ensures Columns(sats) == {sats[0].vpos} + Columns(sats[1..])
  {
    assert sats == [sats[0]] + sats[1..];
  }

  /** What an earlier combination left in the satellites' columns does not matter. */
  lemma {:induction false} CombosLocal(a: Row, b: Row, sats: seq<Sat>)
    requires Alike(a, b, sats)
    ensures Combos(a, sats) == Combos(b, sats)
    decreases |sats|, 0
  {
    if sats == [] {
      assert a == b;
    } else {
      CombosFromLocal(a, b, sats, sats[0].ids);
    }
  }

  lemma {:induction false} CombosFromLocal(a: Row, b: Row, sats: seq<Sat>, ids: seq<Id>)
    requires sats != [] && Alike(a, b, sats)
    ensures CombosFrom(a, sats, ids) == CombosFrom(b, sats, ids)
    decreases |sats| - 1, |ids| + 1
  {
    if ids != [] {
      ColumnsSplit(sats);
      CombosLocal(Put(a, sats[0].vpos, ids[0]), Put(b, sats[0].vpos, ids[0]), sats[1..]);
      CombosFromLocal(a, b, sats, ids[1..]);
    }
  }

  // ---------------------------------------------------------------- combinations, in lexicographic order

  function Lists(sats: seq<Sat>): (r: seq<seq<Id>>)
    ensures |r| == |sats|
  {
    seq(|sats|, i requires 0 <= i < |sats| => sats[i].ids)
  }

  function Consed(x: Id, tails: seq<seq<Id>>): (r: seq<seq<Id>>)
    ensures |r| == |tails|
  {
    seq(|tails|, i requires 0 <= i < |tails| => [x] + tails[i])
  }

  /** One value from each list, the last list moving fastest. */
  function Tuples(lists: seq<seq<Id>>): seq<seq<Id>>
    decreases |lists|, 0
  {
    if lists == [] then [[]] else TuplesFrom(lists[0], lists)
  }

  function TuplesFrom(ids: seq<Id>, lists: seq<seq<Id>>): seq<seq<Id>>
    requires lists != []
    decreases |lists| - 1, |ids| + 1
  {
    if ids == [] then [] else Consed(ids[0], Tuples(lists[1..])) + TuplesFrom(ids[1..], lists)
  }

  ghost predicate FromLists(t: seq<Id>, lists: seq<seq<Id>>) {
    |t| == |lists| && forall i :: 0 <= i < |t| ==> t[i] in lists[i]
  }

  lemma ConsedMember(x: Id, tails: seq<seq<Id>>, t: seq<Id>)
    ensures t in Consed(x, tails) <==> t != [] && t[0] == x && t[1..] in tails
  {
    if t != [] && t[0] == x && t[1..] in tails {
      assert Consed(x, tails)[Pos(tails, t[1..])] == t;
    }
  }

  lemma FromListsCons(t: seq<Id>, lists: seq<seq<Id>>)
    requires t != [] && lists != []
    ensures FromLists(t, lists) <==> t[0] in lists[0] && FromLists(t[1..], lists[1..])
  {
    if t[0] in lists[0] && FromLists(t[1..], lists[1..]) {
      forall i | 0 <= i < |t|
        ensures t[i] in lists[i]
      {
        assert i > 0 ==> t[i] == t[1..][i - 1] && lists[i] == lists[1..][i - 1];
      }
    }
  }

  /** Every combination occurs. */
  lemma {:induction false} TuplesMember(lists: seq<seq<Id>>, t: seq<Id>)
    ensures t in Tuples(lists) <==> FromLists(t, lists)
    decreases |lists|, 0
  {
    if lists == [] {
      assert t in [[]] <==> t == [];
    } else {
      TuplesFromMember(lists[0], lists, t);
      if t != [] {
        FromListsCons(t, lists);
      }
    }
  }

  lemma {:induction false} TuplesFromMember(ids: seq<Id>, lists: seq<seq<Id>>, t: seq<Id>)
    requires lists != []
    ensures t in TuplesFrom(ids, lists) <==> t != [] && t[0] in ids && FromLists(t[1..], lists[1..])
    decreases |lists| - 1, |ids| + 1
  {
    if ids != [] {
      TuplesFromMember(ids[1..], lists, t);
      ConsedMember(ids[0], Tuples(lists[1..]), t);
      if t != [] {
        TuplesMember(lists[1..], t[1..]);
      }
      assert ids == [ids[0]] + ids[1..];
    }
  }

  ghost predicate Before(a: seq<Id>, b: seq<Id>)
    decreases |a|
  {
    a != [] && b != [] && (a[0] < b[0] || (a[0] == b[0] && Before(a[1..], b[1..])))
  }

  ghost predicate InOrder(ts: seq<seq<Id>>) {
    forall i, j :: 0 <= i < j < |ts| ==> Before(ts[i], ts[j])
  }

  /** Each combination comes strictly before the next ones, so none occurs twice. */
  lemma {:induction false} TuplesInOrder(lists: seq<seq<Id>>)
    requires forall i :: 0 <= i < |lists| ==> Increasing(lists[i])
    ensures InOrder(Tuples(lists))
    decreases |lists|, 0
  {
    if lists != [] {
      TuplesFromInOrder(lists[0], lists);
    }
  }

  lemma {:induction false} TuplesFromInOrder(ids: seq<Id>, lists: seq<seq<Id>>)
    requires lists != [] && Increasing(ids) && forall i :: 0 <= i < |lists| ==> Increasing(lists[i])
    ensures InOrder(TuplesFrom(ids, lists))
    decreases |lists| - 1, |ids| + 1
  {
    if ids != [] {
      TuplesInOrder(lists[1..]);
      TuplesFromInOrder(ids[1..], lists);
      var a, b := Consed(ids[0], Tuples(lists[1..])), TuplesFrom(ids[1..], lists);
      ConsedInOrder(ids[0], Tuples(lists[1..]));
      forall i, j | 0 <= i < |a| && 0 <= j < |b|
        ensures Before(a[i], b[j])
      {
        TuplesFromMember(ids[1..], lists, b[j]);
        assert b[j][0] in ids[1..];
      }
      InOrderConcat(a, b);
    }
  }

  lemma ConsedInOrder(x: Id, tails: seq<seq<Id>>)
    requires InOrder(tails)
    ensures InOrder(Consed(x, tails))
  {
    forall i, j | 0 <= i < j < |tails|
      ensures Before(Consed(x, tails)[i], Consed(x, tails)[j])
    {
      assert Before(tails[i], tails[j]);
      assert ([x] + tails[i])[1..] == tails[i] && ([x] + tails[j])[1..] == tails[j];
    }
  }

  lemma InOrderConcat(a: seq<seq<Id>>, b: seq<seq<Id>>)
    requires InOrder(a) && InOrder(b) && forall i, j :: 0 <= i < |a| && 0 <= j < |b| ==> Before(a[i], b[j])
    ensures InOrder(a + b)
  {
    var all := a + b;
    forall i, j | 0 <= i < j < |all|
      ensures Before(all[i], all[j])
    {
      if i >= |a| {
        assert Before(b[i - |a|], b[j - |a|]);
      }
    }
  }

  // ---------------------------------------------------------------- records and combinations

  function Fill(rec: Row, sats: seq<Sat>, t: seq<Id>): (r: Row)
    requires |t| == |sats|
    ensures |r| == |rec|
    decreases |sats|
  {
    if sats == [] then rec else Fill(Put(rec, sats[0].vpos, t[0]), sats[1..], t[1..])
  }

  /** Each satellite's column holds its value of the combination; all others are as they were. */
  lemma {:induction false} FillExact(rec: Row, sats: seq<Sat>, t: seq<Id>)
    requires |t| == |sats| && (forall i :: 0 <= i < |sats| ==> sats[i].vpos < |rec|)
    requires forall i, j :: 0 <= i < j < |sats| ==> sats[i].vpos != sats[j].vpos
    ensures forall i :: 0 <= i < |sats| ==> Fill(rec, sats, t)[sats[i].vpos] == t[i]
    ensures Alike(rec, Fill(rec, sats, t), sats)
    decreases |sats|
  {
    if sats != [] {
      var rest := sats[1..];
      var next := Put(rec, sats[0].vpos, t[0]);
      FillExact(next, rest, t[1..]);
      ColumnsSplit(sats);
      assert sats[0].vpos !in Columns(rest);
      forall i | 0 <= i < |sats|
        ensures Fill(rec, sats, t)[sats[i].vpos] == t[i]
      {
        if i == 0 {
          assert Fill(next, rest, t[1..])[sats[0].vpos] == next[sats[0].vpos];
        } else {
          assert sats[i] == rest[i - 1] && t[i] == t[1..][i - 1];
        }
      }
    }
  }

  /** The k-th record is the k-th combination. */
  lemma {:induction false} CombosAreTuples(rec: Row, sats: seq<Sat>)
    ensures |Combos(rec, sats)| == |Tuples(Lists(sats))|
    ensures forall k :: 0 <= k < |Combos(rec, sats)| ==>
              |Tuples(Lists(sats))[k]| == |sats| && Combos(rec, sats)[k] == Fill(rec, sats, Tuples(Lists(sats))[k])
    decreases |sats|, 0
  {
    if sats != [] {
      CombosFromTuples(rec, sats, sats[0].ids);
    }
  }

  lemma {:induction false} CombosFromTuples(rec: Row, sats: seq<Sat>, ids: seq<Id>)
    requires sats != []
    ensures var cs, ts := CombosFrom(rec, sats, ids), TuplesFrom(ids, Lists(sats));
            |cs| == |ts| && forall k :: 0 <= k < |cs| ==> |ts[k]| == |sats| && cs[k] == Fill(rec, sats, ts[k])
    decreases |sats| - 1, |ids| + 1
  {
    if ids != [] {
      var rest := sats[1..];
      assert Lists(sats)[1..] == Lists(rest);
      var next := Put(rec, sats[0].vpos, ids[0]);
      CombosAreTuples(next, rest);
      CombosFromTuples(rec, sats, ids[1..]);
      var heads, tails := Combos(next, rest), Tuples(Lists(rest));
      forall k | 0 <= k < |heads|
        ensures |Consed(ids[0], tails)[k]| == |sats| && heads[k] == Fill(rec, sats, Consed(ids[0], tails)[k])
      {
        assert ([ids[0]] + tails[k])[1..] == tails[k];
      }
    }
  }

  /** Writing the next value into a record an earlier combination has used. */
  lemma Overwritten(base: Row, dirty: Row, sats: seq<Sat>, c: Id)
    requires sats != [] && Alike(base, dirty, sats) && sats[0].vpos < |base|
    ensures var next := dirty[sats[0].vpos := c];
            Alike(base, next, sats) && Combos(next, sats[1..]) == Combos(Put(base, sats[0].vpos, c), sats[1..])
  {
    ColumnsSplit(sats);
    CombosLocal(Put(base, sats[0].vpos, c), dirty[sats[0].vpos := c], sats[1..]);
  }

  lemma StillAlike(a: Row, b: Row, c: Row, sats: seq<Sat>)
    requires sats != [] && Alike(a, b, sats) && Alike(b, c, sats[1..])
    ensures Alike(a, c, sats)
  {
    ColumnsSplit(sats);
  }

  /** One more id of the first satellite: its records are appended, whatever the record held. */
  lemma OneId(base: Row, dirty: Row, after: Row, rest: seq<Sat>, ids: seq<Id>, i: nat, before: seq<Row>, list: seq<Row>,
              next: seq<Row>)
    requires rest != [] && i < |ids| && Alike(base, dirty, rest) && rest[0].vpos < |base| == |dirty|
    requires list == before + CombosFrom(base, rest, ids[..i])
    requires next == list + Combos(dirty[rest[0].vpos := ids[i]], rest[1..]) &&
             Alike(dirty[rest[0].vpos := ids[i]], after, rest[1..])
    ensures next == before + CombosFrom(base, rest, ids[..i + 1]) && Alike(base, after, rest)
  {
    Overwritten(base, dirty, rest, ids[i]);
    StillAlike(base, dirty[rest[0].vpos := ids[i]], after, rest);
    CombosNext(base, rest, ids[..i], ids[i]);
    assert ids[..i + 1] == ids[..i] + [ids[i]];
    AppendAll(before, CombosFrom(base, rest, ids[..i]), Combos(dirty[rest[0].vpos := ids[i]], rest[1..]));
  }

  lemma AppendAll(a: seq<Row>, b: seq<Row>, c: seq<Row>)
    ensures a + b + c == a + (b + c)
  {
  }

  class CartesianJoin {
    const record: array<Id>
    var resultList: seq<Row>

    constructor (record: array<Id>)
      ensures this.record == record && resultList == []
    {
      this.record, resultList := record, [];
    }

    /** cartesian: one fresh record per combination of the satellites from pos on. */
    method Cartesian(sats: seq<Sat>, pos: nat)
      requires pos <= |sats| && forall i :: 0 <= i < |sats| ==> sats[i].vpos < record.Length
      modifies this, record
      ensures resultList == old(resultList) + Combos(old(record[..]), sats[pos..])
      ensures Alike(old(record[..]), record[..], sats[pos..])
      decreases |sats| - pos
    {
      if pos == |sats| {
        resultList := resultList + [record[..]];
        return;
      }
      ghost var base, before, rest := record[..], resultList, sats[pos..];
      var ids, vpos := sats[pos].ids, sats[pos].vpos;
      assert rest[1..] == sats[pos + 1..] && rest[0] == sats[pos];
      var i := 0;
      while i < |ids|
        invariant 0 <= i <= |ids|
        invariant resultList == before + CombosFrom(base, rest, ids[..i]) && Alike(base, record[..], rest)
      {
        ghost var dirty, list := record[..], resultList;
        record[vpos] := ids[i];
        assert record[..] == dirty[vpos := ids[i]];
        Cartesian(sats, pos + 1);
        OneId(base, dirty, record[..], rest, ids, i, before, list, resultList);
        i := i + 1;
      }
      assert ids[..i] == ids;
    }
  }
}

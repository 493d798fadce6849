/** One of the three redundant indexes: the pairs stored under each key, updated group by group
    from a batch sorted by that key. */
module TripleIndexes {
  import opened Collections
  import opened Rdf
  import opened IdTuples

  type Index = map<Id, set<(Id, Id)>>

  function Values(index: Index, k: Id): set<(Id, Id)> {
    if k in index then index[k] else {}
  }

  /** The index represents exactly these triples. */
  ghost predicate Represents(o: Order, index: Index, all: set<Triple>) {
    forall t {:trigger t in all} :: t in all <==> PairOf(o, t) in Values(index, KeyOf(o, t))
  }

  ghost predicate StrictPairs(data: seq<(Id, Id)>) {
    forall i, j :: 0 <= i < j < |data| ==> PairLess(data[i], data[j])
  }

  /** These triples are one group: the key with each of the pairs. */
  ghost predicate IsGroup(o: Order, k: Id, data: seq<(Id, Id)>, group: set<Triple>) {
    forall t {:trigger t in group} :: t in group <==> KeyOf(o, t) == k && PairOf(o, t) in data
  }

  /** updateInsert: merges a sorted list into the list of a key, and counts what is really new. */
  function UpdateInsert(index: Index, k: Id, data: seq<(Id, Id)>): (Index, nat) {
    (index[k := Values(index, k) + Elements(data)], |Elements(data) - Values(index, k)|)
  }

  /** updateRemove: counts what is really removed; a key without pairs goes. */
  function UpdateRemove(index: Index, k: Id, data: seq<(Id, Id)>): (Index, nat) {
    var left := Values(index, k) - Elements(data);
    (if left == {} then index - {k} else index[k := left], |Elements(data) * Values(index, k)|)
  }

  lemma {:induction false} MakeSize(o: Order, k: Id, pairs: set<(Id, Id)>, ts: set<Triple>)
    requires forall t :: t in ts <==> KeyOf(o, t) == k && PairOf(o, t) in pairs
    ensures |ts| == |pairs|
    decreases pairs
  {
    if pairs == {} {
      assert ts == {};
    } else {
      var x :| x in pairs;
      var t := Make(o, k, x);
      assert t in ts;
      MakeSize(o, k, pairs - {x}, ts - {t});
    }
  }

  ghost function Updated(all: set<Triple>, batch: set<Triple>, insert: bool): set<Triple> {
    if insert then all + batch else all - batch
  }

  /** How many triples an update really changes. */
  ghost function Changed(all: set<Triple>, batch: set<Triple>, insert: bool): nat {
    if insert then |batch - all| else |batch * all|
  }

  lemma InsertExact(o: Order, index: Index, all: set<Triple>, k: Id, data: seq<(Id, Id)>, group: set<Triple>)
    requires Represents(o, index, all) && IsGroup(o, k, data, group)
    ensures var (next, n) := UpdateInsert(index, k, data); Represents(o, next, all + group) && n == |group - all|
  {
    MakeSize(o, k, Elements(data) - Values(index, k), group - all);
  }

  lemma RemoveExact(o: Order, index: Index, all: set<Triple>, k: Id, data: seq<(Id, Id)>, group: set<Triple>)
    requires Represents(o, index, all) && IsGroup(o, k, data, group)
    ensures var (next, n) := UpdateRemove(index, k, data); Represents(o, next, all - group) && n == |group * all|
  {
    MakeSize(o, k, Elements(data) * Values(index, k), group * all);
  }

  method Update(o: Order, index: Index, k: Id, data: seq<(Id, Id)>, insert: bool, ghost all: set<Triple>,
                ghost group: set<Triple>)
    returns (next: Index, n: nat)
    requires StrictPairs(data) && Represents(o, index, all) && IsGroup(o, k, data, group)
    ensures Represents(o, next, Updated(all, group, insert)) && n == Changed(all, group, insert)
  {
    if insert {
      InsertExact(o, index, all, k, data, group);
      var r := UpdateInsert(index, k, data);
      next, n := r.0, r.1;
    } else {
      RemoveExact(o, index, all, k, data, group);
      var r := UpdateRemove(index, k, data);
      next, n := r.0, r.1;
    }
  }

  // ---------------------------------------------------------------- the grouping loop

  /** The group being collected: data holds the pairs of tuples[j..i]. */
  ghost predicate Collected(o: Order, tuples: seq<Triple>, j: nat, i: nat, k: Id, data: seq<(Id, Id)>) {
    j <= i <= |tuples| && |data| == i - j &&
    forall n :: j <= n < i ==> KeyOf(o, tuples[n]) == k && data[n - j] == PairOf(o, tuples[n])
  }

  lemma CollectedNext(o: Order, tuples: seq<Triple>, j: nat, i: nat, k: Id, data: seq<(Id, Id)>)
    requires i < |tuples| && Collected(o, tuples, j, i, k, data)
    ensures KeyOf(o, tuples[i]) == k ==> Collected(o, tuples, j, i + 1, k, data + [PairOf(o, tuples[i])])
    ensures Collected(o, tuples, i, i + 1, KeyOf(o, tuples[i]), [PairOf(o, tuples[i])])
  {
    var more := data + [PairOf(o, tuples[i])];
    if KeyOf(o, tuples[i]) == k {
      forall n | j <= n < i + 1
        ensures KeyOf(o, tuples[n]) == k && more[n - j] == PairOf(o, tuples[n])
      {
        assert n < i ==> more[n - j] == data[n - j];
      }
    }
  }

  lemma CollectedGroup(o: Order, tuples: seq<Triple>, j: nat, i: nat, k: Id, data: seq<(Id, Id)>)
    requires StrictBy(o, tuples) && Collected(o, tuples, j, i, k, data)
    ensures StrictPairs(data) && IsGroup(o, k, data, Elements(tuples[j..i]))
  {
    forall m, n | 0 <= m < n < |data|
      ensures PairLess(data[m], data[n])
    {
      assert Less(o, tuples[j + m], tuples[j + n]);
    }
    forall t
      ensures t in tuples[j..i] <==> KeyOf(o, t) == k && PairOf(o, t) in data
    {
      if t in tuples[j..i] {
        var n := Pos(tuples[j..i], t);
        assert tuples[j + n] == t && data[n] == PairOf(o, tuples[j + n]);
      }
      if KeyOf(o, t) == k && PairOf(o, t) in data {
        var n := Pos(data, PairOf(o, t));
        assert PairOf(o, tuples[j + n]) == data[n] && tuples[j..i][n] == tuples[j + n];
      }
    }
  }

  lemma DisjointCounts(all: set<Triple>, a: set<Triple>, b: set<Triple>)
    requires a !! b
    ensures all + a + b == all + (a + b) && all - a - b == all - (a + b)
    ensures |a - all| + |b - (all + a)| == |(a + b) - all|
    ensures |a * all| + |b * (all - a)| == |(a + b) * all|
  {
    assert (a + b) - all == (a - all) + (b - (all + a));
    assert (a + b) * all == (a * all) + (b * (all - a));
  }

  /** The index after the first j tuples of a batch, and the count so far. */
  ghost predicate Flushed(o: Order, all: set<Triple>, next: Index, num: nat, tuples: seq<Triple>, j: nat,
                          insert: bool) {
    j <= |tuples| && Represents(o, next, Updated(all, Elements(tuples[..j]), insert)) &&
    num == Changed(all, Elements(tuples[..j]), insert)
  }

  lemma FlushedStart(o: Order, index: Index, all: set<Triple>, tuples: seq<Triple>, insert: bool)
    requires Represents(o, index, all)
    ensures Flushed(o, all, index, 0, tuples, 0, insert)
  {
    assert Elements(tuples[..0]) == {};
    assert Updated(all, {}, insert) == all;
  }

  lemma FlushedEnd(o: Order, all: set<Triple>, next: Index, num: nat, tuples: seq<Triple>, insert: bool)
    requires Flushed(o, all, next, num, tuples, |tuples|, insert)
    ensures Represents(o, next, Updated(all, Elements(tuples), insert)) && num == Changed(all, Elements(tuples), insert)
  {
    assert tuples[..|tuples|] == tuples;
  }

  lemma PartsDisjoint(tuples: seq<Triple>, j: nat, i: nat)
    requires NoDup(tuples) && j <= i <= |tuples|
    ensures Elements(tuples[..i]) == Elements(tuples[..j]) + Elements(tuples[j..i]) &&
            Elements(tuples[..j]) !! Elements(tuples[j..i])
  {
    assert tuples[..i] == tuples[..j] + tuples[j..i];
    NoDupSplit(tuples[..j], tuples[j..i]);
  }

  /** The group being collected goes into the index: updating group after group is updating with
      everything, and the counts add up. */
  method Flush(o: Order, index: Index, num: nat, k: Id, data: seq<(Id, Id)>, insert: bool,
               ghost all: set<Triple>, ghost tuples: seq<Triple>, ghost j: nat, ghost i: nat)
    returns (next: Index, total: nat)
    requires StrictBy(o, tuples) && Collected(o, tuples, j, i, k, data) &&
             Flushed(o, all, index, num, tuples, j, insert)
    ensures Flushed(o, all, next, total, tuples, i, insert)
  {
    CollectedGroup(o, tuples, j, i, k, data);
    var n;
    next, n := Update(o, index, k, data, insert, Updated(all, Elements(tuples[..j]), insert), Elements(tuples[j..i]));
    StrictDistinct(o, tuples);
    FlushedNext(o, all, next, num, n, tuples, j, i, insert);
    total := num + n;
  }

  lemma FlushedNext(o: Order, all: set<Triple>, next: Index, num: nat, n: nat, tuples: seq<Triple>, j: nat, i: nat,
                    insert: bool)
    requires j <= i <= |tuples| && NoDup(tuples) && num == Changed(all, Elements(tuples[..j]), insert)
    requires var now, group := Updated(all, Elements(tuples[..j]), insert), Elements(tuples[j..i]);
             Represents(o, next, Updated(now, group, insert)) && n == Changed(now, group, insert)
    ensures Flushed(o, all, next, num + n, tuples, i, insert)
  {
    PartsDisjoint(tuples, j, i);
    DisjointCounts(all, Elements(tuples[..j]), Elements(tuples[j..i]));
  }

  /** One tuple: it joins the group of its key, or begins a new one. */
  method TakeTuple(o: Order, index: Index, num: nat, k: Id, data: seq<(Id, Id)>, insert: bool, t: Triple,
                   ghost all: set<Triple>, ghost tuples: seq<Triple>, ghost j: nat, ghost i: nat)
    returns (next: Index, total: nat, key: Id, pairs: seq<(Id, Id)>, ghost start: nat)
    requires StrictBy(o, tuples) && i < |tuples| && t == tuples[i]
    requires Collected(o, tuples, j, i, k, data) && Flushed(o, all, index, num, tuples, j, insert)
    ensures Collected(o, tuples, start, i + 1, key, pairs) && Flushed(o, all, next, total, tuples, start, insert)
  {
    CollectedNext(o, tuples, j, i, k, data);
    next, total, start := index, num, j;
    if KeyOf(o, t) == k {
      key, pairs := k, data + [PairOf(o, t)];
    } else {
      next, total := Flush(o, index, num, k, data, insert, all, tuples, j, i);
      start, key, pairs := i, KeyOf(o, t), [PairOf(o, t)];
    }
  }

  /** sub_batch_update for one index: consecutive tuples of one key form a group. */
  method SubBatchUpdate(o: Order, index: Index, tuples: seq<Triple>, insert: bool, ghost all: set<Triple>)
    returns (next: Index, num: nat)
    requires StrictBy(o, tuples) && tuples != [] && Represents(o, index, all)
    ensures Represents(o, next, Updated(all, Elements(tuples), insert)) && num == Changed(all, Elements(tuples), insert)
  {
    ghost var j := 0;
    next, num := index, 0;
    var data, k := [], KeyOf(o, tuples[0]);
    FlushedStart(o, index, all, tuples, insert);
    var i := 0;
    while i < |tuples|
      invariant 0 <= i <= |tuples| && Collected(o, tuples, j, i, k, data)
      invariant Flushed(o, all, next, num, tuples, j, insert)
    {
      next, num, k, data, j := TakeTuple(o, next, num, k, data, insert, tuples[i], all, tuples, j, i);
      i := i + 1;
    }
    next, num := Flush(o, next, num, k, data, insert, all, tuples, j, i);
    FlushedEnd(o, all, next, num, tuples, insert);
  }

  /** The three indexes agree: each stands for the same triples. */
  ghost predicate Agree(s2: Index, p2: Index, o2: Index, all: set<Triple>) {
    Represents(SPO, s2, all) && Represents(PSO, p2, all) && Represents(OPS, o2, all)
  }

  /** The three indexes updated with one batch, each in its own order: they still agree, and so do
      the three counts. */
  method UpdateIndexes(s2: Index, p2: Index, o2: Index, tuples: seq<Triple>, insert: bool, ghost all: set<Triple>)
    returns (s: Index, p: Index, o: Index, numS: nat, numP: nat, numO: nat)
    requires StrictBy(SPO, tuples) && tuples != [] && Agree(s2, p2, o2, all)
    ensures Agree(s, p, o, Updated(all, Elements(tuples), insert))
    ensures numS == numP == numO == Changed(all, Elements(tuples), insert)
  {
    StrictDistinct(SPO, tuples);
    s, numS := SubBatchUpdate(SPO, s2, tuples, insert, all);
    SortExact(PSO, tuples);
    SortStrict(PSO, tuples);
    p, numP := SubBatchUpdate(PSO, p2, SortBy(PSO, tuples), insert, all);
    SortExact(OPS, tuples);
    SortStrict(OPS, tuples);
    o, numO := SubBatchUpdate(OPS, o2, SortBy(OPS, tuples), insert, all);
  }

  /** A build: the tuples sorted, duplicates removed in place, the indexes filled from what is left. */
  method BuildIndexes(a: array<Triple>) returns (s: Index, p: Index, o: Index, num: nat)
    modifies a
    ensures Agree(s, p, o, Elements(old(a[..]))) && num == |Elements(old(a[..]))|
  {
    ghost var input := a[..];
    s, p, o, num := map[], map[], map[], 0;
    if a.Length == 0 {
      return;
    }
    var sorted := SortBy(SPO, a[..]);
    SortExact(SPO, a[..]);
    forall i | 0 <= i < a.Length {
      a[i] := sorted[i];
    }
    assert a[..] == sorted && a[..a.Length] == sorted;
    num := DedupInPlace(a, a.Length);
    SortedUniqueExact(input);
    var numS, numP, numO;
    s, p, o, numS, numP, numO := UpdateIndexes(map[], map[], map[], a[..num], true, {});
    assert Updated({}, Elements(input), true) == Elements(input);
  }
}

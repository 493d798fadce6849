/** Id tuples in the three orders of the store: sorting, and removing duplicates in place. */
module IdTuples {
  import opened Collections
  import opened Rdf

  /** Which index an order serves: by subject, by predicate or by object. */
  datatype Order = SPO | PSO | OPS

  function KeyOf(o: Order, t: Triple): Id {
    match o case SPO => t.s case PSO => t.p case OPS => t.o
  }

  function PairOf(o: Order, t: Triple): (Id, Id) {
    match o case SPO => (t.p, t.o) case PSO => (t.s, t.o) case OPS => (t.p, t.s)
  }

  function Make(o: Order, k: Id, x: (Id, Id)): Triple {
    match o case SPO => Triple(k, x.0, x.1) case PSO => Triple(x.0, k, x.1) case OPS => Triple(x.1, x.0, k)
  }

  predicate PairLess(a: (Id, Id), b: (Id, Id)) {
    a.0 < b.0 || (a.0 == b.0 && a.1 < b.1)
  }

  /** The comparison of an order: key first, then the pair. */
  predicate Less(o: Order, a: Triple, b: Triple) {
    KeyOf(o, a) < KeyOf(o, b) || (KeyOf(o, a) == KeyOf(o, b) && PairLess(PairOf(o, a), PairOf(o, b)))
  }

  ghost predicate OrderedBy(o: Order, s: seq<Triple>) {
    forall i, j :: 0 <= i < j < |s| ==> !Less(o, s[j], s[i])
  }

  ghost predicate StrictBy(o: Order, s: seq<Triple>) {
    forall i, j {:trigger Less(o, s[i], s[j])} :: 0 <= i < j < |s| ==> Less(o, s[i], s[j])
  }

  lemma LessTotal(o: Order, a: Triple, b: Triple)
    ensures Less(o, a, b) || Less(o, b, a) || a == b
    ensures !(Less(o, a, b) && Less(o, b, a)) && !Less(o, a, a)
  {
  }

  lemma LessTransitive(o: Order, a: Triple, b: Triple, c: Triple)
    ensures Less(o, a, b) && !Less(o, c, b) ==> Less(o, a, c)
    ensures !Less(o, b, a) && Less(o, b, c) ==> Less(o, a, c)
    ensures !Less(o, b, a) && !Less(o, c, b) ==> !Less(o, c, a)
  {
  }

  // ---------------------------------------------------------------- sorting

  function InsertBy(o: Order, t: Triple, s: seq<Triple>): seq<Triple> {
    if s == [] || !Less(o, s[0], t) then [t] + s else [s[0]] + InsertBy(o, t, s[1..])
  }

  function SortBy(o: Order, s: seq<Triple>): seq<Triple> {
    if s == [] then [] else InsertBy(o, s[0], SortBy(o, s[1..]))
  }

  lemma {:induction false} InsertBag(o: Order, t: Triple, s: seq<Triple>)
    ensures multiset(InsertBy(o, t, s)) == multiset{t} + multiset(s)
  {
    if !(s == [] || !Less(o, s[0], t)) {
      InsertBag(o, t, s[1..]);
      assert s == [s[0]] + s[1..];
    }
  }

  lemma {:induction false} SortBag(o: Order, s: seq<Triple>)
    ensures multiset(SortBy(o, s)) == multiset(s)
  {
    if s != [] {
      SortBag(o, s[1..]);
      InsertBag(o, s[0], SortBy(o, s[1..]));
      assert s == [s[0]] + s[1..];
    }
  }

  lemma BagElements<T>(a: seq<T>, b: seq<T>)
    requires multiset(a) == multiset(b)
    ensures Elements(a) == Elements(b) && |a| == |b|
  {
    forall x
      ensures x in a <==> x in b
    {
      assert x in a <==> x in multiset(a);
      assert x in b <==> x in multiset(b);
    }
    assert |multiset(a)| == |a| && |multiset(b)| == |b|;
  }

  lemma ConsOrdered(o: Order, t: Triple, s: seq<Triple>)
    requires OrderedBy(o, s) && forall i :: 0 <= i < |s| ==> !Less(o, s[i], t)
    ensures OrderedBy(o, [t] + s)
  {
  }

  lemma {:induction false} InsertOrderedBy(o: Order, t: Triple, s: seq<Triple>)
    requires OrderedBy(o, s)
    ensures OrderedBy(o, InsertBy(o, t, s))
  {
    if s == [] || !Less(o, s[0], t) {
      forall i | 0 <= i < |s|
        ensures !Less(o, s[i], t)
      {
        LessTransitive(o, t, s[0], s[i]);
        LessTotal(o, t, s[0]);
      }
      ConsOrdered(o, t, s);
    } else {
      var r := InsertBy(o, t, s[1..]);
      InsertOrderedBy(o, t, s[1..]);
      InsertBag(o, t, s[1..]);
      forall i | 0 <= i < |r|
        ensures !Less(o, r[i], s[0])
      {
        assert r[i] in multiset(r);
        assert r[i] == t || r[i] in s[1..];
        LessTotal(o, s[0], t);
      }
      ConsOrdered(o, s[0], r);
    }
  }

  /** A sort leaves the same tuples, in order. */
  lemma {:induction false} SortExact(o: Order, s: seq<Triple>)
    ensures OrderedBy(o, SortBy(o, s)) && Elements(SortBy(o, s)) == Elements(s) && |SortBy(o, s)| == |s|
  {
    SortBag(o, s);
    BagElements(SortBy(o, s), s);
    if s != [] {
      SortExact(o, s[1..]);
      InsertOrderedBy(o, s[0], SortBy(o, s[1..]));
    }
  }

  lemma StrictDistinct(o: Order, s: seq<Triple>)
    requires StrictBy(o, s)
    ensures |Elements(s)| == |s| && NoDup(s)
  {
    forall i, j | 0 <= i < j < |s|
      ensures s[i] != s[j]
    {
      assert Less(o, s[i], s[j]);
    }
    NoDupLength(s);
  }

  /** Without duplicates the order is strict. */
  lemma SortStrict(o: Order, s: seq<Triple>)
    requires NoDup(s)
    ensures StrictBy(o, SortBy(o, s))
  {
    var r := SortBy(o, s);
    SortExact(o, s);
    NoDupLength(s);
    SizeNoDup(r);
    forall i, j | 0 <= i < j < |r|
      ensures Less(o, r[i], r[j])
    {
      LessTotal(o, r[i], r[j]);
      assert r[i] != r[j];
    }
  }

  lemma {:induction false} SizeNoDup<T(!new)>(s: seq<T>)
    requires |Elements(s)| == |s|
    ensures NoDup(s)
  {
    if s != [] {
      var t, x := s[..|s| - 1], s[|s| - 1];
      assert s == t + [x];
      assert Elements(s) == Elements(t) + {x};
      ElementsAtMost(t);
      SizeNoDup(t);
      assert x !in t;
    }
  }

  lemma {:induction false} ElementsAtMost<T>(s: seq<T>)
    ensures |Elements(s)| <= |s|
  {
    if s != [] {
      assert s == s[..|s| - 1] + [s[|s| - 1]];
      assert Elements(s) == Elements(s[..|s| - 1]) + {s[|s| - 1]};
      ElementsAtMost(s[..|s| - 1]);
    }
  }

  // ---------------------------------------------------------------- removing duplicates

  /** What removing equal neighbours leaves. */
  function Dedup(s: seq<Triple>): seq<Triple> {
    if |s| <= 1 then s
    else Dedup(s[..|s| - 1]) + if s[|s| - 1] == s[|s| - 2] then [] else [s[|s| - 1]]
  }

  lemma {:induction false} DedupElements(s: seq<Triple>)
    ensures Elements(Dedup(s)) == Elements(s) && |Dedup(s)| <= |s|
    ensures s != [] ==> Dedup(s) != [] && Dedup(s)[|Dedup(s)| - 1] == s[|s| - 1]
  {
    if |s| > 1 {
      var front, last := s[..|s| - 1], s[|s| - 1];
      DedupElements(front);
      assert s == front + [last];
      assert Elements(s) == Elements(front) + {last};
      assert last == s[|s| - 2] ==> last in front && Dedup(front) + [] == Dedup(front);
    }
  }

  lemma SnocStrict(o: Order, s: seq<Triple>, t: Triple)
    requires StrictBy(o, s) && (s != [] ==> Less(o, s[|s| - 1], t))
    ensures StrictBy(o, s + [t])
  {
    forall i, j | 0 <= i < j < |s| + 1
      ensures Less(o, (s + [t])[i], (s + [t])[j])
    {
      if j == |s| && i < |s| - 1 {
        LessTransitive(o, s[i], s[|s| - 1], t);
        LessTotal(o, s[|s| - 1], t);
      }
    }
  }

  /** After a sort, removing equal neighbours removes every duplicate. */
  lemma {:induction false} DedupStrict(o: Order, s: seq<Triple>)
    requires OrderedBy(o, s)
    ensures StrictBy(o, Dedup(s))
  {
    if |s| > 1 {
      var front, last := s[..|s| - 1], s[|s| - 1];
      DedupStrict(o, front);
      DedupElements(front);
      if last != s[|s| - 2] {
        LessTotal(o, s[|s| - 2], last);
        SnocStrict(o, Dedup(front), last);
      }
    }
  }

  /** Sort and unique: the distinct tuples in strict order. */
  function SortedUnique(s: seq<Triple>): seq<Triple> {
    Dedup(SortBy(SPO, s))
  }

  lemma SortedUniqueExact(s: seq<Triple>)
    ensures StrictBy(SPO, SortedUnique(s)) && NoDup(SortedUnique(s)) && Elements(SortedUnique(s)) == Elements(s)
    ensures |SortedUnique(s)| == |Elements(s)| && (s != [] ==> SortedUnique(s) != [])
  {
    SortExact(SPO, s);
    DedupElements(SortBy(SPO, s));
    DedupStrict(SPO, SortBy(SPO, s));
    StrictDistinct(SPO, SortedUnique(s));
  }

  /** The in-place loop of a build: j tuples kept so far, the next one compared with its left
      neighbour, which the loop has not overwritten with anything else. */
  method DedupInPlace(a: array<Triple>, n: nat) returns (j: nat)
    requires n <= a.Length
    modifies a
    ensures j <= n && a[..j] == Dedup(old(a[..n]))
    ensures forall i :: n <= i < a.Length ==> a[i] == old(a[i])
  {
    if n == 0 {
      return 0;
    }
    ghost var all := a[..n];
    j := 1;
    var i := 1;
    assert all[..1] == a[..1];
    while i < n
      invariant 1 <= j <= i <= n && a[..j] == Dedup(all[..i])
      invariant forall k :: i <= k < n ==> a[k] == all[k]
      invariant a[i - 1] == all[i - 1]
      invariant forall k :: n <= k < a.Length ==> a[k] == old(a[k])
    {
      assert all[..i + 1][..i] == all[..i];
      if a[i] != a[i - 1] {
        a[j] := a[i];
        j := j + 1;
        assert a[..j] == a[..j - 1] + [a[j - 1]];
      }
      i := i + 1;
    }
    assert all[..n] == all;
  }
}

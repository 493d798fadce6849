/** Facts about sequences and sets that several components share. */
module Collections {
  datatype Option<T> = None | Some(value: T)

  function Elements<T>(s: seq<T>): set<T> {
    set x | x in s
  }

  ghost predicate NoDup<T(!new)>(s: seq<T>) {
    forall i, j :: 0 <= i < j < |s| ==> s[i] != s[j]
  }

  predicate Increasing(s: seq<nat>) {
    forall i, j :: 0 <= i < j < |s| ==> s[i] < s[j]
  }

  predicate Ordered(s: seq<nat>) {
    forall i, j :: 0 <= i < j < |s| ==> s[i] <= s[j]
  }

  lemma OrderedCons(x: nat, s: seq<nat>)
    requires Ordered(s) && forall i :: 0 <= i < |s| ==> x <= s[i]
    ensures Ordered([x] + s)
  {
  }

  lemma IncreasingCons(x: nat, s: seq<nat>)
    requires Increasing(s) && forall i :: 0 <= i < |s| ==> x < s[i]
    ensures Increasing([x] + s)
  {
  }

  /** The first position of x, as an id-to-position map gives it. */
  function Pos<T(==)>(s: seq<T>, x: T): (k: nat)
    requires x in s
    ensures k < |s| && s[k] == x
  {
    if s[0] == x then 0 else 1 + Pos(s[1..], x)
  }

  lemma {:induction false} LeastExists(s: set<nat>)
    requires s != {}
    ensures exists m :: m in s && forall x :: x in s ==> m <= x
  {
    var a :| a in s;
    var t := s - {a};
    if t == {} {
      assert s == {a};
    } else {
      LeastExists(t);
      var m :| m in t && forall x :: x in t ==> m <= x;
      assert forall x :: x in s ==> x == a || x in t;
      if a < m {
        assert a in s && forall x :: x in s ==> a <= x;
      } else {
        assert m in s && forall x :: x in s ==> m <= x;
      }
    }
  }

  function Least(s: set<nat>): (m: nat)
    requires s != {}
    ensures m in s && forall x :: x in s ==> m <= x
  {
    LeastExists(s);
    var m :| m in s && forall x :: x in s ==> m <= x;
    m
  }

  /** The ids of a set as the store lists them: in increasing order, each once. */
  function SortedSeq(s: set<nat>): seq<nat> {
    if s == {} then [] else [Least(s)] + SortedSeq(s - {Least(s)})
  }

  lemma {:induction false} SortedSeqMember(s: set<nat>, x: nat)
    ensures x in SortedSeq(s) <==> x in s
  {
    if s != {} {
      SortedSeqMember(s - {Least(s)}, x);
    }
  }

  lemma {:induction false} SortedSeqIncreasing(s: set<nat>)
    ensures Increasing(SortedSeq(s))
  {
    if s != {} {
      var rest := SortedSeq(s - {Least(s)});
      SortedSeqIncreasing(s - {Least(s)});
      forall i | 0 <= i < |rest|
        ensures Least(s) < rest[i]
      {
        SortedSeqMember(s - {Least(s)}, rest[i]);
      }
      IncreasingCons(Least(s), rest);
    }
  }

  lemma SortedSeqElements(s: set<nat>)
    ensures Elements(SortedSeq(s)) == s
  {
    forall x
      ensures x in Elements(SortedSeq(s)) <==> x in s
    {
      SortedSeqMember(s, x);
    }
  }

  lemma SortedSeqLength(s: set<nat>)
    ensures |SortedSeq(s)| == |s|
  {
    if s != {} {
      SortedSeqLength(s - {Least(s)});
    }
  }

  /** Increasing sequences with the same elements are the same sequence. */
  lemma {:induction false} IncreasingUnique(a: seq<nat>, b: seq<nat>)
    requires Increasing(a) && Increasing(b)
    requires forall x :: x in a <==> x in b
    ensures a == b
  {
    assert a != [] ==> a[0] in b;
    assert b != [] ==> b[0] in a;
    if a != [] && b != [] {
      assert a[0] == b[0];
      assert a == [a[0]] + a[1..] && b == [b[0]] + b[1..];
      forall x
        ensures x in a[1..] <==> x in b[1..]
      {
        assert x in a[1..] <==> x in a && x != a[0];
        assert x in b[1..] <==> x in b && x != b[0];
      }
      IncreasingUnique(a[1..], b[1..]);
    }
  }

  lemma {:induction false} NoDupLength<T(!new)>(s: seq<T>)
    requires NoDup(s)
    ensures |Elements(s)| == |s|
  {
    if s == [] {
      assert Elements(s) == {};
    } else {
      var t := s[..|s| - 1];
      NoDupLength(t);
      assert s[|s| - 1] !in Elements(t);
      assert Elements(s) == Elements(t) + {s[|s| - 1]};
    }
  }

  /** How often an element is in a list. */
  function Count<T(==)>(s: seq<T>, x: T): nat {
    if s == [] then 0 else (if s[0] == x then 1 else 0) + Count(s[1..], x)
  }

  lemma {:induction false} CountBag<T>(s: seq<T>, x: T)
    ensures Count(s, x) == multiset(s)[x]
  {
    if s != [] {
      CountBag(s[1..], x);
      assert s == [s[0]] + s[1..];
    }
  }

  lemma {:induction false} CountConcat<T>(a: seq<T>, b: seq<T>, x: T)
    ensures Count(a + b, x) == Count(a, x) + Count(b, x)
  {
    if a == [] {
      assert a + b == b;
    } else {
      CountConcat(a[1..], b, x);
      assert (a + b)[1..] == a[1..] + b;
    }
  }

  lemma {:induction false} CountNone<T>(s: seq<T>, x: T)
    ensures Count(s, x) == 0 <==> x !in s
  {
    if s != [] {
      CountNone(s[1..], x);
      assert s == [s[0]] + s[1..];
    }
  }

  /** Each element once, counted as a bag. */
  lemma CountedOnce<T(!new)>(s: seq<T>)
    requires forall x :: multiset(s)[x] <= 1
    ensures NoDup(s)
  {
    forall i, j | 0 <= i < j < |s|
      ensures s[i] != s[j]
    {
      assert s == s[..j] + ([s[j]] + s[j + 1..]);
      assert s[..j][i] == s[i] && s[i] in multiset(s[..j]);
      assert multiset(s)[s[j]] == multiset(s[..j])[s[j]] + multiset([s[j]] + s[j + 1..])[s[j]];
    }
  }

  lemma {:induction false} OccursOnce<T(!new)>(s: seq<T>, x: T)
    requires NoDup(s)
    ensures multiset(s)[x] <= 1
  {
    if s != [] {
      assert s == [s[0]] + s[1..];
      assert s[0] !in s[1..];
      OccursOnce(s[1..], x);
    }
  }

  lemma NoDupSplit<T(!new)>(a: seq<T>, b: seq<T>)
    ensures NoDup(a + b) <==> NoDup(a) && NoDup(b) && Elements(a) !! Elements(b)
  {
    var all := a + b;
    assert forall i :: 0 <= i < |a| ==> all[i] == a[i];
    assert forall j :: 0 <= j < |b| ==> all[|a| + j] == b[j];
    if NoDup(all) {
      forall i, j | 0 <= i < |a| && 0 <= j < |b| ensures a[i] != b[j] {
        assert all[i] != all[|a| + j];
      }
      forall i, j | 0 <= i < j < |b| ensures b[i] != b[j] {
        assert all[|a| + i] != all[|a| + j];
      }
    }
    if NoDup(a) && NoDup(b) && Elements(a) !! Elements(b) {
      forall i, j | 0 <= i < j < |all| ensures all[i] != all[j] {
        if i < |a| <= j {
          assert all[i] in Elements(a) && all[j] in Elements(b);
        } else if i >= |a| {
          assert all[i] == b[i - |a|] && all[j] == b[j - |a|];
        }
      }
    }
  }

  /** The concatenation of what f gives for each element, in order. */
  function FlatMap<A, B>(f: A -> seq<B>, s: seq<A>): seq<B> {
    if s == [] then [] else f(s[0]) + FlatMap(f, s[1..])
  }

  lemma {:induction false} FlatMapConcat<A, B>(f: A -> seq<B>, a: seq<A>, b: seq<A>)
    ensures FlatMap(f, a + b) == FlatMap(f, a) + FlatMap(f, b)
  {
    if a == [] {
      assert a + b == b;
    } else {
      assert (a + b)[1..] == a[1..] + b;
      FlatMapConcat(f, a[1..], b);
    }
  }

  lemma FlatMapNext<A, B>(f: A -> seq<B>, s: seq<A>, i: nat)
    requires i < |s|
    ensures FlatMap(f, s[..i + 1]) == FlatMap(f, s[..i]) + f(s[i])
  {
    assert s[..i + 1] == s[..i] + [s[i]];
    FlatMapConcat(f, s[..i], [s[i]]);
    assert FlatMap(f, [s[i]][1..]) == [];
  }

  lemma FlatMapPrefix<A, B>(f: A -> seq<B>, s: seq<A>, i: nat)
    requires i <= |s|
    ensures FlatMap(f, s[..i]) <= FlatMap(f, s)
  {
    assert s == s[..i] + s[i..];
    FlatMapConcat(f, s[..i], s[i..]);
  }

  lemma {:induction false} FlatMapMember<A, B>(f: A -> seq<B>, s: seq<A>, y: B)
    ensures y in FlatMap(f, s) <==> exists x :: x in s && y in f(x)
  {
    if s != [] {
      assert s == [s[0]] + s[1..];
      FlatMapMember(f, s[1..], y);
    }
  }

  function Insert(x: nat, s: seq<nat>): seq<nat> {
    if s == [] || x <= s[0] then [x] + s else [s[0]] + Insert(x, s[1..])
  }

  lemma {:induction false} InsertMember(x: nat, s: seq<nat>, y: nat)
    ensures y in Insert(x, s) <==> y == x || y in s
  {
    if !(s == [] || x <= s[0]) {
      InsertMember(x, s[1..], y);
      assert s == [s[0]] + s[1..];
    }
  }

  lemma {:induction false} InsertOrdered(x: nat, s: seq<nat>)
    requires Ordered(s)
    ensures Ordered(Insert(x, s))
  {
    if !(s == [] || x <= s[0]) {
      var r := Insert(x, s[1..]);
      InsertOrdered(x, s[1..]);
      forall i | 0 <= i < |r|
        ensures s[0] <= r[i]
      {
        InsertMember(x, s[1..], r[i]);
      }
      OrderedCons(s[0], r);
    }
  }

  lemma {:induction false} InsertBag(x: nat, s: seq<nat>)
    ensures multiset(Insert(x, s)) == multiset{x} + multiset(s)
  {
    if !(s == [] || x <= s[0]) {
      InsertBag(x, s[1..]);
      assert s == [s[0]] + s[1..];
    }
  }

  /** Sorting, as a function: the order the in-place sort leaves. */
  function Sort(s: seq<nat>): seq<nat> {
    if s == [] then [] else Insert(s[0], Sort(s[1..]))
  }

  lemma {:induction false} SortOrdered(s: seq<nat>)
    ensures Ordered(Sort(s))
  {
    if s != [] {
      SortOrdered(s[1..]);
      InsertOrdered(s[0], Sort(s[1..]));
    }
  }

  lemma {:induction false} SortBag(s: seq<nat>)
    ensures multiset(Sort(s)) == multiset(s)
  {
    if s != [] {
      SortBag(s[1..]);
      InsertBag(s[0], Sort(s[1..]));
      assert s == [s[0]] + s[1..];
    }
  }

  lemma {:induction false} InsertIncreasing(x: nat, s: seq<nat>)
    requires Increasing(s) && x !in s
    ensures Increasing(Insert(x, s))
  {
    if !(s == [] || x <= s[0]) {
      var r := Insert(x, s[1..]);
      InsertIncreasing(x, s[1..]);
      forall i | 0 <= i < |r|
        ensures s[0] < r[i]
      {
        InsertMember(x, s[1..], r[i]);
      }
      IncreasingCons(s[0], r);
    }
  }

  lemma {:induction false} SortMember(s: seq<nat>, x: nat)
    ensures x in Sort(s) <==> x in s
  {
    if s != [] {
      SortMember(s[1..], x);
      InsertMember(s[0], Sort(s[1..]), x);
      assert s == [s[0]] + s[1..];
    }
  }

  lemma {:induction false} SortIncreasing(s: seq<nat>)
    requires NoDup(s)
    ensures Increasing(Sort(s))
  {
    if s != [] {
      SortIncreasing(s[1..]);
      SortMember(s[1..], s[0]);
      assert s[0] !in s[1..];
      InsertIncreasing(s[0], Sort(s[1..]));
    }
  }

  /** Sorting a duplicate-free sequence lists its elements in increasing order. */
  lemma SortIsSortedSeq(s: seq<nat>)
    requires NoDup(s)
    ensures Increasing(Sort(s))
    ensures Sort(s) == SortedSeq(Elements(s))
  {
    SortIncreasing(s);
    SortedSeqIncreasing(Elements(s));
    forall x
      ensures x in Sort(s) <==> x in SortedSeq(Elements(s))
    {
      SortMember(s, x);
      SortedSeqMember(Elements(s), x);
    }
    IncreasingUnique(Sort(s), SortedSeq(Elements(s)));
  }
}

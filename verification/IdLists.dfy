/** The three ways a sorted list of ids is intersected with another: merging in place, and searching
    the longer list for the ids of the shorter one. All give the same list. */
module IdLists {
  import opened Collections
  import opened Rdf
  import opened Tables

  function Least2(a: nat, b: nat): nat {
    if a < b then a else b
  }

  // ---------------------------------------------------------------- sorted lists as bags

  lemma OrderedTail(s: seq<Id>)
    requires Ordered(s) && s != []
    ensures Ordered(s[1..]) && forall x :: x in s[1..] ==> s[0] <= x
  {
  }

  lemma NotBelow(s: seq<Id>, x: Id)
    requires Ordered(s) && (s == [] || x < s[0])
    ensures Count(s, x) == 0
  {
    CountNone(s, x);
  }

  /** Intersecting keeps each id as often as both lists have it. */
  lemma {:induction false} IntersectCount(a: seq<Id>, b: seq<Id>, x: Id)
    requires Ordered(a) && Ordered(b)
    ensures Count(Intersect(a, b), x) == Least2(Count(a, x), Count(b, x))
    decreases |a| + |b|
  {
    if a != [] && b != [] {
      OrderedTail(a);
      OrderedTail(b);
      if a[0] < b[0] {
        IntersectCount(a[1..], b, x);
        if x == a[0] { NotBelow(b, x); }
      } else if b[0] < a[0] {
        IntersectCount(a, b[1..], x);
        if x == b[0] { NotBelow(a, x); }
      } else {
        IntersectCount(a[1..], b[1..], x);
        CountConcat([a[0]], Intersect(a[1..], b[1..]), x);
      }
    }
  }

  ghost predicate SameCounts(a: seq<Id>, b: seq<Id>) {
    forall x :: Count(a, x) == Count(b, x)
  }

  lemma SameHead(a: seq<Id>, b: seq<Id>)
    requires Ordered(a) && Ordered(b) && SameCounts(a, b) && a != []
    ensures b != [] && a[0] == b[0]
  {
    assert Count(a, a[0]) == Count(b, a[0]);
    if b != [] {
      assert Count(a, b[0]) == Count(b, b[0]);
      if a[0] < b[0] { NotBelow(b, a[0]); }
      if b[0] < a[0] { NotBelow(a, b[0]); }
    }
  }

  /** A sorted list is determined by how often it has each id. */
  lemma {:induction false} SortedByCounts(a: seq<Id>, b: seq<Id>)
    requires Ordered(a) && Ordered(b) && SameCounts(a, b)
    ensures a == b
  {
    if a == [] {
      if b != [] {
        SameHead(b, a);
      }
    } else {
      SameHead(a, b);
      OrderedTail(a);
      OrderedTail(b);
      forall x
        ensures Count(a[1..], x) == Count(b[1..], x)
      {
        assert Count(a, x) == Count(b, x);
      }
      SortedByCounts(a[1..], b[1..]);
    }
  }

  lemma IntersectSwap(a: seq<Id>, b: seq<Id>)
    requires Ordered(a) && Ordered(b)
    ensures Intersect(a, b) == Intersect(b, a)
  {
    IntersectOrdered(a, b);
    IntersectOrdered(b, a);
    forall x
      ensures Count(Intersect(a, b), x) == Count(Intersect(b, a), x)
    {
      IntersectCount(a, b, x);
      IntersectCount(b, a, x);
    }
    SortedByCounts(Intersect(a, b), Intersect(b, a));
  }

  // ---------------------------------------------------------------- searching the longer list

  function Copies(x: Id, n: nat): (r: seq<Id>)
    ensures |r| == n
  {
    seq(n, _ => x)
  }

  lemma {:induction false} CopiesCount(x: Id, n: nat, y: Id)
    ensures Count(Copies(x, n), y) == if y == x then n else 0
  {
    if n > 0 {
      CopiesCount(x, n - 1, y);
      assert Copies(x, n)[1..] == Copies(x, n - 1);
    }
  }

  ghost predicate AllLess(s: seq<Id>, x: Id) {
    forall i :: 0 <= i < |s| ==> s[i] < x
  }

  /** Before k ids are below the target, or with `above` at most it; from k on they are not. */
  ghost predicate Bounds(list: seq<Id>, target: Id, above: bool, k: nat) {
    k <= |list| && (forall i :: 0 <= i < k ==> if above then list[i] <= target else list[i] < target) &&
    forall i :: k <= i < |list| ==> if above then target < list[i] else target <= list[i]
  }

  /** lower_bound and upper_bound. */
  method Bound(list: seq<Id>, target: Id, above: bool) returns (k: nat)
    requires Ordered(list)
    ensures Bounds(list, target, above, k)
  {
    k := 0;
    var high := |list|;
    while k < high
      invariant 0 <= k <= high <= |list|
      invariant forall i :: 0 <= i < k ==> if above then list[i] <= target else list[i] < target
      invariant forall i :: high <= i < |list| ==> if above then target < list[i] else target <= list[i]
    {
      var mid := (k + high) / 2;
      if (if above then list[mid] <= target else list[mid] < target) {
        k := mid + 1;
      } else {
        high := mid;
      }
    }
  }

  lemma BoundsOrder(list: seq<Id>, target: Id, low: nat, high: nat)
    requires Bounds(list, target, false, low) && Bounds(list, target, true, high)
    ensures low <= high && list[low..high] == Copies(target, high - low)
  {
    if high < |list| {
      assert target < list[high];
    }
  }

  lemma BoundsCount(list: seq<Id>, target: Id, low: nat, high: nat)
    requires Bounds(list, target, false, low) && Bounds(list, target, true, high)
    ensures low <= high && Count(list, target) == high - low
  {
    BoundsOrder(list, target, low, high);
    assert list == list[..low] + (list[low..high] + list[high..]);
    CountConcat(list[..low], list[low..high] + list[high..], target);
    CountConcat(list[low..high], list[high..], target);
    CountNone(list[..low], target);
    CountNone(list[high..], target);
    CopiesCount(target, high - low, target);
  }

  lemma CopiesOrdered(s: seq<Id>, x: Id, n: nat)
    requires Ordered(s) && forall i :: 0 <= i < |s| ==> s[i] <= x
    ensures Ordered(s + Copies(x, n))
  {
  }

  lemma IntersectBelow(a: seq<Id>, b: seq<Id>, x: Id)
    requires Ordered(a) && Ordered(b) && AllLess(a, x)
    ensures forall i :: 0 <= i < |Intersect(a, b)| ==> Intersect(a, b)[i] < x
  {
    var r := Intersect(a, b);
    forall i | 0 <= i < |r|
      ensures r[i] < x
    {
      IntersectMember(a, b, r[i]);
    }
  }

  /** A run of one id behind smaller ones adds as many of it as the other list has, at most. */
  lemma RunNext(a: seq<Id>, x: Id, n: nat, b: seq<Id>)
    requires Ordered(a) && Ordered(b) && AllLess(a, x)
    ensures Intersect(a + Copies(x, n), b) == Intersect(a, b) + Copies(x, Least2(n, Count(b, x)))
  {
    var all, part, more := Intersect(a + Copies(x, n), b), Intersect(a, b), Copies(x, Least2(n, Count(b, x)));
    CopiesOrdered(a, x, n);
    IntersectOrdered(a + Copies(x, n), b);
    IntersectOrdered(a, b);
    IntersectBelow(a, b, x);
    CopiesOrdered(part, x, Least2(n, Count(b, x)));
    forall y
      ensures Count(all, y) == Count(part + more, y)
    {
      RunCounts(a, x, n, b, y);
    }
    SortedByCounts(all, part + more);
  }

  lemma RunCounts(a: seq<Id>, x: Id, n: nat, b: seq<Id>, y: Id)
    requires Ordered(a) && Ordered(b) && AllLess(a, x)
    ensures Count(Intersect(a + Copies(x, n), b), y) == Count(Intersect(a, b) + Copies(x, Least2(n, Count(b, x))), y)
  {
    CopiesOrdered(a, x, n);
    IntersectCount(a + Copies(x, n), b, y);
    IntersectCount(a, b, y);
    CountConcat(a, Copies(x, n), y);
    CountConcat(Intersect(a, b), Copies(x, Least2(n, Count(b, x))), y);
    CopiesCount(x, n, y);
    CopiesCount(x, Least2(n, Count(b, x)), y);
    if y == x {
      CountNone(a, x);
    }
  }

  /** The lambda CheckSizeInsert: a run of one id of the shorter list. */
  method CheckSizeInsert(target: Id, count: nat, list: seq<Id>, large: seq<Id>, ghost done: seq<Id>)
    returns (r: seq<Id>)
    requires Ordered(large) && Ordered(done) && AllLess(done, target) && list == Intersect(done, large)
    ensures r == Intersect(done + Copies(target, count), large)
  {
    var low := Bound(large, target, false);
    var high := Bound(large, target, true);
    BoundsCount(large, target, low, high);
    RunNext(done, target, count, large);
    r := list;
    var least, j := Least2(count, high - low), 0;
    while j < least
      invariant 0 <= j <= least && r == list + Copies(target, j)
    {
      r := r + [target];
      assert Copies(target, j + 1) == Copies(target, j) + [target];
      j := j + 1;
    }
  }

  /** The run of equal ids that ends before i. */
  ghost predicate RunAt(small: seq<Id>, i: nat, count: nat) {
    count <= i < |small| && (forall j :: i - count <= j < i ==> small[j] == small[i]) &&
    forall j :: 0 <= j < i - count ==> small[j] < small[i]
  }

  lemma RunSplit(small: seq<Id>, i: nat, count: nat)
    requires RunAt(small, i, count) && Ordered(small)
    ensures small[..i + 1] == small[..i - count] + Copies(small[i], count + 1)
    ensures Ordered(small[..i - count]) && AllLess(small[..i - count], small[i])
  {
  }

  lemma RunGoesOn(small: seq<Id>, i: nat, count: nat)
    requires RunAt(small, i, count) && Ordered(small) && i + 1 < |small|
    ensures RunAt(small, i + 1, if small[i] == small[i + 1] then count + 1 else 0)
  {
  }

  /** Each run of equal ids of the shorter list, searched for in the longer one. */
  method BSearchMerge(small: seq<Id>, large: seq<Id>) returns (r: seq<Id>)
    requires Ordered(small) && Ordered(large)
    ensures r == Intersect(small, large)
  {
    r := [];
    if small == [] {
      return;
    }
    var count, i := 0, 0;
    while i < |small| - 1
      invariant 0 <= i <= |small| - 1 && RunAt(small, i, count) && r == Intersect(small[..i - count], large)
    {
      RunSplit(small, i, count);
      RunGoesOn(small, i, count);
      count := count + 1;
      if small[i] != small[i + 1] {
        r := CheckSizeInsert(small[i], count, r, large, small[..i + 1 - count]);
        count := 0;
      }
      i := i + 1;
    }
    RunSplit(small, i, count);
    r := CheckSizeInsert(small[i], count + 1, r, large, small[..i - count]);
    assert small[..i + 1] == small;
  }

  // ---------------------------------------------------------------- the list object

  class IdList {
    var ids: seq<Id>

    constructor (ids: seq<Id>)
      ensures this.ids == ids
    {
      this.ids := ids;
    }

    /** Merging: ids kept move to the front, over ids already read. */
    method Merge(other: seq<Id>)
      modifies this
      ensures ids == Intersect(old(ids), other)
    {
      ghost var all := ids;
      var j, kept, at := 0, 0, 0;
      while at < |ids|
        invariant 0 <= kept <= at <= |ids| == |all| && 0 <= j <= |other| && ids[at..] == all[at..]
        invariant ids[..kept] + Intersect(all[at..], other[j..]) == Intersect(all, other)
        decreases |ids| - at
      {
        var id := ids[at];
        assert id == all[at..][0] && all[at..][1..] == all[at + 1..];
        while j < |other| && other[j] < id
          invariant 0 <= j <= |other| && ids[..kept] + Intersect(all[at..], other[j..]) == Intersect(all, other)
        {
          assert other[j..][1..] == other[j + 1..];
          j := j + 1;
        }
        if j == |other| {
          break;
        }
        if id == other[j] {
          assert other[j..][1..] == other[j + 1..];
          KeptNext(ids, kept, at, id);
          ids := ids[kept := id];
          kept := kept + 1;
          j := j + 1;
        }
        at := at + 1;
      }
      ids := ids[..kept];
    }

    /** intersectList. The ratio of the lengths decides the way; the result does not depend on it. */
    method IntersectList(other: seq<Id>, way: nat) returns (removed: nat)
      requires Ordered(ids) && Ordered(other)
      modifies this
      ensures ids == Intersect(old(ids), other) && removed == old(|ids|) - |ids|
    {
      ghost var before := ids;
      var n := |ids|;
      if other == [] {
        ids := [];
      } else if way == 0 {
        Merge(other);
      } else if way == 1 {
        IntersectSwap(ids, other);
        ids := BSearchMerge(other, ids);
      } else {
        ids := BSearchMerge(ids, other);
      }
      IntersectShorter(before, other);
      removed := n - |ids|;
    }
  }

  lemma KeptNext(ids: seq<Id>, kept: nat, at: nat, id: Id)
    requires kept <= at < |ids| && ids[at] == id
    ensures ids[kept := id][..kept + 1] == ids[..kept] + [id] && ids[kept := id][at + 1..] == ids[at + 1..]
  {
  }

  lemma {:induction false} IntersectShorter(a: seq<Id>, b: seq<Id>)
    ensures |Intersect(a, b)| <= |a|
    decreases |a| + |b|
  {
    if a != [] && b != [] {
      if a[0] < b[0] {
        IntersectShorter(a[1..], b);
      } else if b[0] < a[0] {
        IntersectShorter(a, b[1..]);
      } else {
        IntersectShorter(a[1..], b[1..]);
      }
    }
  }
}

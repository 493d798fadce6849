/** Choosing the predicates whose lists are cached: a budget on the total size, and a displacement
    of less valuable lists when a more valuable one does not fit. */
module CacheSelect {
  import opened Collections

  newtype uint32 = x: int | 0 <= x < 0x1_0000_0000

  const MAX_TOTAL_SIZE: uint32 := 2_000_000_000

  datatype Item = Item(key: nat, size: uint32, value: nat)

  function Sum(heap: seq<Item>): int {
    if heap == [] then 0 else heap[0].size as int + Sum(heap[1..])
  }

  lemma {:induction false} SumConcat(a: seq<Item>, b: seq<Item>)
    ensures Sum(a + b) == Sum(a) + Sum(b)
  {
    if a == [] {
      assert a + b == b;
    } else {
      assert (a + b)[1..] == a[1..] + b;
      SumConcat(a[1..], b);
    }
  }

  lemma {:induction false} SumNonNegative(heap: seq<Item>)
    ensures Sum(heap) >= 0
  {
    if heap != [] {
      SumNonNegative(heap[1..]);
    }
  }

  function Without(heap: seq<Item>, i: nat): seq<Item>
    requires i < |heap|
  {
    heap[..i] + heap[i + 1..]
  }

  lemma WithoutExact(heap: seq<Item>, i: nat)
    requires i < |heap|
    ensures Sum(heap) == Sum(Without(heap, i)) + heap[i].size as int && Sum(Without(heap, i)) >= 0
    ensures multiset(heap) == multiset(Without(heap, i)) + multiset{heap[i]}
  {
    WithoutSize(heap, i);
    WithoutBag(heap[..i], heap[i], heap[i + 1..]);
    SplitAt(heap, i);
  }

  lemma WithoutSize(heap: seq<Item>, i: nat)
    requires i < |heap|
    ensures Sum(heap) == Sum(Without(heap, i)) + heap[i].size as int && Sum(Without(heap, i)) >= 0
  {
    WithoutSum(heap[..i], heap[i], heap[i + 1..]);
    SplitAt(heap, i);
    SumNonNegative(Without(heap, i));
  }

  lemma SplitAt(heap: seq<Item>, i: nat)
    requires i < |heap|
    ensures heap == heap[..i] + ([heap[i]] + heap[i + 1..])
  {
  }

  lemma WithoutBag(a: seq<Item>, x: Item, b: seq<Item>)
    ensures multiset(a + ([x] + b)) == multiset(a + b) + multiset{x}
  {
  }

  lemma WithoutSum(a: seq<Item>, x: Item, b: seq<Item>)
    ensures Sum(a + ([x] + b)) == Sum(a + b) + x.size as int
  {
    SumConcat(a, [x] + b);
    SumConcat(a, b);
    assert ([x] + b)[1..] == b;
  }

  lemma PushExact(heap: seq<Item>, x: Item)
    ensures Sum(heap + [x]) == Sum(heap) + x.size as int
  {
    SumConcat(heap, [x]);
    assert [x][1..] == [];
  }

  /** top() of the chosen lists: the least valuable; of the rubbish: the most valuable. */
  method Top(heap: seq<Item>, least: bool) returns (i: nat)
    requires heap != []
    ensures i < |heap|
    ensures forall j :: 0 <= j < |heap| ==> if least then heap[i].value <= heap[j].value
              else heap[j].value <= heap[i].value
  {
    i := 0;
    var k := 1;
    while k < |heap|
      invariant 1 <= k <= |heap| && i < |heap|
      invariant forall j :: 0 <= j < k ==> if least then heap[i].value <= heap[j].value
                  else heap[j].value <= heap[i].value
    {
      if (if least then heap[k].value < heap[i].value else heap[i].value < heap[k].value) {
        i := k;
      }
      k := k + 1;
    }
  }

  /** A heap and its running total, within the budget. */
  ghost predicate Budgeted(heap: seq<Item>, total: uint32) {
    Sum(heap) == total as int && total < MAX_TOTAL_SIZE
  }

  ghost predicate AllBelow(items: seq<Item>, value: nat) {
    forall i :: 0 <= i < |items| ==> items[i].value < value
  }

  ghost predicate AllAtLeast(items: seq<Item>, value: nat) {
    forall i :: 0 <= i < |items| ==> items[i].value >= value
  }

  // ---------------------------------------------------------------- lists of at least some value

  /** The sizes of the lists of at least this value. */
  function SumFrom(items: seq<Item>, value: nat): int {
    if items == [] then 0
    else (if items[0].value >= value then items[0].size as int else 0) + SumFrom(items[1..], value)
  }

  lemma {:induction false} SumFromConcat(a: seq<Item>, b: seq<Item>, value: nat)
    ensures SumFrom(a + b, value) == SumFrom(a, value) + SumFrom(b, value)
  {
    if a == [] {
      assert a + b == b;
    } else {
      assert (a + b)[1..] == a[1..] + b;
      SumFromConcat(a[1..], b, value);
    }
  }

  lemma SumFromPush(items: seq<Item>, x: Item, value: nat)
    ensures SumFrom(items + [x], value) ==
            SumFrom(items, value) + if x.value >= value then x.size as int else 0
  {
    SumFromConcat(items, [x], value);
    assert [x][1..] == [];
  }

  lemma {:induction false} SumFromBounds(items: seq<Item>, value: nat)
    ensures 0 <= SumFrom(items, value) <= Sum(items)
  {
    if items != [] {
      SumFromBounds(items[1..], value);
    }
  }

  lemma {:induction false} SumFromAll(items: seq<Item>, value: nat)
    requires AllAtLeast(items, value)
    ensures SumFrom(items, value) == Sum(items)
  {
    if items != [] {
      SumFromAll(items[1..], value);
    }
  }

  lemma {:induction false} SumFromNone(items: seq<Item>, value: nat)
    requires AllBelow(items, value)
    ensures SumFrom(items, value) == 0
  {
    if items != [] {
      SumFromNone(items[1..], value);
    }
  }

  lemma WithoutSumFrom(items: seq<Item>, i: nat, value: nat)
    requires i < |items|
    ensures SumFrom(items, value) ==
            SumFrom(Without(items, i), value) + if items[i].value >= value then items[i].size as int else 0
  {
    SplitAt(items, i);
    SumFromConcat(items[..i], [items[i]] + items[i + 1..], value);
    SumFromConcat(items[..i], items[i + 1..], value);
    assert ([items[i]] + items[i + 1..])[1..] == items[i + 1..];
  }

  lemma BagLess(a: multiset<Item>, b: multiset<Item>, x: Item)
    requires multiset{x} + a <= b + multiset{x}
    ensures a <= b
  {
    forall y
      ensures a[y] <= b[y]
    {
      assert (multiset{x} + a)[y] <= (b + multiset{x})[y];
    }
  }

  lemma BagMore(a: multiset<Item>, b: multiset<Item>, c: multiset<Item>, x: Item)
    requires a <= b + multiset{x} && b <= c
    ensures a <= c + multiset{x}
  {
    forall y
      ensures a[y] <= (c + multiset{x})[y]
    {
      assert a[y] <= (b + multiset{x})[y] && b[y] <= c[y];
    }
  }

  /** More lists, more size; so the order of the lists does not matter. */
  lemma {:induction false} SumFromPart(part: seq<Item>, items: seq<Item>, value: nat)
    requires multiset(part) <= multiset(items)
    ensures SumFrom(part, value) <= SumFrom(items, value)
  {
    if part == [] {
      SumFromBounds(items, value);
    } else {
      assert part[0] in multiset(part) && part[0] in multiset(items);
      var i := Pos(items, part[0]);
      WithoutExact(items, i);
      WithoutSumFrom(items, i, value);
      assert part == [part[0]] + part[1..];
      BagLess(multiset(part[1..]), multiset(Without(items, i)), part[0]);
      SumFromPart(part[1..], Without(items, i), value);
    }
  }

  /** A new list is let in when it fits, or when it would beside the lists at least as valuable. */
  ghost predicate LetIn(heap: seq<Item>, x: Item) {
    Sum(heap) + x.size as int < MAX_TOTAL_SIZE as int ||
    SumFrom(heap, x.value) + x.size as int < MAX_TOTAL_SIZE as int
  }

  // ---------------------------------------------------------------- making room

  /** Every list of the one is at least as valuable as every list of the other. */
  ghost predicate Above(left: seq<Item>, rubbish: seq<Item>) {
    forall i, j :: 0 <= i < |left| && 0 <= j < |rubbish| ==> rubbish[j].value <= left[i].value
  }

  lemma AboveNext(left: seq<Item>, rubbish: seq<Item>, i: nat)
    requires Above(left, rubbish) && i < |left| && AllAtLeast(left, left[i].value)
    ensures Above(Without(left, i), rubbish + [left[i]])
  {
    var next := Without(left, i);
    forall k | 0 <= k < |next|
      ensures exists m :: 0 <= m < |left| && left[m] == next[k]
    {
      assert next[k] == left[if k < i then k else k + 1];
    }
  }

  /** Between two rounds of making room: who is left, who is gone, and that the last had to go. */
  ghost predicate Making(heap: seq<Item>, total: uint32, x: Item, left: seq<Item>, now: uint32, rubbish: seq<Item>) {
    Budgeted(left, now) && multiset(heap) == multiset(left) + multiset(rubbish) && AllBelow(rubbish, x.value) &&
    now as int + Sum(rubbish) == total as int && Above(left, rubbish) &&
    (rubbish != [] ==>
       now as int + rubbish[|rubbish| - 1].size as int + x.size as int >= MAX_TOTAL_SIZE as int)
  }

  lemma MakeNext(heap: seq<Item>, total: uint32, x: Item, left: seq<Item>, now: uint32, rubbish: seq<Item>, i: nat)
    requires Making(heap, total, x, left, now, rubbish) && now as int + x.size as int >= MAX_TOTAL_SIZE as int
    requires i < |left| && left[i].value < x.value && AllAtLeast(left, left[i].value)
    ensures left[i].size <= now
    ensures Making(heap, total, x, Without(left, i), now - left[i].size, rubbish + [left[i]])
  {
    WithoutExact(left, i);
    PushExact(rubbish, left[i]);
    AboveNext(left, rubbish, i);
    assert multiset(rubbish + [left[i]]) == multiset(rubbish) + multiset{left[i]};
  }

  /** The first loop of a displacement: less valuable lists go, the least valuable first, until the new
      one fits or the least valuable left is as valuable. It never pops an empty queue: with nothing
      chosen anything fits. */
  method MakeRoom(heap: seq<Item>, total: uint32, x: Item) returns (left: seq<Item>, now: uint32, rubbish: seq<Item>)
    requires Budgeted(heap, total) && x.size < MAX_TOTAL_SIZE
    ensures Budgeted(left, now) && multiset(heap) == multiset(left) + multiset(rubbish) && AllBelow(rubbish, x.value)
    ensures now as int + Sum(rubbish) == total as int && Above(left, rubbish)
    ensures now + x.size < MAX_TOTAL_SIZE || AllAtLeast(left, x.value)
    ensures rubbish != [] ==>
              now as int + rubbish[|rubbish| - 1].size as int + x.size as int >= MAX_TOTAL_SIZE as int
  {
    left, now, rubbish := heap, total, [];
    while now + x.size >= MAX_TOTAL_SIZE
      invariant Making(heap, total, x, left, now, rubbish)
      decreases |left|
    {
      assert left != [];
      var i := Top(left, true);
      if left[i].value >= x.value {
        break;
      }
      MakeNext(heap, total, x, left, now, rubbish, i);
      rubbish, now, left := rubbish + [left[i]], now - left[i].size, Without(left, i);
    }
  }

  /** Room is made exactly when the new list is to be let in. */
  lemma RoomExact(heap: seq<Item>, x: Item, left: seq<Item>, rubbish: seq<Item>)
    requires multiset(heap) == multiset(left) + multiset(rubbish) && AllBelow(rubbish, x.value)
    requires Sum(left) + x.size as int < MAX_TOTAL_SIZE as int || AllAtLeast(left, x.value)
    requires Sum(heap) + x.size as int >= MAX_TOTAL_SIZE as int
    ensures Sum(left) + x.size as int < MAX_TOTAL_SIZE as int <==> LetIn(heap, x)
  {
    assert multiset(left + rubbish) == multiset(heap);
    SumFromPart(left + rubbish, heap, x.value);
    SumFromPart(heap, left + rubbish, x.value);
    SumFromConcat(left, rubbish, x.value);
    SumFromNone(rubbish, x.value);
    SumFromBounds(left, x.value);
    if AllAtLeast(left, x.value) {
      SumFromAll(left, x.value);
    }
  }

  // ---------------------------------------------------------------- putting back

  /** What came back, what is left out and what is still to be looked at make up the rubbish. */
  ghost predicate Shared(rubbish: seq<Item>, back: seq<Item>, dropped: seq<Item>, rest: seq<Item>) {
    multiset(back) + multiset(dropped) + multiset(rest) == multiset(rubbish)
  }

  lemma SharedNext(rubbish: seq<Item>, back: seq<Item>, dropped: seq<Item>, rest: seq<Item>, i: nat)
    requires Shared(rubbish, back, dropped, rest) && i < |rest|
    ensures Shared(rubbish, back + [rest[i]], dropped, Without(rest, i))
    ensures Shared(rubbish, back, dropped + [rest[i]], Without(rest, i))
  {
    WithoutExact(rest, i);
    assert multiset(back + [rest[i]]) == multiset(back) + multiset{rest[i]};
    assert multiset(dropped + [rest[i]]) == multiset(dropped) + multiset{rest[i]};
  }

  lemma SharedSizes(rubbish: seq<Item>, back: seq<Item>, dropped: seq<Item>, rest: seq<Item>)
    requires Shared(rubbish, back, dropped, rest)
    requires forall i :: 0 <= i < |rubbish| ==> rubbish[i].size < MAX_TOTAL_SIZE
    ensures forall i :: 0 <= i < |rest| ==> rest[i].size < MAX_TOTAL_SIZE
  {
    SizesKept(rubbish, rest);
  }

  lemma PutDone(heap: seq<Item>, total: uint32, rubbish: seq<Item>, now: uint32, back: seq<Item>, dropped: seq<Item>)
    requires Budgeted(heap, total) && Putting(total, rubbish, now, back, dropped, [])
    ensures Budgeted(heap + back, now) && multiset(back) + multiset(dropped) == multiset(rubbish)
  {
    SumConcat(heap, back);
  }

  /** A list left out did not fit beside what came back before it, which is at least as valuable. */
  ghost predicate NoRoomFor(d: Item, total: uint32, back: seq<Item>) {
    total as int + SumFrom(back, d.value) + d.size as int >= MAX_TOTAL_SIZE as int
  }

  ghost predicate NoneFits(dropped: seq<Item>, total: uint32, back: seq<Item>) {
    forall i :: 0 <= i < |dropped| ==> NoRoomFor(dropped[i], total, back)
  }

  lemma NoneFitsLater(dropped: seq<Item>, total: uint32, back: seq<Item>, x: Item)
    requires NoneFits(dropped, total, back)
    ensures NoneFits(dropped, total, back + [x])
  {
    forall i | 0 <= i < |dropped|
      ensures NoRoomFor(dropped[i], total, back + [x])
    {
      assert NoRoomFor(dropped[i], total, back);
      SumFromPush(back, x, dropped[i].value);
    }
  }

  lemma NoneFitsNext(dropped: seq<Item>, total: uint32, back: seq<Item>, x: Item)
    requires NoneFits(dropped, total, back) && AllAtLeast(back, x.value)
    requires total as int + Sum(back) + x.size as int >= MAX_TOTAL_SIZE as int
    ensures NoneFits(dropped + [x], total, back)
  {
    SumFromAll(back, x.value);
    assert NoRoomFor(x, total, back);
  }

  /** Between two rounds of putting back: the total, who is where, and whom there was no room for. */
  ghost predicate Putting(total: uint32, rubbish: seq<Item>, now: uint32, back: seq<Item>,
                          dropped: seq<Item>, rest: seq<Item>)
  {
    now as int == total as int + Sum(back) && now < MAX_TOTAL_SIZE && Shared(rubbish, back, dropped, rest) &&
    NoneFits(dropped, total, back) && Above(back, rest) &&
    (total as int + Sum(rubbish) < MAX_TOTAL_SIZE as int ==>
       dropped == [] && now as int + Sum(rest) == total as int + Sum(rubbish))
  }

  lemma PutNext(total: uint32, rubbish: seq<Item>, now: uint32, back: seq<Item>,
                dropped: seq<Item>, rest: seq<Item>, i: nat)
    requires Putting(total, rubbish, now, back, dropped, rest) && i < |rest|
    requires forall j :: 0 <= j < |rest| ==> rest[j].value <= rest[i].value
    requires now as int + rest[i].size as int < MAX_TOTAL_SIZE as int
    ensures Putting(total, rubbish, now + rest[i].size, back + [rest[i]], dropped, Without(rest, i))
  {
    WithoutSize(rest, i);
    PushExact(back, rest[i]);
    SharedNext(rubbish, back, dropped, rest, i);
    AboveRest(back, rest, i);
    NoneFitsLater(dropped, total, back, rest[i]);
  }

  lemma DropNext(total: uint32, rubbish: seq<Item>, now: uint32, back: seq<Item>,
                 dropped: seq<Item>, rest: seq<Item>, i: nat)
    requires Putting(total, rubbish, now, back, dropped, rest) && i < |rest|
    requires forall j :: 0 <= j < |rest| ==> rest[j].value <= rest[i].value
    requires now as int + rest[i].size as int >= MAX_TOTAL_SIZE as int
    ensures Putting(total, rubbish, now, back, dropped + [rest[i]], Without(rest, i))
  {
    WithoutSize(rest, i);
    SharedNext(rubbish, back, dropped, rest, i);
    AboveRest(back, rest, i);
    NoneFitsNext(dropped, total, back, rest[i]);
  }

  /** The second loop: what was thrown out comes back while it fits, the most valuable first. */
  method PutBack(heap: seq<Item>, total: uint32, rubbish: seq<Item>)
    returns (left: seq<Item>, now: uint32, ghost back: seq<Item>, ghost dropped: seq<Item>)
    requires Budgeted(heap, total) && forall i :: 0 <= i < |rubbish| ==> rubbish[i].size < MAX_TOTAL_SIZE
    ensures Budgeted(left, now) && left == heap + back && multiset(back) + multiset(dropped) == multiset(rubbish)
    ensures NoneFits(dropped, total, back)
    ensures total as int + Sum(rubbish) < MAX_TOTAL_SIZE as int ==> dropped == []
  {
    left, now, back, dropped := heap, total, [], [];
    var rest := rubbish;
    assert heap + [] == heap;
    while rest != []
      invariant left == heap + back && Putting(total, rubbish, now, back, dropped, rest)
      decreases |rest|
    {
      SharedSizes(rubbish, back, dropped, rest);
      var i := Top(rest, false);
      if now + rest[i].size < MAX_TOTAL_SIZE {
        PutNext(total, rubbish, now, back, dropped, rest, i);
        assert heap + back + [rest[i]] == heap + (back + [rest[i]]);
        left, now, back := left + [rest[i]], now + rest[i].size, back + [rest[i]];
      } else {
        DropNext(total, rubbish, now, back, dropped, rest, i);
        dropped := dropped + [rest[i]];
      }
      rest := Without(rest, i);
    }
    PutDone(heap, total, rubbish, now, back, dropped);
  }

  lemma AboveRest(back: seq<Item>, rest: seq<Item>, i: nat)
    requires Above(back, rest) && i < |rest| && forall j :: 0 <= j < |rest| ==> rest[j].value <= rest[i].value
    ensures AllAtLeast(back, rest[i].value)
    ensures Above(back, Without(rest, i)) && Above(back + [rest[i]], Without(rest, i))
  {
    var next := Without(rest, i);
    forall k | 0 <= k < |next|
      ensures exists m :: 0 <= m < |rest| && rest[m] == next[k]
    {
      assert next[k] == rest[if k < i then k else k + 1];
    }
  }

  // ---------------------------------------------------------------- one list

  /** A dropped list did not fit beside all lists now chosen that are at least as valuable. */
  ghost predicate Displaced(d: Item, next: seq<Item>) {
    SumFrom(next, d.value) + d.size as int >= MAX_TOTAL_SIZE as int
  }

  ghost predicate AllDisplaced(dropped: seq<Item>, next: seq<Item>) {
    forall i :: 0 <= i < |dropped| ==> Displaced(dropped[i], next)
  }

  /** What is left after making room, and the new list, are more valuable than what was dropped. */
  lemma DisplacedAll(left: seq<Item>, total: uint32, back: seq<Item>, rubbish: seq<Item>, dropped: seq<Item>)
    requires Budgeted(left, total) && Above(left, rubbish) && NoneFits(dropped, total, back)
    requires multiset(dropped) <= multiset(rubbish)
    ensures AllDisplaced(dropped, left + back)
  {
    forall i | 0 <= i < |dropped|
      ensures Displaced(dropped[i], left + back)
    {
      assert NoRoomFor(dropped[i], total, back);
      assert dropped[i] in multiset(dropped) && dropped[i] in multiset(rubbish);
      assert rubbish[Pos(rubbish, dropped[i])] == dropped[i];
      assert AllAtLeast(left, dropped[i].value);
      SumFromAll(left, dropped[i].value);
      SumFromConcat(left, back, dropped[i].value);
    }
  }

  lemma AbovePush(left: seq<Item>, rubbish: seq<Item>, x: Item)
    requires Above(left, rubbish) && AllBelow(rubbish, x.value)
    ensures Above(left + [x], rubbish)
  {
  }

  /** One eligible list. It is let in exactly when it fits, or fits beside the chosen lists that are at
      least as valuable. What it displaces is less valuable, and none of it fits any more beside what
      is more valuable; if it is not let in, the choice is as before. */
  method Consider(heap: seq<Item>, total: uint32, x: Item)
    returns (next: seq<Item>, now: uint32, ghost dropped: seq<Item>)
    requires Budgeted(heap, total) && x.size < MAX_TOTAL_SIZE &&
             forall i :: 0 <= i < |heap| ==> heap[i].size < MAX_TOTAL_SIZE
    ensures Budgeted(next, now)
    ensures LetIn(heap, x) ==> multiset(next) + multiset(dropped) == multiset(heap) + multiset{x}
    ensures !LetIn(heap, x) ==> multiset(next) == multiset(heap) && dropped == []
    ensures AllBelow(dropped, x.value) && AllDisplaced(dropped, next)
    ensures Sum(heap) + x.size as int < MAX_TOTAL_SIZE as int ==> dropped == []
  {
    next, now, dropped := heap, total, [];
    if x.size + total < MAX_TOTAL_SIZE {
      PushExact(heap, x);
      next, now := heap + [x], total + x.size;
      return;
    }
    if heap == [] {
      return;
    }
    var i := Top(heap, true);
    if x.value > heap[i].value {
      next, now, dropped := Displace(heap, total, x);
    } else {
      SumFromAll(heap, x.value);
    }
  }

  /** The displacement: room is made, the new list goes in if it fits then, and what was thrown out
      comes back while it fits. */
  method Displace(heap: seq<Item>, total: uint32, x: Item)
    returns (next: seq<Item>, now: uint32, ghost dropped: seq<Item>)
    requires Budgeted(heap, total) && x.size < MAX_TOTAL_SIZE &&
             forall i :: 0 <= i < |heap| ==> heap[i].size < MAX_TOTAL_SIZE
    requires Sum(heap) + x.size as int >= MAX_TOTAL_SIZE as int
    ensures Budgeted(next, now)
    ensures LetIn(heap, x) ==> multiset(next) + multiset(dropped) == multiset(heap) + multiset{x}
    ensures !LetIn(heap, x) ==> multiset(next) == multiset(heap) && dropped == []
    ensures AllBelow(dropped, x.value) && AllDisplaced(dropped, next)
  {
    var left, room, rubbish := MakeRoom(heap, total, x);
    SizesKept(heap, rubbish);
    RoomExact(heap, x, left, rubbish);
    if room + x.size < MAX_TOTAL_SIZE {
      PushExact(left, x);
      AbovePush(left, rubbish, x);
      left, room := left + [x], room + x.size;
    }
    ghost var back;
    next, now, back, dropped := PutBack(left, room, rubbish);
    PartBelow(dropped, rubbish, x.value);
    DisplacedAll(left, room, back, rubbish, dropped);
  }

  lemma PartBelow(part: seq<Item>, items: seq<Item>, value: nat)
    requires multiset(part) <= multiset(items) && AllBelow(items, value)
    ensures AllBelow(part, value)
  {
    forall i | 0 <= i < |part|
      ensures part[i].value < value
    {
      assert part[i] in multiset(part) && part[i] in multiset(items);
      assert items[Pos(items, part[i])] == part[i];
    }
  }

  lemma SizesKept(heap: seq<Item>, part: seq<Item>)
    requires multiset(part) <= multiset(heap) && forall i :: 0 <= i < |heap| ==> heap[i].size < MAX_TOTAL_SIZE
    ensures forall i :: 0 <= i < |part| ==> part[i].size < MAX_TOTAL_SIZE
  {
    forall i | 0 <= i < |part|
      ensures part[i].size < MAX_TOTAL_SIZE
    {
      assert part[i] in multiset(part) && part[i] in multiset(heap);
      assert heap[Pos(heap, part[i])] == part[i];
    }
  }

  // ---------------------------------------------------------------- all predicates

  /** A list that may be cached: representable, long, within the budget by itself, and used. */
  predicate Eligible(size: nat, num: nat, isLong: uint32 -> bool) {
    size <= 0x8000_0000 && isLong(size as uint32) && size < MAX_TOTAL_SIZE as int && num != 0
  }

  function EligibleItems(sizes: seq<nat>, nums: seq<nat>, isLong: uint32 -> bool, n: nat): seq<Item>
    requires n <= |sizes| == |nums|
  {
    if n == 0 then []
    else
      EligibleItems(sizes, nums, isLong, n - 1) +
      if Eligible(sizes[n - 1], nums[n - 1], isLong) then [Item(n - 1, sizes[n - 1] as uint32, nums[n - 1])] else []
  }

  lemma {:induction false} EligibleSizes(sizes: seq<nat>, nums: seq<nat>, isLong: uint32 -> bool, n: nat)
    requires n <= |sizes| == |nums|
    ensures forall i :: 0 <= i < |EligibleItems(sizes, nums, isLong, n)| ==>
              EligibleItems(sizes, nums, isLong, n)[i].size < MAX_TOTAL_SIZE
  {
    if n > 0 {
      EligibleSizes(sizes, nums, isLong, n - 1);
    }
  }

  lemma EligibleNext(sizes: seq<nat>, nums: seq<nat>, isLong: uint32 -> bool, n: nat)
    requires n < |sizes| == |nums|
    ensures EligibleItems(sizes, nums, isLong, n + 1) ==
            if Eligible(sizes[n], nums[n], isLong)
                then EligibleItems(sizes, nums, isLong, n) + [Item(n, sizes[n] as uint32, nums[n])]
            else EligibleItems(sizes, nums, isLong, n)
  {
    assert EligibleItems(sizes, nums, isLong, n) + [] == EligibleItems(sizes, nums, isLong, n);
  }

  /** The list fits together with all lists that are at least as valuable. */
  ghost predicate Secure(items: seq<Item>, x: Item) {
    SumFrom(items, x.value) < MAX_TOTAL_SIZE as int
  }

  /** The choice so far: within budget, of eligible lists only, each as often as it is there, and every
      list that fits together with all lists at least as valuable, whatever the order they came in. */
  ghost predicate Chosen(heap: seq<Item>, total: uint32, items: seq<Item>) {
    Budgeted(heap, total) && multiset(heap) <= multiset(items) &&
    forall x :: x in items && Secure(items, x) ==> multiset(heap)[x] == multiset(items)[x]
  }

  /** A secure list was let in, and nothing displaces it. */
  lemma SecureKept(heap: seq<Item>, items: seq<Item>, x: Item, next: seq<Item>, dropped: seq<Item>, y: Item)
    requires multiset(heap) <= multiset(items) && multiset(next) <= multiset(heap) + multiset{x}
    requires AllDisplaced(dropped, next) && multiset(next) + multiset(dropped) == multiset(heap) + multiset{x}
    requires Secure(items + [x], y)
    ensures y !in dropped
  {
    if y in dropped {
      assert Displaced(dropped[Pos(dropped, y)], next);
      WithDropped(heap, items, x, next, dropped, y);
    }
  }

  lemma WithDropped(heap: seq<Item>, items: seq<Item>, x: Item, next: seq<Item>, dropped: seq<Item>, y: Item)
    requires multiset(heap) <= multiset(items) && y in dropped
    requires multiset(next) + multiset(dropped) == multiset(heap) + multiset{x}
    ensures SumFrom(next, y.value) + y.size as int <= SumFrom(items + [x], y.value)
  {
    assert y in multiset(dropped) && multiset{y} <= multiset(dropped);
    assert multiset(next + [y]) == multiset(next) + multiset{y};
    assert multiset(items + [x]) == multiset(items) + multiset{x};
    SumFromPush(next, y, y.value);
    BagMore(multiset(next + [y]), multiset(heap), multiset(items), x);
    SumFromPart(next + [y], items + [x], y.value);
  }

  lemma SecureLetIn(heap: seq<Item>, items: seq<Item>, x: Item)
    requires multiset(heap) <= multiset(items) && Secure(items + [x], x)
    ensures LetIn(heap, x)
  {
    SumFromPush(items, x, x.value);
    SumFromPart(heap, items, x.value);
  }

  lemma SecureBefore(items: seq<Item>, x: Item, y: Item)
    requires Secure(items + [x], y)
    ensures Secure(items, y)
  {
    SumFromPush(items, x, y.value);
  }

  lemma ChosenNext(heap: seq<Item>, total: uint32, items: seq<Item>, x: Item, next: seq<Item>, now: uint32,
                   dropped: seq<Item>)
    requires Chosen(heap, total, items) && Budgeted(next, now)
    requires LetIn(heap, x) ==> multiset(next) + multiset(dropped) == multiset(heap) + multiset{x}
    requires !LetIn(heap, x) ==> multiset(next) == multiset(heap) && dropped == []
    requires AllDisplaced(dropped, next)
    ensures Chosen(next, now, items + [x])
  {
    assert multiset(items + [x]) == multiset(items) + multiset{x};
    BagMore(multiset(next), multiset(heap), multiset(items), x);
    forall y | y in items + [x] && Secure(items + [x], y)
      ensures multiset(next)[y] == multiset(items + [x])[y]
    {
      SecureBefore(items, x, y);
      if y == x {
        SecureLetIn(heap, items, x);
      }
      if LetIn(heap, x) {
        SecureKept(heap, items, x, next, dropped, y);
        assert multiset(dropped)[y] == 0;
      }
      assert y in items ==> multiset(heap)[y] == multiset(items)[y];
      assert y !in items ==> multiset(items)[y] == 0 && multiset(heap)[y] == 0;
    }
  }

  method Take(heap: seq<Item>, total: uint32, x: Item, ghost items: seq<Item>) returns (next: seq<Item>, now: uint32)
    requires Chosen(heap, total, items) && x.size < MAX_TOTAL_SIZE
    requires forall i :: 0 <= i < |items| ==> items[i].size < MAX_TOTAL_SIZE
    ensures Chosen(next, now, items + [x])
  {
    SizesKept(items, heap);
    ghost var dropped;
    next, now, dropped := Consider(heap, total, x);
    ChosenNext(heap, total, items, x, next, now, dropped);
  }

  /** When all eligible lists fit together, all are chosen. */
  lemma AllChosen(heap: seq<Item>, total: uint32, items: seq<Item>)
    requires Chosen(heap, total, items) && Sum(items) < MAX_TOTAL_SIZE as int
    ensures multiset(heap) == multiset(items)
  {
    forall x
      ensures multiset(heap)[x] == multiset(items)[x]
    {
      SumFromBounds(items, x.value);
      if x !in items {
        assert x !in multiset(items);
      }
    }
  }

  /** The list of an eligible key below a bound, with its size and its value. */
  predicate EligibleItem(sizes: seq<nat>, nums: seq<nat>, isLong: uint32 -> bool, n: nat, x: Item)
    requires n <= |sizes| == |nums|
  {
    x.key < n && Eligible(sizes[x.key], nums[x.key], isLong) &&
    x.size as int == sizes[x.key] && x.value == nums[x.key]
  }

  lemma PushedCount(items: seq<Item>, y: Item, x: Item)
    ensures Count(items + [y], x) == Count(items, x) + if x == y then 1 else 0
  {
    CountConcat(items, [y], x);
    assert [y][1..] == [];
  }

  lemma EligibleOne(sizes: seq<nat>, nums: seq<nat>, isLong: uint32 -> bool, n: nat, x: Item)
    requires n < |sizes| == |nums|
    ensures EligibleItem(sizes, nums, isLong, n + 1, x) <==>
            EligibleItem(sizes, nums, isLong, n, x) ||
            (Eligible(sizes[n], nums[n], isLong) && x == Item(n, sizes[n] as uint32, nums[n]))
  {
  }

  /** Each eligible list once, under its key. */
  lemma {:induction false} EligibleExact(sizes: seq<nat>, nums: seq<nat>, isLong: uint32 -> bool, n: nat, x: Item)
    requires n <= |sizes| == |nums|
    ensures Count(EligibleItems(sizes, nums, isLong, n), x) ==
            if EligibleItem(sizes, nums, isLong, n, x) then 1 else 0
  {
    if n > 0 {
      EligibleExact(sizes, nums, isLong, n - 1, x);
      EligibleNext(sizes, nums, isLong, n - 1);
      EligibleOne(sizes, nums, isLong, n - 1, x);
      if Eligible(sizes[n - 1], nums[n - 1], isLong) {
        PushedCount(EligibleItems(sizes, nums, isLong, n - 1), Item(n - 1, sizes[n - 1] as uint32, nums[n - 1]), x);
      }
    }
  }

  /** get_candidate_preID: the chosen lists are eligible ones that fit the budget together, and every
      eligible list that fits together with all eligible lists at least as valuable is chosen. */
  method GetCandidatePreID(sizes: seq<nat>, nums: seq<nat>, isLong: uint32 -> bool)
    returns (chosen: seq<Item>, total: uint32)
    requires |nums| == |sizes|
    ensures Chosen(chosen, total, EligibleItems(sizes, nums, isLong, |sizes|))
  {
    chosen, total := [], 0;
    var i := 0;
    while i < |sizes|
      invariant 0 <= i <= |sizes| && Chosen(chosen, total, EligibleItems(sizes, nums, isLong, i))
    {
      EligibleNext(sizes, nums, isLong, i);
      if sizes[i] > 0x8000_0000 {
        i := i + 1;
        continue;
      }
      var size := sizes[i] as uint32;
      if !isLong(size) || size >= MAX_TOTAL_SIZE || nums[i] == 0 {
        i := i + 1;
        continue;
      }
      EligibleSizes(sizes, nums, isLong, i);
      chosen, total := Take(chosen, total, Item(i, size, nums[i]), EligibleItems(sizes, nums, isLong, i));
      i := i + 1;
    }
  }
}

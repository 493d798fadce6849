/** Triples, triple patterns and the id lists the key-value store returns for them.

    A solution of a basic graph pattern follows section 18.3.1 of SPARQL 1.1 Query:
    a mapping of its variables under which every pattern is a triple of the graph. */
module Rdf {
  import opened Collections

  type Id = nat

  datatype Triple = Triple(s: Id, p: Id, o: Id)

  type Graph = set<Triple>

  /** One component of a pattern. `Any` is a component nothing else refers to:
      an unselected variable of degree one, or one a join method does not look at. */
  datatype Item = Variable(v: nat) | Constant(id: Id) | Any

  datatype Pattern = Pattern(s: Item, p: Item, o: Item)

  /** A solution mapping. */
  type Binding = map<nat, Id>

  datatype Slot = S | P | O

  function Get(t: Triple, k: Slot): Id {
    match k case S => t.s case P => t.p case O => t.o
  }

  function Part(e: Pattern, k: Slot): Item {
    match k case S => e.s case P => e.p case O => e.o
  }

  function With(e: Pattern, k: Slot, x: Item): Pattern {
    match k case S => e.(s := x) case P => e.(p := x) case O => e.(o := x)
  }

  function ItemVars(x: Item): set<nat> {
    if x.Variable? then {x.v} else {}
  }

  function PatternVars(e: Pattern): set<nat> {
    ItemVars(e.s) + ItemVars(e.p) + ItemVars(e.o)
  }

  predicate Fits(x: Item, mu: Binding, id: Id) {
    match x
    case Variable(v) => v in mu && mu[v] == id
    case Constant(c) => c == id
    case Any => true
  }

  predicate Matches(e: Pattern, mu: Binding, t: Triple) {
    Fits(e.s, mu, t.s) && Fits(e.p, mu, t.p) && Fits(e.o, mu, t.o)
  }

  ghost predicate Holds(g: Graph, e: Pattern, mu: Binding) {
    exists t :: t in g && Matches(e, mu, t)
  }

  ghost predicate AllHold(g: Graph, q: set<Pattern>, mu: Binding) {
    forall e :: e in q ==> Holds(g, e, mu)
  }

  /** Only the variables of a pattern matter for it. */
  lemma HoldsLocal(g: Graph, e: Pattern, mu: Binding, nu: Binding)
    requires forall v :: v in PatternVars(e) ==> v in mu && v in nu && mu[v] == nu[v]
    ensures Holds(g, e, mu) == Holds(g, e, nu)
  {
    assert forall t :: Matches(e, mu, t) == Matches(e, nu, t);
  }

  // ---------------------------------------------------------------- store lookups

  function Third(a: Slot, b: Slot): (c: Slot)
    requires a != b
    ensures c != a && c != b
  {
    if a != S && b != S then S else if a != P && b != P then P else O
  }

  /** get...IDlistBy...ID...ID: the ids at `target` of the triples with both given ids. */
  function List2(g: Graph, k1: Slot, a: Id, k2: Slot, b: Id, target: Slot): seq<Id> {
    SortedSeq(List2Set(g, k1, a, k2, b, target))
  }

  function List2Set(g: Graph, k1: Slot, a: Id, k2: Slot, b: Id, target: Slot): set<Id> {
    set t | t in g && Get(t, k1) == a && Get(t, k2) == b :: Get(t, target)
  }

  /** Some triple has these two ids at these two places, and this one at `target`. */
  ghost predicate Has2(g: Graph, k1: Slot, a: Id, k2: Slot, b: Id, target: Slot, c: Id) {
    exists t :: t in g && Get(t, k1) == a && Get(t, k2) == b && Get(t, target) == c
  }

  ghost predicate Has1(g: Graph, k: Slot, a: Id, target: Slot, c: Id) {
    exists t :: t in g && Get(t, k) == a && Get(t, target) == c
  }

  lemma List2Member(g: Graph, k1: Slot, a: Id, k2: Slot, b: Id, target: Slot, c: Id)
    ensures c in List2(g, k1, a, k2, b, target) <==> Has2(g, k1, a, k2, b, target, c)
  {
    SortedSeqMember(List2Set(g, k1, a, k2, b, target), c);
    assert c in List2Set(g, k1, a, k2, b, target) <==> Has2(g, k1, a, k2, b, target, c);
  }

  /** The lists List2 gives for each id at `third`, one after another: the stored layout of a key. */
  function Spread(g: Graph, k: Slot, a: Id, third: Slot, target: Slot, xs: seq<Id>): seq<Id> {
    if xs == [] then []
    else List2(g, k, a, third, xs[0], target) + Spread(g, k, a, third, target, xs[1..])
  }

  lemma {:induction false} SpreadMember(g: Graph, k: Slot, a: Id, third: Slot, target: Slot, xs: seq<Id>, c: Id)
    ensures c in Spread(g, k, a, third, target, xs) <==>
            exists x :: x in xs && Has2(g, k, a, third, x, target, c)
  {
    if xs != [] {
      SpreadMember(g, k, a, third, target, xs[1..], c);
      List2Member(g, k, a, third, xs[0], target, c);
      assert xs == [xs[0]] + xs[1..];
    }
  }

  function List1Set(g: Graph, k: Slot, a: Id, target: Slot): set<Id> {
    set t | t in g && Get(t, k) == a :: Get(t, target)
  }

  /** get...IDlistBy...ID: the ids at `target` of the triples with the given id. Predicate
      lists never repeat an id; the others do, once per triple, unless `distinct`. */
  function List1(g: Graph, k: Slot, a: Id, target: Slot, distinct: bool): seq<Id>
    requires k != target
  {
    if distinct || target == P then SortedSeq(List1Set(g, k, a, target))
    else
      var third := Third(k, target);
      Sort(Spread(g, k, a, third, target, SortedSeq(List1Set(g, k, a, third))))
  }

  lemma List1Member(g: Graph, k: Slot, a: Id, target: Slot, distinct: bool, c: Id)
    requires k != target
    ensures c in List1(g, k, a, target, distinct) <==> Has1(g, k, a, target, c)
  {
    if distinct || target == P {
      SortedSeqMember(List1Set(g, k, a, target), c);
      assert c in List1Set(g, k, a, target) <==> Has1(g, k, a, target, c);
    } else {
      var third := Third(k, target);
      var xs := SortedSeq(List1Set(g, k, a, third));
      SortMember(Spread(g, k, a, third, target, xs), c);
      SpreadMember(g, k, a, third, target, xs, c);
      if Has1(g, k, a, target, c) {
        var t :| t in g && Get(t, k) == a && Get(t, target) == c;
        SortedSeqMember(List1Set(g, k, a, third), Get(t, third));
        assert Get(t, third) in List1Set(g, k, a, third) && Has2(g, k, a, third, Get(t, third), target, c);
      }
    }
  }

  /** The triples with these ids at two places. */
  ghost function TriplesWith(g: Graph, k: Slot, a: Id, target: Slot, c: Id): set<Triple> {
    set t | t in g && Get(t, k) == a && Get(t, target) == c
  }

  /** Those whose id at the third place is one of these. */
  ghost function TriplesOver(g: Graph, k: Slot, a: Id, target: Slot, c: Id, third: Slot, xs: seq<Id>): set<Triple> {
    set t | t in TriplesWith(g, k, a, target, c) && Get(t, third) in xs
  }

  lemma CountIncreasing(s: seq<Id>, c: Id)
    requires Increasing(s)
    ensures Count(s, c) == if c in s then 1 else 0
  {
    CountNone(s, c);
    CountBag(s, c);
    OccursOnce(s, c);
  }

  /** Ids at all three places leave one triple. */
  lemma OneTripleOver(g: Graph, k: Slot, a: Id, target: Slot, c: Id, third: Slot, x: Id)
    requires k != target && third == Third(k, target)
    ensures |TriplesOver(g, k, a, target, c, third, [x])| == if Has2(g, k, a, third, x, target, c) then 1 else 0
  {
    var ts := TriplesOver(g, k, a, target, c, third, [x]);
    if Has2(g, k, a, third, x, target, c) {
      var t :| t in g && Get(t, k) == a && Get(t, third) == x && Get(t, target) == c;
      forall u | u in ts
        ensures u == t
      {
        assert Get(u, S) == Get(t, S) && Get(u, P) == Get(t, P) && Get(u, O) == Get(t, O);
      }
      assert t in ts;
      assert ts == {t};
    } else {
      assert ts == {};
    }
  }

  lemma SplitSize(all: set<Triple>, a: set<Triple>, b: set<Triple>)
    requires (forall t :: t in all <==> t in a || t in b) && a !! b
    ensures |all| == |a| + |b|
  {
    assert all == a + b;
  }

  lemma OverSplit(g: Graph, k: Slot, a: Id, target: Slot, c: Id, third: Slot, xs: seq<Id>)
    requires xs != [] && Increasing(xs)
    ensures |TriplesOver(g, k, a, target, c, third, xs)| ==
            |TriplesOver(g, k, a, target, c, third, [xs[0]])| + |TriplesOver(g, k, a, target, c, third, xs[1..])|
  {
    var x, rest := xs[0], xs[1..];
    forall y
      ensures y in xs <==> y == x || y in rest
    {
      assert xs == [x] + rest;
    }
    assert forall i :: 0 <= i < |rest| ==> x < rest[i];
    SplitSize(TriplesOver(g, k, a, target, c, third, xs), TriplesOver(g, k, a, target, c, third, [x]),
              TriplesOver(g, k, a, target, c, third, rest));
  }

  lemma List2Count(g: Graph, k1: Slot, a: Id, k2: Slot, b: Id, target: Slot, c: Id)
    ensures Count(List2(g, k1, a, k2, b, target), c) == if Has2(g, k1, a, k2, b, target, c) then 1 else 0
  {
    SortedSeqIncreasing(List2Set(g, k1, a, k2, b, target));
    CountIncreasing(List2(g, k1, a, k2, b, target), c);
    List2Member(g, k1, a, k2, b, target, c);
  }

  lemma {:induction false} SpreadCount(g: Graph, k: Slot, a: Id, third: Slot, target: Slot, xs: seq<Id>, c: Id)
    requires k != target && third == Third(k, target) && Increasing(xs)
    ensures Count(Spread(g, k, a, third, target, xs), c) == |TriplesOver(g, k, a, target, c, third, xs)|
  {
    if xs == [] {
      assert TriplesOver(g, k, a, target, c, third, xs) == {};
    } else {
      SpreadCount(g, k, a, third, target, xs[1..], c);
      CountConcat(List2(g, k, a, third, xs[0], target), Spread(g, k, a, third, target, xs[1..]), c);
      List2Count(g, k, a, third, xs[0], target, c);
      OneTripleOver(g, k, a, target, c, third, xs[0]);
      OverSplit(g, k, a, target, c, third, xs);
    }
  }

  /** A list asked for one id, not distinct and not of predicates, has an id once per triple; every
      other list has it once. */
  lemma List1Count(g: Graph, k: Slot, a: Id, target: Slot, distinct: bool, c: Id)
    requires k != target
    ensures Count(List1(g, k, a, target, distinct), c) ==
            if !distinct && target != P then |TriplesWith(g, k, a, target, c)|
            else if Has1(g, k, a, target, c) then 1 else 0
  {
    if distinct || target == P {
      SortedSeqIncreasing(List1Set(g, k, a, target));
      CountIncreasing(List1(g, k, a, target, distinct), c);
      List1Member(g, k, a, target, distinct, c);
    } else {
      var third := Third(k, target);
      var xs := SortedSeq(List1Set(g, k, a, third));
      var spread := Spread(g, k, a, third, target, xs);
      SortBag(spread);
      CountBag(spread, c);
      CountBag(Sort(spread), c);
      SortedSeqIncreasing(List1Set(g, k, a, third));
      SpreadCount(g, k, a, third, target, xs, c);
      forall t | t in TriplesWith(g, k, a, target, c)
        ensures Get(t, third) in xs
      {
        SortedSeqMember(List1Set(g, k, a, third), Get(t, third));
      }
      assert TriplesOver(g, k, a, target, c, third, xs) == TriplesWith(g, k, a, target, c);
    }
  }

  function Prefixed(x: Id, ys: seq<Id>): (r: seq<seq<Id>>)
    ensures |r| == |ys|
  {
    seq(|ys|, i requires 0 <= i < |ys| => [x, ys[i]])
  }

  lemma PrefixedMember(x: Id, ys: seq<Id>, c: seq<Id>)
    ensures c in Prefixed(x, ys) <==> |c| == 2 && c[0] == x && c[1] in ys
  {
    if |c| == 2 && c[0] == x && c[1] in ys {
      assert Prefixed(x, ys)[Pos(ys, c[1])] == c;
    }
  }

  function PairsFrom(g: Graph, k: Slot, a: Id, first: Slot, second: Slot, xs: seq<Id>): seq<seq<Id>> {
    if xs == [] then []
    else Prefixed(xs[0], List2(g, k, a, first, xs[0], second)) + PairsFrom(g, k, a, first, second, xs[1..])
  }

  /** get...ID...IDlistBy...ID: the pairs at the other two places, ordered by the first. */
  function Pairs(g: Graph, k: Slot, a: Id, first: Slot, second: Slot): seq<seq<Id>> {
    PairsFrom(g, k, a, first, second, SortedSeq(List1Set(g, k, a, first)))
  }

  lemma {:induction false} PairsFromMember(g: Graph, k: Slot, a: Id, first: Slot, second: Slot, xs: seq<Id>, c: seq<Id>)
    ensures c in PairsFrom(g, k, a, first, second, xs) <==>
            |c| == 2 && c[0] in xs && Has2(g, k, a, first, c[0], second, c[1])
  {
    if xs != [] {
      var ys := List2(g, k, a, first, xs[0], second);
      PairsFromMember(g, k, a, first, second, xs[1..], c);
      PrefixedMember(xs[0], ys, c);
      if |c| == 2 { List2Member(g, k, a, first, xs[0], second, c[1]); }
      assert xs == [xs[0]] + xs[1..];
    }
  }

  lemma PrefixedNoDup(x: Id, ys: seq<Id>)
    requires Increasing(ys)
    ensures NoDup(Prefixed(x, ys))
  {
    forall i, j | 0 <= i < j < |ys|
      ensures Prefixed(x, ys)[i] != Prefixed(x, ys)[j]
    {
      assert Prefixed(x, ys)[i][1] < Prefixed(x, ys)[j][1];
    }
  }

  lemma {:induction false} PairsFromNoDup(g: Graph, k: Slot, a: Id, first: Slot, second: Slot, xs: seq<Id>)
    requires Increasing(xs)
    ensures NoDup(PairsFrom(g, k, a, first, second, xs))
  {
    if xs != [] {
      var ys := List2(g, k, a, first, xs[0], second);
      var here, rest := Prefixed(xs[0], ys), PairsFrom(g, k, a, first, second, xs[1..]);
      PairsFromNoDup(g, k, a, first, second, xs[1..]);
      SortedSeqIncreasing(List2Set(g, k, a, first, xs[0], second));
      PrefixedNoDup(xs[0], ys);
      forall c | c in here
        ensures c !in rest
      {
        PrefixedMember(xs[0], ys, c);
        PairsFromMember(g, k, a, first, second, xs[1..], c);
      }
      NoDupSplit(here, rest);
    }
  }

  /** Exactly the pairs of ids of the triples with the given id, none twice. */
  lemma PairsExact(g: Graph, k: Slot, a: Id, first: Slot, second: Slot, c: seq<Id>)
    ensures c in Pairs(g, k, a, first, second) <==> |c| == 2 && Has2(g, k, a, first, c[0], second, c[1])
  {
    var xs := SortedSeq(List1Set(g, k, a, first));
    PairsFromMember(g, k, a, first, second, xs, c);
    if |c| == 2 && Has2(g, k, a, first, c[0], second, c[1]) {
      assert c[0] in List1Set(g, k, a, first);
      SortedSeqMember(List1Set(g, k, a, first), c[0]);
    }
  }

  lemma PairsLength(g: Graph, k: Slot, a: Id, first: Slot, second: Slot)
    ensures forall i :: 0 <= i < |Pairs(g, k, a, first, second)| ==> |Pairs(g, k, a, first, second)[i]| == 2
  {
    forall i | 0 <= i < |Pairs(g, k, a, first, second)|
      ensures |Pairs(g, k, a, first, second)[i]| == 2
    {
      PairsExact(g, k, a, first, second, Pairs(g, k, a, first, second)[i]);
    }
  }

  lemma PairsNoDup(g: Graph, k: Slot, a: Id, first: Slot, second: Slot)
    ensures NoDup(Pairs(g, k, a, first, second))
  {
    SortedSeqIncreasing(List1Set(g, k, a, first));
    PairsFromNoDup(g, k, a, first, second, SortedSeq(List1Set(g, k, a, first)));
  }

  // ---------------------------------------------------------------- join methods

  /** How one edge yields candidates for one node: the ids it is given, then the one it lists. */
  datatype JoinMethod = S2P | S2O | P2S | P2O | O2S | O2P | SO2P | SP2O | PO2S

  /** The place a method lists. */
  function Target(m: JoinMethod): Slot {
    match m
    case S2P => P case O2P => P case SO2P => P
    case S2O => O case P2O => O case SP2O => O
    case P2S => S case O2S => S case PO2S => S
  }

  predicate TwoGiven(m: JoinMethod) {
    m.SO2P? || m.SP2O? || m.PO2S?
  }

  /** The first given place, and the second (equal to the first when only one is given). */
  function Given(m: JoinMethod): (Slot, Slot) {
    match m
    case S2P => (S, S) case S2O => (S, S) case P2S => (P, P) case P2O => (P, P) case O2S => (O, O) case O2P => (O, O)
    case SO2P => (S, O) case SP2O => (S, P) case PO2S => (P, O)
  }

  /** The edge as the method sees it: a place it neither is given nor lists does not matter. */
  function Seen(e: Pattern, m: JoinMethod): Pattern {
    if TwoGiven(m) then e else With(e, Third(Given(m).0, Target(m)), Any)
  }

  predicate Ground(x: Item, mu: Binding) {
    x.Constant? || (x.Variable? && x.v in mu)
  }

  function Val(x: Item, mu: Binding): Id
    requires Ground(x, mu)
  {
    if x.Constant? then x.id else mu[x.v]
  }

  predicate Ready(e: Pattern, m: JoinMethod, mu: Binding) {
    Ground(Part(e, Given(m).0), mu) && Ground(Part(e, Given(m).1), mu)
  }

  /** The candidate list one edge gives, by its join method. */
  function EdgeList(g: Graph, e: Pattern, m: JoinMethod, mu: Binding, distinct: bool): seq<Id>
    requires Ready(e, m, mu)
  {
    var (k1, k2) := Given(m);
    if TwoGiven(m) then List2(g, k1, Val(Part(e, k1), mu), k2, Val(Part(e, k2), mu), Target(m))
    else List1(g, k1, Val(Part(e, k1), mu), Target(m), distinct)
  }

  /** An edge's list holds exactly the ids that complete it to a triple of the graph. */
  lemma EdgeListMember(g: Graph, e: Pattern, m: JoinMethod, mu: Binding, distinct: bool, c: Id)
    requires Ready(e, m, mu)
    ensures c in EdgeList(g, e, m, mu, distinct) <==> Holds(g, With(Seen(e, m), Target(m), Constant(c)), mu)
  {
    var (k1, k2) := Given(m);
    var a, b := Val(Part(e, k1), mu), Val(Part(e, k2), mu);
    if TwoGiven(m) {
      List2Member(g, k1, a, k2, b, Target(m), c);
    } else {
      List1Member(g, k1, a, Target(m), distinct, c);
    }
    forall t
      ensures Matches(With(Seen(e, m), Target(m), Constant(c)), mu, t) <==>
              Get(t, k1) == a && Get(t, k2) == b && Get(t, Target(m)) == c
    {
    }
  }

  /** No id is listed twice when the list is asked distinct, lists predicates, or two ids are given. */
  lemma EdgeListIncreasing(g: Graph, e: Pattern, m: JoinMethod, mu: Binding, distinct: bool)
    requires Ready(e, m, mu)
    requires distinct || TwoGiven(m) || Target(m) == P
    ensures Increasing(EdgeList(g, e, m, mu, distinct))
  {
    var (k1, k2) := Given(m);
    var a, b := Val(Part(e, k1), mu), Val(Part(e, k2), mu);
    SortedSeqIncreasing(if TwoGiven(m) then List2Set(g, k1, a, k2, b, Target(m)) else List1Set(g, k1, a, Target(m)));
  }

  lemma EdgeListOrdered(g: Graph, e: Pattern, m: JoinMethod, mu: Binding, distinct: bool)
    requires Ready(e, m, mu)
    ensures Ordered(EdgeList(g, e, m, mu, distinct))
  {
    if distinct || TwoGiven(m) || Target(m) == P {
      EdgeListIncreasing(g, e, m, mu, distinct);
    } else {
      var k, a := Given(m).0, Val(Part(e, Given(m).0), mu);
      var third := Third(k, Target(m));
      SortOrdered(Spread(g, k, a, third, Target(m), SortedSeq(List1Set(g, k, a, third))));
    }
  }
}

/** How often a candidate comes: once per triple of the edge that has fewest, where repeated ids are
    listed at all. */
module CandidateCounts {
  import opened Collections
  import opened Rdf
  import opened Tables
  import opened IdLists

  /** The triples that complete an edge with this id at the place it lists. */
  ghost function Completing(g: Graph, e: Pattern, m: JoinMethod, mu: Binding, c: Id): set<Triple> {
    set t | t in g && Matches(With(Seen(e, m), Target(m), Constant(c)), mu, t)
  }

  /** Whether a method lists an id once per triple. */
  predicate Repeats(m: JoinMethod, distinct: bool) {
    !distinct && !TwoGiven(m) && Target(m) != P
  }

  lemma CompletingGiven(g: Graph, e: Pattern, m: JoinMethod, mu: Binding, c: Id)
    requires Ready(e, m, mu) && !TwoGiven(m)
    ensures Completing(g, e, m, mu, c) == TriplesWith(g, Given(m).0, Val(Part(e, Given(m).0), mu), Target(m), c)
  {
    var k, a := Given(m).0, Val(Part(e, Given(m).0), mu);
    forall t
      ensures Matches(With(Seen(e, m), Target(m), Constant(c)), mu, t) <==> Get(t, k) == a && Get(t, Target(m)) == c
    {
    }
  }

  /** An edge lists an id as often as triples complete it, or once if any does. */
  lemma EdgeListCount(g: Graph, e: Pattern, m: JoinMethod, mu: Binding, distinct: bool, c: Id)
    requires Ready(e, m, mu)
    ensures Count(EdgeList(g, e, m, mu, distinct), c) ==
            if Repeats(m, distinct) then |Completing(g, e, m, mu, c)|
            else if Holds(g, With(Seen(e, m), Target(m), Constant(c)), mu) then 1 else 0
  {
    if Repeats(m, distinct) {
      CompletingGiven(g, e, m, mu, c);
      List1Count(g, Given(m).0, Val(Part(e, Given(m).0), mu), Target(m), distinct, c);
    } else {
      EdgeListIncreasing(g, e, m, mu, distinct);
      CountIncreasing(EdgeList(g, e, m, mu, distinct), c);
      EdgeListMember(g, e, m, mu, distinct, c);
    }
  }

  /** The edge lists the id at least n times. */
  ghost predicate ListsTimes(g: Graph, e: Edge, mu: Binding, distinct: bool, c: Id, n: nat) {
    Ready(e.pat, e.how, mu) && Count(EdgeList(g, e.pat, e.how, mu, distinct), c) >= n
  }

  lemma {:induction false} MeetFromCount(g: Graph, acc: seq<Id>, edges: seq<Edge>, mu: Binding, distinct: bool, c: Id,
                                         n: nat)
    requires EdgesReady(edges, mu) && Ordered(acc)
    ensures Ordered(MeetFrom(g, acc, edges, mu, distinct))
    ensures Count(MeetFrom(g, acc, edges, mu, distinct), c) >= n <==>
            Count(acc, c) >= n && forall e :: e in edges ==> ListsTimes(g, e, mu, distinct, c, n)
    decreases |edges|
  {
    if edges != [] {
      var l := EdgeList(g, edges[0].pat, edges[0].how, mu, distinct);
      EdgeListOrdered(g, edges[0].pat, edges[0].how, mu, distinct);
      IntersectOrdered(acc, l);
      IntersectCount(acc, l, c);
      MeetFromCount(g, Intersect(acc, l), edges[1..], mu, distinct, c, n);
      assert edges == [edges[0]] + edges[1..];
      assert edges[0] in edges;
    }
  }

  /** An id is a candidate at least n times exactly when every edge lists it at least n times and a
      cache, where there is one, has it as often. */
  lemma CandidatesCount(g: Graph, caches: Caches, v: nat, edges: seq<Edge>, distinct: bool, mu: Binding, c: Id, n: nat)
    requires EdgesReady(edges, mu) && edges != [] && CachesOrdered(caches)
    ensures Count(Candidates(g, caches, v, edges, distinct, mu), c) >= n <==>
            (v in caches ==> Count(caches[v], c) >= n) &&
            forall e :: e in edges ==> ListsTimes(g, e, mu, distinct, c, n)
  {
    var first := EdgeList(g, edges[0].pat, edges[0].how, mu, distinct);
    EdgeListOrdered(g, edges[0].pat, edges[0].how, mu, distinct);
    MeetFromCount(g, first, edges[1..], mu, distinct, c, n);
    assert edges == [edges[0]] + edges[1..];
    if v in caches {
      IntersectCount(MeetFrom(g, first, edges[1..], mu, distinct), caches[v], c);
    }
  }
}

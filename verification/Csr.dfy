/** The compressed adjacency index: per predicate, the vertices with an entity neighbour, where the
    neighbours of each begin, and all neighbours one after another. */
module Csr {
  import opened Collections
  import opened Rdf
  import opened IdPools

  /** One predicate, one direction: `ids` is id2vid, `vids` is vid2id. */
  datatype Part = Part(ids: seq<Id>, vids: map<Id, nat>, offsets: seq<nat>, adjacency: seq<Id>)

  const EMPTY := Part([], map[], [], [])

  ghost predicate Shape(part: Part) {
    |part.offsets| == |part.ids| && (part.ids == [] <==> part.adjacency == []) &&
    (forall k :: 0 <= k < |part.offsets| ==> part.offsets[k] < |part.adjacency|) &&
    (forall k :: 0 < k < |part.offsets| ==> part.offsets[k - 1] < part.offsets[k]) &&
    (part.offsets != [] ==> part.offsets[0] == 0)
  }

  function End(part: Part, k: nat): nat
    requires k < |part.offsets|
  {
    if k + 1 < |part.offsets| then part.offsets[k + 1] else |part.adjacency|
  }

  /** The neighbours of vertex k. */
  function Slice(part: Part, k: nat): seq<Id>
    requires Shape(part) && k < |part.ids|
  {
    part.adjacency[part.offsets[k]..End(part, k)]
  }

  /** Vertex numbers and ids are inverse to each other. */
  ghost predicate Numbered(part: Part) {
    NoDup(part.ids) && (forall v :: v in part.vids <==> v in part.ids) &&
    forall k :: 0 <= k < |part.ids| ==> part.ids[k] in part.vids && part.vids[part.ids[k]] == k
  }

  /** The part lists exactly the vertices of vs with a neighbour, each with its neighbours. */
  ghost predicate Lists(part: Part, f: Id -> seq<Id>, vs: seq<Id>) {
    Shape(part) && Numbered(part) &&
    (forall v :: v in part.ids <==> v in vs && f(v) != []) &&
    (forall k :: 0 <= k < |part.ids| ==> Slice(part, k) == f(part.ids[k])) &&
    part.adjacency == FlatMap(f, vs)
  }

  /** A vertex with its neighbours behind the others; one without neighbours is left out. */
  function Push(part: Part, v: Id, ns: seq<Id>): Part {
    if ns == [] then part
    else Part(part.ids + [v], part.vids[v := |part.ids|], part.offsets + [|part.adjacency|], part.adjacency + ns)
  }

  lemma ShapePush(part: Part, v: Id, ns: seq<Id>)
    requires Shape(part) && ns != []
    ensures Shape(Push(part, v, ns))
    ensures forall k :: 0 <= k < |part.ids| ==> Slice(Push(part, v, ns), k) == Slice(part, k)
    ensures Slice(Push(part, v, ns), |part.ids|) == ns
  {
    var next := Push(part, v, ns);
    assert Shape(next);
    forall k | 0 <= k < |part.ids|
      ensures Slice(next, k) == Slice(part, k)
    {
      assert End(next, k) == End(part, k);
    }
  }

  lemma ListsStart(f: Id -> seq<Id>)
    ensures Lists(EMPTY, f, [])
  {
  }

  lemma ListsPush(part: Part, f: Id -> seq<Id>, vs: seq<Id>, v: Id)
    requires Lists(part, f, vs) && v !in vs && f(v) != [] && FlatMap(f, vs + [v]) == FlatMap(f, vs) + f(v)
    ensures Lists(Push(part, v, f(v)), f, vs + [v])
  {
    ShapePush(part, v, f(v));
    NumberedPush(part, v, f(v));
  }

  lemma ListsNext(part: Part, f: Id -> seq<Id>, vs: seq<Id>, i: nat)
    requires i < |vs| && NoDup(vs) && Lists(part, f, vs[..i])
    ensures Lists(Push(part, vs[i], f(vs[i])), f, vs[..i + 1])
  {
    var before, v := vs[..i], vs[i];
    FlatMapNext(f, vs, i);
    assert vs[..i + 1] == before + [v];
    assert v !in before;
    if f(v) != [] {
      ListsPush(part, f, before, v);
    } else {
      ListsSkip(part, f, before, v);
    }
  }

  lemma ListsSkip(part: Part, f: Id -> seq<Id>, vs: seq<Id>, v: Id)
    requires Lists(part, f, vs) && f(v) == [] && FlatMap(f, vs + [v]) == FlatMap(f, vs) + f(v)
    ensures Lists(part, f, vs + [v])
  {
    assert FlatMap(f, vs) + [] == FlatMap(f, vs);
  }

  lemma NumberedPush(part: Part, v: Id, ns: seq<Id>)
    requires Numbered(part) && v !in part.ids && ns != []
    ensures Numbered(Push(part, v, ns))
  {
    NoDupSplit(part.ids, [v]);
  }

  /** Vertices come in increasing order when they are visited in it. */
  lemma IdsNext(part: Part, f: Id -> seq<Id>, vs: seq<Id>, i: nat)
    requires i < |vs| && Increasing(vs) && Lists(part, f, vs[..i]) && Increasing(part.ids)
    ensures Increasing(Push(part, vs[i], f(vs[i])).ids)
  {
    forall k | 0 <= k < |part.ids|
      ensures part.ids[k] < vs[i]
    {
      assert part.ids[k] in part.ids && part.ids[k] in vs[..i];
    }
  }

  // ---------------------------------------------------------------- what the index has to hold

  /** A triple between entities with this predicate, seen from its subject or from its object. */
  predicate EntityEdge(g: Graph, p: Id, out: bool, v: Id, c: Id) {
    if out then Triple(v, p, c) in g && c < LITERAL_FIRST_ID else Triple(c, p, v) in g && v < LITERAL_FIRST_ID
  }

  /** The entity neighbours of a vertex, each once, in increasing order. */
  ghost predicate Neighbours(g: Graph, p: Id, out: bool, v: Id, ids: seq<Id>) {
    Increasing(ids) && forall c :: c in ids <==> EntityEdge(g, p, out, v, c)
  }

  /** Exactly the vertices with an entity neighbour, each once in increasing order, with the positions
      back, and for each exactly its neighbours. */
  ghost predicate Indexes(part: Part, g: Graph, p: Id, out: bool) {
    Shape(part) && Numbered(part) && Increasing(part.ids) &&
    (forall v :: v in part.ids <==> exists c :: EntityEdge(g, p, out, v, c)) &&
    forall k :: 0 <= k < |part.ids| ==> Neighbours(g, p, out, part.ids[k], Slice(part, k))
  }

  /** A part that lists the neighbours of all vertices that have one is the index. */
  lemma ListsIndexes(part: Part, f: Id -> seq<Id>, vs: seq<Id>, g: Graph, p: Id, out: bool)
    requires Lists(part, f, vs) && Increasing(part.ids)
    requires forall v :: Neighbours(g, p, out, v, f(v))
    requires forall v, c :: EntityEdge(g, p, out, v, c) ==> v in vs
    ensures Indexes(part, g, p, out)
  {
    forall v
      ensures v in part.ids <==> exists c :: EntityEdge(g, p, out, v, c)
    {
      assert Neighbours(g, p, out, v, f(v));
      if v in part.ids {
        assert f(v)[0] in f(v) && EntityEdge(g, p, out, v, f(v)[0]);
      }
      if c :| EntityEdge(g, p, out, v, c) {
        assert c in f(v);
      }
    }
  }

  // ---------------------------------------------------------------- the two directions

  function Entities(ids: seq<Id>): seq<Id> {
    if ids == [] then [] else (if ids[0] < LITERAL_FIRST_ID then [ids[0]] else []) + Entities(ids[1..])
  }

  lemma {:induction false} EntitiesMember(ids: seq<Id>, c: Id)
    ensures c in Entities(ids) <==> c in ids && c < LITERAL_FIRST_ID
  {
    if ids != [] {
      EntitiesMember(ids[1..], c);
      assert ids == [ids[0]] + ids[1..];
    }
  }

  lemma {:induction false} EntitiesIncreasing(ids: seq<Id>)
    requires Increasing(ids)
    ensures Increasing(Entities(ids))
  {
    if ids != [] {
      var rest := Entities(ids[1..]);
      EntitiesIncreasing(ids[1..]);
      forall i | 0 <= i < |rest|
        ensures ids[0] < rest[i]
      {
        EntitiesMember(ids[1..], rest[i]);
      }
      IncreasingCons(ids[0], rest);
      assert [] + rest == rest;
    }
  }

  /** Along out-edges: the entity objects of a subject. */
  function OutOf(g: Graph, p: Id): Id -> seq<Id> {
    (v: Id) => Entities(List2(g, S, v, P, p, O))
  }

  /** Along in-edges: the subjects of an entity object. */
  function InTo(g: Graph, p: Id): Id -> seq<Id> {
    (v: Id) => if v < LITERAL_FIRST_ID then List2(g, O, v, P, p, S) else []
  }

  lemma OutMember(g: Graph, p: Id, v: Id, c: Id)
    ensures c in OutOf(g, p)(v) <==> Triple(v, p, c) in g && c < LITERAL_FIRST_ID
  {
    EntitiesMember(List2(g, S, v, P, p, O), c);
    List2Member(g, S, v, P, p, O, c);
    if Has2(g, S, v, P, p, O, c) {
      var t :| t in g && Get(t, S) == v && Get(t, P) == p && Get(t, O) == c;
      assert t == Triple(v, p, c);
    }
    if Triple(v, p, c) in g {
      assert Get(Triple(v, p, c), S) == v;
    }
  }

  lemma InMember(g: Graph, p: Id, v: Id, c: Id)
    ensures c in InTo(g, p)(v) <==> Triple(c, p, v) in g && v < LITERAL_FIRST_ID
  {
    List2Member(g, O, v, P, p, S, c);
    if Has2(g, O, v, P, p, S, c) {
      var t :| t in g && Get(t, O) == v && Get(t, P) == p && Get(t, S) == c;
      assert t == Triple(c, p, v);
    }
    if Triple(c, p, v) in g {
      assert Get(Triple(c, p, v), O) == v;
    }
  }

  /** So each gives the neighbours of a vertex. */
  lemma OutNeighbours(g: Graph, p: Id, v: Id)
    ensures Neighbours(g, p, true, v, OutOf(g, p)(v))
  {
    SortedSeqIncreasing(List2Set(g, S, v, P, p, O));
    EntitiesIncreasing(List2(g, S, v, P, p, O));
    forall c
      ensures c in OutOf(g, p)(v) <==> EntityEdge(g, p, true, v, c)
    {
      OutMember(g, p, v, c);
    }
  }

  lemma InNeighbours(g: Graph, p: Id, v: Id)
    ensures Neighbours(g, p, false, v, InTo(g, p)(v))
  {
    SortedSeqIncreasing(List2Set(g, O, v, P, p, S));
    forall c
      ensures c in InTo(g, p)(v) <==> EntityEdge(g, p, false, v, c)
    {
      InMember(g, p, v, c);
    }
  }

  lemma OutIndexes(g: Graph, p: Id, part: Part)
    requires Lists(part, OutOf(g, p), List1(g, P, p, S, true)) && Increasing(part.ids)
    ensures Indexes(part, g, p, true)
  {
    forall v
      ensures Neighbours(g, p, true, v, OutOf(g, p)(v))
    {
      OutNeighbours(g, p, v);
    }
    forall v, c | EntityEdge(g, p, true, v, c)
      ensures v in List1(g, P, p, S, true)
    {
      List1Member(g, P, p, S, true, v);
      assert Get(Triple(v, p, c), P) == p && Get(Triple(v, p, c), S) == v;
    }
    ListsIndexes(part, OutOf(g, p), List1(g, P, p, S, true), g, p, true);
  }

  lemma InIndexes(g: Graph, p: Id, part: Part)
    requires Lists(part, InTo(g, p), List1(g, P, p, O, true)) && Increasing(part.ids)
    ensures Indexes(part, g, p, false)
  {
    forall v
      ensures Neighbours(g, p, false, v, InTo(g, p)(v))
    {
      InNeighbours(g, p, v);
    }
    forall v, c | EntityEdge(g, p, false, v, c)
      ensures v in List1(g, P, p, O, true)
    {
      List1Member(g, P, p, O, true, v);
      assert Get(Triple(c, p, v), P) == p && Get(Triple(c, p, v), O) == v;
    }
    ListsIndexes(part, InTo(g, p), List1(g, P, p, O, true), g, p, false);
  }

  /** The innermost loop of csr[0]: objects pushed unless they are literals. */
  method PushEntities(adjacency: seq<Id>, objects: seq<Id>) returns (next: seq<Id>, len: nat)
    ensures next == adjacency + Entities(objects) && len == |Entities(objects)|
  {
    next, len := adjacency, |objects|;
    var k := 0;
    assert objects[0..] == objects;
    while k < |objects|
      invariant 0 <= k <= |objects| && adjacency + Entities(objects) == next + Entities(objects[k..])
      invariant |next| >= |adjacency| && len == |next| - |adjacency| + |objects| - k
    {
      assert objects[k..][1..] == objects[k + 1..];
      if objects[k] >= LITERAL_FIRST_ID {
        len := len - 1;
      } else {
        next := next + [objects[k]];
      }
      k := k + 1;
    }
  }

  ghost predicate IsOut(f: Id -> seq<Id>, g: Graph, p: Id) {
    forall v: Id {:trigger List2(g, S, v, P, p, O)} :: f(v) == Entities(List2(g, S, v, P, p, O))
  }

  ghost predicate IsIn(f: Id -> seq<Id>, g: Graph, p: Id) {
    forall v: Id {:trigger List2(g, O, v, P, p, S)} :: f(v) == if v < LITERAL_FIRST_ID then List2(g, O, v, P, p, S)
      else []
  }

  /** csr[0] for one predicate. */
  method OutPart(g: Graph, p: Id) returns (part: Part)
    ensures Indexes(part, g, p, true)
  {
    part := VisitSubjects(g, p, OutOf(g, p));
    OutIndexes(g, p, part);
  }

  method VisitSubjects(g: Graph, p: Id, ghost f: Id -> seq<Id>) returns (part: Part)
    requires IsOut(f, g, p)
    ensures Lists(part, f, List1(g, P, p, S, true)) && Increasing(part.ids)
  {
    var subs := List1(g, P, p, S, true);
    DistinctList(g, P, p, S);
    part := EMPTY;
    ListsStart(f);
    var j := 0;
    while j < |subs|
      invariant 0 <= j <= |subs| && Lists(part, f, subs[..j]) && Increasing(part.ids)
    {
      ListsNext(part, f, subs, j);
      IdsNext(part, f, subs, j);
      var adjacency, len := PushEntities(part.adjacency, List2(g, S, subs[j], P, p, O));
      part := Grown(part, subs[j], adjacency, len, f(subs[j]));
      j := j + 1;
    }
    assert subs[..j] == subs;
  }

  /** The bookkeeping after a vertex's neighbours have been pushed. */
  method Grown(part: Part, v: Id, adjacency: seq<Id>, len: nat, ghost ns: seq<Id>) returns (next: Part)
    requires adjacency == part.adjacency + ns && len == |ns|
    ensures next == Push(part, v, ns)
  {
    next := part.(adjacency := adjacency);
    if len > 0 {
      next := Part(part.ids + [v], part.vids[v := |part.ids|], part.offsets + [|part.adjacency|], adjacency);
    } else {
      assert part.adjacency + [] == part.adjacency;
    }
  }

  lemma DistinctList(g: Graph, k: Slot, a: Id, target: Slot)
    requires k != target
    ensures Increasing(List1(g, k, a, target, true)) && NoDup(List1(g, k, a, target, true))
  {
    SortedSeqIncreasing(List1Set(g, k, a, target));
  }

  /** csr[1] for one predicate. */
  method InPart(g: Graph, p: Id) returns (part: Part)
    ensures Indexes(part, g, p, false) && |part.adjacency| == |EntityEdges(g, p)|
  {
    part := VisitObjects(g, p, InTo(g, p));
    InIndexes(g, p, part);
    PartCounted(g, p, part);
  }

  method VisitObjects(g: Graph, p: Id, ghost f: Id -> seq<Id>) returns (part: Part)
    requires IsIn(f, g, p)
    ensures Lists(part, f, List1(g, P, p, O, true)) && Increasing(part.ids)
  {
    var objs := List1(g, P, p, O, true);
    DistinctList(g, P, p, O);
    part := EMPTY;
    ListsStart(f);
    var j := 0;
    while j < |objs|
      invariant 0 <= j <= |objs| && Lists(part, f, objs[..j]) && Increasing(part.ids)
    {
      ListsNext(part, f, objs, j);
      IdsNext(part, f, objs, j);
      var subs := List2(g, O, objs[j], P, p, S);
      if objs[j] < LITERAL_FIRST_ID {
        part := Grown(part, objs[j], part.adjacency + subs, |subs|, f(objs[j]));
      }
      j := j + 1;
    }
    assert objs[..j] == objs;
  }

  // ---------------------------------------------------------------- both directions together

  /** The two directions of one predicate agree with the graph. */
  ghost predicate Agrees(g: Graph, p: Id, outs: Part, ins: Part) {
    Indexes(outs, g, p, true) && Indexes(ins, g, p, false)
  }

  ghost predicate HasEdge(part: Part, a: Id, b: Id)
    requires Shape(part)
  {
    exists k :: 0 <= k < |part.ids| && part.ids[k] == a && b in Slice(part, k)
  }

  lemma IndexEdge(part: Part, g: Graph, p: Id, out: bool, a: Id, b: Id)
    requires Indexes(part, g, p, out)
    ensures HasEdge(part, a, b) <==> EntityEdge(g, p, out, a, b)
  {
    if EntityEdge(g, p, out, a, b) {
      var k := Pos(part.ids, a);
      assert Neighbours(g, p, out, part.ids[k], Slice(part, k));
    }
    if HasEdge(part, a, b) {
      var k :| 0 <= k < |part.ids| && part.ids[k] == a && b in Slice(part, k);
      assert Neighbours(g, p, out, part.ids[k], Slice(part, k));
    }
  }

  /** A vertex's slice holds exactly its entity neighbours, in either direction; so the in-edges are
      the transpose of the out-edges. */
  lemma Transposed(g: Graph, p: Id, outs: Part, ins: Part, a: Id, b: Id)
    requires Agrees(g, p, outs, ins)
    ensures HasEdge(outs, a, b) <==> Triple(a, p, b) in g && b < LITERAL_FIRST_ID
    ensures HasEdge(ins, b, a) <==> HasEdge(outs, a, b)
  {
    IndexEdge(outs, g, p, true, a, b);
    IndexEdge(ins, g, p, false, b, a);
  }

  // ---------------------------------------------------------------- counting the edges

  /** The triples of one predicate between entities whose object is listed. */
  ghost function EdgesInto(g: Graph, p: Id, vs: seq<Id>): set<Triple> {
    set t | t in g && t.p == p && t.o < LITERAL_FIRST_ID && t.o in vs
  }

  lemma {:induction false} ImageSize(ids: seq<Id>, p: Id, v: Id, ts: set<Triple>)
    requires Increasing(ids) && forall t :: t in ts <==> t.p == p && t.o == v && t.s in ids
    ensures |ts| == |ids|
  {
    if ids == [] {
      assert ts == {};
    } else {
      var t := Triple(ids[0], p, v);
      assert ids == [ids[0]] + ids[1..];
      assert t in ts;
      ImageSize(ids[1..], p, v, ts - {t});
    }
  }

  lemma InSize(g: Graph, p: Id, v: Id)
    ensures |EdgesInto(g, p, [v])| == |InTo(g, p)(v)|
  {
    var ts := EdgesInto(g, p, [v]);
    if v < LITERAL_FIRST_ID {
      SortedSeqIncreasing(List2Set(g, O, v, P, p, S));
      forall t
        ensures t in ts <==> t.p == p && t.o == v && t.s in InTo(g, p)(v)
      {
        InMember(g, p, v, t.s);
        assert t.p == p && t.o == v ==> t == Triple(t.s, p, v);
      }
      ImageSize(InTo(g, p)(v), p, v, ts);
    } else {
      assert ts == {};
    }
  }

  lemma {:induction false} EdgesCounted(g: Graph, p: Id, vs: seq<Id>)
    requires NoDup(vs)
    ensures |FlatMap(InTo(g, p), vs)| == |EdgesInto(g, p, vs)|
  {
    if vs == [] {
      assert EdgesInto(g, p, vs) == {};
    } else {
      InSize(g, p, vs[0]);
      EdgesCounted(g, p, vs[1..]);
      assert vs == [vs[0]] + vs[1..];
      assert vs[0] !in vs[1..];
      assert EdgesInto(g, p, vs) == EdgesInto(g, p, [vs[0]]) + EdgesInto(g, p, vs[1..]);
    }
  }

  ghost function EntityEdges(g: Graph, p: Id): set<Triple> {
    set t | t in g && t.p == p && t.o < LITERAL_FIRST_ID
  }

  lemma PartCounted(g: Graph, p: Id, ins: Part)
    requires Lists(ins, InTo(g, p), List1(g, P, p, O, true))
    ensures |ins.adjacency| == |EntityEdges(g, p)|
  {
    var vs := List1(g, P, p, O, true);
    DistinctList(g, P, p, O);
    EdgesCounted(g, p, vs);
    forall t | t in EntityEdges(g, p)
      ensures t in EdgesInto(g, p, vs)
    {
      List1Member(g, P, p, O, true, t.o);
      assert Get(t, P) == p && Get(t, O) == t.o;
    }
    assert EdgesInto(g, p, vs) == EntityEdges(g, p);
  }

  /** The triples between entities with a predicate below a bound. */
  ghost function EdgesBelow(g: Graph, n: nat): set<Triple> {
    set t | t in g && t.p < n && t.o < LITERAL_FIRST_ID
  }

  /** All triples between entities. */
  ghost function EdgesOf(g: Graph): set<Triple> {
    set t | t in g && t.o < LITERAL_FIRST_ID
  }

  lemma BelowNext(g: Graph, n: nat)
    ensures |EdgesBelow(g, n + 1)| == |EdgesBelow(g, n)| + |EntityEdges(g, n)|
  {
    assert EdgesBelow(g, n + 1) == EdgesBelow(g, n) + EntityEdges(g, n);
  }

  /** loadCSR: both directions for every predicate below preNum, and the number of edges. The edges
      are all triples between entities exactly when every predicate is below preNum. */
  method LoadCsr(g: Graph, preNum: nat) returns (outs: seq<Part>, ins: seq<Part>, m: nat)
    ensures |outs| == |ins| == preNum && forall p :: 0 <= p < preNum ==> Agrees(g, p, outs[p], ins[p])
    ensures m == |EdgesBelow(g, preNum)|
  {
    outs, ins, m := [], [], 0;
    var i := 0;
    while i < preNum
      invariant 0 <= i <= preNum && |outs| == i
      invariant forall p :: 0 <= p < i ==> Indexes(outs[p], g, p, true)
    {
      var part := OutPart(g, i);
      outs := outs + [part];
      i := i + 1;
    }
    i := 0;
    assert EdgesBelow(g, 0) == {};
    while i < preNum
      invariant 0 <= i <= preNum && |ins| == i
      invariant forall p :: 0 <= p < i ==> Agrees(g, p, outs[p], ins[p])
      invariant m == |EdgesBelow(g, i)|
    {
      var part := InPart(g, i);
      BelowNext(g, i);
      ins := ins + [part];
      m := m + |part.adjacency|;
      i := i + 1;
    }
  }

  lemma AllEdges(g: Graph, preNum: nat)
    ensures |EdgesBelow(g, preNum)| == |EdgesOf(g)| <==>
            forall t :: t in g && t.o < LITERAL_FIRST_ID ==> t.p < preNum
  {
    var below, all := EdgesBelow(g, preNum), EdgesOf(g);
    assert below <= all;
    assert all == below + (all - below);
    if |below| == |all| {
      assert all - below == {};
      forall t | t in g && t.o < LITERAL_FIRST_ID
        ensures t.p < preNum
      {
        assert t in all;
      }
    } else {
      assert |all| == |below| + |all - below|;
      assert all - below != {};
      var t :| t in all - below;
    }
  }
}

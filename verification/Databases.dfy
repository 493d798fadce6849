/** The database object: batches of insertions and removals keep the three indexes, the ids and the
    dictionary in step, and mean insertion into and removal from one set of triples. */
module Databases {
  import opened Collections
  import opened Rdf
  import opened IdTuples
  import opened TripleIndexes
  import opened IdPools
  import opened Store
  import opened StoreRemoval
  import Csr

  /** Spelling is one to one, so terms and tuples are equally many. */
  lemma {:induction false} MeaningSize(d: Dict, all: set<Triple>)
    requires DictOk(d) && forall t :: t in all ==> Named(d, t)
    ensures |Meaning(d, all)| == |all|
    decreases all
  {
    if all == {} {
      assert Meaning(d, all) == {};
    } else {
      var t :| t in all;
      var rest := all - {t};
      MeaningSize(d, rest);
      assert Spell(d, t) !in Meaning(d, rest) by {
        MeaningMember(d, rest, Spell(d, t));
        SpellEncode(d, t);
      }
      assert Meaning(d, all) == Meaning(d, rest) + {Spell(d, t)};
    }
  }

  lemma UpdatedSize(all: set<Triple>, batch: set<Triple>)
    ensures |all + batch| == |all| + |batch - all|
    ensures |all - batch| == |all| - |batch * all| && |batch * all| <= |all|
  {
    assert all + batch == all + (batch - all);
    assert all == (all - batch) + (batch * all);
  }

  function Max(a: nat, b: nat): nat {
    if a < b then b else a
  }

  lemma InsertAll(d: Dict, all: set<Triple>, w: Works, ts: seq<RdfTriple>, tuples: seq<Triple>)
    requires DictOk(d) && Exact(d, all) && BatchOk(d, w, ts, tuples)
    ensures var next, after := CommitAll(d, w), all + Elements(tuples);
            DictOk(next) && Exact(next, after) && Meaning(next, after) == Meaning(d, all) + Elements(ts) &&
            |Meaning(d, all)| == |all| &&
            |Meaning(next, after)| == |after| == |all| + Changed(all, Elements(tuples), true)
  {
    InsertExactness(d, all, w, ts, tuples);
    InsertMeaning(d, all, w, ts, tuples);
    MeaningSize(d, all);
    MeaningSize(CommitAll(d, w), all + Elements(tuples));
    UpdatedSize(all, Elements(tuples));
  }

  /** Entities are dropped in two passes: as subjects, then as objects. */
  method CleanEntities(n: Names, subs: set<Id>, objs: set<Id>, s2: Index, o2: Index, ghost after: set<Triple>)
    returns (next: Names)
    requires NamesOk(n) && Represents(SPO, s2, after) && Represents(OPS, o2, after)
    requires forall id :: id in n.byId ==> IsEntityId(id)
    ensures NamesOk(next) && next.base == n.base
    ensures forall id :: id in next.byId <==> id in n.byId && (id in subs + objs ==> EntityUsed(after, id))
    ensures forall id :: id in next.byId ==> next.byId[id] == n.byId[id]
  {
    var mid := DropUnused(n, subs, s2, o2);
    next := DropUnused(mid, (set id | id in objs && IsEntityId(id)), s2, o2);
    forall id
      ensures Unused(s2, o2, id) <==> !EntityUsed(after, id)
    {
      UnusedEntity(s2, o2, after, id);
    }
  }

  method CleanPredicates(n: Names, verbs: set<Id>, p2: Index, ghost after: set<Triple>) returns (next: Names)
    requires NamesOk(n) && Represents(PSO, p2, after)
    ensures NamesOk(next) && next.base == n.base
    ensures forall id :: id in next.byId <==> id in n.byId && (id in verbs ==> PredicateUsed(after, id))
    ensures forall id :: id in next.byId ==> next.byId[id] == n.byId[id]
  {
    next := DropUnused(n, verbs, p2, map[]);
    forall id
      ensures Unused(p2, map[], id) <==> !PredicateUsed(after, id)
    {
      UnusedPredicate(p2, after, id);
    }
  }

  method CleanLiterals(n: Names, objs: set<Id>, o2: Index, ghost after: set<Triple>) returns (next: Names)
    requires NamesOk(n) && Represents(OPS, o2, after)
    requires forall id :: id in n.byId ==> !IsEntityId(id)
    ensures NamesOk(next) && next.base == n.base
    ensures forall id :: id in next.byId <==> id in n.byId && (id in objs ==> ObjectUsed(after, id))
    ensures forall id :: id in next.byId ==> next.byId[id] == n.byId[id]
  {
    next := DropUnused(n, (set id | id in objs && !IsEntityId(id)), o2, map[]);
    forall id
      ensures Unused(o2, map[], id) <==> !ObjectUsed(after, id)
    {
      UnusedObject(o2, after, id);
    }
  }

  /** The steps of batch_remove after the indexes: names of removed tuples that occur no more. */
  method CleanDict(d: Dict, subs: set<Id>, verbs: set<Id>, objs: set<Id>, s2: Index, p2: Index, o2: Index,
                   ghost gone: set<Triple>, ghost after: set<Triple>)
    returns (next: Dict)
    requires DictOk(d) && Agree(s2, p2, o2, after)
    requires subs == Subjects(gone) && verbs == Verbs(gone) && objs == Targets(gone)
    ensures Cleaned(d, next, gone, after)
  {
    forall id
      ensures id in d.entities.byId ==> IsEntityId(id)
      ensures id in d.literals.byId ==> !IsEntityId(id)
    {
      KindsApart(d, id);
    }
    var entities := CleanEntities(d.entities, subs, objs, s2, o2, after);
    var literals := CleanLiterals(d.literals, objs, o2, after);
    var predicates := CleanPredicates(d.predicates, verbs, p2, after);
    next := Dict(entities, predicates, literals);
  }

  /** No triple, no name. */
  lemma NothingNamed(d: Dict)
    requires DictOk(d) && Exact(d, {})
    ensures d.entities.byId == map[] && d.predicates.byId == map[] && d.literals.byId == map[]
  {
    forall id
      ensures id !in d.entities.byId && id !in d.predicates.byId && id !in d.literals.byId
    {
      assert !EntityUsed({}, id) && !PredicateUsed({}, id) && !ObjectUsed({}, id);
    }
  }

  /** The fields an update changes. `preNum` is the number of predicates in the string index. */
  datatype Contents = Contents(dict: Dict, s2: Index, p2: Index, o2: Index, triplesNum: nat, preNum: nat)

  /** The indexes agree, the triple count is theirs, and the string index covers their predicates. */
  ghost predicate IndexesOk(c: Contents, all: set<Triple>) {
    Agree(c.s2, c.p2, c.o2, all) && c.triplesNum == |all| && forall t :: t in all ==> t.p < c.preNum
  }

  /** The string index covers all predicate ids. */
  ghost predicate Indexed(n: Names, preNum: nat) {
    forall id :: id in n.byId ==> id < preNum
  }

  /** The dictionary is a bijection between the live ids and exactly the terms of the triples. */
  ghost predicate ContentsOk(c: Contents, all: set<Triple>) {
    IndexesOk(c, all) && DictOk(c.dict) && Exact(c.dict, all) && Indexed(c.dict.predicates, c.preNum)
  }

  /** StringIndexFile::change for each new predicate: the table grows up to its id. */
  method ChangePredicates(preNum: nat, ids: set<Id>) returns (num: nat)
    ensures num >= preNum && forall id :: id in ids ==> id < num
    ensures num == preNum || num - 1 in ids
  {
    num := preNum;
    var todo := ids;
    while todo != {}
      invariant todo <= ids && num >= preNum && forall id :: id in ids && id !in todo ==> id < num
      invariant num == preNum || num - 1 in ids
    {
      var id :| id in todo;
      while num <= id
        invariant num >= preNum && forall x :: x in ids && x !in todo ==> x < num
        invariant num <= id + 1 || num == preNum || num - 1 in ids
      {
        num := num + 1;
      }
      todo := todo - {id};
    }
  }

  lemma IndexedNext(n: Names, w: Work, preNum: nat, num: nat)
    requires Indexed(n, preNum) && num >= preNum && forall id :: id in w.named.Keys ==> id < num
    ensures Indexed(Commit(n, w), num)
  {
    forall id | id in Commit(n, w).byId
      ensures id < num
    {
      assert id in n.byId || id in w.named.Keys;
    }
  }

  lemma IndexedTriples(d: Dict, all: set<Triple>, preNum: nat)
    requires Exact(d, all) && Indexed(d.predicates, preNum)
    ensures forall t :: t in all ==> t.p < preNum
  {
  }

  /** batch_insert on the fields, once the triples are encoded. */
  method InsertEncoded(c: Contents, triples: seq<RdfTriple>, w: Works, tuples: seq<Triple>, ghost all: set<Triple>)
    returns (next: Contents, num: nat)
    requires ContentsOk(c, all) && triples != [] && BatchOk(c.dict, w, triples, tuples)
    ensures ContentsOk(next, all + Elements(tuples)) && num == next.triplesNum - c.triplesNum
    ensures Meaning(next.dict, all + Elements(tuples)) == Meaning(c.dict, all) + Elements(triples)
  {
    SortedUniqueExact(tuples);
    var s, p, o, numS, numP, numO := UpdateIndexes(c.s2, c.p2, c.o2, SortedUnique(tuples), true, all);
    InsertAll(c.dict, all, w, triples, tuples);
    var preNum := ChangePredicates(c.preNum, w.predicates.named.Keys);
    IndexedNext(c.dict.predicates, w.predicates, c.preNum, preNum);
    IndexedTriples(CommitAll(c.dict, w), all + Elements(tuples), preNum);
    next := Contents(CommitAll(c.dict, w), s, p, o, c.triplesNum + Max(Max(numS, numP), numO), preNum);
    num := numS;
  }

  /** batch_remove on the fields. The indexes agree whatever the unset slots hold. */
  method RemoveResolved(c: Contents, ts: seq<RdfTriple>, unset: seq<Triple>, ghost all: set<Triple>)
    returns (next: Contents, num: nat, ghost after: set<Triple>)
    requires ContentsOk(c, all) && ts != [] && |unset| == |ts|
    ensures IndexesOk(next, after) && num == c.triplesNum - next.triplesNum && next.preNum == c.preNum
    ensures after == all - Resolved(c.dict, ts) <==> Harmless(c.dict, all, ts, unset)
    ensures after == all - Resolved(c.dict, ts) ==> Cleaned(c.dict, next.dict, Resolved(c.dict, ts), after)
  {
    var tuples, subs, verbs, objs := ResolveBatch(c.dict, ts, unset);
    SortedUniqueExact(tuples);
    SlotsExact(c.dict, all, ts, unset, tuples);
    var s, p, o, numS, numP, numO := UpdateIndexes(c.s2, c.p2, c.o2, SortedUnique(tuples), false, all);
    after := all - Elements(tuples);
    UpdatedSize(all, Elements(tuples));
    var dict := CleanDict(c.dict, subs, verbs, objs, s, p, o, Resolved(c.dict, ts), after);
    next := Contents(dict, s, p, o, c.triplesNum - Max(numP, numO), c.preNum);
    num := numS;
  }

  lemma RemoveAll(d: Dict, next: Dict, all: set<Triple>, ts: seq<RdfTriple>, after: set<Triple>, preNum: nat)
    requires DictOk(d) && Exact(d, all) && after == all - Resolved(d, ts) && Cleaned(d, next, Resolved(d, ts), after)
    requires Indexed(d.predicates, preNum)
    ensures DictOk(next) && Exact(next, after) && Meaning(next, after) == Meaning(d, all) - Elements(ts)
    ensures Indexed(next.predicates, preNum)
  {
    RemoveExactness(d, next, all, Resolved(d, ts));
    RemoveMeaning(d, next, all, ts, after);
  }

  /** The fields after resetIDinfo: empty pools; names and counts are not touched. */
  function ResetIds(c: Contents): Contents {
    c.(dict := Dict(Reset(c.dict.entities), Reset(c.dict.predicates), Reset(c.dict.literals)))
  }

  /** Resetting all id state is safe when no triple is left. */
  lemma ResetSafe(c: Contents, all: set<Triple>)
    requires ContentsOk(c, all) && c.triplesNum == 0
    ensures all == {} && ContentsOk(ResetIds(c), all)
  {
    assert all == {};
    NothingNamed(c.dict);
    ResetExact(c.dict.entities);
    ResetExact(c.dict.predicates);
    ResetExact(c.dict.literals);
  }

  /** A build gives its ids from zero on, so the count bounds them. */
  lemma BuildIndexed(d: Dict)
    requires DictOk(d) && d.predicates.pool.free == []
    ensures Indexed(d.predicates, d.predicates.pool.num)
  {
    forall id | id in d.predicates.byId
      ensures id < d.predicates.pool.num
    {
      assert id - 0 in Live(d.predicates.pool);
    }
  }

  class Database {
    var contents: Contents
    ghost var all: set<Triple>

    ghost predicate Valid()
      reads this
    {
      ContentsOk(contents, all)
    }

    /** What the store means: a set of triples of terms. */
    ghost function Triples(): set<RdfTriple>
      requires Valid()
      reads this
    {
      Meaning(contents.dict, all)
    }

    /** A build from tuples whose ids the parser has named. */
    constructor Build(d: Dict, tuples: array<Triple>)
      requires DictOk(d) && Exact(d, Elements(tuples[..])) && d.predicates.pool.free == []
      modifies tuples
      ensures Valid() && all == old(Elements(tuples[..])) && contents.dict == d
    {
      BuildIndexed(d);
      IndexedTriples(d, Elements(tuples[..]), d.predicates.pool.num);
      var s, p, o, num := BuildIndexes(tuples);
      contents := Contents(d, s, p, o, num, d.predicates.pool.num);
      all := old(Elements(tuples[..]));
    }

    /** batch_insert. No allocation fails exactly when there are enough ids for the new terms; after a
        failed one nothing is claimed. */
    method BatchInsert(triples: seq<RdfTriple>) returns (num: nat, ok: bool)
      requires Valid() && forall i :: 0 <= i < |triples| ==> HasTerms(triples[i])
      modifies this
      ensures ok <==> RoomFor(old(contents.dict), triples)
      ensures ok ==> Valid() && Triples() == old(Triples()) + Elements(triples)
      ensures ok ==> num == contents.triplesNum - old(contents.triplesNum)
    {
      if triples == [] {
        assert Elements(triples) == {};
        EmptyRoom(contents.dict);
        return 0, true;
      }
      var w, tuples, done := EncodeBatch(contents.dict, triples);
      if !done {
        return 0, false;
      }
      contents, num := InsertEncoded(contents, triples, w, tuples, all);
      all := all + Elements(tuples);
      ok := true;
    }

    /** batch_remove. `unset` is what the slots of the tuple vector hold that skipped triples leave
        unset. The batch removes exactly its own triples if they all have ids, or if it holds the whole
        store; otherwise what the slots hold decides. */
    method BatchRemove(triples: seq<RdfTriple>, unset: seq<Triple>) returns (num: nat)
      requires Valid() && |unset| == |triples|
      modifies this
      ensures IndexesOk(contents, all)
      ensures all == old(all) - Resolved(old(contents.dict), triples) <==>
              Harmless(old(contents.dict), old(all), triples, unset)
      ensures Harmless(old(contents.dict), old(all), triples, unset) ==>
                Valid() && Triples() == old(Triples()) - Elements(triples)
      ensures Removable(old(contents.dict), old(all), triples) ==>
                Valid() && Triples() == old(Triples()) - Elements(triples)
      ensures num == old(contents.triplesNum) - contents.triplesNum
    {
      if triples == [] {
        assert Resolved(contents.dict, triples) == {} && Elements(triples) == {};
        return 0;
      }
      ghost var d, before := contents.dict, all;
      if Removable(d, before, triples) {
        RemovableHarmless(d, before, triples, unset);
      }
      ghost var after;
      contents, num, after := RemoveResolved(contents, triples, unset, all);
      all := after;
      if Harmless(d, before, triples, unset) {
        RemoveAll(d, contents.dict, before, triples, after, contents.preNum);
      }
    }

    /** The end of a removal: with no triple left, ids start over. */
    method ResetWhenEmpty()
      requires Valid()
      modifies this
      ensures Valid() && Triples() == old(Triples())
      ensures contents.triplesNum == 0 ==>
                contents.dict.entities.pool == contents.dict.predicates.pool == contents.dict.literals.pool ==
                Pool(0, [], 0)
      ensures contents.triplesNum != 0 ==> contents == old(contents)
    {
      if contents.triplesNum == 0 {
        ResetSafe(contents, all);
        contents := ResetIds(contents);
        assert Triples() == {};
      }
    }

    /** loadCSR, over the predicates of the string index: it leaves out no triple between entities. */
    method LoadCsr(g: Graph) returns (outs: seq<Csr.Part>, ins: seq<Csr.Part>, m: nat)
      requires Valid() && g == all
      ensures |outs| == |ins| && forall t :: t in g ==> t.p < |outs|
      ensures forall p :: 0 <= p < |outs| ==> Csr.Agrees(g, p, outs[p], ins[p])
      ensures m == |Csr.EdgesOf(g)|
    {
      Csr.AllEdges(g, contents.preNum);
      outs, ins, m := Csr.LoadCsr(g, contents.preNum);
    }
  }
}

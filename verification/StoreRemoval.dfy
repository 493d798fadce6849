/** Removing a batch: the tuples it resolves to, the terms that no longer occur, and what the
    tuples left unset for skipped triples can do. */
module StoreRemoval {
  import opened Collections
  import opened Rdf
  import opened IdTuples
  import opened TripleIndexes
  import opened IdPools
  import opened Store

  /** The tuples of the triples that resolve. */
  ghost function Resolved(d: Dict, ts: seq<RdfTriple>): set<Triple> {
    set t | t in ts && Resolves(d, t) :: Encode(d, t)
  }

  /** What the tuple vector holds: the slots of skipped triples keep whatever was in them. */
  function Slot(d: Dict, t: RdfTriple, unset: Triple): Triple {
    if Resolves(d, t) then Encode(d, t) else unset
  }

  ghost predicate Slots(d: Dict, ts: seq<RdfTriple>, unset: seq<Triple>, tuples: seq<Triple>) {
    |tuples| == |ts| == |unset| && forall i :: 0 <= i < |ts| ==> tuples[i] == Slot(d, ts[i], unset[i])
  }

  /** An unset slot does no harm when it is no triple of the store, or one being removed anyway. */
  ghost predicate Harmless(d: Dict, all: set<Triple>, ts: seq<RdfTriple>, unset: seq<Triple>)
    requires |unset| == |ts|
  {
    forall i :: 0 <= i < |ts| && !Resolves(d, ts[i]) && unset[i] in all ==> unset[i] in Resolved(d, ts)
  }

  /** The batch removes exactly its own triples if and only if the unset slots do no harm. */
  lemma SlotsExact(d: Dict, all: set<Triple>, ts: seq<RdfTriple>, unset: seq<Triple>, tuples: seq<Triple>)
    requires Slots(d, ts, unset, tuples)
    ensures all - Elements(tuples) == all - Resolved(d, ts) <==> Harmless(d, all, ts, unset)
  {
    assert Resolved(d, ts) <= Elements(tuples) by {
      forall x | x in Resolved(d, ts)
        ensures x in tuples
      {
        var t :| t in ts && Resolves(d, t) && Encode(d, t) == x;
        assert tuples[Pos(ts, t)] == x;
      }
    }
    if Harmless(d, all, ts, unset) {
      forall x | x in all && x in tuples
        ensures x in Resolved(d, ts)
      {
        var i := Pos(tuples, x);
        assert tuples[i] == Slot(d, ts[i], unset[i]) && ts[i] in ts;
      }
    }
    if all - Elements(tuples) == all - Resolved(d, ts) {
      forall i | 0 <= i < |ts| && !Resolves(d, ts[i]) && unset[i] in all
        ensures unset[i] in Resolved(d, ts)
      {
        assert tuples[i] == unset[i] && unset[i] in Elements(tuples);
        assert unset[i] !in all - Elements(tuples);
      }
    }
  }

  /** A triple without ids in the batch, and one of the store that is not in it: with that in the
      unset slot, the batch removes it as well. */
  lemma SkippedRemoves(d: Dict, all: set<Triple>, ts: seq<RdfTriple>, i: nat, x: Triple, tuples: seq<Triple>)
    requires i < |ts| && !Resolves(d, ts[i]) && x in all && x !in Resolved(d, ts) &&
             Slots(d, ts, Filled(x, |ts|), tuples)
    ensures x in all - Resolved(d, ts) && x !in all - Elements(tuples) && !Harmless(d, all, ts, Filled(x, |ts|))
  {
    assert Filled(x, |ts|)[i] == x;
    assert tuples[i] == Slot(d, ts[i], Filled(x, |ts|)[i]);
    assert x in Elements(tuples);
  }

  function Filled(x: Triple, n: nat): seq<Triple> {
    seq(n, _ => x)
  }

  /** What a caller can see to: every triple of the batch has ids, or the batch holds the whole store. */
  ghost predicate Removable(d: Dict, all: set<Triple>, ts: seq<RdfTriple>)
    requires forall t :: t in all ==> Named(d, t)
  {
    (forall t :: t in ts ==> Resolves(d, t)) || Meaning(d, all) <= Elements(ts)
  }

  lemma WholeStore(d: Dict, all: set<Triple>, ts: seq<RdfTriple>)
    requires DictOk(d) && forall t :: t in all ==> Named(d, t)
    ensures all <= Resolved(d, ts) <==> Meaning(d, all) <= Elements(ts)
  {
    if all <= Resolved(d, ts) {
      forall x | x in Meaning(d, all)
        ensures x in ts
      {
        MeaningMember(d, all, x);
        var t :| t in ts && Resolves(d, t) && Encode(d, t) == Encode(d, x);
        EncodeSpell(d, t);
        EncodeSpell(d, x);
      }
    }
    if Meaning(d, all) <= Elements(ts) {
      forall t | t in all
        ensures t in Resolved(d, ts)
      {
        SpellEncode(d, t);
        assert Spell(d, t) in Meaning(d, all);
      }
    }
  }

  lemma RemovableHarmless(d: Dict, all: set<Triple>, ts: seq<RdfTriple>, unset: seq<Triple>)
    requires DictOk(d) && (forall t :: t in all ==> Named(d, t)) && |unset| == |ts| && Removable(d, all, ts)
    ensures Harmless(d, all, ts, unset)
  {
    WholeStore(d, all, ts);
  }

  /** The batch removes exactly its own triples, whatever the unset slots hold, if and only if every
      triple of it has ids or it holds the whole store. */
  lemma RemovableExact(d: Dict, all: set<Triple>, ts: seq<RdfTriple>)
    requires DictOk(d) && forall t :: t in all ==> Named(d, t)
    ensures (forall unset :: |unset| == |ts| ==> Harmless(d, all, ts, unset)) <==> Removable(d, all, ts)
  {
    if Removable(d, all, ts) {
      forall unset: seq<Triple> | |unset| == |ts|
        ensures Harmless(d, all, ts, unset)
      {
        RemovableHarmless(d, all, ts, unset);
      }
    } else {
      WholeStore(d, all, ts);
      var t :| t in ts && !Resolves(d, t);
      var x :| x in all && x !in Resolved(d, ts);
      var unset, i := Filled(x, |ts|), Pos(ts, t);
      SkippedRemoves(d, all, ts, i, x, seq(|ts|, j requires 0 <= j < |ts| => Slot(d, ts[j], unset[j])));
    }
  }

  /** The subjects, predicates and objects of a set of tuples. */
  function Subjects(ts: set<Triple>): set<Id> {
    set t | t in ts :: t.s
  }

  function Verbs(ts: set<Triple>): set<Id> {
    set t | t in ts :: t.p
  }

  function Targets(ts: set<Triple>): set<Id> {
    set t | t in ts :: t.o
  }

  /** The resolving loop of batch_remove. */
  method ResolveBatch(d: Dict, ts: seq<RdfTriple>, unset: seq<Triple>)
    returns (tuples: seq<Triple>, subs: set<Id>, verbs: set<Id>, objs: set<Id>)
    requires |unset| == |ts|
    ensures Slots(d, ts, unset, tuples)
    ensures subs == Subjects(Resolved(d, ts)) && verbs == Verbs(Resolved(d, ts)) && objs == Targets(Resolved(d, ts))
  {
    tuples, subs, verbs, objs := unset, {}, {}, {};
    var i := 0;
    while i < |ts|
      invariant 0 <= i <= |ts| && |tuples| == |ts|
      invariant forall j :: 0 <= j < i ==> tuples[j] == Slot(d, ts[j], unset[j])
      invariant forall j :: i <= j < |ts| ==> tuples[j] == unset[j]
      invariant subs == Subjects(Resolved(d, ts[..i])) && verbs == Verbs(Resolved(d, ts[..i])) &&
                objs == Targets(Resolved(d, ts[..i]))
    {
      ResolvedNext(d, ts, i);
      if Resolves(d, ts[i]) {
        var t := Encode(d, ts[i]);
        tuples := tuples[i := t];
        subs, verbs, objs := subs + {t.s}, verbs + {t.p}, objs + {t.o};
      }
      i := i + 1;
    }
    assert ts[..i] == ts;
  }

  lemma ResolvedNext(d: Dict, ts: seq<RdfTriple>, i: nat)
    requires i < |ts|
    ensures var before, after := Resolved(d, ts[..i]), Resolved(d, ts[..i + 1]);
            if Resolves(d, ts[i]) then
              var t := Encode(d, ts[i]);
              Subjects(after) == Subjects(before) + {t.s} && Verbs(after) == Verbs(before) + {t.p} &&
              Targets(after) == Targets(before) + {t.o}
            else after == before
  {
    assert ts[..i + 1] == ts[..i] + [ts[i]];
    var before, after := Resolved(d, ts[..i]), Resolved(d, ts[..i + 1]);
    if Resolves(d, ts[i]) {
      assert after == before + {Encode(d, ts[i])};
    } else {
      assert after == before;
    }
  }

  // ---------------------------------------------------------------- terms that go

  /** The same dictionary without some ids. */
  ghost predicate Pruned(n: Names, next: Names, dead: set<Id>) {
    NamesOk(next) && next.base == n.base && next.byId == n.byId - dead
  }

  lemma PrunedNext(n: Names, mid: Names, dead: set<Id>, id: Id)
    requires Pruned(n, mid, dead) && id in mid.byId
    ensures mid.base <= id && mid.pool.num > 0 && Pruned(n, Forget(mid, id), dead + {id})
  {
    ForgetOk(mid, id);
    assert n.byId - dead - {id} == n.byId - (dead + {id});
  }

  predicate Unused(a: Index, b: Index, id: Id) {
    |Values(a, id)| + |Values(b, id)| == 0
  }

  /** The loop over ids that may have lost their last triple. An id without a name is skipped, so
      no id is freed twice. */
  method DropUnused(n: Names, ids: set<Id>, a: Index, b: Index) returns (next: Names)
    requires NamesOk(n)
    ensures Pruned(n, next, set id | id in ids && Unused(a, b, id))
  {
    next := n;
    var todo := ids;
    ghost var dead := {};
    while todo != {}
      invariant todo <= ids && Pruned(n, next, dead)
      invariant forall id :: id in dead <==> id in ids - todo && id in n.byId && Unused(a, b, id)
    {
      var id :| id in todo;
      if |Values(a, id)| + |Values(b, id)| == 0 {
        var term := if id in next.byId then next.byId[id] else NO_TERM;
        if id in next.byId {
          assert term != NO_TERM;
        }
        if term != NO_TERM {
          PrunedNext(n, next, dead, id);
          next := Forget(next, id);
          dead := dead + {id};
        }
      }
      todo := todo - {id};
    }
    SameKeys(n.byId, dead, set id | id in ids && Unused(a, b, id));
  }

  lemma SameKeys(m: map<Id, Term>, a: set<Id>, b: set<Id>)
    requires forall id :: id in a <==> id in b && id in m
    ensures m - a == m - b
  {
  }

  lemma NoValues(o: Order, index: Index, all: set<Triple>, id: Id)
    requires Represents(o, index, all)
    ensures |Values(index, id)| == 0 <==> forall t :: t in all ==> KeyOf(o, t) != id
  {
    if Values(index, id) != {} {
      var x :| x in Values(index, id);
      assert KeyOf(o, Make(o, id, x)) == id && PairOf(o, Make(o, id, x)) == x;
      assert Make(o, id, x) in all;
    }
  }

  lemma UnusedEntity(s2: Index, o2: Index, all: set<Triple>, id: Id)
    requires Represents(SPO, s2, all) && Represents(OPS, o2, all)
    ensures Unused(s2, o2, id) <==> !EntityUsed(all, id)
  {
    NoValues(SPO, s2, all, id);
    NoValues(OPS, o2, all, id);
    if EntityUsed(all, id) {
      var t :| t in all && (t.s == id || t.o == id);
      assert KeyOf(SPO, t) == id || KeyOf(OPS, t) == id;
    } else {
      forall t | t in all
        ensures KeyOf(SPO, t) != id && KeyOf(OPS, t) != id
      {
      }
    }
  }

  lemma UnusedPredicate(p2: Index, all: set<Triple>, id: Id)
    requires Represents(PSO, p2, all)
    ensures Unused(p2, map[], id) <==> !PredicateUsed(all, id)
  {
    NoValues(PSO, p2, all, id);
    if PredicateUsed(all, id) {
      var t :| t in all && t.p == id;
      assert KeyOf(PSO, t) == id;
    }
  }

  lemma UnusedObject(o2: Index, all: set<Triple>, id: Id)
    requires Represents(OPS, o2, all)
    ensures Unused(o2, map[], id) <==> !ObjectUsed(all, id)
  {
    NoValues(OPS, o2, all, id);
    if ObjectUsed(all, id) {
      var t :| t in all && t.o == id;
      assert KeyOf(OPS, t) == id;
    }
  }

  // ---------------------------------------------------------------- the dictionary matches again

  /** The dictionary has lost exactly the names of the removed tuples that no longer occur. */
  ghost predicate Cleaned(d: Dict, next: Dict, gone: set<Triple>, after: set<Triple>) {
    DictOk(next) &&
    (forall id :: id in next.entities.byId <==>
       id in d.entities.byId && (id in Subjects(gone) + Targets(gone) ==> EntityUsed(after, id))) &&
    (forall id :: id in next.predicates.byId <==>
     id in d.predicates.byId && (id in Verbs(gone) ==> PredicateUsed(after, id))) &&
    (forall id :: id in next.literals.byId <==>
     id in d.literals.byId && (id in Targets(gone) ==> ObjectUsed(after, id))) &&
    (forall id :: id in next.entities.byId ==> next.entities.byId[id] == d.entities.byId[id]) &&
    (forall id :: id in next.predicates.byId ==> next.predicates.byId[id] == d.predicates.byId[id]) &&
    (forall id :: id in next.literals.byId ==> next.literals.byId[id] == d.literals.byId[id])
  }

  lemma StillNamed(d: Dict, next: Dict, all: set<Triple>, gone: set<Triple>, t: Triple)
    requires DictOk(d) && Exact(d, all) && Cleaned(d, next, gone, all - gone) && t in all - gone
    ensures Named(next, t) && Spell(next, t) == Spell(d, t)
  {
    var after := all - gone;
    assert Named(d, t);
    assert EntityUsed(after, t.s) && PredicateUsed(after, t.p) && ObjectUsed(after, t.o) && EntityUsed(after, t.o);
  }

  lemma EntityOccurs(d: Dict, next: Dict, all: set<Triple>, gone: set<Triple>, id: Id)
    requires Exact(d, all) && Cleaned(d, next, gone, all - gone) && id in next.entities.byId
    ensures EntityUsed(all - gone, id)
  {
    assert EntityUsed(all, id);
    var t :| t in all && (t.s == id || t.o == id);
    if t in gone {
      assert id in Subjects(gone) + Targets(gone);
    } else {
      assert t in all - gone;
    }
  }

  lemma PredicateOccurs(d: Dict, next: Dict, all: set<Triple>, gone: set<Triple>, id: Id)
    requires Exact(d, all) && Cleaned(d, next, gone, all - gone) && id in next.predicates.byId
    ensures PredicateUsed(all - gone, id)
  {
    assert PredicateUsed(all, id);
    var t :| t in all && t.p == id;
    if t in gone {
      assert id in Verbs(gone);
    } else {
      assert t in all - gone;
    }
  }

  lemma LiteralOccurs(d: Dict, next: Dict, all: set<Triple>, gone: set<Triple>, id: Id)
    requires Exact(d, all) && Cleaned(d, next, gone, all - gone) && id in next.literals.byId
    ensures ObjectUsed(all - gone, id)
  {
    assert ObjectUsed(all, id);
    var t :| t in all && t.o == id;
    if t in gone {
      assert id in Targets(gone);
    } else {
      assert t in all - gone;
    }
  }

  lemma RemoveExactness(d: Dict, next: Dict, all: set<Triple>, gone: set<Triple>)
    requires DictOk(d) && Exact(d, all) && Cleaned(d, next, gone, all - gone)
    ensures Exact(next, all - gone)
  {
    forall t | t in all - gone
      ensures Named(next, t)
    {
      StillNamed(d, next, all, gone, t);
    }
    forall id | id in next.entities.byId ensures EntityUsed(all - gone, id) { EntityOccurs(d, next, all, gone, id); }
    forall id | id in next.predicates.byId ensures PredicateUsed(all - gone,
                                                                 id) { PredicateOccurs(d, next, all, gone, id); }
    forall id | id in next.literals.byId ensures ObjectUsed(all - gone, id) { LiteralOccurs(d, next, all, gone, id); }
  }

  lemma ResolvedSpells(d: Dict, ts: seq<RdfTriple>, t: Triple)
    requires DictOk(d) && Named(d, t)
    ensures t in Resolved(d, ts) <==> Spell(d, t) in ts
  {
    SpellEncode(d, t);
    if t in Resolved(d, ts) {
      var x :| x in ts && Resolves(d, x) && Encode(d, x) == t;
      EncodeSpell(d, x);
    }
  }

  /** A triple that stays is no triple of the batch, and is spelt as before. */
  lemma Stays(d: Dict, next: Dict, all: set<Triple>, ts: seq<RdfTriple>, t: Triple)
    requires DictOk(d) && Exact(d, all) && Cleaned(d, next, Resolved(d, ts), all - Resolved(d, ts)) && t in all
    ensures Named(d, t) && (t in all - Resolved(d, ts) <==> Spell(d, t) !in ts)
    ensures t in all - Resolved(d, ts) ==> Named(next, t) && Spell(next, t) == Spell(d, t)
  {
    ResolvedSpells(d, ts, t);
    if t in all - Resolved(d, ts) {
      StillNamed(d, next, all, Resolved(d, ts), t);
    }
  }

  /** In terms, the store has lost exactly the batch. */
  lemma RemoveMeaning(d: Dict, next: Dict, all: set<Triple>, ts: seq<RdfTriple>, after: set<Triple>)
    requires DictOk(d) && Exact(d, all) && after == all - Resolved(d, ts) && Cleaned(d, next, Resolved(d, ts), after)
    requires Exact(next, after)
    ensures Meaning(next, after) == Meaning(d, all) - Elements(ts)
  {
    forall t | t in all
      ensures t in after <==> Spell(d, t) !in ts
      ensures t in after ==> Spell(next, t) == Spell(d, t)
    {
      Stays(d, next, all, ts, t);
    }
    SameSpelling(d, next, all, after, Elements(ts));
  }

  lemma SameSpelling(d: Dict, next: Dict, all: set<Triple>, after: set<Triple>, batch: set<RdfTriple>)
    requires after <= all && (forall t :: t in all ==> Named(d, t)) && (forall t :: t in after ==> Named(next, t))
    requires forall t :: t in all ==> (t in after <==> Spell(d, t) !in batch)
    requires forall t :: t in after ==> Spell(next, t) == Spell(d, t)
    ensures Meaning(next, after) == Meaning(d, all) - batch
  {
    forall x | x in Meaning(d, all) - batch
      ensures x in Meaning(next, after)
    {
      var t :| t in all && Spell(d, t) == x;
      assert t in after;
    }
  }
}

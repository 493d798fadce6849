/** Ids from a limit and a free list, and the dictionary between ids and terms kept with them. */
module IdPools {
  import opened Collections
  import opened Rdf

  /** An entity, predicate or literal as text. */
  datatype Term = Term(text: string)

  /** What looking up a missing id gives; no term is empty. */
  const NO_TERM := Term("")

  /** Where literal ids begin; entity and predicate ids stay below. */
  const LITERAL_FIRST_ID: nat := 2_000_000_000

  /** Ids below `limit` are live or in `free`, whose head is handed out next. `num` counts live ids. */
  datatype Pool = Pool(limit: nat, free: seq<nat>, num: nat)

  ghost predicate PoolOk(p: Pool) {
    NoDup(p.free) && (forall x :: x in p.free ==> x < p.limit) && p.num == p.limit - |p.free|
  }

  function Live(p: Pool): set<nat> {
    set x | 0 <= x < p.limit && x !in p.free
  }

  ghost function Range(n: nat): set<nat> {
    if n == 0 then {} else Range(n - 1) + {n - 1}
  }

  lemma {:induction false} RangeExact(n: nat)
    ensures |Range(n)| == n && forall x :: x in Range(n) <==> 0 <= x < n
  {
    if n > 0 {
      RangeExact(n - 1);
    }
  }

  /** The count is the number of live ids. */
  lemma PoolCount(p: Pool)
    requires PoolOk(p)
    ensures |Live(p)| == p.num
  {
    RangeExact(p.limit);
    NoDupLength(p.free);
    assert Elements(p.free) <= Range(p.limit);
    assert Live(p) == Range(p.limit) - Elements(p.free);
  }

  /** alloc: from the free list, or a new id. Running out still raises the limit. */
  function Alloc(p: Pool): (Pool, Option<nat>) {
    if p.free != [] then (Pool(p.limit, p.free[1..], p.num + 1), Some(p.free[0]))
    else if p.limit + 1 >= LITERAL_FIRST_ID then (p.(limit := p.limit + 1), None)
    else (Pool(p.limit + 1, [], p.num + 1), Some(p.limit))
  }

  /** free: the highest id lowers the limit, any other goes onto the free list. */
  function Free(p: Pool, id: nat): Pool
    requires p.num > 0
  {
    if id == p.limit - 1 then Pool(p.limit - 1, p.free, p.num - 1)
    else Pool(p.limit, [id] + p.free, p.num - 1)
  }

  /** An id handed out was not live, and exactly it becomes live; a freed one while there is one. */
  lemma AllocExact(p: Pool)
    requires PoolOk(p)
    ensures var (next, id) := Alloc(p);
            (id.None? <==> p.free == [] && p.limit + 1 >= LITERAL_FIRST_ID) &&
            (id.Some? ==> PoolOk(next) && id.value !in Live(p) && Live(next) == Live(p) + {id.value}) &&
            (id.Some? && p.limit < LITERAL_FIRST_ID ==> next.limit < LITERAL_FIRST_ID) &&
            (p.free != [] ==> id.Some? && id.value in p.free && next.limit == p.limit)
  {
    if p.free != [] {
      var next := Alloc(p).0;
      assert p.free == [p.free[0]] + p.free[1..];
      assert p.free[0] !in p.free[1..];
      assert forall x :: x in p.free[1..] ==> x in p.free;
      assert Live(next) == Live(p) + {p.free[0]};
    }
  }

  /** How many ids can still be handed out. */
  function Room(p: Pool): int {
    |p.free| + LITERAL_FIRST_ID - 1 - p.limit
  }

  /** The count and the limit stay in step exactly while there is room. */
  lemma AllocInStep(p: Pool)
    requires PoolOk(p) && p.limit < LITERAL_FIRST_ID
    ensures PoolOk(Alloc(p).0) <==> Room(p) > 0
    ensures Alloc(p).1.Some? <==> Room(p) > 0
    ensures Room(p) > 0 ==> Room(Alloc(p).0) == Room(p) - 1
  {
    AllocExact(p);
  }

  /** Allocating gives back what was freed last, and restores the pool, unless the highest id was freed
      and another one had been freed before it. */
  lemma FreeAlloc(p: Pool, id: nat)
    requires PoolOk(p) && id in Live(p) && p.limit < LITERAL_FIRST_ID
    ensures p.num > 0
    ensures Alloc(Free(p, id)) == (p, Some(id)) <==> id != p.limit - 1 || p.free == []
  {
    PoolCount(p);
    if id != p.limit - 1 {
      assert ([id] + p.free)[1..] == p.free;
    }
  }

  /** Freeing is right exactly for a live id: freeing one twice, or one never handed out, is not. */
  lemma FreeExact(p: Pool, id: nat)
    requires PoolOk(p) && p.num > 0
    ensures PoolOk(Free(p, id)) <==> id in Live(p)
    ensures id in Live(p) ==> Live(Free(p, id)) == Live(p) - {id}
  {
    var next := Free(p, id);
    if id in Live(p) {
      if id == p.limit - 1 {
        assert forall x :: x in p.free ==> x != id;
      } else {
        assert forall x :: x in next.free ==> x == id || x in p.free;
      }
      assert Live(next) == Live(p) - {id};
    } else if id == p.limit - 1 {
      assert id in p.free && id in next.free;
    } else {
      assert next.free[0] == id && id in next.free;
      if id in p.free {
        assert next.free[Pos(p.free, id) + 1] == id;
      }
    }
  }

  // ---------------------------------------------------------------- names

  /** The dictionary of one kind of term: ids are the pool's, moved up by `base`. */
  datatype Names = Names(pool: Pool, base: nat, byId: map<Id, Term>, byTerm: map<Term, Id>)

  ghost predicate Inverse(byId: map<Id, Term>, byTerm: map<Term, Id>) {
    (forall id :: id in byId ==> byId[id] in byTerm && byTerm[byId[id]] == id) &&
    (forall term :: term in byTerm ==> byTerm[term] in byId && byId[byTerm[term]] == term)
  }

  /** A bijection between these ids of a pool and some terms. */
  ghost predicate Names1to1(base: nat, live: set<nat>, byId: map<Id, Term>, byTerm: map<Term, Id>) {
    Inverse(byId, byTerm) && NO_TERM !in byTerm && forall id :: id in byId <==> base <= id && id - base in live
  }

  ghost predicate NamesOk(n: Names) {
    PoolOk(n.pool) && n.pool.limit < LITERAL_FIRST_ID && Names1to1(n.base, Live(n.pool), n.byId, n.byTerm)
  }

  // ---------------------------------------------------------------- new names of a batch

  /** A batch in progress: the pool it allocates from, and the names it has given, both ways. */
  datatype Work = Work(pool: Pool, added: map<Term, Id>, named: map<Id, Term>)

  /** The new names are a bijection between the new ids and terms not named before. */
  ghost predicate Added1to1(base: nat, before: set<nat>, live: set<nat>, taken: map<Term, Id>, added: map<Term, Id>,
                            named: map<Id, Term>) {
    before <= live && Names1to1(base, live - before, named, added) && forall t :: t in added ==> t !in taken
  }

  ghost predicate WorkOk(n: Names, w: Work) {
    NamesOk(n) && PoolOk(w.pool) && w.pool.limit < LITERAL_FIRST_ID &&
    Added1to1(n.base, Live(n.pool), Live(w.pool), n.byTerm, w.added, w.named)
  }

  predicate Known(n: Names, w: Work, term: Term) {
    term in n.byTerm || term in w.added
  }

  function IdIn(n: Names, w: Work, term: Term): Id
    requires Known(n, w, term)
  {
    if term in n.byTerm then n.byTerm[term] else w.added[term]
  }

  /** Those of these terms that have no id yet. */
  function Unknown(n: Names, w: Work, terms: set<Term>): set<Term> {
    set t | t in terms && !Known(n, w, t)
  }

  function Begin(n: Names): Work {
    Work(n.pool, map[], map[])
  }

  lemma BeginOk(n: Names)
    requires NamesOk(n)
    ensures WorkOk(n, Begin(n))
  {
    assert Live(n.pool) - Live(n.pool) == {};
  }

  lemma Added1to1Next(base: nat, before: set<nat>, live: set<nat>, taken: map<Term, Id>, added: map<Term, Id>,
                      named: map<Id, Term>,
                      term: Term, x: nat)
    requires Added1to1(base, before, live, taken, added, named)
    requires term !in taken && term !in added && term != NO_TERM && x !in live
    ensures Added1to1(base, before, live + {x}, taken, added[term := base + x], named[base + x := term])
  {
    assert base + x !in named;
    assert live + {x} - before == (live - before) + {x};
  }

  /** A term given the next id. */
  function NameNext(n: Names, w: Work, term: Term): Work
    requires Alloc(w.pool).1.Some?
  {
    var id := n.base + Alloc(w.pool).1.value;
    Work(Alloc(w.pool).0, w.added[term := id], w.named[id := term])
  }

  lemma NameNextOk(n: Names, w: Work, term: Term)
    requires WorkOk(n, w) && term != NO_TERM && !Known(n, w, term) && Room(w.pool) > 0
    ensures Alloc(w.pool).1.Some? && WorkOk(n, NameNext(n, w, term)) &&
            Room(NameNext(n, w, term).pool) == Room(w.pool) - 1
  {
    AllocExact(w.pool);
    AllocInStep(w.pool);
    Added1to1Next(n.base, Live(n.pool), Live(w.pool), n.byTerm, w.added, w.named, term, Alloc(w.pool).1.value);
  }

  /** Names are only added. */
  ghost predicate Keeps(n: Names, w: Work, next: Work) {
    forall t :: Known(n, w, t) ==> Known(n, next, t) && IdIn(n, next, t) == IdIn(n, w, t)
  }

  /** There are enough ids for those of these terms that have none. */
  predicate HasRoom(n: Names, w: Work, terms: set<Term>) {
    |Unknown(n, w, terms)| <= Room(w.pool)
  }

  /** Names are only added, exactly for those of these terms that had none. */
  ghost predicate Extends(n: Names, w: Work, next: Work, terms: set<Term>) {
    Keeps(n, w, next) && next.added.Keys == w.added.Keys + Unknown(n, w, terms) &&
    Room(next.pool) == Room(w.pool) - |Unknown(n, w, terms)|
  }

  lemma OneUnknown(n: Names, w: Work, a: Term)
    ensures Unknown(n, w, {a}) == if Known(n, w, a) then {} else {a}
  {
  }

  lemma KnownExtends(n: Names, w: Work, term: Term)
    requires Known(n, w, term)
    ensures Extends(n, w, w, {term})
  {
    OneUnknown(n, w, term);
  }

  lemma NameExtends(n: Names, w: Work, term: Term)
    requires WorkOk(n, w) && term != NO_TERM && !Known(n, w, term) && Room(w.pool) > 0
    ensures Alloc(w.pool).1.Some? && Extends(n, w, NameNext(n, w, term), {term})
  {
    NameNextOk(n, w, term);
    OneUnknown(n, w, term);
    assert NameNext(n, w, term).added.Keys == w.added.Keys + {term};
  }

  lemma RoomForOne(n: Names, w: Work, term: Term)
    requires WorkOk(n, w)
    ensures HasRoom(n, w, {term}) <==> Known(n, w, term) || Room(w.pool) > 0
  {
    OneUnknown(n, w, term);
  }

  /** A term not known yet gets the next id, while there is room. */
  method NewName(n: Names, w: Work, term: Term) returns (next: Work, id: Id, ok: bool)
    requires WorkOk(n, w) && term != NO_TERM && !Known(n, w, term)
    ensures ok <==> HasRoom(n, w, {term})
    ensures ok ==> WorkOk(n, next) && Known(n, next, term) && IdIn(n, next, term) == id && Extends(n, w, next, {term})
  {
    RoomForOne(n, w, term);
    AllocInStep(w.pool);
    var r := Alloc(w.pool);
    if r.1.None? {
      return Work(r.0, w.added, w.named), 0, false;
    }
    NameNextOk(n, w, term);
    NameExtends(n, w, term);
    next, id, ok := NameNext(n, w, term), n.base + r.1.value, true;
  }

  /** The id of a term: known before, given in this batch, or new. */
  method Name(n: Names, w: Work, term: Term) returns (next: Work, id: Id, ok: bool)
    requires WorkOk(n, w) && term != NO_TERM
    ensures ok <==> HasRoom(n, w, {term})
    ensures ok ==> WorkOk(n, next) && Known(n, next, term) && IdIn(n, next, term) == id && Extends(n, w, next, {term})
  {
    if term in n.byTerm {
      RoomForOne(n, w, term);
      KnownExtends(n, w, term);
      return w, n.byTerm[term], true;
    }
    if term in w.added {
      RoomForOne(n, w, term);
      KnownExtends(n, w, term);
      return w, w.added[term], true;
    }
    next, id, ok := NewName(n, w, term);
  }

  /** The names of the batch written to the dictionary, in both directions. */
  function Commit(n: Names, w: Work): Names {
    Names(w.pool, n.base, n.byId + w.named, n.byTerm + w.added)
  }

  lemma Commit1to1(base: nat, before: set<nat>, live: set<nat>, byId: map<Id, Term>, byTerm: map<Term, Id>,
                   added: map<Term, Id>, named: map<Id, Term>)
    requires Names1to1(base, before, byId, byTerm) && Added1to1(base, before, live, byTerm, added, named)
    ensures Names1to1(base, live, byId + named, byTerm + added)
  {
    assert forall id :: id in byId ==> id !in named;
  }

  lemma CommitOk(n: Names, w: Work)
    requires WorkOk(n, w)
    ensures NamesOk(Commit(n, w))
    ensures forall t :: t in Commit(n, w).byTerm <==> Known(n, w, t)
    ensures forall t :: Known(n, w, t) ==> Commit(n, w).byTerm[t] == IdIn(n, w, t)
    ensures forall id :: id in n.byId ==> id in Commit(n, w).byId && Commit(n, w).byId[id] == n.byId[id]
  {
    Commit1to1(n.base, Live(n.pool), Live(w.pool), n.byId, n.byTerm, w.added, w.named);
    forall id | id in n.byId
      ensures id !in w.named
    {
      assert id - n.base in Live(n.pool);
    }
  }

  // ---------------------------------------------------------------- names that go

  /** Removes one name and frees its id. */
  function Forget(n: Names, id: Id): Names
    requires id in n.byId && n.base <= id && n.pool.num > 0
  {
    Names(Free(n.pool, id - n.base), n.base, n.byId - {id}, n.byTerm - {n.byId[id]})
  }

  lemma ForgetOk(n: Names, id: Id)
    requires NamesOk(n) && id in n.byId
    ensures n.base <= id && n.pool.num > 0 && NamesOk(Forget(n, id))
  {
    PoolCount(n.pool);
    assert id - n.base in Live(n.pool);
    FreeExact(n.pool, id - n.base);
    Forget1to1(n.base, Live(n.pool), n.byId, n.byTerm, id);
  }

  lemma Forget1to1(base: nat, live: set<nat>, byId: map<Id, Term>, byTerm: map<Term, Id>, id: Id)
    requires Names1to1(base, live, byId, byTerm) && id in byId && base <= id
    ensures Names1to1(base, live - {id - base}, byId - {id}, byTerm - {byId[id]})
  {
    forall x | x in byId && x != id
      ensures byId[x] != byId[id]
    {
      assert byTerm[byId[x]] == x && byTerm[byId[id]] == id;
    }
  }

  /** Nothing live: the pool may start over. */
  function Reset(n: Names): Names {
    Names(Pool(0, [], n.pool.num), n.base, n.byId, n.byTerm)
  }

  /** Resetting a pool's ids is safe exactly when it has no live id. */
  lemma ResetExact(n: Names)
    requires NamesOk(n)
    ensures NamesOk(Reset(n)) <==> n.byId == map[]
  {
    PoolCount(n.pool);
    if n.byId == map[] {
      assert Live(n.pool) == {} by {
        forall x
          ensures x !in Live(n.pool)
        {
          assert x >= 0 ==> n.base + x !in n.byId;
        }
      }
      assert Live(Reset(n).pool) == {};
    } else {
      var id :| id in n.byId;
      assert id - n.base in Live(n.pool) && id - n.base !in Live(Reset(n).pool);
    }
  }
}

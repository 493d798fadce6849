/** The updatable store: three redundant indexes, ids with free lists and the dictionary, refining
    one set of triples of terms. */
module Store {
  import opened Collections
  import opened Rdf
  import opened IdPools

  /** A triple as it is inserted or removed; the object is an entity or a literal. */
  datatype RdfTriple = RdfTriple(subject: Term, verb: Term, target: Term, objIsEntity: bool)

  predicate HasTerms(t: RdfTriple) {
    t.subject != NO_TERM && t.verb != NO_TERM && t.target != NO_TERM
  }

  predicate IsEntityId(id: Id) {
    id < LITERAL_FIRST_ID
  }

  /** The three dictionaries. */
  datatype Dict = Dict(entities: Names, predicates: Names, literals: Names)

  ghost predicate DictOk(d: Dict) {
    NamesOk(d.entities) && NamesOk(d.predicates) && NamesOk(d.literals) &&
    d.entities.base == 0 && d.predicates.base == 0 && d.literals.base == LITERAL_FIRST_ID
  }

  /** Entity and literal ids never overlap. */
  lemma KindsApart(d: Dict, id: Id)
    requires DictOk(d)
    ensures id in d.entities.byId ==> IsEntityId(id)
    ensures id in d.literals.byId ==> !IsEntityId(id)
  {
    if id in d.entities.byId {
      assert id - 0 in Live(d.entities.pool);
    }
  }

  predicate ObjectNamed(d: Dict, id: Id) {
    if IsEntityId(id) then id in d.entities.byId else id in d.literals.byId
  }

  predicate Named(d: Dict, t: Triple) {
    t.s in d.entities.byId && t.p in d.predicates.byId && ObjectNamed(d, t.o)
  }

  /** The triple of terms a tuple stands for. */
  function Spell(d: Dict, t: Triple): RdfTriple
    requires Named(d, t)
  {
    RdfTriple(d.entities.byId[t.s], d.predicates.byId[t.p],
              if IsEntityId(t.o) then d.entities.byId[t.o] else d.literals.byId[t.o], IsEntityId(t.o))
  }

  /** Whether all terms of a triple have ids. */
  predicate Resolves(d: Dict, t: RdfTriple) {
    t.subject in d.entities.byTerm && t.verb in d.predicates.byTerm &&
    if t.objIsEntity then t.target in d.entities.byTerm else t.target in d.literals.byTerm
  }

  function Encode(d: Dict, t: RdfTriple): Triple
    requires Resolves(d, t)
  {
    Triple(d.entities.byTerm[t.subject], d.predicates.byTerm[t.verb],
           if t.objIsEntity then d.entities.byTerm[t.target] else d.literals.byTerm[t.target])
  }

  /** Encoding and spelling undo each other. */
  lemma EncodeSpell(d: Dict, t: RdfTriple)
    requires DictOk(d) && Resolves(d, t)
    ensures Named(d, Encode(d, t)) && Spell(d, Encode(d, t)) == t
  {
    var id := Encode(d, t);
    KindsApart(d, id.s);
    KindsApart(d, id.o);
  }

  lemma SpellEncode(d: Dict, t: Triple)
    requires DictOk(d) && Named(d, t)
    ensures Resolves(d, Spell(d, t)) && Encode(d, Spell(d, t)) == t
  {
  }

  // ---------------------------------------------------------------- the dictionary matches the triples

  ghost predicate EntityUsed(all: set<Triple>, id: Id) {
    exists t :: t in all && (t.s == id || t.o == id)
  }

  ghost predicate PredicateUsed(all: set<Triple>, id: Id) {
    exists t :: t in all && t.p == id
  }

  ghost predicate ObjectUsed(all: set<Triple>, id: Id) {
    exists t :: t in all && t.o == id
  }

  /** The live ids are exactly the ids that occur in some triple. */
  ghost predicate Exact(d: Dict, all: set<Triple>) {
    (forall t :: t in all ==> Named(d, t)) &&
    (forall id {:trigger EntityUsed(all, id)} :: id in d.entities.byId ==> EntityUsed(all, id)) &&
    (forall id {:trigger PredicateUsed(all, id)} :: id in d.predicates.byId ==> PredicateUsed(all, id)) &&
    (forall id {:trigger ObjectUsed(all, id)} :: id in d.literals.byId ==> ObjectUsed(all, id))
  }

  /** What the store means. */
  ghost function Meaning(d: Dict, all: set<Triple>): set<RdfTriple>
    requires forall t :: t in all ==> Named(d, t)
  {
    set t | t in all :: Spell(d, t)
  }

  lemma MeaningMember(d: Dict, all: set<Triple>, t: RdfTriple)
    requires DictOk(d) && forall x :: x in all ==> Named(d, x)
    ensures t in Meaning(d, all) <==> Resolves(d, t) && Encode(d, t) in all
  {
    if t in Meaning(d, all) {
      var x :| x in all && Spell(d, x) == t;
      SpellEncode(d, x);
    }
    if Resolves(d, t) && Encode(d, t) in all {
      EncodeSpell(d, t);
    }
  }

  // ---------------------------------------------------------------- a batch being encoded

  /** The three dictionaries with a batch in progress. */
  datatype Works = Works(entities: Work, predicates: Work, literals: Work)

  ghost predicate WorksOk(d: Dict, w: Works) {
    DictOk(d) && WorkOk(d.entities, w.entities) && WorkOk(d.predicates, w.predicates) && WorkOk(d.literals, w.literals)
  }

  predicate WillResolve(d: Dict, w: Works, t: RdfTriple) {
    Known(d.entities, w.entities, t.subject) && Known(d.predicates, w.predicates, t.verb) &&
    if t.objIsEntity then Known(d.entities, w.entities, t.target) else Known(d.literals, w.literals, t.target)
  }

  function WillEncode(d: Dict, w: Works, t: RdfTriple): Triple
    requires WillResolve(d, w, t)
  {
    Triple(IdIn(d.entities, w.entities, t.subject), IdIn(d.predicates, w.predicates, t.verb),
           if t.objIsEntity then IdIn(d.entities, w.entities, t.target) else IdIn(d.literals, w.literals, t.target))
  }

  function CommitAll(d: Dict, w: Works): Dict {
    Dict(Commit(d.entities, w.entities), Commit(d.predicates, w.predicates), Commit(d.literals, w.literals))
  }

  lemma CommitAllOk(d: Dict, w: Works)
    requires WorksOk(d, w)
    ensures DictOk(CommitAll(d, w))
    ensures forall t :: Named(d, t) ==> Named(CommitAll(d, w), t) && Spell(CommitAll(d, w), t) == Spell(d, t)
  {
    CommitOk(d.entities, w.entities);
    CommitOk(d.predicates, w.predicates);
    CommitOk(d.literals, w.literals);
  }

  lemma CommitEncodes(d: Dict, w: Works, t: RdfTriple)
    requires WorksOk(d, w)
    ensures Resolves(CommitAll(d, w), t) <==> WillResolve(d, w, t)
    ensures WillResolve(d, w, t) ==> Encode(CommitAll(d, w), t) == WillEncode(d, w, t)
  {
    CommitOk(d.entities, w.entities);
    CommitOk(d.predicates, w.predicates);
    CommitOk(d.literals, w.literals);
  }

  function EntityTerms(t: RdfTriple): set<Term> {
    if t.objIsEntity then {t.subject, t.target} else {t.subject}
  }

  function LiteralTerms(t: RdfTriple): set<Term> {
    if t.objIsEntity then {} else {t.target}
  }

  ghost predicate ExtendsBy(d: Dict, w: Works, next: Works, t: RdfTriple) {
    Extends(d.entities, w.entities, next.entities, EntityTerms(t)) &&
    Extends(d.predicates, w.predicates, next.predicates, {t.verb}) &&
    Extends(d.literals, w.literals, next.literals, LiteralTerms(t))
  }

  lemma ExtendsKeeps(d: Dict, w: Works, next: Works, t: RdfTriple, u: RdfTriple)
    requires ExtendsBy(d, w, next, t) && WillResolve(d, w, u)
    ensures WillResolve(d, next, u) && WillEncode(d, next, u) == WillEncode(d, w, u)
  {
  }

  predicate HasRoomOne(d: Dict, w: Works, t: RdfTriple) {
    HasRoom(d.entities, w.entities, EntityTerms(t)) && HasRoom(d.predicates, w.predicates, {t.verb}) &&
    HasRoom(d.literals, w.literals, LiteralTerms(t))
  }

  /** Two terms named one after the other. */
  lemma NamedTwo(n: Names, w: Work, mid: Work, next: Work, a: Term, b: Term)
    requires Extends(n, w, mid, {a}) && Extends(n, mid, next, {b})
    ensures Extends(n, w, next, {a, b})
  {
    TwoUnknown(n, w, mid, a, b);
  }

  lemma TwoUnknown(n: Names, w: Work, mid: Work, a: Term, b: Term)
    requires mid.added.Keys == w.added.Keys + Unknown(n, w, {a})
    ensures Unknown(n, w, {a, b}) == Unknown(n, w, {a}) + Unknown(n, mid, {b})
    ensures |Unknown(n, w, {a, b})| == |Unknown(n, w, {a})| + |Unknown(n, mid, {b})|
  {
    OneUnknown(n, w, a);
    OneUnknown(n, mid, b);
    KnownAfter(n, w, mid, a, b);
    UnknownPair(n, w, a, b);
  }

  lemma KnownAfter(n: Names, w: Work, mid: Work, a: Term, b: Term)
    requires mid.added.Keys == w.added.Keys + Unknown(n, w, {a})
    ensures Known(n, mid, b) <==> Known(n, w, b) || b == a
  {
    OneUnknown(n, w, a);
    assert b in mid.added <==> b in mid.added.Keys;
    assert b in w.added <==> b in w.added.Keys;
  }

  lemma UnknownPair(n: Names, w: Work, a: Term, b: Term)
    ensures Unknown(n, w, {a, b}) == Unknown(n, w, {a}) + Unknown(n, w, {b})
  {
  }

  lemma HasRoomTwo(n: Names, w: Work, mid: Work, a: Term, b: Term)
    requires WorkOk(n, mid) && Extends(n, w, mid, {a})
    ensures HasRoom(n, w, {a, b}) <==> HasRoom(n, mid, {b})
  {
    TwoUnknown(n, w, mid, a, b);
  }

  lemma HasRoomLess(n: Names, w: Work, a: Term, terms: set<Term>)
    requires a in terms && WorkOk(n, w) && !HasRoom(n, w, {a})
    ensures !HasRoom(n, w, terms)
  {
    OneUnknown(n, w, a);
    assert a in Unknown(n, w, terms);
  }

  lemma NoneExtends(n: Names, w: Work)
    requires WorkOk(n, w)
    ensures Extends(n, w, w, {}) && HasRoom(n, w, {})
  {
    assert Unknown(n, w, {}) == {};
  }

  /** The ids of one triple, given where missing: subject, predicate, object. It fails exactly when
      there are not enough ids for its new terms. */
  method EncodeOne(d: Dict, w: Works, t: RdfTriple) returns (next: Works, tuple: Triple, ok: bool)
    requires WorksOk(d, w) && HasTerms(t)
    ensures ok <==> HasRoomOne(d, w, t)
    ensures ok ==>
              WorksOk(d, next) && ExtendsBy(d, w, next, t) && WillResolve(d, next, t) && tuple == WillEncode(d, next, t)
  {
    next, tuple := w, Triple(0, 0, 0);
    var entities, s, ok1 := Name(d.entities, w.entities, t.subject);
    if !ok1 {
      HasRoomLess(d.entities, w.entities, t.subject, EntityTerms(t));
      return next, tuple, false;
    }
    var predicates, p, ok2 := Name(d.predicates, w.predicates, t.verb);
    if !ok2 {
      return next, tuple, false;
    }
    if t.objIsEntity {
      var entities', o, ok3 := Name(d.entities, entities, t.target);
      HasRoomTwo(d.entities, w.entities, entities, t.subject, t.target);
      NoneExtends(d.literals, w.literals);
      if ok3 {
        NamedTwo(d.entities, w.entities, entities, entities', t.subject, t.target);
      }
      next, tuple, ok := Works(entities', predicates, w.literals), Triple(s, p, o), ok3;
    } else {
      var literals, o, ok3 := Name(d.literals, w.literals, t.target);
      next, tuple, ok := Works(entities, predicates, literals), Triple(s, p, o), ok3;
    }
  }

  /** The tuples of a batch with the names given so far. */
  ghost predicate Encoded(d: Dict, w: Works, ts: seq<RdfTriple>, tuples: seq<Triple>) {
    |tuples| == |ts| && forall i :: 0 <= i < |ts| ==> WillResolve(d, w, ts[i]) && tuples[i] == WillEncode(d, w, ts[i])
  }

  lemma EncodedNext(d: Dict, w: Works, next: Works, ts: seq<RdfTriple>, tuples: seq<Triple>, t: RdfTriple,
                    tuple: Triple)
    requires Encoded(d, w, ts, tuples) && ExtendsBy(d, w, next, t) && WillResolve(d, next, t) &&
             tuple == WillEncode(d, next, t)
    ensures Encoded(d, next, ts + [t], tuples + [tuple])
  {
    forall i | 0 <= i < |ts|
      ensures WillResolve(d, next, ts[i]) && tuples[i] == WillEncode(d, next, ts[i])
    {
      ExtendsKeeps(d, w, next, t, ts[i]);
    }
  }

  // ---------------------------------------------------------------- room for a batch

  ghost function Entities(ts: seq<RdfTriple>): set<Term> {
    set t, x | t in ts && x in EntityTerms(t) :: x
  }

  ghost function VerbTerms(ts: seq<RdfTriple>): set<Term> {
    set t | t in ts :: t.verb
  }

  ghost function Literals(ts: seq<RdfTriple>): set<Term> {
    set t, x | t in ts && x in LiteralTerms(t) :: x
  }

  /** Those of these terms the dictionary does not name. */
  ghost function New(n: Names, terms: set<Term>): set<Term> {
    set x | x in terms && x !in n.byTerm
  }

  /** There are enough free ids of each kind for the distinct terms of the batch not yet named. */
  ghost predicate RoomFor(d: Dict, ts: seq<RdfTriple>) {
    |New(d.entities, Entities(ts))| <= Room(d.entities.pool) &&
    |New(d.predicates, VerbTerms(ts))| <= Room(d.predicates.pool) &&
    |New(d.literals, Literals(ts))| <= Room(d.literals.pool)
  }

  /** The names given are those of the new terms. */
  ghost predicate GivenTo(n: Names, w: Work, terms: set<Term>) {
    w.added.Keys == New(n, terms) && Room(w.pool) == Room(n.pool) - |New(n, terms)|
  }

  ghost predicate AddedExactly(d: Dict, w: Works, ts: seq<RdfTriple>) {
    GivenTo(d.entities, w.entities, Entities(ts)) && GivenTo(d.predicates, w.predicates, VerbTerms(ts)) &&
    GivenTo(d.literals, w.literals, Literals(ts))
  }

  lemma TermsNext(ts: seq<RdfTriple>, i: nat)
    requires i < |ts|
    ensures Entities(ts[..i + 1]) == Entities(ts[..i]) + EntityTerms(ts[i])
    ensures VerbTerms(ts[..i + 1]) == VerbTerms(ts[..i]) + {ts[i].verb}
    ensures Literals(ts[..i + 1]) == Literals(ts[..i]) + LiteralTerms(ts[i])
  {
    assert ts[..i + 1] == ts[..i] + [ts[i]];
  }

  lemma TermsInside(ts: seq<RdfTriple>, i: nat)
    requires i <= |ts|
    ensures Entities(ts[..i]) <= Entities(ts) && VerbTerms(ts[..i]) <= VerbTerms(ts) &&
            Literals(ts[..i]) <= Literals(ts)
  {
    assert forall t :: t in ts[..i] ==> t in ts;
  }

  lemma NewNext(n: Names, w: Work, terms: set<Term>, more: set<Term>)
    requires w.added.Keys == New(n, terms)
    ensures New(n, terms + more) == New(n, terms) + Unknown(n, w, more)
    ensures |New(n, terms + more)| == |New(n, terms)| + |Unknown(n, w, more)|
  {
    assert forall x :: x in w.added <==> x in w.added.Keys;
    assert New(n, terms) !! Unknown(n, w, more);
    assert New(n, terms + more) == New(n, terms) + Unknown(n, w, more);
  }

  lemma GivenNext(n: Names, w: Work, next: Work, terms: set<Term>, more: set<Term>)
    requires GivenTo(n, w, terms) && Extends(n, w, next, more)
    ensures GivenTo(n, next, terms + more)
  {
    NewNext(n, w, terms, more);
  }

  lemma AddedNext(d: Dict, w: Works, next: Works, ts: seq<RdfTriple>, i: nat)
    requires i < |ts| && AddedExactly(d, w, ts[..i]) && ExtendsBy(d, w, next, ts[i])
    ensures AddedExactly(d, next, ts[..i + 1])
  {
    TermsNext(ts, i);
    GivenNext(d.entities, w.entities, next.entities, Entities(ts[..i]), EntityTerms(ts[i]));
    GivenNext(d.predicates, w.predicates, next.predicates, VerbTerms(ts[..i]), {ts[i].verb});
    GivenNext(d.literals, w.literals, next.literals, Literals(ts[..i]), LiteralTerms(ts[i]));
  }

  /** Terms that do not fit behind the ones named do not fit at all. */
  lemma NoRoom(n: Names, w: Work, terms: set<Term>, more: set<Term>, all: set<Term>)
    requires GivenTo(n, w, terms) && !HasRoom(n, w, more) && terms + more <= all
    ensures |New(n, all)| > Room(n.pool)
  {
    NewNext(n, w, terms, more);
    var some := New(n, terms + more);
    assert New(n, all) == some + (New(n, all) - some);
  }

  lemma NoRoomFor(d: Dict, w: Works, ts: seq<RdfTriple>, i: nat)
    requires i < |ts| && AddedExactly(d, w, ts[..i]) && !HasRoomOne(d, w, ts[i])
    ensures !RoomFor(d, ts)
  {
    TermsNext(ts, i);
    TermsInside(ts, i + 1);
    if !HasRoom(d.entities, w.entities, EntityTerms(ts[i])) {
      NoRoom(d.entities, w.entities, Entities(ts[..i]), EntityTerms(ts[i]), Entities(ts));
    } else if !HasRoom(d.predicates, w.predicates, {ts[i].verb}) {
      NoRoom(d.predicates, w.predicates, VerbTerms(ts[..i]), {ts[i].verb}, VerbTerms(ts));
    } else {
      NoRoom(d.literals, w.literals, Literals(ts[..i]), LiteralTerms(ts[i]), Literals(ts));
    }
  }

  lemma AddedFrom(n: Names, w: Work, terms: set<Term>, term: Term)
    requires GivenTo(n, w, terms) && term in w.added
    ensures term in terms
  {
    assert term in New(n, terms);
  }

  lemma HadRoom(n: Names, w: Work, terms: set<Term>)
    requires WorkOk(n, w) && GivenTo(n, w, terms)
    ensures |New(n, terms)| <= Room(n.pool)
  {
  }

  ghost predicate Tupled(d: Dict, w: Works, ts: seq<RdfTriple>, tuples: seq<Triple>) {
    WorksOk(d, w) && Encoded(d, w, ts, tuples)
  }

  /** A batch encoded so far. */
  ghost predicate BatchOk(d: Dict, w: Works, ts: seq<RdfTriple>, tuples: seq<Triple>) {
    Tupled(d, w, ts, tuples) && AddedExactly(d, w, ts)
  }

  lemma BeginGiven(n: Names)
    ensures GivenTo(n, Begin(n), {})
  {
    assert New(n, {}) == {};
  }

  lemma BatchStart(d: Dict)
    requires DictOk(d)
    ensures BatchOk(d, Works(Begin(d.entities), Begin(d.predicates), Begin(d.literals)), [], [])
  {
    BeginOk(d.entities);
    BeginOk(d.predicates);
    BeginOk(d.literals);
    BeginGiven(d.entities);
    BeginGiven(d.predicates);
    BeginGiven(d.literals);
    assert Entities([]) == {} && VerbTerms([]) == {} && Literals([]) == {};
  }

  lemma EncodedSlice(d: Dict, w: Works, next: Works, ts: seq<RdfTriple>, tuples: seq<Triple>, i: nat, tuple: Triple)
    requires i < |ts| && Encoded(d, w, ts[..i], tuples)
    requires ExtendsBy(d, w, next, ts[i]) && WillResolve(d, next, ts[i]) && tuple == WillEncode(d, next, ts[i])
    ensures Encoded(d, next, ts[..i + 1], tuples + [tuple])
  {
    EncodedNext(d, w, next, ts[..i], tuples, ts[i], tuple);
    assert ts[..i + 1] == ts[..i] + [ts[i]];
  }

  lemma BatchNext(d: Dict, w: Works, next: Works, ts: seq<RdfTriple>, tuples: seq<Triple>, i: nat, tuple: Triple)
    requires i < |ts| && BatchOk(d, w, ts[..i], tuples) && WorksOk(d, next)
    requires ExtendsBy(d, w, next, ts[i]) && WillResolve(d, next, ts[i]) && tuple == WillEncode(d, next, ts[i])
    ensures BatchOk(d, next, ts[..i + 1], tuples + [tuple])
  {
    AddedNext(d, w, next, ts, i);
    EncodedSlice(d, w, next, ts, tuples, i, tuple);
  }

  lemma EmptyRoom(d: Dict)
    requires DictOk(d)
    ensures RoomFor(d, [])
  {
    assert New(d.entities, Entities([])) == {} && New(d.predicates, VerbTerms([])) == {} &&
           New(d.literals, Literals([])) == {};
  }

  /** The encoding loop of batch_insert. Some allocation fails exactly when the free ids are not
      enough for the new terms; then nothing is claimed. */
  method EncodeBatch(d: Dict, triples: seq<RdfTriple>) returns (w: Works, tuples: seq<Triple>, ok: bool)
    requires DictOk(d) && forall i :: 0 <= i < |triples| ==> HasTerms(triples[i])
    ensures ok <==> RoomFor(d, triples)
    ensures ok ==> BatchOk(d, w, triples, tuples)
  {
    w, tuples := Works(Begin(d.entities), Begin(d.predicates), Begin(d.literals)), [];
    BatchStart(d);
    var i := 0;
    while i < |triples|
      invariant 0 <= i <= |triples| && BatchOk(d, w, triples[..i], tuples)
    {
      var next, tuple, done := EncodeOne(d, w, triples[i]);
      if !done {
        NoRoomFor(d, w, triples, i);
        return next, tuples, false;
      }
      BatchNext(d, w, next, triples, tuples, i, tuple);
      w, tuples := next, tuples + [tuple];
      i := i + 1;
    }
    assert triples[..i] == triples;
    HadRoom(d.entities, w.entities, Entities(triples));
    HadRoom(d.predicates, w.predicates, VerbTerms(triples));
    HadRoom(d.literals, w.literals, Literals(triples));
    ok := true;
  }

  // ---------------------------------------------------------------- inserting

  lemma InsertedNamed(d: Dict, w: Works, ts: seq<RdfTriple>, tuples: seq<Triple>, i: nat)
    requires Tupled(d, w, ts, tuples) && i < |ts|
    ensures var next := CommitAll(d, w);
            DictOk(next) && Resolves(next, ts[i]) && Encode(next, ts[i]) == tuples[i] && Named(next, tuples[i])
  {
    CommitAllOk(d, w);
    CommitEncodes(d, w, ts[i]);
    EncodeSpell(CommitAll(d, w), ts[i]);
  }

  /** The tuple of a triple of the batch is in the new set. */
  lemma InsertedTuple(d: Dict, all: set<Triple>, w: Works, ts: seq<RdfTriple>, tuples: seq<Triple>, t: RdfTriple)
    requires Tupled(d, w, ts, tuples) && t in ts
    ensures Resolves(CommitAll(d, w), t) && Encode(CommitAll(d, w), t) in all + Elements(tuples)
  {
    InsertedNamed(d, w, ts, tuples, Pos(ts, t));
  }

  lemma EncodedEntity(d: Dict, t: RdfTriple, term: Term)
    requires Resolves(d, t) && term in EntityTerms(t)
    ensures term in d.entities.byTerm &&
            (Encode(d, t).s == d.entities.byTerm[term] || Encode(d, t).o == d.entities.byTerm[term])
  {
  }

  lemma NewEntityUsed(d: Dict, all: set<Triple>, w: Works, ts: seq<RdfTriple>, tuples: seq<Triple>, term: Term)
    requires Tupled(d, w, ts, tuples) && term in Entities(ts)
    ensures term in CommitAll(d, w).entities.byTerm
    ensures EntityUsed(all + Elements(tuples), CommitAll(d, w).entities.byTerm[term])
  {
    var t :| t in ts && term in EntityTerms(t);
    InsertedTuple(d, all, w, ts, tuples, t);
    EncodedEntity(CommitAll(d, w), t, term);
  }

  lemma UsedMore(all: set<Triple>, more: set<Triple>, id: Id)
    requires EntityUsed(all, id)
    ensures EntityUsed(all + more, id)
  {
  }

  lemma EntityStillUsed(d: Dict, all: set<Triple>, w: Works, ts: seq<RdfTriple>, tuples: seq<Triple>, id: Id)
    requires DictOk(d) && Exact(d, all) && BatchOk(d, w, ts, tuples) && id in CommitAll(d, w).entities.byId
    ensures EntityUsed(all + Elements(tuples), id)
  {
    CommitOk(d.entities, w.entities);
    var term := CommitAll(d, w).entities.byId[id];
    assert CommitAll(d, w).entities.byTerm[term] == id;
    if term in d.entities.byTerm {
      assert EntityUsed(all, id);
      UsedMore(all, Elements(tuples), id);
    } else {
      AddedFrom(d.entities, w.entities, Entities(ts), term);
      NewEntityUsed(d, all, w, ts, tuples, term);
    }
  }

  lemma PredicateStillUsed(d: Dict, all: set<Triple>, w: Works, ts: seq<RdfTriple>, tuples: seq<Triple>, id: Id)
    requires DictOk(d) && Exact(d, all) && BatchOk(d, w, ts, tuples) && id in CommitAll(d, w).predicates.byId
    ensures PredicateUsed(all + Elements(tuples), id)
  {
    CommitOk(d.predicates, w.predicates);
    var term := CommitAll(d, w).predicates.byId[id];
    if term in d.predicates.byTerm {
      assert PredicateUsed(all, id);
    } else {
      AddedFrom(d.predicates, w.predicates, VerbTerms(ts), term);
      var t :| t in ts && t.verb == term;
      InsertedTuple(d, all, w, ts, tuples, t);
    }
  }

  lemma LiteralStillUsed(d: Dict, all: set<Triple>, w: Works, ts: seq<RdfTriple>, tuples: seq<Triple>, id: Id)
    requires DictOk(d) && Exact(d, all) && BatchOk(d, w, ts, tuples) && id in CommitAll(d, w).literals.byId
    ensures ObjectUsed(all + Elements(tuples), id)
  {
    CommitOk(d.literals, w.literals);
    var term := CommitAll(d, w).literals.byId[id];
    if term in d.literals.byTerm {
      assert ObjectUsed(all, id);
    } else {
      AddedFrom(d.literals, w.literals, Literals(ts), term);
      var t :| t in ts && term in LiteralTerms(t);
      InsertedTuple(d, all, w, ts, tuples, t);
    }
  }

  /** A batch inserted: the dictionary matches the triples again. */
  lemma InsertExactness(d: Dict, all: set<Triple>, w: Works, ts: seq<RdfTriple>, tuples: seq<Triple>)
    requires DictOk(d) && Exact(d, all) && BatchOk(d, w, ts, tuples)
    ensures DictOk(CommitAll(d, w)) && Exact(CommitAll(d, w), all + Elements(tuples))
  {
    var next := CommitAll(d, w);
    CommitAllOk(d, w);
    forall t | t in all + Elements(tuples)
      ensures Named(next, t)
    {
      if t !in all {
        InsertedNamed(d, w, ts, tuples, Pos(tuples, t));
      }
    }
    forall id | id in next.entities.byId
      ensures EntityUsed(all + Elements(tuples), id)
    {
      EntityStillUsed(d, all, w, ts, tuples, id);
    }
    forall id | id in next.predicates.byId
      ensures PredicateUsed(all + Elements(tuples), id)
    {
      PredicateStillUsed(d, all, w, ts, tuples, id);
    }
    forall id | id in next.literals.byId
      ensures ObjectUsed(all + Elements(tuples), id)
    {
      LiteralStillUsed(d, all, w, ts, tuples, id);
    }
  }

  lemma GainedOnly(d: Dict, all: set<Triple>, w: Works, ts: seq<RdfTriple>, tuples: seq<Triple>, t: Triple)
    requires Exact(d, all) && Tupled(d, w, ts, tuples) && t in all + Elements(tuples)
    ensures Named(CommitAll(d, w), t)
    ensures if t in all then Spell(CommitAll(d, w), t) == Spell(d, t) else Spell(CommitAll(d, w), t) in ts
  {
    if t in all {
      CommitAllOk(d, w);
    } else {
      var i := Pos(tuples, t);
      InsertedNamed(d, w, ts, tuples, i);
      EncodeSpell(CommitAll(d, w), ts[i]);
    }
  }

  /** In terms, the store has gained exactly the batch. */
  lemma InsertMeaning(d: Dict, all: set<Triple>, w: Works, ts: seq<RdfTriple>, tuples: seq<Triple>)
    requires DictOk(d) && Exact(d, all) && Tupled(d, w, ts, tuples)
    requires DictOk(CommitAll(d, w)) && Exact(CommitAll(d, w), all + Elements(tuples))
    ensures Meaning(CommitAll(d, w), all + Elements(tuples)) == Meaning(d, all) + Elements(ts)
  {
    var next, after := CommitAll(d, w), all + Elements(tuples);
    forall x | x in Meaning(next, after)
      ensures x in Meaning(d, all) + Elements(ts)
    {
      var t :| t in after && Spell(next, t) == x;
      GainedOnly(d, all, w, ts, tuples, t);
    }
    forall x | x in Meaning(d, all) + Elements(ts)
      ensures x in Meaning(next, after)
    {
      Gained(d, all, w, ts, tuples, x);
    }
  }

  lemma Gained(d: Dict, all: set<Triple>, w: Works, ts: seq<RdfTriple>, tuples: seq<Triple>, x: RdfTriple)
    requires DictOk(d) && Exact(d, all) && Tupled(d, w, ts, tuples)
    requires DictOk(CommitAll(d, w)) && Exact(CommitAll(d, w), all + Elements(tuples))
    requires x in Meaning(d, all) + Elements(ts)
    ensures x in Meaning(CommitAll(d, w), all + Elements(tuples))
  {
    if x in ts {
      InsertedTuple(d, all, w, ts, tuples, x);
      EncodeSpell(CommitAll(d, w), x);
    } else {
      var t :| t in all && Spell(d, t) == x;
      GainedOnly(d, all, w, ts, tuples, t);
    }
  }
}

/** What every step of a greedy plan with predicate variables keeps: the plan is well formed, and its
    patterns are the triples dealt with, up to variables nobody else refers to. */
module PredicateSteps {
  import opened Collections
  import opened Rdf
  import opened Tables
  import opened Plans
  import opened Solutions
  import opened Satellites
  import opened CandidateCaches
  import opened CacheCoverage
  import opened QueryPlans
  import opened QueryGraphs
  import opened PredicatePlans

  // ---------------------------------------------------------------- patterns of triples

  /** The item itself, or nothing in place of a light variable. */
  predicate Faded(env: Env, x: Item, y: Item) {
    y == x || (y.Any? && x.Variable? && Light(env, x.v))
  }

  predicate Form(env: Env, f: Pattern, t: Pattern) {
    Faded(env, t.s, f.s) && Faded(env, t.p, f.p) && Faded(env, t.o, f.o)
  }

  ghost predicate FormOfSome(env: Env, f: Pattern, done: set<Pattern>) {
    exists t :: t in done && Form(env, f, t)
  }

  /** A pattern of the triple that names every variable of it among the columns. */
  ghost predicate HasForm(env: Env, ps: set<Pattern>, t: Pattern, cols: set<nat>) {
    exists f :: f in ps && Form(env, f, t) && PatternVars(t) * cols <= PatternVars(f)
  }

  ghost predicate Forms(env: Env, ps: set<Pattern>, done: set<Pattern>, cols: set<nat>) {
    (forall f {:trigger FormOfSome(env, f, done)} :: f in ps ==> FormOfSome(env, f, done)) &&
    (forall t {:trigger HasForm(env, ps, t, cols)} :: t in done ==> HasForm(env, ps, t, cols))
  }

  /** None of these variables is in a triple dealt with. */
  ghost predicate NotIn(vs: set<nat>, done: set<Pattern>) {
    forall t :: t in done ==> vs !! PatternVars(t)
  }

  ghost predicate InSome(v: nat, done: set<Pattern>) {
    exists t :: t in done && v in PatternVars(t)
  }

  lemma HasFormMore(env: Env, ps: set<Pattern>, more: set<Pattern>, t: Pattern, cols: set<nat>, added: set<nat>)
    requires HasForm(env, ps, t, cols) && added !! PatternVars(t)
    ensures HasForm(env, ps + more, t, cols + added)
  {
    var f :| f in ps && Form(env, f, t) && PatternVars(t) * cols <= PatternVars(f);
    assert f in ps + more && PatternVars(t) * (cols + added) <= PatternVars(f);
  }

  lemma FormOfMore(env: Env, f: Pattern, done: set<Pattern>, all: set<Pattern>)
    requires FormOfSome(env, f, done) && done <= all
    ensures FormOfSome(env, f, all)
  {
    var t :| t in done && Form(env, f, t);
    assert t in all;
  }

  lemma FormsUnion(env: Env, ps: set<Pattern>, done: set<Pattern>, cols: set<nat>, qs: set<Pattern>, more: set<Pattern>,
                   added: set<nat>)
    requires Forms(env, ps, done, cols) && Forms(env, qs, more, cols + added) && NotIn(added, done)
    ensures Forms(env, ps + qs, done + more, cols + added)
  {
    forall f | f in ps + qs
      ensures FormOfSome(env, f, done + more)
    {
      if f in ps {
        FormOfMore(env, f, done, done + more);
      } else {
        FormOfMore(env, f, more, done + more);
      }
    }
    forall t | t in done + more
      ensures HasForm(env, ps + qs, t, cols + added)
    {
      if t in done {
        HasFormMore(env, ps, qs, t, cols, added);
      } else {
        HasFormMore(env, qs, ps, t, cols + added, {});
        assert qs + ps == ps + qs && cols + added + {} == cols + added;
      }
    }
  }

  // ---------------------------------------------------------------- what is kept

  predicate EndPlaced(x: Item, placed: set<nat>) {
    x.Constant? || (x.Variable? && x.v in placed)
  }

  /** A triple dealt with: its ends are placed, and so is its predicate variable unless it is light. */
  ghost predicate Dealt(env: Env, b: Build, t: Pattern) {
    t in env.ts && EndPlaced(t.s, b.placed) && EndPlaced(t.o, b.placed) &&
    (t.p.Variable? && !Light(env, t.p.v) ==> t.p.v in b.joined)
  }

  ghost predicate AllDealt(env: Env, b: Build, done: set<Pattern>) {
    forall t {:trigger Dealt(env, b, t)} :: t in done ==> Dealt(env, b, t)
  }

  /** Every column is placed or in a triple dealt with. */
  ghost predicate ColsKnown(cols: set<nat>, placed: set<nat>, done: set<Pattern>) {
    forall v :: v in cols ==> v in placed || InSome(v, done)
  }

  ghost predicate PlanSound(ids: seq<Id>, b: Build) {
    Wf(b.plan) && Wf(Saturate(b.plan)) && NoSatellite(Saturate(b.plan)) && WithIds(b.plan, ids) == b.plan &&
    FilteredCols(Saturate(b.plan)) == PlanCols(Saturate(b.plan)) && ScanVars(Saturate(b.plan)) <= b.placed &&
    b.joined <= PlanCols(b.plan) <= PlanCols(Saturate(b.plan))
  }

  ghost predicate Built(env: Env, ids: seq<Id>, b: Build, done: set<Pattern>) {
    PlanSound(ids, b) && ColsKnown(PlanCols(Saturate(b.plan)), b.placed, done) &&
    Forms(env, PlanPatterns(Saturate(b.plan)), done, PlanCols(Saturate(b.plan))) && AllDealt(env, b, done)
  }

  lemma SoundStep(ids: seq<Id>, b: Build, st: Step, next: Build)
    requires PlanSound(ids, b) && !st.Check? && (b.plan.Unit? ==> st.ExtendOne? || st.ExtendTwo?)
    requires StepOk(st, PlanCols(b.plan)) && StepOk(Kept(st), PlanCols(Saturate(b.plan)))
    requires next.plan == Apply(b.plan, st) && b.placed <= next.placed &&
             next.joined <= b.joined + Elements(NewCols(st))
    ensures PlanSound(ids, next)
    ensures PlanCols(Saturate(next.plan)) == PlanCols(Saturate(b.plan)) + Elements(NewCols(Kept(st)))
    ensures PlanPatterns(Saturate(next.plan)) == PlanPatterns(Saturate(b.plan)) + StepPatterns(st)
    ensures PlanCols(next.plan) == PlanCols(b.plan) + Elements(NewCols(st))
  {
    assert Saturate(next.plan) == Apply(Saturate(b.plan), Kept(st));
  }

  lemma DealtMore(env: Env, b: Build, done: set<Pattern>, next: Build, more: set<Pattern>)
    requires AllDealt(env, b, done) && AllDealt(env, next, more) && b.placed <= next.placed && b.joined <= next.joined
    ensures AllDealt(env, next, done + more)
  {
    forall t | t in done + more
      ensures Dealt(env, next, t)
    {
      assert t in done ==> Dealt(env, b, t);
    }
  }

  lemma ColsMore(cols: set<nat>, placed: set<nat>, done: set<Pattern>, added: set<nat>, now: set<nat>,
                 more: set<Pattern>)
    requires ColsKnown(cols, placed, done) && ColsKnown(added, now, more) && placed <= now
    ensures ColsKnown(cols + added, now, done + more)
  {
    forall v | v in cols + added
      ensures v in now || InSome(v, done + more)
    {
      if v in cols && v !in placed {
        var t :| t in done && v in PatternVars(t);
        assert t in done + more;
      } else if v !in cols && v !in now {
        var t :| t in more && v in PatternVars(t);
        assert t in done + more;
      }
    }
  }

  /** A step that may follow a plan: it brings new columns and deals with some triples. */
  ghost predicate StepFits(env: Env, b: Build, done: set<Pattern>, st: Step, next: Build, more: set<Pattern>) {
    !st.Check? && (b.plan.Unit? ==> st.ExtendOne? || st.ExtendTwo?) &&
    StepOk(st, PlanCols(b.plan)) && StepOk(Kept(st), PlanCols(Saturate(b.plan))) &&
    next.plan == Apply(b.plan, st) && b.placed <= next.placed &&
    b.joined <= next.joined <= b.joined + Elements(NewCols(st)) &&
    NotIn(Elements(NewCols(Kept(st))), done) && ColsKnown(Elements(NewCols(Kept(st))), next.placed, more) &&
    Forms(env, StepPatterns(st), more, PlanCols(Saturate(b.plan)) + Elements(NewCols(Kept(st)))) &&
    AllDealt(env, next, more)
  }

  lemma BuiltNext(env: Env, ids: seq<Id>, b: Build, done: set<Pattern>, st: Step, next: Build, more: set<Pattern>)
    requires Built(env, ids, b, done) && StepFits(env, b, done, st, next, more)
    ensures Built(env, ids, next, done + more) && PlanCols(next.plan) == PlanCols(b.plan) + Elements(NewCols(st))
  {
    SoundStep(ids, b, st, next);
    FormsUnion(env, PlanPatterns(Saturate(b.plan)), done, PlanCols(Saturate(b.plan)), StepPatterns(st), more,
               Elements(NewCols(Kept(st))));
    ColsMore(PlanCols(Saturate(b.plan)), b.placed, done, Elements(NewCols(Kept(st))), next.placed, more);
    DealtMore(env, b, done, next, more);
  }

  // ---------------------------------------------------------------- new variables are new

  ghost predicate EnvOk(env: Env) {
    Separate(env.ts) && SelfFree(env.ts) && forall t :: t in env.ts ==> Proper(t)
  }

  lemma NodeNew(env: Env, b: Build, done: set<Pattern>, t: Pattern, v: nat)
    requires Separate(env.ts) && AllDealt(env, b, done) && t in env.ts && Touches(t, v) && v !in b.placed
    ensures NotIn({v}, done) && !InSome(v, done)
  {
    forall u | u in done
      ensures v !in PatternVars(u)
    {
      assert Dealt(env, b, u);
    }
  }

  lemma PredicateNew(env: Env, b: Build, done: set<Pattern>, t: Pattern)
    requires Separate(env.ts) && AllDealt(env, b, done) && t in env.ts && t.p.Variable? && t.p.v !in b.joined
    requires !Light(env, t.p.v) || t !in done
    ensures NotIn({t.p.v}, done) && !InSome(t.p.v, done)
  {
    forall u | u in done
      ensures t.p.v !in PatternVars(u)
    {
      assert Dealt(env, b, u) && u in env.ts && !Touches(u, t.p.v);
      if u.p == t.p && Light(env, t.p.v) {
        LightOnce(env, t.p.v, t, u);
      }
    }
  }

  /** Every placed variable is a subject or object. */
  ghost predicate PlacedEnds(env: Env, placed: set<nat>) {
    forall v :: v in placed ==> exists t :: t in env.ts && Touches(t, v)
  }

  lemma PredicateNotPlaced(env: Env, placed: set<nat>, t: Pattern)
    requires Separate(env.ts) && PlacedEnds(env, placed) && t in env.ts && t.p.Variable?
    ensures t.p.v !in placed
  {
  }

  // ---------------------------------------------------------------- forms of single steps

  lemma WholeForms(env: Env, ps: set<Pattern>, cols: set<nat>)
    ensures Forms(env, ps, ps, cols)
  {
    forall t | t in ps
      ensures FormOfSome(env, t, ps) && HasForm(env, ps, t, cols)
    {
      assert Form(env, t, t) && PatternVars(t) * cols <= PatternVars(t);
    }
  }

  lemma EdgesAtSeen(ts: seq<Pattern>, v: nat)
    ensures SeenEdges(EdgesAt(ts, v)) == Elements(ts)
    ensures forall e :: e in EdgesAt(ts, v) ==> e.pat in ts && e == EdgeAt(e.pat, v)
  {
    var edges := EdgesAt(ts, v);
    forall t | t in ts
      ensures t in SeenEdges(edges)
    {
      var i := Pos(ts, t);
      assert edges[i] == EdgeAt(t, v) && edges[i] in edges && Seen(edges[i].pat, edges[i].how) == t;
    }
  }

  lemma PreEdgesSeen(ts: seq<Pattern>)
    ensures SeenEdges(PreEdges(ts)) == Elements(ts)
    ensures forall e :: e in PreEdges(ts) ==> e.pat in ts && e == Edge(e.pat, SO2P)
  {
    var edges := PreEdges(ts);
    forall t | t in ts
      ensures t in SeenEdges(edges)
    {
      var i := Pos(ts, t);
      assert edges[i] == Edge(t, SO2P) && edges[i] in edges && Seen(edges[i].pat, edges[i].how) == t;
    }
  }

  /** A triple without its predicate. */
  function NoPredicate(t: Pattern): Pattern {
    t.(p := Any)
  }

  lemma OpenEdgesSeen(ts: seq<Pattern>, v: nat)
    ensures forall f :: f in SeenEdges(OpenEdges(ts, v)) <==> exists t :: t in ts && f == NoPredicate(t)
    ensures forall e :: e in OpenEdges(ts, v) ==> e.pat in ts && e == OpenEdge(e.pat, v)
  {
    var edges := OpenEdges(ts, v);
    forall i | 0 <= i < |ts|
      ensures NoPredicate(ts[i]) in SeenEdges(edges) && Seen(edges[i].pat, edges[i].how) == NoPredicate(ts[i])
    {
      assert edges[i] == OpenEdge(ts[i], v) && edges[i] in edges;
    }
    forall f | f in SeenEdges(edges)
      ensures exists t :: t in ts && f == NoPredicate(t)
    {
      var e :| e in edges && f == Seen(e.pat, e.how);
      var i := Pos(edges, e);
      assert ts[i] in ts && f == NoPredicate(ts[i]);
    }
  }

  /** Light predicate variables that are no columns may be left out. */
  lemma OpenForms(env: Env, ps: set<Pattern>, ts: seq<Pattern>, cols: set<nat>)
    requires forall f :: f in ps <==> exists t :: t in ts && f == NoPredicate(t)
    requires forall t :: t in ts ==> t.p.Variable? && Light(env, t.p.v) && t.p.v !in cols
    ensures Forms(env, ps, Elements(ts), cols)
  {
    forall f | f in ps
      ensures FormOfSome(env, f, Elements(ts))
    {
      var t :| t in ts && f == NoPredicate(t);
      assert t in Elements(ts) && Form(env, f, t);
    }
    forall t | t in Elements(ts)
      ensures HasForm(env, ps, t, cols)
    {
      assert NoPredicate(t) in ps && Form(env, NoPredicate(t), t);
    }
  }
}

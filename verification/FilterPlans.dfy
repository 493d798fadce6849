/** The candidate steps of a query: which edges of which variables fill candidate caches before a plan
    is chosen. */
module FilterPlans {
  import opened Collections
  import opened Rdf
  import opened Tables
  import opened CandidateCaches
  import opened QueryPlans
  import opened QueryGraphs

  /** The triple has this one variable; the other places are constants. */
  predicate ConstantAt(t: Pattern, v: nat) {
    t.p.Constant? && ConstantEnd(t, v)
  }

  /** The edge to a constant that lists the variable, with or without the predicate. */
  function ConstantEdgeOf(t: Pattern, v: nat): Edge {
    if t.p.Constant? then EdgeAt(t, v) else Edge(t, if t.s == Variable(v) then O2S else S2O)
  }

  /** FilterNodeOnConstantEdge: the edges of a variable to constants. */
  method FilterNodeOnConstantEdge(ts: seq<Pattern>, v: nat) returns (edges: seq<Edge>)
    requires forall t :: t in ts ==> Proper(t)
    ensures forall e :: e in edges <==> e.pat in ts && ConstantEnd(e.pat, v) && e == ConstantEdgeOf(e.pat, v)
  {
    edges := [];
    var i := 0;
    while i < |ts|
      invariant 0 <= i <= |ts|
      invariant forall e :: e in edges <==> e.pat in ts[..i] && ConstantEnd(e.pat, v) && e == ConstantEdgeOf(e.pat, v)
    {
      var t := ts[i];
      assert t in ts && Proper(t) && ts[..i + 1] == ts[..i] + [t];
      if t.s == Variable(v) && t.o.Constant? {
        edges := edges + [Edge(t, if t.p.Constant? then PO2S else O2S)];
      } else if t.o == Variable(v) && t.s.Constant? {
        edges := edges + [Edge(t, if t.p.Constant? then SP2O else S2O)];
      }
      i := i + 1;
    }
    assert ts[..i] == ts;
  }

  /** Every triple of the variable with constants otherwise has a step. */
  ghost predicate Filtered(ts: seq<Pattern>, steps: seq<CacheStep>, v: nat) {
    forall t :: t in ts && ConstantAt(t, v) ==> StepFor(steps, t, v)
  }

  lemma FilteredMore(ts: seq<Pattern>, steps: seq<CacheStep>, more: seq<CacheStep>, v: nat)
    requires Filtered(ts, steps, v)
    ensures Filtered(ts, steps + more, v)
  {
    forall t | t in ts && ConstantAt(t, v)
      ensures StepFor(steps + more, t, v)
    {
      assert StepFor(steps, t, v);
      var i, how :| 0 <= i < |steps| && steps[i].v == v && Edge(t, how) in steps[i].edges && TwoGiven(how);
      assert (steps + more)[i] == steps[i];
    }
  }

  /** OnlyConstFilter looks at every variable but one with a single edge that is not selected. */
  ghost predicate Considered(ts: seq<Pattern>, selected: set<nat>, v: nat) {
    v in selected || !SingleEdge(ts, v)
  }

  ghost predicate HasStep(steps: seq<CacheStep>, v: nat) {
    exists s :: s in steps && s.v == v
  }

  /** The step of a variable with exactly its edges to constants. */
  ghost predicate ConstantStep(ts: seq<Pattern>, s: CacheStep) {
    s.edges != [] &&
    forall e :: e in s.edges <==> e.pat in ts && ConstantEnd(e.pat, s.v) && e == ConstantEdgeOf(e.pat, s.v)
  }

  /** Exactly the variables considered that have an edge to a constant have a step. */
  ghost predicate StepsConstant(ts: seq<Pattern>, vars: seq<nat>, selected: set<nat>, steps: seq<CacheStep>) {
    (forall s :: s in steps ==> s.v in vars && Considered(ts, selected, s.v) && ConstantStep(ts, s)) &&
    forall v, t :: v in vars && Considered(ts, selected, v) && t in ts && ConstantEnd(t, v) ==> HasStep(steps, v)
  }

  lemma StepsConstantNext(ts: seq<Pattern>, vars: seq<nat>, selected: set<nat>, steps: seq<CacheStep>, v: nat,
                          edges: seq<Edge>)
    requires StepsConstant(ts, vars, selected, steps) && Considered(ts, selected, v)
    requires forall e :: e in edges <==> e.pat in ts && ConstantEnd(e.pat, v) && e == ConstantEdgeOf(e.pat, v)
    ensures StepsConstant(ts, vars + [v], selected, if edges == [] then steps else steps + [CacheStep(v, edges)])
  {
    var next := if edges == [] then steps else steps + [CacheStep(v, edges)];
    forall w, t | w in vars + [v] && Considered(ts, selected, w) && t in ts && ConstantEnd(t, w)
      ensures HasStep(next, w)
    {
      if w in vars {
        assert HasStep(steps, w);
        var s :| s in steps && s.v == w;
        assert s in next;
      } else {
        assert ConstantEdgeOf(t, v) in edges && CacheStep(v, edges) in next;
      }
    }
  }

  lemma StepsConstantSkip(ts: seq<Pattern>, vars: seq<nat>, selected: set<nat>, steps: seq<CacheStep>, v: nat)
    requires StepsConstant(ts, vars, selected, steps) && !Considered(ts, selected, v)
    ensures StepsConstant(ts, vars + [v], selected, steps)
  {
    forall w, t | w in vars + [v] && Considered(ts, selected, w) && t in ts && ConstantEnd(t, w)
      ensures HasStep(steps, w)
    {
      assert w in vars;
    }
  }

  /** OnlyConstFilter: one step for each variable with edges to constants. */
  method OnlyConstFilter(ts: seq<Pattern>, vars: seq<nat>, selected: set<nat>) returns (steps: seq<CacheStep>)
    requires forall t :: t in ts ==> Proper(t)
    ensures |ts| == 1 ==> steps == []
    ensures |ts| != 1 ==> StepsConstant(ts, vars, selected, steps)
  {
    steps := [];
    if |ts| == 1 {
      return;
    }
    var i := 0;
    while i < |vars|
      invariant 0 <= i <= |vars| && StepsConstant(ts, vars[..i], selected, steps)
    {
      var v := vars[i];
      assert vars[..i + 1] == vars[..i] + [v];
      SatelliteExact(ts, v);
      if v in selected || !IsSatellite(ts, v) {
        var edges := FilterNodeOnConstantEdge(ts, v);
        StepsConstantNext(ts, vars[..i], selected, steps, v, edges);
        if edges != [] {
          steps := steps + [CacheStep(v, edges)];
        }
      } else {
        StepsConstantSkip(ts, vars[..i], selected, steps, v);
      }
      i := i + 1;
    }
    assert vars[..i] == vars;
  }

  /** Its steps use triples of the query, and list every triple with one variable that is considered. */
  lemma ConstantStepsOf(ts: seq<Pattern>, vars: seq<nat>, selected: set<nat>, steps: seq<CacheStep>)
    requires StepsConstant(ts, vars, selected, steps)
    ensures StepsOf(Elements(ts), steps)
    ensures forall v :: v in vars && Considered(ts, selected, v) ==> Filtered(ts, steps, v)
  {
    forall s, e | s in steps && e in s.edges
      ensures ConstantEdge(e, s.v) && e.pat in Elements(ts)
    {
      assert ConstantStep(ts, s);
    }
    forall v, t | v in vars && Considered(ts, selected, v) && t in ts && ConstantAt(t, v)
      ensures StepFor(steps, t, v)
    {
      assert HasStep(steps, v);
      var s :| s in steps && s.v == v;
      assert ConstantStep(ts, s);
      var e, i := ConstantEdgeOf(t, v), Pos(steps, s);
      assert e in s.edges && steps[i].v == v && Edge(t, e.how) in steps[i].edges && TwoGiven(e.how);
    }
  }

  /** An edge of a variable to a variable, through a constant predicate that lists it, which is wanted.
      Sizes and counts decide which are; here any may be. */
  predicate WantedEdge(ts: seq<Pattern>, v: nat, wanted: (nat, Edge) -> bool, e: Edge) {
    e.pat in ts && e.pat.p.Constant? && wanted(v, e) &&
    ((e.how == P2S && e.pat.s == Variable(v) && e.pat.o.Variable?) ||
     (e.how == P2O && e.pat.o == Variable(v) && e.pat.s.Variable?))
  }

  /** The edges of a join node that CompleteCandidate takes. */
  method PredicateEdges(ts: seq<Pattern>, v: nat, wanted: (nat, Edge) -> bool) returns (edges: seq<Edge>)
    ensures forall e :: e in edges <==> WantedEdge(ts, v, wanted, e)
  {
    edges := [];
    var i := 0;
    while i < |ts|
      invariant 0 <= i <= |ts|
      invariant forall e :: e in edges <==> WantedEdge(ts[..i], v, wanted, e)
    {
      var t := ts[i];
      assert ts[..i + 1] == ts[..i] + [t];
      if t.p.Constant? && t.s == Variable(v) && t.o.Variable? && wanted(v, Edge(t, P2S)) {
        edges := edges + [Edge(t, P2S)];
      }
      if t.p.Constant? && t.o == Variable(v) && t.s.Variable? && wanted(v, Edge(t, P2O)) {
        edges := edges + [Edge(t, P2O)];
      }
      i := i + 1;
    }
    assert ts[..i] == ts;
  }

  /** The step of a variable with exactly its wanted edges. */
  ghost predicate WantedStep(ts: seq<Pattern>, wanted: (nat, Edge) -> bool, s: CacheStep) {
    s.edges != [] && forall e :: e in s.edges <==> WantedEdge(ts, s.v, wanted, e)
  }

  /** Exactly the nodes with a wanted edge have a step. */
  ghost predicate StepsWanted(ts: seq<Pattern>, nodes: seq<nat>, wanted: (nat, Edge) -> bool, steps: seq<CacheStep>) {
    (forall s :: s in steps ==> s.v in nodes && WantedStep(ts, wanted, s)) &&
    forall v, e :: v in nodes && WantedEdge(ts, v, wanted, e) ==> HasStep(steps, v)
  }

  lemma StepsWantedNext(ts: seq<Pattern>, nodes: seq<nat>, wanted: (nat, Edge) -> bool, steps: seq<CacheStep>, v: nat,
                        edges: seq<Edge>)
    requires StepsWanted(ts, nodes, wanted, steps) && forall e :: e in edges <==> WantedEdge(ts, v, wanted, e)
    ensures StepsWanted(ts, nodes + [v], wanted, if edges == [] then steps else steps + [CacheStep(v, edges)])
  {
    var next := if edges == [] then steps else steps + [CacheStep(v, edges)];
    forall w, e | w in nodes + [v] && WantedEdge(ts, w, wanted, e)
      ensures HasStep(next, w)
    {
      if w in nodes {
        assert HasStep(steps, w);
        var s :| s in steps && s.v == w;
        assert s in next;
      } else {
        assert e in edges && CacheStep(v, edges) in next;
      }
    }
  }

  lemma WantedStepsOf(ts: seq<Pattern>, nodes: seq<nat>, wanted: (nat, Edge) -> bool, steps: seq<CacheStep>)
    requires StepsWanted(ts, nodes, wanted, steps)
    ensures StepsOf(Elements(ts), steps)
  {
    forall s, e | s in steps && e in s.edges
      ensures ConstantEdge(e, s.v) && e.pat in Elements(ts)
    {
      assert WantedStep(ts, wanted, s) && WantedEdge(ts, s.v, wanted, e);
    }
  }

  /** CompleteCandidate: a second round of steps for the join nodes. */
  method CompleteCandidate(ts: seq<Pattern>, nodes: seq<nat>, wanted: (nat, Edge) -> bool)
    returns (steps: seq<CacheStep>)
    ensures |ts| == 1 ==> steps == []
    ensures |ts| != 1 ==> StepsWanted(ts, nodes, wanted, steps)
    ensures StepsOf(Elements(ts), steps) && forall s :: s in steps ==> s.v in nodes
  {
    steps := [];
    if |ts| == 1 {
      return;
    }
    var i := 0;
    while i < |nodes|
      invariant 0 <= i <= |nodes| && StepsWanted(ts, nodes[..i], wanted, steps)
    {
      var edges := PredicateEdges(ts, nodes[i], wanted);
      assert nodes[..i + 1] == nodes[..i] + [nodes[i]];
      StepsWantedNext(ts, nodes[..i], wanted, steps, nodes[i], edges);
      if edges != [] {
        steps := steps + [CacheStep(nodes[i], edges)];
      }
      i := i + 1;
    }
    assert nodes[..i] == nodes;
    WantedStepsOf(ts, nodes, wanted, steps);
  }
}

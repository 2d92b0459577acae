/**
 Validation of the package graph: which cycles are reported, which cuts are suggested, and what
 following a suggestion achieves. Strongly connected components come from a library; what is used
 of them is that they are the classes of mutually reachable nodes.
 */
module GraphValidation {
  import opened Basics
  import opened Digraph
  import opened CycleDetector

  ghost predicate Connected(e: Edges, u: nat, v: nat) {
    u == v || (Leads(e, u, v) && Leads(e, v, u))
  }

  ghost predicate InSome(components: seq<set<nat>>, u: nat) {
    exists i :: 0 <= i < |components| && u in components[i]
  }

  /** Two different nodes lie on a common cycle. */
  ghost predicate HasLargeCycle(e: Edges) {
    exists u: nat, v: nat :: u != v && Connected(e, u, v)
  }

  /** The components cover the nodes, and two nodes share one exactly if each can be reached from the other. */
  ghost predicate AreComponents(g: Graph, components: seq<set<nat>>) {
    && (forall u: nat :: u < g.size ==> InSome(components, u))
    && (forall i, u :: 0 <= i < |components| && u in components[i] ==> u < g.size)
    && (forall i, j, u, v ::
          0 <= i < |components| && 0 <= j < |components| && u in components[i] && v in components[j] ==>
            (i == j <==> Connected(Kept(g, {}), u, v)))
  }

  /** The graph with only the given nodes: their edges among themselves. */
  function EdgesWithin(edges: seq<(nat, nat)>, nodes: set<nat>): (r: seq<(nat, nat)>)
    ensures forall p :: p in r <==> p in edges && p.0 in nodes && p.1 in nodes
    ensures forall p :: multiset(r)[p] == if p.0 in nodes && p.1 in nodes then multiset(edges)[p] else 0
  {
    if edges == [] then [] else
    assert edges == [edges[0]] + edges[1..];
    var rest := EdgesWithin(edges[1..], nodes);
    if edges[0].0 in nodes && edges[0].1 in nodes then [edges[0]] + rest else rest
  }

  function Within(g: Graph, nodes: set<nat>): (r: Graph)
    ensures WellFormed(g) ==> WellFormed(r)
    ensures r.size == g.size
    ensures forall p :: multiset(r.edges)[p] == if p.0 in nodes && p.1 in nodes then multiset(g.edges)[p] else 0
  {
    var r := Graph(g.size, EdgesWithin(g.edges, nodes));
    assert forall i :: 0 <= i < |r.edges| ==> r.edges[i] in r.edges;
    r
  }

  /** A cut is reported by the endpoints of its edges. */
  function Endpoints(g: Graph, cut: set<nat>): set<(nat, nat)> {
    set i | i in cut && i < |g.edges| :: g.edges[i]
  }

  datatype Cycle = Cycle(nodes: set<nat>, cuts: seq<set<(nat, nat)>>)

  /** The suggestions for one cycle: the endpoints of exactly the minimum cuts of its subgraph. */
  ghost predicate IsCutBy(g: Graph, nodes: set<nat>, c: set<nat>, pairs: set<(nat, nat)>) {
    var sub := Within(g, nodes);
    IsMinimumCut(sub, c) && forall p :: p in pairs <==> exists i :: i in c && i < |sub.edges| && sub.edges[i] == p
  }

  ghost predicate CutsOk(g: Graph, cycle: Cycle) {
    forall pairs :: pairs in cycle.cuts <==> exists c :: IsCutBy(g, cycle.nodes, c, pairs)
  }

  method CutCandidates(g: Graph, nodes: set<nat>) returns (cycle: Cycle)
    requires WellFormed(g)
    ensures cycle.nodes == nodes && CutsOk(g, cycle)
  {
    var sub := Within(g, nodes);
    var detector := new Detector();
    var chosen := detector.EdgesToBreakCycle(sub);
    var cuts := seq(|chosen|, i requires 0 <= i < |chosen| => Endpoints(sub, chosen[i]));
    cycle := Cycle(nodes, cuts);
    CutsAreAll(g, cycle, chosen);
  }

  lemma EndpointsAre(g: Graph, nodes: set<nat>, c: set<nat>, pairs: set<(nat, nat)>)
    ensures IsCutBy(g, nodes, c, pairs) <==>
      IsMinimumCut(Within(g, nodes), c) && pairs == Endpoints(Within(g, nodes), c)
  {
    var sub := Within(g, nodes);
    forall p ensures p in Endpoints(sub, c) <==> exists i :: i in c && i < |sub.edges| && sub.edges[i] == p { }
  }

  lemma CutsAreAll(g: Graph, cycle: Cycle, chosen: seq<set<nat>>)
    requires |cycle.cuts| == |chosen| && forall c :: c in chosen <==> IsMinimumCut(Within(g, cycle.nodes), c)
    requires forall i :: 0 <= i < |chosen| ==> cycle.cuts[i] == Endpoints(Within(g, cycle.nodes), chosen[i])
    ensures CutsOk(g, cycle)
  {
    forall pairs ensures pairs in cycle.cuts <==> exists c :: IsCutBy(g, cycle.nodes, c, pairs) {
      if pairs in cycle.cuts {
        var i :| 0 <= i < |cycle.cuts| && cycle.cuts[i] == pairs;
        assert chosen[i] in chosen;
        EndpointsAre(g, cycle.nodes, chosen[i], pairs);
      }
      if c :| IsCutBy(g, cycle.nodes, c, pairs) {
        EndpointsAre(g, cycle.nodes, c, pairs);
        var i :| 0 <= i < |chosen| && chosen[i] == c;
        assert cycle.cuts[i] == pairs;
      }
    }
  }

  /** One report for each component with more than one node. */
  ghost predicate ReportsAll(g: Graph, components: seq<set<nat>>, cycles: seq<Cycle>) {
    && (forall k :: 0 <= k < |cycles| ==>
          CutsOk(g, cycles[k]) && |cycles[k].nodes| > 1 && cycles[k].nodes in components)
    && (forall i :: 0 <= i < |components| && |components[i]| > 1 ==>
          exists k :: 0 <= k < |cycles| && cycles[k].nodes == components[i])
  }

  method CyclesAndCutCandidates(g: Graph, components: seq<set<nat>>) returns (cycles: seq<Cycle>)
    requires WellFormed(g)
    ensures ReportsAll(g, components, cycles)
  {
    cycles := [];
    var i := 0;
    while i < |components|
      invariant 0 <= i <= |components|
      invariant forall k :: 0 <= k < |cycles| ==>
          CutsOk(g, cycles[k]) && |cycles[k].nodes| > 1 && cycles[k].nodes in components
      invariant forall j :: 0 <= j < i && |components[j]| > 1 ==>
          exists k :: 0 <= k < |cycles| && cycles[k].nodes == components[j]
    {
      if |components[i]| > 1 {
        var cycle := CutCandidates(g, components[i]);
        ghost var before := cycles;
        cycles := cycles + [cycle];
        assert forall k :: 0 <= k < |before| ==> cycles[k] == before[k];
        assert cycles[|before|].nodes == components[i];
      }
      i := i + 1;
    }
  }

  datatype Verdict = Accepted | CyclicDependencies(cycles: seq<Cycle>) | SelfDependency(node: nat)

  /** A graph is accepted exactly when it has no cycle; a lone self loop is told apart from a larger cycle. */
  method ValidateGraph(g: Graph, components: seq<set<nat>>) returns (verdict: Verdict)
    requires WellFormed(g) && AreComponents(g, components)
    ensures verdict.Accepted? <==> Acyclic(Kept(g, {}))
    ensures verdict.CyclicDependencies? <==> HasLargeCycle(Kept(g, {}))
    ensures verdict.CyclicDependencies? ==> ReportsAll(g, components, verdict.cycles)
    ensures verdict.SelfDependency? ==> HasEdge(g, {}, verdict.node, verdict.node)
  {
    var cycles := CyclesAndCutCandidates(g, components);
    LargeComponentsAreCycles(g, components);
    if cycles != [] {
      assert cycles[0].nodes in components;
      return CyclicDependencies(cycles);
    }
    var loop := FindSelfLoop(g);
    if loop.Some? {
      EdgeLeads(Kept(g, {}), loop.value, loop.value);
      assert OnCycle(Kept(g, {}), loop.value);
      return SelfDependency(loop.value);
    }
    NoLargeCycleNoLoop(g);
    return Accepted;
  }

  method FindSelfLoop(g: Graph) returns (node: Option<nat>)
    ensures node.Some? ==> HasEdge(g, {}, node.value, node.value)
    ensures node.None? ==> forall k :: 0 <= k < |g.edges| ==> g.edges[k].0 != g.edges[k].1
  {
    var i := 0;
    while i < |g.edges|
      invariant 0 <= i <= |g.edges|
      invariant forall k :: 0 <= k < i ==> g.edges[k].0 != g.edges[k].1
    {
      if g.edges[i].0 == g.edges[i].1 { return Some(g.edges[i].0); }
      i := i + 1;
    }
    return None;
  }

  lemma LargeComponentsAreCycles(g: Graph, components: seq<set<nat>>)
    requires WellFormed(g) && AreComponents(g, components)
    ensures (exists i :: 0 <= i < |components| && |components[i]| > 1) <==> HasLargeCycle(Kept(g, {}))
    ensures (exists i :: 0 <= i < |components| && |components[i]| > 1) ==> !Acyclic(Kept(g, {}))
  {
    var e := Kept(g, {});
    if i :| 0 <= i < |components| && |components[i]| > 1 {
      var u :| u in components[i];
      assert |components[i] - {u}| > 0;
      var v :| v in components[i] - {u};
      assert Connected(e, u, v);
      LeadsOn(e, u, v, u);
      assert OnCycle(e, u);
    }
    if HasLargeCycle(e) {
      var u: nat, v: nat :| u != v && Connected(e, u, v);
      var x := FirstStep(e, u, v);
      var y := FirstStep(e, v, u);
      assert u < g.size && v < g.size && InSome(components, u) && InSome(components, v);
      var i :| 0 <= i < |components| && u in components[i];
      var j :| 0 <= j < |components| && v in components[j];
      assert i == j;
      LargeComponentHasCycleNodes(g, components, i, u, v);
    }
  }

  /** A cycle is a self loop or joins different nodes. */
  lemma CycleIsLoopOrLarge(e: Edges, u: nat)
    requires OnCycle(e, u)
    ensures e(u, u) || HasLargeCycle(e)
  {
    var w := FirstStep(e, u, u);
    if w != u {
      EdgeLeads(e, u, w);
      assert Connected(e, u, w);
    }
  }

  lemma NoLargeCycleNoLoop(g: Graph)
    requires !HasLargeCycle(Kept(g, {}))
    requires forall k :: 0 <= k < |g.edges| ==> g.edges[k].0 != g.edges[k].1
    ensures Acyclic(Kept(g, {}))
  {
    forall u: nat
      ensures !OnCycle(Kept(g, {}), u)
    {
      if OnCycle(Kept(g, {}), u) { CycleIsLoopOrLarge(Kept(g, {}), u); }
    }
  }

  // Following the suggestions

  /** The edges of the graph whose endpoints are not among the removed ones. */
  function After(g: Graph, removed: set<(nat, nat)>): Edges {
    (u: nat, v: nat) => HasEdge(g, {}, u, v) && (u, v) !in removed
  }

  /**
   Remove, for every reported cycle, the edges of one of its suggested cuts. What remains has no
   cycle but self loops of nodes that are in no reported cycle.
   */
  lemma SuggestionsBreakCycles(g: Graph, components: seq<set<nat>>, cycles: seq<Cycle>, removed: set<(nat, nat)>,
      u: nat)
    requires WellFormed(g) && AreComponents(g, components) && ReportsAll(g, components, cycles)
    requires forall k :: 0 <= k < |cycles| ==> exists pairs :: pairs in cycles[k].cuts && pairs <= removed
    requires OnCycle(After(g, removed), u)
    ensures HasEdge(g, {}, u, u) && forall k :: 0 <= k < |cycles| ==> u !in cycles[k].nodes
  {
    var e, rest := Kept(g, {}), After(g, removed);
    LeadsInLarger(rest, e, u, u);
    var first := FirstStep(e, u, u);
    assert u < g.size && InSome(components, u);
    var i :| 0 <= i < |components| && u in components[i];
    forall k | 0 <= k < |cycles|
      ensures u !in cycles[k].nodes
    {
      if u in cycles[k].nodes {
        CycleIsCut(g, components, cycles[k], removed, u);
      }
    }
    assert |components[i]| <= 1;
    var w := FirstStep(rest, u, u);
    EdgeLeads(e, u, w);
    if w != u {
      LeadsInLarger(rest, e, w, u);
      assert Connected(e, u, w);
      LargeComponentHasCycleNodes(g, components, i, u, w);
    }
  }

  lemma LargeComponentHasCycleNodes(g: Graph, components: seq<set<nat>>, i: nat, u: nat, w: nat)
    requires AreComponents(g, components) && i < |components| && u in components[i] && u != w && w < g.size
    requires Connected(Kept(g, {}), u, w)
    ensures |components[i]| > 1
  {
    assert InSome(components, w);
    var j :| 0 <= j < |components| && w in components[j];
    assert i == j;
    assert {u, w} <= components[i];
    SubsetSize({u, w}, components[i]);
  }

  /** A cycle through a node of a reported component would survive its cut. */
  lemma CycleIsCut(g: Graph, components: seq<set<nat>>, cycle: Cycle, removed: set<(nat, nat)>, u: nat)
    requires WellFormed(g) && AreComponents(g, components) && CutsOk(g, cycle) && cycle.nodes in components
    requires exists pairs :: pairs in cycle.cuts && pairs <= removed
    requires u in cycle.nodes
    ensures !OnCycle(After(g, removed), u)
  {
    var e, rest, sub := Kept(g, {}), After(g, removed), Within(g, cycle.nodes);
    var pairs :| pairs in cycle.cuts && pairs <= removed;
    var c :| IsCutBy(g, cycle.nodes, c, pairs);
    EndpointsAre(g, cycle.nodes, c, pairs);
    if OnCycle(rest, u) {
      var p :| IsPath(rest, p) && |p| >= 2 && p[0] == u && p[|p| - 1] == u;
      forall k | 0 <= k < |p|
        ensures p[k] in cycle.nodes
      {
        CycleStaysInComponent(g, components, cycle.nodes, rest, p, k);
      }
      forall k | 0 <= k < |p| - 1
        ensures Kept(sub, c)(p[k], p[k + 1])
      {
        assert rest(p[k], p[k + 1]);
        SurvivingEdge(g, cycle.nodes, c, removed, p[k], p[k + 1]);
      }
      assert IsPath(Kept(sub, c), p);
      assert OnCycle(Kept(sub, c), u);
      assert false;
    }
  }

  lemma SurvivingEdge(g: Graph, nodes: set<nat>, c: set<nat>, removed: set<(nat, nat)>, x: nat, y: nat)
    requires Endpoints(Within(g, nodes), c) <= removed && After(g, removed)(x, y) && x in nodes && y in nodes
    ensures Kept(Within(g, nodes), c)(x, y)
  {
    var sub := Within(g, nodes);
    assert (x, y) in g.edges;
    assert (x, y) in sub.edges;
    var i :| 0 <= i < |sub.edges| && sub.edges[i] == (x, y);
    assert (x, y) !in Endpoints(sub, c);
    assert i !in c;
  }

  lemma CycleStaysInComponent(g: Graph, components: seq<set<nat>>, nodes: set<nat>, rest: Edges, p: seq<nat>, k: nat)
    requires WellFormed(g) && AreComponents(g, components) && nodes in components
    requires forall x, y :: rest(x, y) ==> Kept(g, {})(x, y)
    requires IsPath(rest, p) && |p| >= 2 && p[0] == p[|p| - 1] && p[0] in nodes && k < |p|
    ensures p[k] in nodes
  {
    var e := Kept(g, {});
    if 0 < k < |p| - 1 {
      PathLeads(rest, p, 0, k);
      PathLeads(rest, p, k, |p| - 1);
      LeadsInLarger(rest, e, p[0], p[k]);
      LeadsInLarger(rest, e, p[k], p[0]);
      var w := FirstStep(e, p[k], p[0]);
      assert p[k] < g.size && InSome(components, p[k]);
      var i :| 0 <= i < |components| && components[i] == nodes;
      var j :| 0 <= j < |components| && p[k] in components[j];
      assert Connected(e, p[0], p[k]);
    }
  }
}

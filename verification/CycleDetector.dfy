/**
 Cycle detection and the search for minimal cuts: a depth-first search that reuses its visit maps, and the
 smallest edge sets whose removal leaves no cycle.
 */
module CycleDetector {
  import opened Basics
  import opened Digraph

  /** Nodes are 0..size; an edge is known by its index. Parallel edges and self loops are allowed. */
  datatype Graph = Graph(size: nat, edges: seq<(nat, nat)>)

  ghost predicate WellFormed(g: Graph) {
    forall i :: 0 <= i < |g.edges| ==> g.edges[i].0 < g.size && g.edges[i].1 < g.size
  }

  predicate HasEdge(g: Graph, removed: set<nat>, u: nat, v: nat) {
    exists i :: 0 <= i < |g.edges| && i !in removed && g.edges[i] == (u, v)
  }

  /** The edge relation of the graph without the edges whose index is removed. */
  function Kept(g: Graph, removed: set<nat>): Edges {
    (u: nat, v: nat) => HasEdge(g, removed, u, v)
  }

  /** The numbers below n: node numbers, or edge indices. */
  function Below(n: nat): (r: set<nat>)
    ensures forall x: nat :: x in r <==> x < n
    ensures |r| == n
  {
    if n == 0 then {} else Below(n - 1) + {n - 1}
  }

  /** The graph filtered by a set of removed edges, as the search sees it from a node. */
  function Neighbors(g: Graph, removed: set<nat>, u: nat, n: nat): (vs: seq<nat>)
    requires n <= |g.edges|
    ensures forall v :: v in vs <==> exists i :: 0 <= i < n && i !in removed && g.edges[i] == (u, v)
  {
    if n == 0 then []
    else
      var rest := Neighbors(g, removed, u, n - 1);
      if n - 1 !in removed && g.edges[n - 1].0 == u then [g.edges[n - 1].1] + rest else rest
  }

  /** The finished nodes: closed under edges, and none lies on a cycle. */
  ghost predicate FinishedOk(e: Edges, size: nat, visited: set<nat>, finished: set<nat>) {
    && finished <= visited
    && (forall u :: u in visited ==> u < size)
    && (forall u, v :: u in finished && e(u, v) ==> v in finished)
    && (forall u :: u in finished ==> !OnCycle(e, u))
  }

  /** The nodes on the current path all lead to `u`. */
  ghost predicate AllLead(e: Edges, path: set<nat>, u: nat) {
    forall x :: x in path ==> Leads(e, x, u)
  }

  lemma PathGoesOn(e: Edges, path: set<nat>, u: nat, v: nat)
    requires AllLead(e, path, u) && e(u, v)
    ensures AllLead(e, path + {u}, v)
  {
    forall x | x in path + {u}
      ensures Leads(e, x, v)
    {
      if x == u { EdgeLeads(e, u, v); } else { LeadsThen(e, x, u, v); }
    }
  }

  lemma NeighborsAre(g: Graph, removed: set<nat>, u: nat)
    ensures forall v :: v in Neighbors(g, removed, u, |g.edges|) <==> Kept(g, removed)(u, v)
  {
  }

  /** When every successor is finished, the node can be finished too. */
  lemma FinishNode(e: Edges, size: nat, visited: set<nat>, finished: set<nat>, u: nat)
    requires FinishedOk(e, size, visited, finished) && u in visited && u !in finished
    requires forall v :: e(u, v) ==> v in finished
    ensures FinishedOk(e, size, visited, finished + {u})
  {
    if OnCycle(e, u) {
      var w := FirstStep(e, u, u);
      if w != u { ClosedUnderLeads(e, finished, w, u); }
    }
  }

  class Detector {
    var visited: set<nat>
    var finished: set<nat>

    constructor ()
      ensures visited == {} == finished
    {
      visited, finished := {}, {};
    }

    /** Visited but unfinished nodes are the current path: each of them leads to `u`. */
    method Dfs(g: Graph, removed: set<nat>, u: nat) returns (found: bool)
      requires WellFormed(g) && u < g.size
      requires FinishedOk(Kept(g, removed), g.size, visited, finished)
      requires AllLead(Kept(g, removed), visited - finished, u)
      modifies this
      ensures found ==> !Acyclic(Kept(g, removed))
      ensures !found ==>
        && FinishedOk(Kept(g, removed), g.size, visited, finished)
        && u in finished && old(finished) <= finished
        && visited - finished == old(visited - finished)
      decreases Below(g.size) - visited
    {
      ghost var e := Kept(g, removed);
      if u in finished { return false; }
      if u in visited {
        assert OnCycle(e, u);
        return true;
      }
      ghost var path := visited - finished;
      visited := visited + {u};
      var vs := Neighbors(g, removed, u, |g.edges|);
      NeighborsAre(g, removed, u);
      for i := 0 to |vs|
        invariant FinishedOk(e, g.size, visited, finished) && old(finished) <= finished
        invariant visited - finished == path + {u}
        invariant forall k :: 0 <= k < i ==> vs[k] in finished
      {
        assert vs[i] in vs && e(u, vs[i]);
        PathGoesOn(e, path, u, vs[i]);
        found := Dfs(g, removed, vs[i]);
        if found { return true; }
      }
      assert u in visited - finished;
      FinishNode(e, g.size, visited, finished, u);
      finished := finished + {u};
      return false;
    }

    /** A cycle, self loops included, is left exactly when the search says so. */
    method HasCycle(g: Graph, removed: set<nat>) returns (found: bool)
      requires WellFormed(g)
      modifies this
      ensures found <==> !Acyclic(Kept(g, removed))
    {
      ghost var e := Kept(g, removed);
      visited, finished := {}, {};
      var start := 0;
      while start < g.size
        invariant 0 <= start <= g.size
        invariant FinishedOk(e, g.size, visited, finished) && visited == finished
        invariant forall u :: 0 <= u < start ==> u in finished
      {
        found := Dfs(g, removed, start);
        if found { return true; }
        assert forall x :: x in visited ==> x in finished || x in visited - finished;
        start := start + 1;
      }
      forall u: nat
        ensures !OnCycle(e, u)
      {
        if OnCycle(e, u) { var w := FirstStep(e, u, u); }
      }
      return false;
    }

    /** Try the edge sets from the smallest on; stop once they get larger than a set that worked. */
    method EdgesToBreakCycle(g: Graph) returns (cuts: seq<set<nat>>)
      requires WellFormed(g)
      modifies this
      ensures forall c :: c in cuts <==> IsMinimumCut(g, c)
      ensures forall i, j :: 0 <= i < j < |cuts| ==> cuts[i] != cuts[j]
    {
      var sets := Powerset(|g.edges|, |g.edges|);
      PowersetIsComplete(|g.edges|, |g.edges|);
      cuts := [];
      var minimal: Option<nat> := None;
      var i := 0;
      while i < |sets|
        invariant 0 <= i <= |sets|
        invariant SearchOk(g, sets, i, cuts, minimal)
      {
        if minimal.Some? && |sets[i]| > minimal.value {
          LargerSetsAreNotMinimum(g, sets, i, cuts, minimal);
          return;
        }
        var cyclic := HasCycle(g, sets[i]);
        OneMoreSet(g, sets, i, cuts, minimal, cyclic);
        if !cyclic {
          minimal := Some(|sets[i]|);
          cuts := cuts + [sets[i]];
        }
        i := i + 1;
      }
      SearchedAll(g, sets, cuts, minimal);
    }
  }

  // Cuts

  ghost predicate IsCut(g: Graph, c: set<nat>) {
    c <= Below(|g.edges|) && Acyclic(Kept(g, c))
  }

  /** No smaller set of edges leaves the graph without cycles. */
  ghost predicate IsMinimumCut(g: Graph, c: set<nat>) {
    IsCut(g, c) && forall d :: IsCut(g, d) ==> |c| <= |d|
  }

  // All subsets of the first n numbers, by size

  function Plus(sets: seq<set<nat>>, x: nat): (r: seq<set<nat>>)
    ensures |r| == |sets| && forall i :: 0 <= i < |r| ==> r[i] == sets[i] + {x}
  {
    seq(|sets|, i requires 0 <= i < |sets| => sets[i] + {x})
  }

  /** The subsets of 0..n with exactly k members. */
  function Combinations(n: nat, k: nat): seq<set<nat>> {
    if k == 0 then [{}]
    else if n == 0 then []
    else Combinations(n - 1, k) + Plus(Combinations(n - 1, k - 1), n - 1)
  }

  /** The subsets of 0..n with at most k members, smaller ones first. */
  function Powerset(n: nat, k: nat): seq<set<nat>> {
    if k == 0 then Combinations(n, 0) else Powerset(n, k - 1) + Combinations(n, k)
  }

  ghost predicate NoRepeats(sets: seq<set<nat>>) {
    forall i, j :: 0 <= i < j < |sets| ==> sets[i] != sets[j]
  }

  predicate IsCombination(c: set<nat>, n: nat, k: nat) {
    c <= Below(n) && |c| == k
  }

  ghost predicate Lists(sets: seq<set<nat>>, n: nat, k: nat) {
    forall c :: c in sets <==> IsCombination(c, n, k)
  }

  lemma {:induction false} CombinationsAre(n: nat, k: nat)
    ensures Lists(Combinations(n, k), n, k) && NoRepeats(Combinations(n, k))
  {
    if n > 0 && k > 0 {
      CombinationsAre(n - 1, k);
      CombinationsAre(n - 1, k - 1);
      var without, with := Combinations(n - 1, k), Combinations(n - 1, k - 1);
      OneNumberMore(without, with, n, k);
      StillNoRepeats(without, with, n, k);
    } else {
      NoCombinations(n, k);
    }
  }

  lemma NoCombinations(n: nat, k: nat)
    requires n == 0 || k == 0
    ensures Lists(Combinations(n, k), n, k) && NoRepeats(Combinations(n, k))
  {
    forall c: set<nat>
      ensures IsCombination(c, n, k) <==> k == 0 && c == {}
    {
      if c != {} { assert |c| > 0; }
    }
  }

  lemma InPlus(sets: seq<set<nat>>, x: nat, c: set<nat>)
    requires forall d :: d in sets ==> x !in d
    ensures c in Plus(sets, x) <==> x in c && c - {x} in sets
  {
    if c in Plus(sets, x) {
      var i :| 0 <= i < |sets| && Plus(sets, x)[i] == c;
      assert sets[i] in sets && c - {x} == sets[i];
    }
    if x in c && c - {x} in sets {
      var i :| 0 <= i < |sets| && sets[i] == c - {x};
      assert Plus(sets, x)[i] == c;
    }
  }

  /** With or without the largest number. */
  lemma IsCombinationStep(c: set<nat>, n: nat, k: nat)
    requires n > 0 && k > 0
    ensures n - 1 in c ==>
        (IsCombination(c, n, k) <==> IsCombination(c - {n - 1}, n - 1, k - 1)) && !IsCombination(c, n - 1, k)
    ensures n - 1 !in c ==> (IsCombination(c, n, k) <==> IsCombination(c, n - 1, k))
  {
  }

  lemma LacksLargest(sets: seq<set<nat>>, n: nat, k: nat)
    requires Lists(sets, n, k)
    ensures forall d :: d in sets ==> n !in d
  {
    forall d | d in sets
      ensures n !in d
    {
      assert IsCombination(d, n, k);
    }
  }

  lemma OneNumberMore(without: seq<set<nat>>, with: seq<set<nat>>, n: nat, k: nat)
    requires n > 0 && k > 0 && Lists(without, n - 1, k) && Lists(with, n - 1, k - 1)
    ensures Lists(without + Plus(with, n - 1), n, k)
  {
    LacksLargest(with, n - 1, k - 1);
    forall c
      ensures c in without + Plus(with, n - 1) <==> IsCombination(c, n, k)
    {
      InPlus(with, n - 1, c);
      IsCombinationStep(c, n, k);
      assert c in without + Plus(with, n - 1) <==> c in without || c in Plus(with, n - 1);
    }
  }

  lemma JoinNoRepeats(a: seq<set<nat>>, b: seq<set<nat>>, x: nat)
    requires NoRepeats(a) && NoRepeats(b)
    requires (forall d :: d in a ==> x !in d) && forall d :: d in b ==> x in d
    ensures NoRepeats(a + b)
  {
    var all := a + b;
    forall i, j | 0 <= i < j < |all|
      ensures all[i] != all[j]
    {
      if i < |a| <= j { assert a[i] in a && b[j - |a|] in b; }
    }
  }

  lemma PlusNoRepeats(sets: seq<set<nat>>, x: nat)
    requires NoRepeats(sets) && forall d :: d in sets ==> x !in d
    ensures NoRepeats(Plus(sets, x)) && forall d :: d in Plus(sets, x) ==> x in d
  {
    var plus := Plus(sets, x);
    forall i, j | 0 <= i < j < |plus|
      ensures plus[i] != plus[j]
    {
      PlusDiffers(sets, x, i, j);
    }
  }

  lemma StillNoRepeats(without: seq<set<nat>>, with: seq<set<nat>>, n: nat, k: nat)
    requires n > 0 && k > 0 && NoRepeats(without) && NoRepeats(with) && Lists(without, n - 1, k)
        && Lists(with, n - 1, k - 1)
    ensures NoRepeats(without + Plus(with, n - 1))
  {
    LacksLargest(without, n - 1, k);
    LacksLargest(with, n - 1, k - 1);
    PlusNoRepeats(with, n - 1);
    JoinNoRepeats(without, Plus(with, n - 1), n - 1);
  }

  lemma PlusDiffers(sets: seq<set<nat>>, x: nat, i: nat, j: nat)
    requires i < j < |sets| && NoRepeats(sets) && forall d :: d in sets ==> x !in d
    ensures Plus(sets, x)[i] != Plus(sets, x)[j]
  {
    var a, b := sets[i], sets[j];
    assert a in sets && b in sets && a != b;
    assert a == (a + {x}) - {x} && b == (b + {x}) - {x};
  }

  predicate IsSelection(c: set<nat>, n: nat, k: nat) {
    c <= Below(n) && |c| <= k
  }

  ghost predicate SortedBySize(sets: seq<set<nat>>) {
    forall i, j :: 0 <= i < j < |sets| ==> |sets[i]| <= |sets[j]|
  }

  /** The listing holds every subset once, in order of size. */
  lemma {:induction false} PowersetIsComplete(n: nat, k: nat)
    ensures forall c :: c in Powerset(n, k) <==> IsSelection(c, n, k)
    ensures NoRepeats(Powerset(n, k)) && SortedBySize(Powerset(n, k))
  {
    CombinationsAre(n, k);
    var b := Combinations(n, k);
    forall i | 0 <= i < |b|
      ensures |b[i]| == k
    {
      assert b[i] in b;
      assert IsCombination(b[i], n, k);
    }
    if k == 0 {
      assert forall c :: IsCombination(c, n, 0) <==> IsSelection(c, n, 0);
    } else {
      PowersetIsComplete(n, k - 1);
      var a := Powerset(n, k - 1);
      forall i | 0 <= i < |a|
        ensures |a[i]| <= k - 1
      {
        assert a[i] in a;
        assert IsSelection(a[i], n, k - 1);
      }
      assert forall c :: IsSelection(c, n, k) <==> IsSelection(c, n, k - 1) || IsCombination(c, n, k);
    }
  }

  lemma SubsetsAreListed(g: Graph, c: set<nat>)
    requires c <= Below(|g.edges|)
    ensures c in Powerset(|g.edges|, |g.edges|)
  {
    PowersetIsComplete(|g.edges|, |g.edges|);
    SubsetSize(c, Below(|g.edges|));
    assert IsSelection(c, |g.edges|, |g.edges|);
  }

  lemma SubsetSize(a: set<nat>, b: set<nat>)
    requires a <= b
    ensures |a| <= |b|
  {
    assert b == a + (b - a);
  }

  // The search

  /** After `i` sets: the cuts among them have been collected, and all have the size noted down. */
  ghost predicate SearchOk(g: Graph, sets: seq<set<nat>>, i: nat, cuts: seq<set<nat>>, minimal: Option<nat>) {
    && sets == Powerset(|g.edges|, |g.edges|) && i <= |sets|
    && (forall c :: c in cuts <==> c in sets[..i] && IsCut(g, c))
    && NoRepeats(cuts)
    && (minimal.None? <==> cuts == [])
    && (forall c :: c in cuts ==> |c| == minimal.value)
  }

  lemma OneMoreSet(g: Graph, sets: seq<set<nat>>, i: nat, cuts: seq<set<nat>>, minimal: Option<nat>, cyclic: bool)
    requires SearchOk(g, sets, i, cuts, minimal) && i < |sets|
    requires minimal.Some? ==> |sets[i]| <= minimal.value
    requires cyclic <==> !Acyclic(Kept(g, sets[i]))
    ensures cyclic ==> SearchOk(g, sets, i + 1, cuts, minimal)
    ensures !cyclic ==> SearchOk(g, sets, i + 1, cuts + [sets[i]], Some(|sets[i]|))
  {
    PowersetIsComplete(|g.edges|, |g.edges|);
    assert sets[i] in sets;
    assert IsSelection(sets[i], |g.edges|, |g.edges|);
    assert sets[..i + 1] == sets[..i] + [sets[i]];
    assert sets[i] !in sets[..i];
    if !cyclic {
      forall c | c in cuts
        ensures |c| == |sets[i]|
      {
        var k :| 0 <= k < i && sets[..i][k] == c;
        assert sets[k] == c;
      }
    }
  }

  lemma SearchedAll(g: Graph, sets: seq<set<nat>>, cuts: seq<set<nat>>, minimal: Option<nat>)
    requires SearchOk(g, sets, |sets|, cuts, minimal)
    ensures forall c :: c in cuts <==> IsMinimumCut(g, c)
  {
    assert sets[..|sets|] == sets;
    forall c | IsCut(g, c)
      ensures c in cuts
    {
      SubsetsAreListed(g, c);
    }
  }

  /** A cut that has not been collected comes later in the listing, so it is larger. */
  lemma FoundOrLarger(g: Graph, sets: seq<set<nat>>, i: nat, cuts: seq<set<nat>>, minimal: Option<nat>, c: set<nat>)
    requires SearchOk(g, sets, i, cuts, minimal) && i < |sets| && minimal.Some? && |sets[i]| > minimal.value
    requires IsCut(g, c) && SortedBySize(sets)
    ensures c in cuts || |c| > minimal.value
  {
    SubsetsAreListed(g, c);
    var k :| 0 <= k < |sets| && sets[k] == c;
    if k < i { assert sets[..i][k] == c; }
  }

  lemma LargerSetsAreNotMinimum(g: Graph, sets: seq<set<nat>>, i: nat, cuts: seq<set<nat>>, minimal: Option<nat>)
    requires SearchOk(g, sets, i, cuts, minimal) && i < |sets| && minimal.Some? && |sets[i]| > minimal.value
    ensures forall c :: c in cuts <==> IsMinimumCut(g, c)
  {
    assert SortedBySize(sets) by { PowersetIsComplete(|g.edges|, |g.edges|); }
    var best := cuts[0];
    assert best in cuts && IsCut(g, best) && |best| == minimal.value;
    forall c | IsCut(g, c)
      ensures c in cuts || |c| > minimal.value
    {
      FoundOrLarger(g, sets, i, cuts, minimal, c);
    }
  }
}

/** Paths and cycles of a directed graph given by its edge relation on node numbers. */
module Digraph {
  type Edges = (nat, nat) -> bool

  ghost predicate IsPath(e: Edges, p: seq<nat>) {
    |p| >= 1 && forall i :: 0 <= i < |p| - 1 ==> e(p[i], p[i + 1])
  }

  /** Some path with at least one edge goes from `u` to `v`. */
  ghost predicate Leads(e: Edges, u: nat, v: nat) {
    exists p :: IsPath(e, p) && |p| >= 2 && p[0] == u && p[|p| - 1] == v
  }

  /** The node lies on a cycle; an edge from a node to itself is one. */
  ghost predicate OnCycle(e: Edges, u: nat) {
    Leads(e, u, u)
  }

  ghost predicate Acyclic(e: Edges) {
    forall u :: !OnCycle(e, u)
  }

  lemma EdgeLeads(e: Edges, u: nat, v: nat)
    requires e(u, v)
    ensures Leads(e, u, v)
  {
    assert IsPath(e, [u, v]);
  }

  lemma LeadsOn(e: Edges, u: nat, v: nat, w: nat)
    requires Leads(e, u, v) && Leads(e, v, w)
    ensures Leads(e, u, w)
  {
    var p :| IsPath(e, p) && |p| >= 2 && p[0] == u && p[|p| - 1] == v;
    var q :| IsPath(e, q) && |q| >= 2 && q[0] == v && q[|q| - 1] == w;
    var r := p + q[1..];
    forall i | 0 <= i < |r| - 1
      ensures e(r[i], r[i + 1])
    {
      if i >= |p| - 1 {
        var k := i - (|p| - 1);
        assert r[i] == q[k] && r[i + 1] == q[k + 1];
      }
    }
    assert IsPath(e, r);
  }

  lemma LeadsThen(e: Edges, u: nat, v: nat, w: nat)
    requires u == v || Leads(e, u, v)
    requires e(v, w)
    ensures Leads(e, u, w)
  {
    EdgeLeads(e, v, w);
    if u != v { LeadsOn(e, u, v, w); }
  }

  lemma FirstStep(e: Edges, u: nat, v: nat) returns (w: nat)
    requires Leads(e, u, v)
    ensures e(u, w) && (w == v || Leads(e, w, v))
  {
    var p :| IsPath(e, p) && |p| >= 2 && p[0] == u && p[|p| - 1] == v;
    w := p[1];
    assert e(p[0], p[0 + 1]);
    if |p| > 2 { PathLeads(e, p, 1, |p| - 1); }
  }

  /** Paths do not leave a set that is closed under edges. */
  lemma {:induction false} ClosedUnderLeads(e: Edges, closed: set<nat>, u: nat, v: nat)
    requires forall x, y :: x in closed && e(x, y) ==> y in closed
    requires u in closed && Leads(e, u, v)
    ensures v in closed
  {
    var p :| IsPath(e, p) && |p| >= 2 && p[0] == u && p[|p| - 1] == v;
    PathStaysInside(e, closed, p, |p| - 1);
  }

  lemma {:induction false} PathStaysInside(e: Edges, closed: set<nat>, p: seq<nat>, i: nat)
    requires forall x, y :: x in closed && e(x, y) ==> y in closed
    requires IsPath(e, p) && p[0] in closed && i < |p|
    ensures p[i] in closed
  {
    if i > 0 {
      PathStaysInside(e, closed, p, i - 1);
      assert e(p[i - 1], p[i - 1 + 1]);
    }
  }

  /** Every node of a path from `p[0]` to its end reaches the end, and is reached from the start. */
  lemma PathLeads(e: Edges, p: seq<nat>, i: nat, j: nat)
    requires IsPath(e, p) && i < j < |p|
    ensures Leads(e, p[i], p[j])
  {
    var q := p[i..j + 1];
    forall k | 0 <= k < |q| - 1
      ensures e(q[k], q[k + 1])
    {
      assert e(p[i + k], p[i + k + 1]);
    }
    assert IsPath(e, q) && q[|q| - 1] == p[j];
  }

  lemma LeadsInLarger(e: Edges, f: Edges, u: nat, v: nat)
    requires forall x, y :: e(x, y) ==> f(x, y)
    requires Leads(e, u, v)
    ensures Leads(f, u, v)
  {
    var p :| IsPath(e, p) && |p| >= 2 && p[0] == u && p[|p| - 1] == v;
    assert IsPath(f, p);
  }

  // Long walks repeat a node

  lemma {:induction false} DistinctBounded(p: seq<nat>, nodes: set<nat>)
    requires forall i :: 0 <= i < |p| ==> p[i] in nodes
    requires forall i, j :: 0 <= i < j < |p| ==> p[i] != p[j]
    ensures |p| <= |nodes|
  {
    if p != [] {
      var last := p[|p| - 1];
      var front := p[..|p| - 1];
      forall i | 0 <= i < |front|
        ensures front[i] in nodes - {last}
      {
        assert p[i] != p[|p| - 1];
      }
      DistinctBounded(front, nodes - {last});
    }
  }

  /** A path with more nodes than there are contains a cycle. */
  lemma LongPathHasCycle(e: Edges, p: seq<nat>, nodes: set<nat>)
    requires IsPath(e, p) && |p| > |nodes| && forall i :: 0 <= i < |p| ==> p[i] in nodes
    ensures exists i :: 0 <= i < |p| && OnCycle(e, p[i])
  {
    if forall i, j :: 0 <= i < j < |p| ==> p[i] != p[j] {
      DistinctBounded(p, nodes);
    } else {
      var i, j :| 0 <= i < j < |p| && p[i] == p[j];
      PathLeads(e, p, i, j);
    }
  }

  /** From the node one can get to a cycle. */
  ghost predicate ReachesCycle(e: Edges, u: nat) {
    exists c :: OnCycle(e, c) && (u == c || Leads(e, u, c))
  }

  ghost predicate StepsInside(e: Edges, trap: set<nat>, x: nat) {
    exists y :: y in trap && e(x, y)
  }

  ghost predicate IsTrap(e: Edges, trap: set<nat>) {
    forall x {:trigger StepsInside(e, trap, x)} :: x in trap ==> StepsInside(e, trap, x)
  }

  /** If every node of a finite set has a successor in the set, walks from it end up in a cycle. */
  lemma TrappedReachesCycle(e: Edges, trap: set<nat>, u: nat)
    requires u in trap && IsTrap(e, trap)
    ensures ReachesCycle(e, u)
  {
    var p := WalkInside(e, trap, u, |trap| + 1);
    LongPathHasCycle(e, p, trap);
    var i :| 0 <= i < |p| && OnCycle(e, p[i]);
    if i > 0 { PathLeads(e, p, 0, i); }
  }

  lemma {:induction false} WalkInside(e: Edges, trap: set<nat>, u: nat, n: nat) returns (p: seq<nat>)
    requires u in trap && n > 0 && IsTrap(e, trap)
    ensures |p| == n && p[0] == u && IsPath(e, p) && forall i :: 0 <= i < |p| ==> p[i] in trap
  {
    if n == 1 {
      p := [u];
    } else {
      var q := WalkInside(e, trap, u, n - 1);
      assert StepsInside(e, trap, q[|q| - 1]);
      var y :| y in trap && e(q[|q| - 1], y);
      p := q + [y];
    }
  }
}

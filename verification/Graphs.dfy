/**
  Dependency graphs, as both the wave leveller and the plan validator see them:
  a table from a task id to the ids it depends on, read relative to a set of
  in-plan ids.  Reachability, acyclicity and depth are defined through chains
  of dependencies, independently of either algorithm.
 */
module Graphs {
  type Id = string
  type Graph = map<Id, seq<Id>>

  /** A missing row means no dependencies (`dag.get(tid, [])`). */
  function Deps(g: Graph, t: Id): seq<Id> {
    if t in g then g[t] else []
  }

  /** `a` depends directly on `b`, and both are in the plan. */
  predicate Edge(g: Graph, ids: set<Id>, a: Id, b: Id) {
    a in ids && b in ids && b in Deps(g, a)
  }

  /** A chain of in-plan dependencies, dependants first. */
  ghost predicate Chain(g: Graph, ids: set<Id>, p: seq<Id>) {
    && |p| > 0
    && p[0] in ids
    && forall i :: 0 <= i < |p| - 1 ==> Edge(g, ids, p[i], p[i + 1])
  }

  /** `b` is a proper ancestor of `a`: some chain of at least one dependency leads from `a` to `b`. */
  ghost predicate Reaches(g: Graph, ids: set<Id>, a: Id, b: Id) {
    exists p :: Chain(g, ids, p) && |p| >= 2 && p[0] == a && p[|p| - 1] == b
  }

  ghost predicate Acyclic(g: Graph, ids: set<Id>) {
    forall a :: a in ids ==> !Reaches(g, ids, a, a)
  }

  /** The longest chain that starts at `t` has exactly `d` dependencies. */
  ghost predicate IsDepth(g: Graph, ids: set<Id>, t: Id, d: nat) {
    && (exists p :: Chain(g, ids, p) && p[0] == t && |p| == d + 1)
    && (forall p :: Chain(g, ids, p) && p[0] == t ==> |p| <= d + 1)
  }

  lemma EdgeReaches(g: Graph, ids: set<Id>, a: Id, b: Id)
    requires Edge(g, ids, a, b)
    ensures Reaches(g, ids, a, b)
  {
    assert Chain(g, ids, [a, b]);
  }

  lemma ReachesTransitive(g: Graph, ids: set<Id>, a: Id, b: Id, c: Id)
    requires Reaches(g, ids, a, b) && Reaches(g, ids, b, c)
    ensures Reaches(g, ids, a, c)
  {
    var p :| Chain(g, ids, p) && |p| >= 2 && p[0] == a && p[|p| - 1] == b;
    var q :| Chain(g, ids, q) && |q| >= 2 && q[0] == b && q[|q| - 1] == c;
    var r := p + q[1..];
    forall i | 0 <= i < |r| - 1
      ensures Edge(g, ids, r[i], r[i + 1])
    {
      if i >= |p| - 1 {
        assert r[i] == q[i - (|p| - 1)] && r[i + 1] == q[i - (|p| - 1) + 1];
      }
    }
    assert Chain(g, ids, r);
  }

  /** Reaching splits into a first dependency and the rest. */
  lemma ReachesFirst(g: Graph, ids: set<Id>, a: Id, c: Id) returns (b: Id)
    requires Reaches(g, ids, a, c)
    ensures Edge(g, ids, a, b)
    ensures b == c || Reaches(g, ids, b, c)
  {
    var p :| Chain(g, ids, p) && |p| >= 2 && p[0] == a && p[|p| - 1] == c;
    b := p[1];
    var q := p[1..];
    assert Edge(g, ids, p[0], p[0 + 1]);
    forall i | 0 <= i < |q| - 1
      ensures Edge(g, ids, q[i], q[i + 1])
    {
      assert Edge(g, ids, p[i + 1], p[i + 1 + 1]);
    }
    if |q| >= 2 {
      assert Chain(g, ids, q);
    }
  }

  lemma ReachesInPlan(g: Graph, ids: set<Id>, a: Id, b: Id)
    requires Reaches(g, ids, a, b)
    ensures a in ids && b in ids
  {
    var p :| Chain(g, ids, p) && |p| >= 2 && p[0] == a && p[|p| - 1] == b;
    assert Edge(g, ids, p[|p| - 2], p[|p| - 2 + 1]);
  }

  /** A numbering that falls along every dependency bounds every chain. */
  lemma {:induction false} RankBoundsChain(g: Graph, ids: set<Id>, rank: map<Id, nat>, p: seq<Id>)
    requires ids <= rank.Keys
    requires forall a, b :: Edge(g, ids, a, b) ==> rank[b] < rank[a]
    requires Chain(g, ids, p)
    ensures forall i :: 0 <= i < |p| ==> p[i] in ids
    ensures rank[p[|p| - 1]] + |p| - 1 <= rank[p[0]]
    decreases |p|
  {
    if |p| > 1 {
      var q := p[1..];
      assert Edge(g, ids, p[0], p[0 + 1]);
      forall i | 0 <= i < |q| - 1
        ensures Edge(g, ids, q[i], q[i + 1])
      {
        assert Edge(g, ids, p[i + 1], p[i + 1 + 1]);
      }
      RankBoundsChain(g, ids, rank, q);
      assert forall i :: 1 <= i < |p| ==> p[i] == q[i - 1];
    }
  }

  lemma RankMeansAcyclic(g: Graph, ids: set<Id>, rank: map<Id, nat>)
    requires ids <= rank.Keys
    requires forall a, b :: Edge(g, ids, a, b) ==> rank[b] < rank[a]
    ensures Acyclic(g, ids)
  {
    forall a | a in ids
      ensures !Reaches(g, ids, a, a)
    {
      if Reaches(g, ids, a, a) {
        var p :| Chain(g, ids, p) && |p| >= 2 && p[0] == a && p[|p| - 1] == a;
        RankBoundsChain(g, ids, rank, p);
        assert false;
      }
    }
  }

  /** Where a numbering covers an id and all its dependencies, and falls along them, it falls along every chain. */
  lemma {:induction false} RankFalls(g: Graph, ids: set<Id>, rank: map<Id, nat>, p: seq<Id>)
    requires forall a, b :: a in rank && Edge(g, ids, a, b) ==> b in rank && rank[b] < rank[a]
    requires Chain(g, ids, p) && p[0] in rank
    ensures p[|p| - 1] in rank && rank[p[|p| - 1]] + |p| - 1 <= rank[p[0]]
    decreases |p|
  {
    if |p| > 1 {
      var q := p[1..];
      assert Edge(g, ids, p[0], p[0 + 1]);
      forall i | 0 <= i < |q| - 1
        ensures Edge(g, ids, q[i], q[i + 1])
      {
        assert Edge(g, ids, p[i + 1], p[i + 1 + 1]);
      }
      RankFalls(g, ids, rank, q);
    }
  }

  lemma RankedReaches(g: Graph, ids: set<Id>, rank: map<Id, nat>, a: Id, b: Id)
    requires forall x, y :: x in rank && Edge(g, ids, x, y) ==> y in rank && rank[y] < rank[x]
    requires a in rank && Reaches(g, ids, a, b)
    ensures b in rank && rank[b] < rank[a]
  {
    var p :| Chain(g, ids, p) && |p| >= 2 && p[0] == a && p[|p| - 1] == b;
    RankFalls(g, ids, rank, p);
  }

  lemma DepthUnique(g: Graph, ids: set<Id>, t: Id, d: nat, e: nat)
    requires IsDepth(g, ids, t, d) && IsDepth(g, ids, t, e)
    ensures d == e
  {
  }
}

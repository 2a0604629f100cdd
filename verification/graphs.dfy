/** Finite directed graphs given by successor lists, and paths through them. */
module Graphs {

  type Graph = seq<seq<nat>>

  /** An edge between two nodes of the graph; a successor outside the graph is no edge. */
  ghost predicate Edge(g: Graph, u: nat, v: nat)
  {
    u < |g| && v < |g| && v in g[u]
  }

  ghost predicate IsPath(g: Graph, p: seq<nat>)
  {
    && |p| > 0
    && p[0] < |g|
    && forall i, j :: 0 <= i < j < |p| && j == i + 1 ==> Edge(g, p[i], p[j])
  }

  ghost predicate PathFromTo(g: Graph, p: seq<nat>, u: nat, v: nat)
  {
    IsPath(g, p) && p[0] == u && p[|p| - 1] == v
  }

  ghost predicate Reaches(g: Graph, u: nat, v: nat)
  {
    exists p :: PathFromTo(g, p, u, v)
  }

  /** `a` lies on every path from the entry (node 0) to `b`. */
  ghost predicate Dominates(g: Graph, a: nat, b: nat)
  {
    forall p :: PathFromTo(g, p, 0, b) ==> a in p
  }

  lemma PathInGraph(g: Graph, p: seq<nat>, i: nat)
    requires IsPath(g, p) && i < |p|
    ensures p[i] < |g|
  {
    if i > 0 {
      assert Edge(g, p[i - 1], p[i]);
    }
  }

  lemma ReachesSelf(g: Graph, u: nat)
    requires u < |g|
    ensures Reaches(g, u, u)
  {
    assert PathFromTo(g, [u], u, u);
  }

  lemma ExtendPath(g: Graph, p: seq<nat>, u: nat, v: nat, w: nat)
    requires PathFromTo(g, p, u, v) && Edge(g, v, w)
    ensures PathFromTo(g, p + [w], u, w)
  {
  }

  lemma ReachesStep(g: Graph, u: nat, v: nat, w: nat)
    requires Reaches(g, u, v) && Edge(g, v, w)
    ensures Reaches(g, u, w)
  {
    var p :| PathFromTo(g, p, u, v);
    ExtendPath(g, p, u, v, w);
  }

  lemma ConcatPath(g: Graph, p: seq<nat>, q: seq<nat>, u: nat, v: nat, w: nat)
    requires PathFromTo(g, p, u, v) && PathFromTo(g, q, v, w)
    ensures PathFromTo(g, p + q[1..], u, w)
  {
    var r := p + q[1..];
    forall i | 0 <= i < |r| - 1
      ensures Edge(g, r[i], r[i + 1])
    {
      if i >= |p| - 1 {
        var j := i - (|p| - 1);
        assert Edge(g, q[j], q[j + 1]);
        assert r[i] == q[j];
      }
    }
  }

  lemma PrefixPath(g: Graph, p: seq<nat>, u: nat, v: nat, k: nat)
    requires PathFromTo(g, p, u, v) && k < |p|
    ensures PathFromTo(g, p[..k + 1], u, p[k])
  {
  }

  lemma SuffixPath(g: Graph, p: seq<nat>, u: nat, v: nat, k: nat)
    requires PathFromTo(g, p, u, v) && k < |p|
    ensures PathFromTo(g, p[k..], p[k], v)
  {
    PathInGraph(g, p, k);
  }

  /** What a set closed under successors contains at the start of a path it contains at the end. */
  lemma {:induction false} ClosedAlongPath(g: Graph, p: seq<nat>, s: set<nat>)
    requires IsPath(g, p) && p[0] in s
    requires forall u, v :: u in s && Edge(g, u, v) ==> v in s
    ensures p[|p| - 1] in s
    decreases |p|
  {
    if |p| > 1 {
      ClosedAlongPath(g, p[..|p| - 1], s);
      assert Edge(g, p[|p| - 2], p[|p| - 1]);
    }
  }

  /** Strict domination passes to every predecessor. */
  lemma StrictDominatesPred(g: Graph, a: nat, p: nat, b: nat)
    requires Dominates(g, a, b) && a != b && Edge(g, p, b)
    ensures Dominates(g, a, p)
  {
    forall path | PathFromTo(g, path, 0, p)
      ensures a in path
    {
      ExtendPath(g, path, 0, p, b);
      assert a in path + [b];
    }
  }

  lemma ReachedInGraph(g: Graph, u: nat, v: nat)
    requires Reaches(g, u, v)
    ensures v < |g|
  {
    var p :| PathFromTo(g, p, u, v);
    PathInGraph(g, p, |p| - 1);
  }

  /** Graphs with the same edges have the same paths. */
  lemma SameEdges(g: Graph, h: Graph)
    requires |g| == |h| && forall u: nat, v: nat :: Edge(g, u, v) <==> Edge(h, u, v)
    ensures forall p, u: nat, v: nat :: PathFromTo(g, p, u, v) <==> PathFromTo(h, p, u, v)
    ensures forall u: nat, v: nat :: Reaches(g, u, v) <==> Reaches(h, u, v)
    ensures forall a: nat, b: nat :: Dominates(g, a, b) <==> Dominates(h, a, b)
  {
    forall p ensures IsPath(g, p) <==> IsPath(h, p) {
    }
    forall u: nat, v: nat ensures Reaches(g, u, v) <==> Reaches(h, u, v) {
      if p :| PathFromTo(g, p, u, v) {
        assert PathFromTo(h, p, u, v);
      }
      if p :| PathFromTo(h, p, u, v) {
        assert PathFromTo(g, p, u, v);
      }
    }
  }
}

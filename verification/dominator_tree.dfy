/** The tree of current immediate dominators: what one update does to it, and why updating it ends. */
module DominatorTree {
  import opened Mir
  import opened Options
  import opened Graphs

  /** `t[b]` is the current parent of block `b`; blocks without one have not been reached. The parameter `rank` of
      everything below is the position of a block in reverse postorder. */
  type Idoms = seq<Option<nat>>

  /** Parents come earlier in reverse postorder, up to the entry, which is its own parent. */
  ghost predicate Tree(t: Idoms, rank: seq<nat>)
  {
    && |t| == |rank| > 0
    && t[0] == Some(0) && rank[0] == 0
    && (forall x: nat {:trigger t[x].value} :: 0 < x < |t| && t[x].Some? ==>
          t[x].value < |t| && t[t[x].value].Some? && rank[t[x].value] < rank[x])
    && (forall x: nat, y: nat {:trigger t[x], t[y]} :: x < |t| && y < |t| && t[x].Some? && t[y].Some? && rank[x] == rank[y] ==> x == y)
  }

  ghost predicate In(t: Idoms, x: nat)
  {
    x < |t| && t[x].Some?
  }

  /** `x` and everything above it. */
  ghost function Anc(t: Idoms, rank: seq<nat>, x: nat): set<nat>
    requires Tree(t, rank) && In(t, x)
    decreases rank[x]
  {
    if x == 0 then {0} else {x} + Anc(t, rank, t[x].value)
  }

  lemma {:induction false} AncFacts(t: Idoms, rank: seq<nat>, x: nat, z: nat)
    requires Tree(t, rank) && In(t, x) && z in Anc(t, rank, x)
    ensures In(t, z) && rank[z] <= rank[x] && (rank[z] == rank[x] ==> z == x)
    ensures z != x ==> x != 0 && z in Anc(t, rank, t[x].value)
    ensures Anc(t, rank, z) <= Anc(t, rank, x)
    decreases rank[x]
  {
    if z != x {
      AncFacts(t, rank, t[x].value, z);
    }
  }

  /** Two ancestors of one block are on one chain. */
  lemma {:induction false} AncChain(t: Idoms, rank: seq<nat>, x: nat, z: nat, w: nat)
    requires Tree(t, rank) && In(t, x)
    requires z in Anc(t, rank, x) && w in Anc(t, rank, x) && In(t, z) && In(t, w) && rank[z] <= rank[w]
    ensures z in Anc(t, rank, w)
    decreases rank[x]
  {
    AncFacts(t, rank, x, z);
    AncFacts(t, rank, x, w);
    if w != x && z != x {
      AncChain(t, rank, t[x].value, z, w);
    }
  }

  /** The tree after giving block `b` the parent `d`. */
  ghost predicate Attaches(t: Idoms, rank: seq<nat>, b: nat, d: nat)
  {
    && Tree(t, rank) && 0 < b < |t| && In(t, d) && rank[d] < rank[b]
    && (t[b].Some? ==> d in Anc(t, rank, t[b].value))
    && (forall x: nat :: In(t, x) && rank[x] == rank[b] ==> x == b)
  }

  lemma AttachTree(t: Idoms, rank: seq<nat>, b: nat, d: nat)
    requires Attaches(t, rank, b, d)
    ensures Tree(t[b := Some(d)], rank)
  {
    var t' := t[b := Some(d)];
    forall x: nat | 0 < x < |t'| && t'[x].Some?
      ensures t'[x].value < |t'| && t'[t'[x].value].Some? && rank[t'[x].value] < rank[x]
    {
      assert x != b ==> t'[x] == t[x];
    }
    forall x: nat, y: nat | x < |t| && y < |t| && t'[x].Some? && t'[y].Some? && rank[x] == rank[y]
      ensures x == y
    {
      assert x != b ==> In(t, x);
      assert y != b ==> In(t, y);
    }
  }

  /** Ancestor sets only shrink, lose nothing at or below the moved block, and are unchanged above it. */
  lemma {:induction false} AttachAnc(t: Idoms, rank: seq<nat>, b: nat, d: nat, x: nat)
    requires Attaches(t, rank, b, d) && Tree(t[b := Some(d)], rank) && In(t, x)
    ensures Anc(t[b := Some(d)], rank, x) <= Anc(t, rank, x)
    ensures forall z :: z in Anc(t, rank, x) && z < |rank| && rank[z] >= rank[b] ==> z in Anc(t[b := Some(d)], rank, x)
    ensures rank[x] < rank[b] || t[b].None? ==> Anc(t[b := Some(d)], rank, x) == Anc(t, rank, x)
    decreases rank[x]
  {
    var t' := t[b := Some(d)];
    if x == b {
      AttachAnc(t, rank, b, d, d);
      AncFacts(t, rank, t[b].value, d);
      forall z | z in Anc(t, rank, x) && z < |rank| && rank[z] >= rank[b]
        ensures z in Anc(t', rank, x)
      {
        AncFacts(t, rank, x, z);
      }
    } else if x != 0 {
      AttachAnc(t, rank, b, d, t[x].value);
    }
  }

  /** Only the attached block itself enters the tree. */
  lemma AttachIn(t: Idoms, rank: seq<nat>, b: nat, d: nat, x: nat)
    requires b < |t|
    ensures In(t[b := Some(d)], x) <==> In(t, x) || x == b
  {
  }

  // ---------------------------------------------------------------- the iteration's invariants

  /** The reverse postorder numbers are the ranks of the reachable blocks. */
  ghost predicate Ranks(g: Graph, rank: seq<nat>)
  {
    && |rank| == |g| > 0 && rank[0] == 0
    && (forall x: nat, y: nat {:trigger Reaches(g, 0, x), Reaches(g, 0, y)} ::
          x < |g| && y < |g| && Reaches(g, 0, x) && Reaches(g, 0, y) && rank[x] == rank[y] ==> x == y)
    && (forall x: nat {:trigger HasForwardPred(g, rank, x)} :: 0 < x < |g| && Reaches(g, 0, x) ==> HasForwardPred(g, rank, x))
  }

  ghost predicate ForwardEdge(g: Graph, rank: seq<nat>, p: nat, b: nat)
  {
    Edge(g, p, b) && Reaches(g, 0, p) && p < |rank| && b < |rank| && rank[p] < rank[b]
  }

  ghost predicate HasForwardPred(g: Graph, rank: seq<nat>, b: nat)
  {
    exists p :: ForwardEdge(g, rank, p, b)
  }

  /** `z` is an ancestor of every predecessor of `b` that is in the tree. */
  ghost predicate CommonAnc(g: Graph, t: Idoms, rank: seq<nat>, b: nat, z: nat)
    requires Tree(t, rank)
  {
    forall p :: Edge(g, p, b) && In(t, p) ==> z in Anc(t, rank, p)
  }

  /** No common ancestor of the predecessors lies below the current parent. */
  ghost predicate ParentIsLow(g: Graph, t: Idoms, rank: seq<nat>, b: nat)
    requires Tree(t, rank) && 0 < b && In(t, b)
  {
    forall z: nat :: In(t, z) && CommonAnc(g, t, rank, b, z) ==> rank[z] <= rank[t[b].value]
  }

  /** The parent is an ancestor of the forward predecessor `p`. */
  ghost predicate ParentAbove(t: Idoms, rank: seq<nat>, b: nat, p: nat)
    requires Tree(t, rank) && 0 < b && In(t, b) && In(t, p)
  {
    t[b].value in Anc(t, rank, p)
  }

  /** Every ancestor of the forward predecessor `p` no lower than the parent is above the parent. */
  ghost predicate ParentJoins(t: Idoms, rank: seq<nat>, b: nat, p: nat)
    requires Tree(t, rank) && 0 < b && In(t, b) && In(t, p)
  {
    forall z: nat :: In(t, z) && z in Anc(t, rank, p) && rank[z] <= rank[t[b].value] ==> z in Anc(t, rank, t[b].value)
  }

  /** What holds of one block `b` of the tree when the sweep is about to process rank `cursor`. */
  ghost predicate BlockOk(g: Graph, t: Idoms, rank: seq<nat>, cursor: nat, b: nat)
    requires Tree(t, rank) && 0 < b && In(t, b)
  {
    && ParentIsLow(g, t, rank, b)
    && (forall p :: ForwardEdge(g, rank, p, b) ==>
          && In(t, p)
          && ParentJoins(t, rank, b, p)
          && (rank[b] < cursor || rank[t[b].value] >= cursor ==> ParentAbove(t, rank, b, p)))
    && (forall z :: Dominates(g, z, b) && z != b ==> Dominates(g, z, t[b].value))
  }

  /** The invariant of the sweeps. Blocks enter the tree in order of rank. */
  ghost predicate Sweeping(g: Graph, t: Idoms, rank: seq<nat>, cursor: nat)
  {
    && Ranks(g, rank) && Tree(t, rank) && |t| == |g|
    && (forall x: nat :: In(t, x) ==> Reaches(g, 0, x))
    && (forall x: nat, y: nat :: In(t, x) && y < |g| && Reaches(g, 0, y) && rank[y] < rank[x] ==> In(t, y))
    && (forall x: nat :: x < |g| && Reaches(g, 0, x) && rank[x] < cursor ==> In(t, x))
    && (forall b: nat {:trigger BlockOk(g, t, rank, cursor, b)} :: 0 < b && In(t, b) ==> BlockOk(g, t, rank, cursor, b))
  }

  /** `d` is the lowest common ancestor of the predecessors of `b` that are in the tree. */
  ghost predicate IsMeet(g: Graph, t: Idoms, rank: seq<nat>, b: nat, d: nat)
    requires Tree(t, rank)
  {
    In(t, d) && forall z :: z in Anc(t, rank, d) <==> CommonAnc(g, t, rank, b, z)
  }

  /** The sweep is about to process block `b`, all of whose forward predecessors are in the tree. */
  ghost predicate AtBlock(g: Graph, t: Idoms, rank: seq<nat>, b: nat, d: nat)
  {
    && 0 < b < |g| && |rank| == |g| && Sweeping(g, t, rank, rank[b]) && Reaches(g, 0, b)
    && IsMeet(g, t, rank, b, d)
  }

  /** An update only ever moves a block to an ancestor of its current parent. */
  lemma MeetMovesUp(g: Graph, t: Idoms, rank: seq<nat>, b: nat, d: nat)
    requires AtBlock(g, t, rank, b, d)
    ensures Attaches(t, rank, b, d)
    ensures t[b].Some? ==> rank[d] <= rank[t[b].value] && (rank[d] == rank[t[b].value] ==> d == t[b].value)
  {
    assert HasForwardPred(g, rank, b);
    var p :| ForwardEdge(g, rank, p, b);
    assert In(t, p);
    assert d in Anc(t, rank, d);
    assert CommonAnc(g, t, rank, b, d);
    assert d in Anc(t, rank, p);
    AncFacts(t, rank, p, d);
    if t[b].Some? {
      assert BlockOk(g, t, rank, rank[b], b);
      assert ParentIsLow(g, t, rank, b);
      assert ParentJoins(t, rank, b, p);
      AncFacts(t, rank, t[b].value, d);
    }
  }

  // ---------------------------------------------------------------- one update keeps the invariant

  lemma CommonAncShrinks(g: Graph, t: Idoms, rank: seq<nat>, b: nat, d: nat, c: nat, z: nat)
    requires Attaches(t, rank, b, d) && Tree(t[b := Some(d)], rank)
    requires CommonAnc(g, t[b := Some(d)], rank, c, z)
    ensures CommonAnc(g, t, rank, c, z)
  {
    forall p | Edge(g, p, c) && In(t, p)
      ensures z in Anc(t, rank, p)
    {
      AttachIn(t, rank, b, d, p);
      AttachAnc(t, rank, b, d, p);
    }
  }

  lemma ParentStaysLow(g: Graph, t: Idoms, rank: seq<nat>, b: nat, d: nat, c: nat)
    requires AtBlock(g, t, rank, b, d) && Attaches(t, rank, b, d) && Tree(t[b := Some(d)], rank)
    requires 0 < c && In(t[b := Some(d)], c)
    ensures ParentIsLow(g, t[b := Some(d)], rank, c)
  {
    var t' := t[b := Some(d)];
    forall z: nat | In(t', z) && CommonAnc(g, t', rank, c, z)
      ensures rank[z] <= rank[t'[c].value]
    {
      CommonAncShrinks(g, t, rank, b, d, c, z);
      if c == b {
        AncFacts(t, rank, d, z);
      } else {
        assert BlockOk(g, t, rank, rank[b], c);
        assert HasForwardPred(g, rank, c);
        var p :| ForwardEdge(g, rank, p, c);
        assert z in Anc(t, rank, p);
        AncFacts(t, rank, p, z);
      }
    }
  }

  lemma ForwardPredStays(g: Graph, t: Idoms, rank: seq<nat>, b: nat, d: nat, c: nat, p: nat)
    requires AtBlock(g, t, rank, b, d) && Attaches(t, rank, b, d) && Tree(t[b := Some(d)], rank)
    requires 0 < c && In(t[b := Some(d)], c) && ForwardEdge(g, rank, p, c)
    ensures In(t, p)
    ensures ParentJoins(t[b := Some(d)], rank, c, p)
    ensures rank[c] <= rank[b] || rank[t[b := Some(d)][c].value] > rank[b] ==> ParentAbove(t[b := Some(d)], rank, c, p)
  {
    var t' := t[b := Some(d)];
    var e := t'[c].value;
    if c == b {
      assert In(t, p);
      assert d in Anc(t, rank, d);
      assert CommonAnc(g, t, rank, b, d);
    } else {
      assert BlockOk(g, t, rank, rank[b], c);
    }
    assert rank[e] < rank[c];
    AttachAnc(t, rank, b, d, p);
    AttachAnc(t, rank, b, d, e);
    if rank[c] <= rank[b] || rank[e] >= rank[b] {
      assert e in Anc(t, rank, p);
      assert ParentAbove(t', rank, c, p);
    }
    forall z: nat | In(t', z) && z in Anc(t', rank, p) && rank[z] <= rank[e]
      ensures z in Anc(t', rank, e)
    {
      if e in Anc(t', rank, p) {
        AncChain(t', rank, p, z, e);
      } else {
        AncFacts(t, rank, p, z);
        assert ParentJoins(t, rank, c, p);
      }
    }
  }

  /** A dominator of a block in the tree is one of its ancestors. */
  lemma {:induction false} DominatorIsAnc(g: Graph, t: Idoms, rank: seq<nat>, cursor: nat, z: nat, x: nat)
    requires Sweeping(g, t, rank, cursor) && In(t, x) && Dominates(g, z, x)
    ensures z in Anc(t, rank, x)
    decreases rank[x]
  {
    if x == 0 {
      assert PathFromTo(g, [0], 0, 0);
    } else if z != x {
      assert BlockOk(g, t, rank, cursor, x);
      DominatorIsAnc(g, t, rank, cursor, z, t[x].value);
    }
  }

  /** A dominator dominates every ancestor below itself. */
  lemma {:induction false} DominatorDown(g: Graph, t: Idoms, rank: seq<nat>, cursor: nat, z: nat, x: nat, r: nat)
    requires Sweeping(g, t, rank, cursor) && In(t, x) && In(t, z) && In(t, r) && Dominates(g, z, x)
    requires r in Anc(t, rank, x) && rank[z] <= rank[r]
    ensures Dominates(g, z, r)
    decreases rank[x]
  {
    AncFacts(t, rank, x, r);
    if x != r {
      assert BlockOk(g, t, rank, cursor, x);
      DominatorDown(g, t, rank, cursor, z, t[x].value, r);
    }
  }

  /** Every strict dominator of `b` dominates the parent just computed for it. */
  lemma DominatesMeet(g: Graph, t: Idoms, rank: seq<nat>, b: nat, d: nat, z: nat)
    requires AtBlock(g, t, rank, b, d) && Dominates(g, z, b) && z != b
    ensures Dominates(g, z, d)
  {
    forall p | Edge(g, p, b) && In(t, p)
      ensures z in Anc(t, rank, p)
    {
      StrictDominatesPred(g, z, p, b);
      DominatorIsAnc(g, t, rank, rank[b], z, p);
    }
    assert CommonAnc(g, t, rank, b, z);
    AncFacts(t, rank, d, z);
    assert HasForwardPred(g, rank, b);
    var p :| ForwardEdge(g, rank, p, b);
    assert d in Anc(t, rank, d);
    assert CommonAnc(g, t, rank, b, d);
    StrictDominatesPred(g, z, p, b);
    DominatorDown(g, t, rank, rank[b], z, p, d);
  }

  lemma DominatorsStay(g: Graph, t: Idoms, rank: seq<nat>, b: nat, d: nat, c: nat, z: nat)
    requires AtBlock(g, t, rank, b, d)
    requires 0 < c && In(t[b := Some(d)], c) && Dominates(g, z, c) && z != c
    ensures Dominates(g, z, t[b := Some(d)][c].value)
  {
    if c == b {
      DominatesMeet(g, t, rank, b, d, z);
    } else {
      assert BlockOk(g, t, rank, rank[b], c);
    }
  }

  lemma AttachBlockOk(g: Graph, t: Idoms, rank: seq<nat>, b: nat, d: nat, c: nat)
    requires AtBlock(g, t, rank, b, d) && Attaches(t, rank, b, d) && Tree(t[b := Some(d)], rank)
    requires 0 < c && In(t[b := Some(d)], c)
    ensures BlockOk(g, t[b := Some(d)], rank, rank[b] + 1, c)
  {
    var t' := t[b := Some(d)];
    ParentStaysLow(g, t, rank, b, d, c);
    forall p | ForwardEdge(g, rank, p, c)
      ensures In(t', p) && ParentJoins(t', rank, c, p)
      ensures rank[c] < rank[b] + 1 || rank[t'[c].value] >= rank[b] + 1 ==> ParentAbove(t', rank, c, p)
    {
      ForwardPredStays(g, t, rank, b, d, c, p);
    }
    forall z: nat | Dominates(g, z, c) && z != c ensures Dominates(g, z, t'[c].value) {
      DominatorsStay(g, t, rank, b, d, c, z);
    }
  }

  /** One step of a sweep: `b` gets the meet of its predecessors as parent. */
  lemma SweepStep(g: Graph, t: Idoms, rank: seq<nat>, b: nat, d: nat)
    requires AtBlock(g, t, rank, b, d)
    ensures Sweeping(g, t[b := Some(d)], rank, rank[b] + 1)
    ensures t[b].Some? ==> d == t[b].value || rank[d] < rank[t[b].value]
    ensures rank[d] < rank[b]
  {
    var t' := t[b := Some(d)];
    MeetMovesUp(g, t, rank, b, d);
    AttachTree(t, rank, b, d);
    forall c: nat | 0 < c && In(t', c) ensures BlockOk(g, t', rank, rank[b] + 1, c) {
      AttachBlockOk(g, t, rank, b, d, c);
    }
    forall x: nat ensures In(t', x) <==> In(t, x) || x == b {
      AttachIn(t, rank, b, d, x);
    }
  }

  /** The tree before the first sweep. */
  lemma SweepInit(g: Graph, t: Idoms, rank: seq<nat>)
    requires Ranks(g, rank) && |t| == |g|
    requires forall x: nat :: x < |t| ==> t[x] == if x == 0 then Some(0) else None
    ensures Sweeping(g, t, rank, 1)
  {
    ReachesSelf(g, 0);
  }

  /** A finished sweep is ready for the next one. */
  lemma SweepAgain(g: Graph, t: Idoms, rank: seq<nat>, cursor: nat)
    requires Sweeping(g, t, rank, cursor) && cursor >= 1
    requires forall x: nat :: In(t, x) ==> rank[x] < cursor
    ensures Sweeping(g, t, rank, 1)
  {
    forall b: nat | 0 < b && In(t, b) ensures BlockOk(g, t, rank, 1, b) {
      assert BlockOk(g, t, rank, cursor, b);
    }
    ReachesSelf(g, 0);
  }

  // ---------------------------------------------------------------- the fixpoint

  /** No block would change its parent. */
  ghost predicate Stable(g: Graph, t: Idoms, rank: seq<nat>)
    requires Tree(t, rank)
  {
    forall b: nat {:trigger IsMeet(g, t, rank, b, t[b].value)} :: 0 < b && In(t, b) ==> IsMeet(g, t, rank, b, t[b].value)
  }

  lemma {:induction false} StableOnPaths(g: Graph, t: Idoms, rank: seq<nat>, a: nat, b: nat, path: seq<nat>)
    requires Tree(t, rank) && |t| == |g| && Stable(g, t, rank)
    requires forall x: nat :: x < |g| && Reaches(g, 0, x) ==> In(t, x)
    requires In(t, b) && a in Anc(t, rank, b) && PathFromTo(g, path, 0, b)
    ensures a in path
    decreases |path|
  {
    if a != b && b != 0 {
      var k := |path| - 2;
      var p := path[k];
      assert Edge(g, path[k], path[k + 1]);
      PrefixPath(g, path, 0, b, k);
      assert Reaches(g, 0, p);
      AncFacts(t, rank, b, a);
      assert IsMeet(g, t, rank, b, t[b].value);
      StableOnPaths(g, t, rank, a, p, path[..k + 1]);
    }
  }

  /** At a fixpoint the ancestors of a reachable block are exactly its dominators. */
  lemma StableIsDominators(g: Graph, t: Idoms, rank: seq<nat>, cursor: nat, b: nat)
    requires Sweeping(g, t, rank, cursor) && Stable(g, t, rank)
    requires forall x: nat :: x < |g| && Reaches(g, 0, x) ==> In(t, x)
    requires In(t, b)
    ensures forall a: nat :: a in Anc(t, rank, b) <==> Dominates(g, a, b)
  {
    forall a: nat ensures a in Anc(t, rank, b) <==> Dominates(g, a, b) {
      if a in Anc(t, rank, b) {
        forall path | PathFromTo(g, path, 0, b) ensures a in path {
          StableOnPaths(g, t, rank, a, b, path);
        }
      }
      if Dominates(g, a, b) {
        DominatorIsAnc(g, t, rank, cursor, a, b);
      }
    }
  }
}

/** Dominator sets: the fixpoint iteration over reverse postorder and the walk up the finished tree. */
module Dominators {
  import opened Mir
  import opened Options
  import opened Graphs
  import opened Postorder
  import opened DominatorTree

  const USIZE_MAX: nat := 0xFFFF_FFFF_FFFF_FFFF

  function UnwrapOr(o: Option<nat>, default: nat): nat
  {
    match o
    case Some(v) => v
    case None => default
  }

  /** The lowest common ancestor of `a0` and `b0` in the tree. */
  method Intersect(a0: nat, b0: nat, idom: Idoms, rpoIndex: seq<nat>) returns (a: nat)
    requires Tree(idom, rpoIndex) && In(idom, a0) && In(idom, b0)
    ensures In(idom, a)
    ensures forall z :: z in Anc(idom, rpoIndex, a) <==> z in Anc(idom, rpoIndex, a0) && z in Anc(idom, rpoIndex, b0)
  {
    a := a0;
    var b := b0;
    ghost var common := Anc(idom, rpoIndex, a0) * Anc(idom, rpoIndex, b0);
    while a != b
      invariant In(idom, a) && In(idom, b)
      invariant Anc(idom, rpoIndex, a) * Anc(idom, rpoIndex, b) == common
      decreases rpoIndex[a] + rpoIndex[b]
    {
      ghost var outerA, outerB := a, b;
      while rpoIndex[a] > rpoIndex[b]
        invariant In(idom, a) && (a == outerA || rpoIndex[a] < rpoIndex[outerA])
        invariant Anc(idom, rpoIndex, a) * Anc(idom, rpoIndex, b) == common
        decreases rpoIndex[a]
      {
        ClimbKeepsCommon(idom, rpoIndex, a, b);
        a := UnwrapOr(idom[a], 0);
      }
      while rpoIndex[b] > rpoIndex[a]
        invariant In(idom, b) && (b == outerB || rpoIndex[b] < rpoIndex[outerB])
        invariant Anc(idom, rpoIndex, a) * Anc(idom, rpoIndex, b) == common
        decreases rpoIndex[b]
      {
        ClimbKeepsCommon(idom, rpoIndex, b, a);
        SwapCommon(Anc(idom, rpoIndex, b), Anc(idom, rpoIndex, a));
        b := UnwrapOr(idom[b], 0);
        SwapCommon(Anc(idom, rpoIndex, b), Anc(idom, rpoIndex, a));
      }
    }
    assert Anc(idom, rpoIndex, a) == common;
  }

  lemma SwapCommon(s: set<nat>, t: set<nat>)
    ensures s * t == t * s
  {
  }

  lemma ClimbKeepsCommon(t: Idoms, rank: seq<nat>, a: nat, b: nat)
    requires Tree(t, rank) && In(t, a) && In(t, b) && rank[a] > rank[b]
    ensures 0 < a && In(t, t[a].value) && rank[t[a].value] < rank[a]
    ensures Anc(t, rank, t[a].value) * Anc(t, rank, b) == Anc(t, rank, a) * Anc(t, rank, b)
  {
    if a in Anc(t, rank, b) {
      AncFacts(t, rank, b, a);
    }
  }

  lemma TakeNext(s: seq<nat>, k: nat)
    requires k < |s|
    ensures s[..k + 1] == s[..k] + [s[k]]
  {
  }

  /** `z` is an ancestor of `first` and of every listed block that has a parent. */
  ghost predicate AboveAll(t: Idoms, rank: seq<nat>, first: nat, blocks: seq<nat>, z: nat)
    requires Tree(t, rank) && In(t, first)
  {
    z in Anc(t, rank, first) && forall p :: p in blocks && In(t, p) ==> z in Anc(t, rank, p)
  }

  /** The first listed block that has a parent. */
  method FindProcessed(preds: seq<nat>, t: Idoms) returns (r: Option<nat>)
    requires forall k :: 0 <= k < |preds| ==> preds[k] < |t|
    ensures r.None? ==> forall p :: p in preds ==> !In(t, p)
    ensures r.Some? ==> r.value in preds && In(t, r.value)
  {
    for k := 0 to |preds|
      invariant forall i :: 0 <= i < k ==> !In(t, preds[i])
    {
      if t[preds[k]].Some? {
        return Some(preds[k]);
      }
    }
    r := None;
  }

  /** The meet of the predecessors of `b` that have a parent; `None` when there is no such predecessor. */
  method NewIdom(cfg: Cfg, b: nat, t: Idoms, rank: seq<nat>) returns (r: Option<nat>)
    requires WellFormed(cfg) && b < |cfg.preds| == |t| && Tree(t, rank)
    ensures r.None? ==> forall p :: Edge(cfg.succs, p, b) ==> !In(t, p)
    ensures r.Some? ==> IsMeet(cfg.succs, t, rank, b, r.value)
  {
    var preds := cfg.preds[b];
    forall k | 0 <= k < |preds| ensures preds[k] < |t| {
      assert preds[k] in cfg.preds[b];
    }
    var found := FindProcessed(preds, t);
    if found.None? {
      return None;
    }
    var firstPred := found.value;
    var newIdom := MeetOfAll(preds, firstPred, t, rank);
    forall z: nat ensures AboveAll(t, rank, firstPred, preds, z) <==> CommonAnc(cfg.succs, t, rank, b, z) {
      assert forall p: nat :: p in preds <==> Edge(cfg.succs, p, b);
    }
    r := Some(newIdom);
  }

  method MeetOfAll(preds: seq<nat>, firstPred: nat, t: Idoms, rank: seq<nat>) returns (newIdom: nat)
    requires Tree(t, rank) && In(t, firstPred)
    requires forall k :: 0 <= k < |preds| ==> preds[k] < |t|
    ensures In(t, newIdom)
    ensures forall z :: z in Anc(t, rank, newIdom) <==> AboveAll(t, rank, firstPred, preds, z)
  {
    newIdom := firstPred;
    for k := 0 to |preds|
      invariant In(t, newIdom)
      invariant forall z :: z in Anc(t, rank, newIdom) <==> AboveAll(t, rank, firstPred, preds[..k], z)
    {
      var p := preds[k];
      TakeNext(preds, k);
      if t[p].Some? && p != firstPred {
        newIdom := Intersect(newIdom, p, t, rank);
      }
    }
    assert preds[..|preds|] == preds;
  }

  // ---------------------------------------------------------------- the sweeps

  /** Sum of the parents' ranks, a block without parent counting `none`. */
  ghost function Potential(t: Idoms, rank: seq<nat>, none: nat, k: nat): nat
    requires k <= |t| == |rank|
    requires forall x: nat :: x < |t| && t[x].Some? ==> t[x].value < |t|
  {
    if k == 0 then 0
    else Potential(t, rank, none, k - 1) + (if t[k - 1].Some? then rank[t[k - 1].value] else none)
  }

  lemma {:induction false} PotentialDrops(t: Idoms, rank: seq<nat>, none: nat, k: nat, b: nat, d: nat)
    requires k <= |t| == |rank| && b < |t| && d < |t|
    requires forall x: nat :: x < |t| && t[x].Some? ==> t[x].value < |t|
    requires rank[d] < (if t[b].Some? then rank[t[b].value] else none)
    ensures Potential(t[b := Some(d)], rank, none, k) <= Potential(t, rank, none, k)
    ensures b < k ==> Potential(t[b := Some(d)], rank, none, k) < Potential(t, rank, none, k)
  {
    if k > 0 {
      PotentialDrops(t, rank, none, k - 1, b, d);
    }
  }

  /** `rank` numbers the blocks of `rpo` in order. */
  ghost predicate Numbers(rpo: seq<nat>, rank: seq<nat>)
  {
    forall i :: 0 <= i < |rpo| ==> rpo[i] < |rank| && rank[rpo[i]] == i
  }

  lemma RpoRanks(g: Graph, rpo: seq<nat>, rank: seq<nat>)
    requires IsRpo(g, rpo) && Numbers(rpo, rank) && |rank| == |g| > 0
    ensures Ranks(g, rank)
    ensures forall x: nat :: x < |g| && Reaches(g, 0, x) ==> rank[x] < |rpo| && rpo[rank[x]] == x
  {
    forall x: nat | x < |g| && Reaches(g, 0, x)
      ensures rank[x] < |rpo| && rpo[rank[x]] == x
    {
      assert x in rpo;
      var i :| 0 <= i < |rpo| && rpo[i] == x;
    }
    forall x: nat | 0 < x < |g| && Reaches(g, 0, x)
      ensures HasForwardPred(g, rank, x)
    {
      var j := rank[x];
      assert j > 0 && HasEarlierPred(g, rpo, j);
      var i :| 0 <= i < j && Edge(g, rpo[i], rpo[j]);
      assert rpo[i] in rpo;
      assert ForwardEdge(g, rank, rpo[i], x);
    }
  }

  /** Every block of rank below `cursor` has the meet of its predecessors as parent. */
  ghost predicate StableBelow(g: Graph, t: Idoms, rank: seq<nat>, cursor: nat)
    requires Tree(t, rank)
  {
    forall b: nat {:trigger IsMeet(g, t, rank, b, t[b].value)} :: 0 < b && In(t, b) && rank[b] < cursor ==> IsMeet(g, t, rank, b, t[b].value)
  }

  lemma StableExtends(g: Graph, t: Idoms, rank: seq<nat>, b: nat)
    requires Tree(t, rank) && In(t, b) && StableBelow(g, t, rank, rank[b]) && IsMeet(g, t, rank, b, t[b].value)
    ensures StableBelow(g, t, rank, rank[b] + 1)
  {
    forall x: nat | 0 < x && In(t, x) && rank[x] < rank[b] + 1 ensures IsMeet(g, t, rank, x, t[x].value) {
      assert rank[x] == rank[b] ==> x == b;
    }
  }

  /** Recomputes the parent of the `i`-th block in reverse postorder. */
  method UpdateBlock(cfg: Cfg, rpo: seq<nat>, i: nat, idom: array<Option<nat>>, rank: seq<nat>) returns (changed: bool)
    requires WellFormed(cfg) && |cfg.succs| == idom.Length == |rank| && 0 < i < |rpo|
    requires Numbers(rpo, rank) && Reaches(cfg.succs, 0, rpo[i]) && rpo[i] != 0
    requires Sweeping(cfg.succs, idom[..], rank, i)
    modifies idom
    ensures Sweeping(cfg.succs, idom[..], rank, i + 1)
    ensures changed ==> Potential(idom[..], rank, |rpo|, idom.Length) < Potential(old(idom[..]), rank, |rpo|, idom.Length)
    ensures !changed ==> idom[..] == old(idom[..])
    ensures !changed && StableBelow(cfg.succs, idom[..], rank, i) ==> StableBelow(cfg.succs, idom[..], rank, i + 1)
  {
    ghost var g, t := cfg.succs, idom[..];
    var b := rpo[i];
    assert HasForwardPred(g, rank, b);
    var found := NewIdom(cfg, b, idom[..], rank);
    match found
    case None =>
      assert false;
    case Some(newIdom) =>
      SweepStep(g, t, rank, b, newIdom);
      changed := idom[b] != Some(newIdom);
      if changed {
        PotentialDrops(t, rank, |rpo|, idom.Length, b, newIdom);
        idom[b] := Some(newIdom);
        assert idom[..] == t[b := Some(newIdom)];
      } else {
        assert t == t[b := Some(newIdom)];
        if StableBelow(g, t, rank, i) {
          StableExtends(g, t, rank, b);
        }
      }
  }

  method Sweep(cfg: Cfg, rpo: seq<nat>, idom: array<Option<nat>>, rank: seq<nat>) returns (changed: bool)
    requires WellFormed(cfg) && |cfg.succs| == idom.Length == |rank|
    requires IsRpo(cfg.succs, rpo) && Numbers(rpo, rank)
    requires Sweeping(cfg.succs, idom[..], rank, 1)
    modifies idom
    ensures Sweeping(cfg.succs, idom[..], rank, |rpo|)
    ensures changed ==> Potential(idom[..], rank, |rpo|, idom.Length) < Potential(old(idom[..]), rank, |rpo|, idom.Length)
    ensures !changed ==> idom[..] == old(idom[..]) && StableBelow(cfg.succs, idom[..], rank, |rpo|)
  {
    changed := false;
    for i := 1 to |rpo|
      invariant Sweeping(cfg.succs, idom[..], rank, i)
      invariant !changed ==> idom[..] == old(idom[..]) && StableBelow(cfg.succs, idom[..], rank, i)
      invariant changed ==> Potential(idom[..], rank, |rpo|, idom.Length) < Potential(old(idom[..]), rank, |rpo|, idom.Length)
    {
      assert rpo[i] in rpo;
      var moved := UpdateBlock(cfg, rpo, i, idom, rank);
      changed := changed || moved;
    }
  }

  method Iterate(cfg: Cfg, rpo: seq<nat>, idom: array<Option<nat>>, rank: seq<nat>)
    requires WellFormed(cfg) && |cfg.succs| == idom.Length == |rank| > 0
    requires IsRpo(cfg.succs, rpo) && Numbers(rpo, rank)
    requires forall x :: 0 <= x < idom.Length ==> idom[x] == if x == 0 then Some(0) else None
    modifies idom
    ensures Sweeping(cfg.succs, idom[..], rank, 1) && Stable(cfg.succs, idom[..], rank)
    ensures forall x: nat :: In(idom[..], x) <==> x < idom.Length && Reaches(cfg.succs, 0, x)
  {
    RpoRanks(cfg.succs, rpo, rank);
    SweepInit(cfg.succs, idom[..], rank);
    var changed := true;
    while changed
      invariant Sweeping(cfg.succs, idom[..], rank, 1)
      invariant !changed ==> StableBelow(cfg.succs, idom[..], rank, |rpo|)
      invariant !changed ==> forall x: nat :: x < idom.Length && Reaches(cfg.succs, 0, x) ==> In(idom[..], x)
      decreases Potential(idom[..], rank, |rpo|, idom.Length), changed
    {
      changed := Sweep(cfg, rpo, idom, rank);
      SweepAgain(cfg.succs, idom[..], rank, |rpo|);
    }
  }

  // ---------------------------------------------------------------- dominator sets

  /** Every block with the blocks above it in the tree. */
  method WalkUp(b: nat, idom: Idoms, ghost rank: seq<nat>) returns (r: set<nat>)
    requires Tree(idom, rank) && b < |idom|
    ensures In(idom, b) ==> forall a :: a in r <==> a in Anc(idom, rank, b)
    ensures !In(idom, b) ==> r == {b}
  {
    r := {b};
    var cur: nat := b;
    ghost var missing := if In(idom, b) then Anc(idom, rank, b) else {b};
    while idom[cur].Some? && idom[cur].value != cur
      invariant cur < |idom| && (In(idom, b) <==> In(idom, cur))
      invariant In(idom, b) ==> missing == Anc(idom, rank, cur) && Anc(idom, rank, b) == r + missing && cur in r
      invariant !In(idom, b) ==> r == {b}
      decreases rank[cur]
    {
      cur := idom[cur].value;
      missing := Anc(idom, rank, cur);
      r := r + {cur};
    }
  }

  /** `s` holds the dominators of `b`, or `b` alone when `b` is unreachable from the entry. */
  ghost predicate IsDomSet(g: Graph, b: nat, s: set<nat>)
  {
    if Reaches(g, 0, b) then forall a: nat :: a in s <==> Dominates(g, a, b) else s == {b}
  }

  method NumberBlocks(g: Graph, rpo: seq<nat>) returns (rpoIndex: array<nat>)
    requires IsRpo(g, rpo)
    ensures fresh(rpoIndex) && rpoIndex.Length == |g| && Numbers(rpo, rpoIndex[..])
  {
    forall k | 0 <= k < |rpo| ensures rpo[k] < |g| {
      assert rpo[k] in rpo;
      ReachedInGraph(g, 0, rpo[k]);
    }
    rpoIndex := new nat[|g|](_ => USIZE_MAX);
    for i := 0 to |rpo|
      invariant forall k :: 0 <= k < i ==> rpoIndex[rpo[k]] == k
    {
      rpoIndex[rpo[i]] := i;
    }
  }

  method DominanceSets(cfg: Cfg) returns (sets: seq<set<nat>>)
    requires WellFormed(cfg) && |cfg.succs| > 0
    ensures |sets| == |cfg.succs|
    ensures forall b: nat :: b < |sets| ==> IsDomSet(cfg.succs, b, sets[b])
  {
    var n := |cfg.succs|;
    var rpo := ReversePostorder(cfg.succs);
    var rpoIndex := NumberBlocks(cfg.succs, rpo);
    var idom := new Option<nat>[n](x => if x == 0 then Some(0) else None);
    Iterate(cfg, rpo, idom, rpoIndex[..]);
    sets := CollectSets(cfg.succs, idom[..], rpoIndex[..]);
  }

  method CollectSets(ghost g: Graph, idom: Idoms, ghost rank: seq<nat>) returns (sets: seq<set<nat>>)
    requires Sweeping(g, idom, rank, 1) && Stable(g, idom, rank)
    requires forall x: nat :: In(idom, x) <==> x < |g| && Reaches(g, 0, x)
    ensures |sets| == |g|
    ensures forall b: nat :: b < |sets| ==> IsDomSet(g, b, sets[b])
  {
    sets := [];
    for b := 0 to |idom|
      invariant |sets| == b
      invariant forall x: nat :: x < b ==> IsDomSet(g, x, sets[x])
    {
      var above := WalkUp(b, idom, rank);
      if idom[b].Some? {
        StableIsDominators(g, idom, rank, 1, b);
      }
      assert IsDomSet(g, b, above);
      sets := sets + [above];
    }
  }

  /** For each block, the set of blocks that dominate it, including itself. */
  method DominatorsOf(func: MirFunction) returns (sets: seq<set<nat>>)
    ensures |sets| == |func.blocks|
    ensures forall b: nat :: b < |sets| ==> IsDomSet(FlowGraph(func), b, sets[b])
  {
    if |func.blocks| == 0 {
      return [];
    }
    var cfg := BuildCfg(func);
    assert forall u: nat, v: nat :: Edge(FlowGraph(func), u, v) <==> Edge(cfg.succs, u, v);
    SameEdges(FlowGraph(func), cfg.succs);
    sets := DominanceSets(cfg);
    forall b: nat | b < |sets| ensures IsDomSet(FlowGraph(func), b, sets[b]) {
      assert IsDomSet(cfg.succs, b, sets[b]);
    }
  }
}

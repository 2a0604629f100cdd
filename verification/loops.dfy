/** Natural loops: one loop per back edge, its body, and what makes the body a natural loop. */
module Loops {
  import opened Mir
  import opened Options
  import opened Graphs
  import opened Postorder
  import opened Dominators

  datatype Loop = Loop(header: nat, body: set<nat>, latches: seq<nat>, exits: seq<nat>)

  /** An edge to a block that dominates its source; an unreachable source is dominated by itself only. */
  ghost predicate BackEdge(g: Graph, latch: nat, header: nat)
  {
    Edge(g, latch, header) && (if Reaches(g, 0, latch) then Dominates(g, header, latch) else header == latch)
  }

  /** A path on which only the last block may be `header`. */
  ghost predicate AvoidingPath(g: Graph, p: seq<nat>, x: nat, latch: nat, header: nat)
  {
    PathFromTo(g, p, x, latch) && forall i :: 0 <= i < |p| - 1 ==> p[i] != header
  }

  ghost predicate ReachesAvoiding(g: Graph, x: nat, latch: nat, header: nat)
  {
    exists p :: AvoidingPath(g, p, x, latch, header)
  }

  /** The header and everything that reaches the latch without passing through the header. */
  ghost predicate IsBody(g: Graph, body: set<nat>, latch: nat, header: nat)
  {
    forall x: nat :: x in body <==> x == header || ReachesAvoiding(g, x, latch, header)
  }

  /** `exits` lists the successors of the body that are outside it. */
  ghost predicate IsExits(succs: seq<seq<nat>>, body: set<nat>, exits: seq<nat>)
  {
    forall t: nat :: t in exits <==> t !in body && exists b :: b in body && b < |succs| && t in succs[b]
  }

  ghost predicate IsLoop(g: Graph, l: Loop)
  {
    && |l.latches| == 1
    && BackEdge(g, l.latches[0], l.header)
    && IsBody(g, l.body, l.latches[0], l.header)
    && IsExits(g, l.body, l.exits)
  }

  // ---------------------------------------------------------------- growing a body

  lemma StepAvoiding(g: Graph, p: nat, m: nat, latch: nat, header: nat)
    requires Edge(g, p, m) && p != header && ReachesAvoiding(g, m, latch, header)
    ensures ReachesAvoiding(g, p, latch, header)
  {
    var path :| AvoidingPath(g, path, m, latch, header);
    assert AvoidingPath(g, [p] + path, p, latch, header);
  }

  /** `m`'s predecessors other than the header are all in the body. */
  ghost predicate Closed(cfg: Cfg, body: set<nat>, header: nat, m: nat)
  {
    forall p: nat :: Edge(cfg.succs, p, m) && p != header ==> p in body
  }

  /** State of the backward walk: what is in the body belongs there, and what is not on the stack is closed. */
  ghost predicate Growing(cfg: Cfg, body: set<nat>, stack: seq<nat>, latch: nat, header: nat)
  {
    && header in body && latch in body
    && (forall m :: m in body ==> m < |cfg.succs|)
    && (forall m :: m in body && m != header ==> ReachesAvoiding(cfg.succs, m, latch, header))
    && (forall m :: m in stack ==> m in body && (m == header ==> m == latch))
    && (forall m :: m in body && (m == header ==> m == latch) ==> m in stack || Closed(cfg, body, header, m))
  }

  lemma {:induction false} ClosedContains(cfg: Cfg, body: set<nat>, latch: nat, header: nat, p: seq<nat>, x: nat)
    requires Growing(cfg, body, [], latch, header) && AvoidingPath(cfg.succs, p, x, latch, header)
    ensures x in body
    decreases |p|
  {
    if |p| > 1 {
      var q := p[1..];
      assert Edge(cfg.succs, p[0], p[1]);
      assert AvoidingPath(cfg.succs, q, p[1], latch, header);
      ClosedContains(cfg, body, latch, header, q, p[1]);
      assert p[1] == header ==> |q| == 1;
      assert Closed(cfg, body, header, p[1]);
    }
  }

  lemma GrowingDone(cfg: Cfg, body: set<nat>, latch: nat, header: nat)
    requires Growing(cfg, body, [], latch, header) && latch < |cfg.succs|
    ensures IsBody(cfg.succs, body, latch, header)
  {
    forall x: nat ensures x in body <==> x == header || ReachesAvoiding(cfg.succs, x, latch, header) {
      if p :| AvoidingPath(cfg.succs, p, x, latch, header) {
        ClosedContains(cfg, body, latch, header, p, x);
      }
    }
  }

  /** Adds the predecessors of `m`, other than the header, to the body and the stack. */
  method AddPreds(cfg: Cfg, header: nat, m: nat, body0: set<nat>, stack0: seq<nat>) returns (body: set<nat>, stack: seq<nat>)
    requires WellFormed(cfg) && m < |cfg.succs|
    ensures forall x: nat :: x in body <==> x in body0 || (Edge(cfg.succs, x, m) && x != header)
    ensures forall x: nat :: x in stack <==> x in stack0 || (x in body && x !in body0)
    ensures body == body0 ==> stack == stack0
    ensures body0 <= body
  {
    body, stack := body0, stack0;
    var preds := cfg.preds[m];
    for k := 0 to |preds|
      invariant forall x: nat :: x in body <==> x in body0 || (x in preds[..k] && x != header)
      invariant forall x: nat :: x in stack <==> x in stack0 || (x in body && x !in body0)
      invariant body == body0 ==> stack == stack0
      invariant body0 <= body
    {
      var p := preds[k];
      TakeNext(preds, k);
      if p != header && p !in body {
        body := body + {p};
        stack := stack + [p];
      }
    }
    assert preds[..|preds|] == preds;
    assert forall x: nat :: x in preds <==> Edge(cfg.succs, x, m);
  }

  lemma GrowingStep(cfg: Cfg, latch: nat, header: nat, m: nat,
                    body: set<nat>, rest: seq<nat>, body': set<nat>, stack': seq<nat>)
    requires Growing(cfg, body, rest + [m], latch, header) && latch < |cfg.succs|
    requires forall x: nat :: x in body' <==> x in body || (Edge(cfg.succs, x, m) && x != header)
    requires forall x: nat :: x in stack' <==> x in rest || (x in body' && x !in body)
    ensures Growing(cfg, body', stack', latch, header)
  {
    assert m in rest + [m];
    forall x | x in body' && x !in body
      ensures ReachesAvoiding(cfg.succs, x, latch, header) && x < |cfg.succs|
    {
      if m == latch {
        assert AvoidingPath(cfg.succs, [latch], latch, latch, header);
      }
      StepAvoiding(cfg.succs, x, m, latch, header);
    }
    forall x | x in body' && (x == header ==> x == latch)
      ensures x in stack' || Closed(cfg, body', header, x)
    {
      if x in body && x != m && x !in rest {
        assert x !in rest + [m];
        assert Closed(cfg, body, header, x);
      }
    }
  }

  method LoopBody(cfg: Cfg, latch: nat, header: nat) returns (body: set<nat>)
    requires WellFormed(cfg) && latch < |cfg.succs| && header < |cfg.succs|
    ensures IsBody(cfg.succs, body, latch, header) && forall m :: m in body ==> m < |cfg.succs|
  {
    body := {header, latch};
    var stack: seq<nat> := [latch];
    assert AvoidingPath(cfg.succs, [latch], latch, latch, header);
    while stack != []
      invariant Growing(cfg, body, stack, latch, header)
      decreases Below(|cfg.succs|) - body, |stack|
    {
      var m := stack[|stack| - 1];
      var rest := stack[..|stack| - 1];
      assert stack == rest + [m] && m in stack;
      var body', stack' := AddPreds(cfg, header, m, body, rest);
      GrowingStep(cfg, latch, header, m, body, rest, body', stack');
      if body' != body {
        var x :| x in body' && x !in body;
        assert x in Below(|cfg.succs|) - body;
      }
      body, stack := body', stack';
    }
    GrowingDone(cfg, body, latch, header);
  }

  method LoopExits(succs: seq<seq<nat>>, body: set<nat>) returns (exits: seq<nat>)
    requires forall b :: b in body ==> b < |succs|
    ensures IsExits(succs, body, exits)
  {
    exits := [];
    var todo := body;
    while todo != {}
      invariant todo <= body
      invariant forall t: nat :: t in exits <==> t !in body && exists b :: b in body - todo && b < |succs| && t in succs[b]
      decreases todo
    {
      var b :| b in todo;
      exits := AddExits(succs[b], body, exits);
      var todo' := todo - {b};
      assert body - todo' == (body - todo) + {b};
      todo := todo';
    }
    assert body - todo == body;
  }

  method AddExits(outs: seq<nat>, body: set<nat>, exits0: seq<nat>) returns (exits: seq<nat>)
    ensures forall t: nat :: t in exits <==> t in exits0 || (t in outs && t !in body)
  {
    exits := exits0;
    for k := 0 to |outs|
      invariant forall t: nat :: t in exits <==> t in exits0 || (t in outs[..k] && t !in body)
    {
      TakeNext(outs, k);
      if outs[k] !in body {
        exits := exits + [outs[k]];
      }
    }
    assert outs[..|outs|] == outs;
  }

  // ---------------------------------------------------------------- all loops

  /** The back edges found come in lexicographic order of latch and header. */
  ghost predicate Before(a: Loop, b: Loop)
    requires |a.latches| > 0 && |b.latches| > 0
  {
    a.latches[0] < b.latches[0] || (a.latches[0] == b.latches[0] && a.header < b.header)
  }

  ghost predicate Found(loops: seq<Loop>, latch: nat, header: nat)
  {
    exists i :: 0 <= i < |loops| && loops[i].header == header && loops[i].latches == [latch]
  }

  /** Exactly the back edges whose pair (latch, header) precedes (n, d) have been turned into loops. */
  ghost predicate LoopsUpTo(g: Graph, loops: seq<Loop>, n: nat, outs: seq<nat>)
  {
    && (forall i :: 0 <= i < |loops| ==> IsLoop(g, loops[i]))
    && (forall i, j :: 0 <= i < j < |loops| ==> |loops[i].latches| > 0 && |loops[j].latches| > 0 && Before(loops[i], loops[j]))
    && (forall i :: 0 <= i < |loops| ==>
          && |loops[i].latches| > 0
          && (loops[i].latches[0] < n || (loops[i].latches[0] == n && loops[i].header in outs)))
    && (forall latch: nat, header: nat ::
          BackEdge(g, latch, header) && (latch < n || (latch == n && header in outs)) ==> Found(loops, latch, header))
  }

  lemma FoundGrows(loops: seq<Loop>, l: Loop)
    ensures forall latch: nat, header: nat :: Found(loops, latch, header) ==> Found(loops + [l], latch, header)
    ensures |l.latches| == 1 ==> Found(loops + [l], l.latches[0], l.header)
  {
    forall latch: nat, header: nat | Found(loops, latch, header) ensures Found(loops + [l], latch, header) {
      var i :| 0 <= i < |loops| && loops[i].header == header && loops[i].latches == [latch];
      assert (loops + [l])[i] == loops[i];
    }
    if |l.latches| == 1 {
      assert (loops + [l])[|loops|].latches == [l.latches[0]];
    }
  }

  lemma AddLoop(g: Graph, loops: seq<Loop>, n: nat, outs: seq<nat>, l: Loop)
    requires LoopsUpTo(g, loops, n, outs) && IsLoop(g, l) && l.latches[0] == n
    requires forall t :: t in outs ==> t < l.header
    ensures LoopsUpTo(g, loops + [l], n, outs + [l.header])
  {
    FoundGrows(loops, l);
  }

  lemma SkipEdge(g: Graph, loops: seq<Loop>, n: nat, outs: seq<nat>, d: nat)
    requires LoopsUpTo(g, loops, n, outs) && !BackEdge(g, n, d)
    ensures LoopsUpTo(g, loops, n, outs + [d])
  {
  }

  method LoopsOfBlock(cfg: Cfg, dom: set<nat>, n: nat, loops0: seq<Loop>) returns (loops: seq<Loop>)
    requires WellFormed(cfg) && n < |cfg.succs| && Ascending(cfg.succs[n])
    requires IsDomSet(cfg.succs, n, dom)
    requires LoopsUpTo(cfg.succs, loops0, n, [])
    ensures LoopsUpTo(cfg.succs, loops, n, cfg.succs[n])
  {
    var outs := cfg.succs[n];
    loops := loops0;
    for k := 0 to |outs|
      invariant LoopsUpTo(cfg.succs, loops, n, outs[..k])
    {
      var d := outs[k];
      TakeNext(outs, k);
      if d < |cfg.succs| && d in dom {
        assert BackEdge(cfg.succs, n, d);
        var body := LoopBody(cfg, n, d);
        var exits := LoopExits(cfg.succs, body);
        var l := Loop(d, body, [n], exits);
        assert IsLoop(cfg.succs, l);
        AddLoop(cfg.succs, loops, n, outs[..k], l);
        loops := loops + [l];
      } else {
        SkipEdge(cfg.succs, loops, n, outs[..k], d);
      }
    }
    assert outs[..|outs|] == outs;
  }

  /** One loop for each back edge of the function, in order, and no other. */
  method FindLoops(func: MirFunction) returns (loops: seq<Loop>)
    ensures forall i :: 0 <= i < |loops| ==> IsLoop(FlowGraph(func), loops[i])
    ensures forall i, j :: 0 <= i < j < |loops| ==> |loops[i].latches| > 0 && |loops[j].latches| > 0 && Before(loops[i], loops[j])
    ensures forall latch: nat, header: nat :: BackEdge(FlowGraph(func), latch, header) ==> Found(loops, latch, header)
  {
    if |func.blocks| == 0 {
      return [];
    }
    var cfg := BuildCfg(func);
    var domSets := DominanceSets(cfg);
    loops := [];
    for n := 0 to |cfg.succs|
      invariant LoopsUpTo(cfg.succs, loops, n, [])
    {
      loops := LoopsOfBlock(cfg, domSets[n], n, loops);
      BlockDone(cfg.succs, loops, n);
    }
    SameLoops(FlowGraph(func), cfg.succs);
  }

  lemma SameLoops(g: Graph, h: Graph)
    requires |g| == |h| && forall u: nat, t: nat :: u < |g| ==> (t in g[u] <==> t in h[u])
    ensures forall l :: IsLoop(g, l) <==> IsLoop(h, l)
    ensures forall latch: nat, header: nat :: BackEdge(g, latch, header) <==> BackEdge(h, latch, header)
  {
    assert forall u: nat, v: nat :: Edge(g, u, v) <==> Edge(h, u, v);
    SameEdges(g, h);
    forall x: nat, latch: nat, header: nat ensures ReachesAvoiding(g, x, latch, header) <==> ReachesAvoiding(h, x, latch, header) {
      if p :| AvoidingPath(g, p, x, latch, header) {
        assert AvoidingPath(h, p, x, latch, header);
      }
      if p :| AvoidingPath(h, p, x, latch, header) {
        assert AvoidingPath(g, p, x, latch, header);
      }
    }
  }

  lemma BlockDone(g: Graph, loops: seq<Loop>, n: nat)
    requires n < |g| && LoopsUpTo(g, loops, n, g[n])
    ensures LoopsUpTo(g, loops, n + 1, [])
  {
    forall latch: nat, header: nat | BackEdge(g, latch, header) && latch < n + 1
      ensures Found(loops, latch, header)
    {
      assert latch == n ==> header in g[n];
    }
  }

  // ---------------------------------------------------------------- what a loop body means

  lemma {:induction false} FirstVisit(g: Graph, p: seq<nat>, u: nat, v: nat)
    requires PathFromTo(g, p, u, v)
    ensures ReachesAvoiding(g, u, v, v)
    decreases |p|
  {
    if i :| 0 <= i < |p| - 1 && p[i] == v {
      PrefixPath(g, p, u, v, i);
      FirstVisit(g, p[..i + 1], u, v);
    } else {
      assert AvoidingPath(g, p, u, v, v);
    }
  }

  lemma BodyReachesLatch(g: Graph, l: Loop, x: nat)
    requires IsLoop(g, l) && x in l.body
    ensures x != l.header && Reaches(g, 0, x) ==> Reaches(g, 0, l.latches[0])
  {
    if x != l.header && Reaches(g, 0, x) {
      var p :| AvoidingPath(g, p, x, l.latches[0], l.header);
      var q :| PathFromTo(g, q, 0, x);
      ConcatPath(g, q, p, 0, x, l.latches[0]);
    }
  }

  lemma NaturalLoopDominated(g: Graph, l: Loop, x: nat)
    requires IsLoop(g, l) && l.latches[0] != l.header && x in l.body && Reaches(g, 0, x)
    ensures Dominates(g, l.header, x)
  {
    var latch := l.latches[0];
    forall q | PathFromTo(g, q, 0, x) ensures l.header in q {
      if x == l.header {
        assert q[|q| - 1] == x;
      } else {
        BodyReachesLatch(g, l, x);
        var p :| AvoidingPath(g, p, x, latch, l.header);
        ConcatPath(g, q, p, 0, x, latch);
        assert l.header in q + p[1..];
        assert l.header !in p by {
          assert p[|p| - 1] == latch;
        }
      }
    }
  }

  /**
   The header dominates every reachable block of the body exactly when the
   back edge is not a self-loop, or the header is the entry or unreachable:
   the body computed for any other self-loop runs back to the entry.
   */
  lemma HeaderDominatesBody(g: Graph, l: Loop)
    requires IsLoop(g, l)
    ensures (forall x: nat :: x in l.body && Reaches(g, 0, x) ==> Dominates(g, l.header, x))
            <==> (l.latches[0] != l.header || l.header == 0 || !Reaches(g, 0, l.header))
  {
    var header := l.header;
    if l.latches[0] == header && header != 0 && Reaches(g, 0, header) {
      var p :| PathFromTo(g, p, 0, header);
      FirstVisit(g, p, 0, header);
      assert 0 in l.body;
      ReachesSelf(g, 0);
      assert PathFromTo(g, [0], 0, 0) && header !in [0];
      assert !Dominates(g, header, 0);
    } else {
      forall x: nat | x in l.body && Reaches(g, 0, x) ensures Dominates(g, header, x) {
        if l.latches[0] != header {
          NaturalLoopDominated(g, l, x);
        } else if header == 0 {
          forall q | PathFromTo(g, q, 0, x) ensures header in q {
            assert q[0] == 0;
          }
        } else {
          BodyReachesLatch(g, l, x);
        }
      }
    }
  }

  /** An edge into the body from outside enters at the header, and none enters a self-loop's body. */
  lemma SingleEntry(g: Graph, l: Loop, u: nat, v: nat)
    requires IsLoop(g, l) && Edge(g, u, v) && u !in l.body && v in l.body
    ensures v == l.header && l.latches[0] != l.header
  {
    var latch := l.latches[0];
    if v != l.header {
      StepAvoiding(g, u, v, latch, l.header);
    } else if latch == l.header {
      assert AvoidingPath(g, [latch], latch, latch, latch);
      StepAvoiding(g, u, v, latch, l.header);
    }
  }

  /** A reachable block of a natural loop lies on a cycle through the header. */
  lemma BodyOnCycle(g: Graph, l: Loop, x: nat)
    requires IsLoop(g, l) && l.latches[0] != l.header && x in l.body && Reaches(g, 0, x)
    ensures Reaches(g, l.header, x) && Reaches(g, x, l.header)
  {
    var latch := l.latches[0];
    NaturalLoopDominated(g, l, x);
    var q :| PathFromTo(g, q, 0, x);
    var i :| 0 <= i < |q| && q[i] == l.header;
    PathInGraph(g, q, i);
    assert PathFromTo(g, q[i..], l.header, x);
    if x == l.header {
      ReachesSelf(g, x);
    } else {
      var p :| AvoidingPath(g, p, x, latch, l.header);
      ReachesStep(g, x, latch, l.header);
    }
  }
}

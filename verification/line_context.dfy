/** The source line a block is entered with: a forward dataflow with a fixed number of passes. */
module LineContext {
  import opened Mir
  import opened Options
  import opened Graphs
  import opened Postorder

  type LineKey = int

  function PackLine(span: Span): LineKey
  {
    ((span.fileId << 32) | span.line) as int
  }

  /** File ids below 31 bits and lines below 32 can be read back from their word. */
  lemma KeyParts(fileId: bv64, line: bv64)
    requires fileId < 0x8000_0000 && line < 0x1_0000_0000
    ensures var key := (fileId << 32) | line; key >> 32 == fileId && key & 0xFFFF_FFFF == line
  {
  }

  /** Statements with a default span were synthesized and have no source line. */
  predicate HasSpan(stmt: Statement)
  {
    stmt.span != DEFAULT_SPAN
  }

  /** The line of the last real statement. */
  function TailLine(statements: seq<Statement>): (r: Option<LineKey>)
    ensures r.None? <==> forall i :: 0 <= i < |statements| ==> !HasSpan(statements[i])
  {
    if statements == [] then None
    else
      var last := statements[|statements| - 1];
      if HasSpan(last) then Some(PackLine(last.span)) else TailLine(statements[..|statements| - 1])
  }

  datatype RunCtx = Unknown | Line(key: LineKey) | Conflict

  function Meet(a: RunCtx, b: RunCtx): RunCtx
  {
    match (a, b)
    case (Unknown, x) => x
    case (x, Unknown) => x
    case (Conflict, _) => Conflict
    case (_, Conflict) => Conflict
    case (Line(x), Line(y)) => if x == y then Line(x) else Conflict
  }

  ghost predicate Leq(a: RunCtx, b: RunCtx)
  {
    a == Unknown || a == b || b == Conflict
  }

  /** The context tells of line `l`, alone or among others. */
  ghost predicate Tells(c: RunCtx, l: LineKey)
  {
    Leq(Line(l), c)
  }

  function Tail(func: MirFunction, b: nat): Option<LineKey>
    requires b < |func.blocks|
  {
    TailLine(func.blocks[b].statements)
  }

  /** What block `b` passes on, given the context it is entered with. */
  function Out(func: MirFunction, b: nat, entered: RunCtx): RunCtx
    requires b < |func.blocks|
  {
    match Tail(func, b)
    case Some(l) => Line(l)
    case None => entered
  }

  // ---------------------------------------------------------------- the exact answer

  /** A path to `b` from a block whose last real line is `l`, through blocks without real statements. */
  ghost predicate TailPath(func: MirFunction, p: seq<nat>, b: nat, l: LineKey)
  {
    && |p| >= 2 && PathFromTo(FlowGraph(func), p, p[0], b)
    && (forall i :: 0 <= i < |p| ==> p[i] < |func.blocks|)
    && Tail(func, p[0]) == Some(l)
    && forall i :: 0 < i < |p| - 1 ==> Tail(func, p[i]) == None
  }

  ghost predicate Enters(func: MirFunction, b: nat, l: LineKey)
  {
    exists p :: TailPath(func, p, b, l)
  }

  /** `c` is the meet of all lines that enter `b`. */
  ghost predicate IsExact(func: MirFunction, b: nat, c: RunCtx)
  {
    match c
    case Unknown => forall l :: !Enters(func, b, l)
    case Line(l) => Enters(func, b, l) && forall m :: Enters(func, b, m) ==> m == l
    case Conflict => exists l, m :: l != m && Enters(func, b, l) && Enters(func, b, m)
  }

  /** `c` claims no more than paths justify. */
  ghost predicate Justified(func: MirFunction, b: nat, c: RunCtx)
  {
    match c
    case Unknown => true
    case Line(l) => Enters(func, b, l)
    case Conflict => exists l, m :: l != m && Enters(func, b, l) && Enters(func, b, m)
  }

  lemma ExactFromBoth(func: MirFunction, b: nat, c: RunCtx)
    requires Justified(func, b, c) && forall l :: Enters(func, b, l) ==> Tells(c, l)
    ensures IsExact(func, b, c)
  {
  }

  // ---------------------------------------------------------------- predecessors

  /** `preds[s]` lists, without repetition, the blocks that jump to `s`. */
  ghost predicate PredLists(func: MirFunction, preds: seq<seq<nat>>, upTo: nat)
  {
    && |preds| == |func.blocks|
    && (forall s: nat, u: nat {:trigger u in preds[s]} :: s < |preds| ==>
          (u in preds[s] <==> u < upTo && Edge(FlowGraph(func), u, s)))
  }

  method Predecessors(func: MirFunction) returns (preds: seq<seq<nat>>)
    ensures PredLists(func, preds, |func.blocks|)
  {
    var n := |func.blocks|;
    preds := seq(n, _ => []);
    for b := 0 to n
      invariant PredLists(func, preds, b)
    {
      preds := AddEdges(func, preds, b);
    }
  }

  method AddEdges(func: MirFunction, preds0: seq<seq<nat>>, b: nat) returns (preds: seq<seq<nat>>)
    requires b < |func.blocks| && PredLists(func, preds0, b)
    ensures PredLists(func, preds, b + 1)
  {
    var succs := Targets(func.blocks[b]);
    preds := preds0;
    for k := 0 to |succs|
      invariant |preds| == |preds0|
      invariant forall s: nat, u: nat {:trigger u in preds[s]} :: s < |preds| ==>
        (u in preds[s] <==> u in preds0[s] || (u == b && s in succs[..k]))
    {
      var s := succs[k];
      assert succs[..k + 1] == succs[..k] + [s];
      if s < |preds| && b !in preds[s] {
        preds := preds[s := preds[s] + [b]];
      }
    }
    assert succs[..|succs|] == succs;
    assert FlowGraph(func)[b] == succs;
  }

  // ---------------------------------------------------------------- one recomputation

  /** Meet over what the listed predecessors pass on. */
  ghost function MeetOver(func: MirFunction, ins: seq<RunCtx>, preds: seq<nat>): RunCtx
    requires |ins| == |func.blocks| && forall i :: 0 <= i < |preds| ==> preds[i] < |func.blocks|
  {
    if preds == [] then Unknown
    else Meet(MeetOver(func, ins, preds[..|preds| - 1]),
              Out(func, preds[|preds| - 1], ins[preds[|preds| - 1]]))
  }

  lemma {:induction false} MeetOverGrows(func: MirFunction, ins: seq<RunCtx>, ins': seq<RunCtx>, preds: seq<nat>)
    requires |ins| == |ins'| == |func.blocks| && forall i :: 0 <= i < |preds| ==> preds[i] < |func.blocks|
    requires forall b :: 0 <= b < |ins| ==> Leq(ins[b], ins'[b])
    ensures Leq(MeetOver(func, ins, preds), MeetOver(func, ins', preds))
    decreases |preds|
  {
    if preds != [] {
      MeetOverGrows(func, ins, ins', preds[..|preds| - 1]);
    }
  }

  lemma {:induction false} MeetOverTells(func: MirFunction, ins: seq<RunCtx>, preds: seq<nat>, p: nat, l: LineKey)
    requires |ins| == |func.blocks| && forall i :: 0 <= i < |preds| ==> preds[i] < |func.blocks|
    requires p in preds && p < |ins| && Tells(Out(func, p, ins[p]), l)
    ensures Tells(MeetOver(func, ins, preds), l)
    decreases |preds|
  {
    if p in preds[..|preds| - 1] {
      MeetOverTells(func, ins, preds[..|preds| - 1], p, l);
    }
  }

  lemma ThroughSpanless(func: MirFunction, path: seq<nat>, p: nat, b: nat, l: LineKey)
    requires TailPath(func, path, p, l) && Edge(FlowGraph(func), p, b) && Tail(func, p) == None
    ensures TailPath(func, path + [b], b, l)
  {
    ExtendPath(FlowGraph(func), path, path[0], p, b);
    var r := path + [b];
    forall i | 0 < i < |r| - 1 ensures Tail(func, r[i]) == None {
      assert r[i] == path[i];
    }
  }

  lemma OutJustified(func: MirFunction, p: nat, b: nat, c: RunCtx)
    requires Edge(FlowGraph(func), p, b) && Justified(func, p, c)
    ensures Justified(func, b, Out(func, p, c))
  {
    match Tail(func, p)
    case Some(l) =>
      assert TailPath(func, [p, b], b, l);
    case None =>
      forall l | Enters(func, p, l) ensures Enters(func, b, l) {
        var path :| TailPath(func, path, p, l);
        ThroughSpanless(func, path, p, b, l);
      }
  }

  lemma {:induction false} MeetOverJustified(func: MirFunction, ins: seq<RunCtx>, preds: seq<nat>, b: nat)
    requires |ins| == |func.blocks| && forall i :: 0 <= i < |preds| ==> preds[i] < |func.blocks|
    requires forall p :: p in preds ==> Edge(FlowGraph(func), p, b) && Justified(func, p, ins[p])
    ensures Justified(func, b, MeetOver(func, ins, preds))
    decreases |preds|
  {
    if preds != [] {
      var p := preds[|preds| - 1];
      assert p in preds;
      MeetOverJustified(func, ins, preds[..|preds| - 1], b);
      OutJustified(func, p, b, ins[p]);
    }
  }

  // ---------------------------------------------------------------- the passes

  /** Contexts are justified, and recomputing any of them would not lower it. */
  ghost predicate Rising(func: MirFunction, preds: seq<seq<nat>>, ins: seq<RunCtx>)
  {
    && PredLists(func, preds, |func.blocks|) && PredsInside(func, preds) && |ins| == |func.blocks|
    && (forall b: nat {:trigger Justified(func, b, ins[b])} :: b < |ins| ==> Justified(func, b, ins[b]))
    && (forall b: nat {:trigger MeetOver(func, ins, preds[b])} :: b < |ins| ==> Leq(ins[b], MeetOver(func, ins, preds[b])))
  }

  ghost predicate PredsInside(func: MirFunction, preds: seq<seq<nat>>)
  {
    |preds| == |func.blocks| && forall b, i :: 0 <= b < |preds| && 0 <= i < |preds[b]| ==> preds[b][i] < |func.blocks|
  }

  /** Block `b` has been told every line that reaches it along at most `k` edges. */
  ghost predicate Told(func: MirFunction, ins: seq<RunCtx>, b: nat, k: nat)
    requires b < |ins|
  {
    forall p, l :: TailPath(func, p, b, l) && |p| <= k + 1 ==> Tells(ins[b], l)
  }

  ghost predicate AllTold(func: MirFunction, ins: seq<RunCtx>, k: nat)
  {
    forall b: nat :: b < |ins| ==> Told(func, ins, b, k)
  }

  /** Recomputing block `b` after `k` full passes. */
  lemma Recompute(func: MirFunction, preds: seq<seq<nat>>, ins: seq<RunCtx>, b: nat)
    requires Rising(func, preds, ins) && b < |ins|
    ensures Rising(func, preds, ins[b := MeetOver(func, ins, preds[b])])
    ensures forall x :: 0 <= x < |ins| ==> Leq(ins[x], ins[b := MeetOver(func, ins, preds[b])][x])
  {
    var c := MeetOver(func, ins, preds[b]);
    var ins' := ins[b := c];
    assert Leq(ins[b], c);
    forall x: nat | x < |ins| ensures Leq(ins'[x], MeetOver(func, ins', preds[x])) {
      MeetOverGrows(func, ins, ins', preds[x]);
      assert Leq(ins[x], MeetOver(func, ins, preds[x]));
    }
    forall p | p in preds[b] ensures Edge(FlowGraph(func), p, b) && Justified(func, p, ins[p]) {
    }
    MeetOverJustified(func, ins, preds[b], b);
    forall x: nat | x < |ins| ensures Justified(func, x, ins'[x]) {
      assert Justified(func, x, ins[x]);
    }
  }

  lemma ToldMore(func: MirFunction, preds: seq<seq<nat>>, ins: seq<RunCtx>, b: nat, k: nat)
    requires Rising(func, preds, ins) && b < |ins| && AllTold(func, ins, k)
    ensures Told(func, ins[b := MeetOver(func, ins, preds[b])], b, k + 1)
  {
    forall p, l | TailPath(func, p, b, l) && |p| <= k + 2 ensures Tells(MeetOver(func, ins, preds[b]), l) {
      LastEdge(func, preds, ins, b, k, p, l);
    }
  }

  lemma LastEdge(func: MirFunction, preds: seq<seq<nat>>, ins: seq<RunCtx>, b: nat, k: nat, p: seq<nat>, l: LineKey)
    requires Rising(func, preds, ins) && b < |ins|
    requires TailPath(func, p, b, l) && |p| <= k + 2
    requires |p| > 2 ==> Told(func, ins, p[|p| - 2], k)
    ensures Tells(MeetOver(func, ins, preds[b]), l)
  {
    var u := p[|p| - 2];
    assert Edge(FlowGraph(func), p[|p| - 2], p[|p| - 1]);
    if |p| > 2 {
      PrefixPath(FlowGraph(func), p, p[0], b, |p| - 2);
      assert TailPath(func, p[..|p| - 1], u, l);
    }
    MeetOverTells(func, ins, preds[b], u, l);
  }

  lemma ToldStays(func: MirFunction, ins: seq<RunCtx>, ins': seq<RunCtx>, b: nat, k: nat)
    requires b < |ins| == |ins'| && Told(func, ins, b, k) && Leq(ins[b], ins'[b])
    ensures Told(func, ins', b, k)
  {
  }

  lemma ToldLess(func: MirFunction, ins: seq<RunCtx>, k: nat, m: nat)
    requires AllTold(func, ins, k) && m <= k
    ensures AllTold(func, ins, m)
  {
    forall b: nat | b < |ins| ensures Told(func, ins, b, m) {
      assert Told(func, ins, b, k);
    }
  }

  // ---------------------------------------------------------------- short paths

  lemma {:induction false} SubsetSize(s: set<nat>, t: set<nat>)
    requires s <= t
    ensures |s| <= |t|
    decreases s
  {
    if s != {} {
      var x :| x in s;
      SubsetSize(s - {x}, t - {x});
    }
  }

  ghost function Elements(s: seq<nat>): set<nat>
  {
    set x | x in s
  }

  lemma {:induction false} DistinctSize(s: seq<nat>)
    requires forall i, j :: 0 <= i < j < |s| ==> s[i] != s[j]
    ensures |Elements(s)| == |s|
    decreases |s|
  {
    if s != [] {
      var init, last := s[..|s| - 1], s[|s| - 1];
      DistinctSize(init);
      assert Elements(s) == Elements(init) + {last};
    }
  }

  /** More than `n` numbers below `n` repeat one. */
  lemma Pigeonhole(s: seq<nat>, n: nat) returns (i: nat, j: nat)
    requires |s| > n && forall k :: 0 <= k < |s| ==> s[k] < n
    ensures i < j < |s| && s[i] == s[j]
  {
    if a, b :| 0 <= a < b < |s| && s[a] == s[b] {
      return a, b;
    }
    DistinctSize(s);
    SubsetSize(Elements(s), Below(n));
    assert false;
  }

  /** A line that enters a block does so along at most as many edges as there are blocks. */
  lemma {:induction false} ShortTailPath(func: MirFunction, p: seq<nat>, b: nat, l: LineKey) returns (q: seq<nat>)
    requires TailPath(func, p, b, l)
    ensures TailPath(func, q, b, l) && |q| <= |func.blocks| + 1
    decreases |p|
  {
    if |p| <= |func.blocks| + 1 {
      q := p;
    } else {
      var i, j := Pigeonhole(p[..|p| - 1], |func.blocks|);
      var r := p[..i] + p[j..];
      CutPath(func, p, b, l, i, j);
      q := ShortTailPath(func, r, b, l);
    }
  }

  lemma CutPath(func: MirFunction, p: seq<nat>, b: nat, l: LineKey, i: nat, j: nat)
    requires TailPath(func, p, b, l) && i < j < |p| - 1 && p[i] == p[j]
    ensures TailPath(func, p[..i] + p[j..], b, l)
  {
    assert i > 0;
    var g := FlowGraph(func);
    PrefixPath(g, p, p[0], b, i);
    SuffixPath(g, p, p[0], b, j);
    ConcatPath(g, p[..i + 1], p[j..], p[0], p[i], b);
    var r := p[..i] + p[j..];
    assert p[..i + 1] + p[j..][1..] == r;
    hide FlowGraph, Tail, PathFromTo;
    forall k | 0 < k < |r| - 1 ensures Tail(func, r[k]) == None {
      assert r[k] == if k < i then p[k] else p[k + j - i];
    }
  }

  // ---------------------------------------------------------------- the computation

  /** Every context equals its recomputation. */
  ghost predicate Fixpoint(func: MirFunction, preds: seq<seq<nat>>, ins: seq<RunCtx>)
    requires PredsInside(func, preds) && |ins| == |func.blocks|
  {
    forall b: nat {:trigger MeetOver(func, ins, preds[b])} :: b < |ins| ==> ins[b] == MeetOver(func, ins, preds[b])
  }

  lemma {:induction false} FixpointTold(func: MirFunction, preds: seq<seq<nat>>, ins: seq<RunCtx>, k: nat)
    requires Rising(func, preds, ins) && Fixpoint(func, preds, ins)
    ensures AllTold(func, ins, k)
  {
    if k > 0 {
      FixpointTold(func, preds, ins, k - 1);
    }
    forall b: nat | b < |ins| ensures Told(func, ins, b, k) {
      if k > 0 {
        ToldMore(func, preds, ins, b, k - 1);
        assert ins[b] == MeetOver(func, ins, preds[b]);
        assert ins[b := ins[b]] == ins;
      }
    }
  }

  method MeetPredecessors(func: MirFunction, ins: seq<RunCtx>, preds: seq<nat>) returns (c: RunCtx)
    requires |ins| == |func.blocks| && forall i :: 0 <= i < |preds| ==> preds[i] < |func.blocks|
    ensures c == MeetOver(func, ins, preds)
  {
    c := Unknown;
    for k := 0 to |preds|
      invariant c == MeetOver(func, ins, preds[..k])
    {
      assert preds[..k + 1][..k] == preds[..k];
      c := Meet(c, Out(func, preds[k], ins[preds[k]]));
    }
    assert preds[..|preds|] == preds;
  }

  /** One pass over all blocks, in index order and in place. */
  method Pass(func: MirFunction, preds: seq<seq<nat>>, ins0: seq<RunCtx>, ghost k: nat) returns (ins: seq<RunCtx>, changed: bool)
    requires Rising(func, preds, ins0) && AllTold(func, ins0, k)
    ensures Rising(func, preds, ins) && AllTold(func, ins, k + 1)
    ensures !changed ==> ins == ins0 && Fixpoint(func, preds, ins)
  {
    ins, changed := ins0, false;
    ghost var next := k + 1;
    for b := 0 to |func.blocks|
      invariant Rising(func, preds, ins) && AllTold(func, ins, k)
      invariant forall x: nat :: x < b ==> Told(func, ins, x, next)
      invariant !changed ==> ins == ins0 && forall x: nat :: x < b ==> ins[x] == MeetOver(func, ins, preds[x])
    {
      var c := MeetPredecessors(func, ins, preds[b]);
      ghost var before := ins;
      Recompute(func, preds, ins, b);
      ToldMore(func, preds, ins, b, k);
      if c != ins[b] {
        ins := ins[b := c];
        changed := true;
      } else {
        assert ins[b := c] == ins;
      }
      forall x: nat | x < |ins| ensures Told(func, ins, x, k) {
        ToldStays(func, before, ins, x, k);
      }
      forall x: nat | x < b ensures Told(func, ins, x, next) {
        ToldStays(func, before, ins, x, next);
      }
    }
  }

  lemma AllToldIsExact(func: MirFunction, preds: seq<seq<nat>>, ins: seq<RunCtx>)
    requires Rising(func, preds, ins) && AllTold(func, ins, |func.blocks|)
    ensures forall b: nat :: b < |ins| ==> IsExact(func, b, ins[b])
  {
    forall b: nat | b < |ins| ensures IsExact(func, b, ins[b]) {
      forall l | Enters(func, b, l) ensures Tells(ins[b], l) {
        var p :| TailPath(func, p, b, l);
        var q := ShortTailPath(func, p, b, l);
        assert Told(func, ins, b, |func.blocks|);
      }
      ExactFromBoth(func, b, ins[b]);
    }
  }

  /** The line context of every block is the exact meet of the lines that enter it: the fixed
      number of passes is enough. */
  method ComputeContexts(func: MirFunction) returns (ins: seq<RunCtx>)
    ensures |ins| == |func.blocks|
    ensures forall b: nat :: b < |ins| ==> IsExact(func, b, ins[b])
  {
    var n := |func.blocks|;
    var preds := Predecessors(func);
    forall b, i | 0 <= b < |preds| && 0 <= i < |preds[b]| ensures preds[b][i] < n {
      assert preds[b][i] in preds[b];
    }
    ins := seq(n, _ => Unknown);
    var pass := 0;
    var changed := true;
    while pass < n + 2 && changed
      invariant 0 <= pass <= n + 2
      invariant Rising(func, preds, ins) && AllTold(func, ins, pass)
      invariant !changed ==> Fixpoint(func, preds, ins)
    {
      ins, changed := Pass(func, preds, ins, pass);
      pass := pass + 1;
    }
    if !changed {
      FixpointTold(func, preds, ins, n);
    } else {
      ToldLess(func, ins, pass, n);
    }
    AllToldIsExact(func, preds, ins);
  }
}

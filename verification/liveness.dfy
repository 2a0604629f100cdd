/** Backward liveness over the points of a function. */
module Liveness {
  import opened Mir
  import opened Options
  import opened Flow

  type LiveSets = seq<seq<set<nat>>>

  // ---------------------------------------------------------------- uses and kills

  /** The locals that a list of operands reads. */
  ghost function Locals(ops: seq<Operand>): set<nat>
  {
    set o | o in ops && !o.Constant? :: o.local
  }

  ghost function RvalueUses(rv: Rvalue): set<nat>
  {
    if rv.Ref? || rv.MutRef? then {rv.target} else Locals(Operands(rv))
  }

  ghost function StatementUses(kind: StatementKind): set<nat>
  {
    match kind
    case Assign(_, rv) => RvalueUses(rv)
    case SetAttr(obj, _, val) => Locals([obj, val])
    case SetIndex(obj, idx, val, _) => Locals([obj, idx, val])
    case VectorStore(obj, idx, val) => Locals([obj, idx, val])
    case PtrStore(ptr, val) => Locals([ptr, val])
    case GenCheck(checked, generation) => {checked, generation}
    case _ => {}
  }

  ghost function StatementKills(kind: StatementKind): set<nat>
  {
    match kind
    case Assign(dest, _) => {dest}
    case Drop(local) => {local}
    case StorageDead(local) => {local}
    case _ => {}
  }

  ghost function TerminatorUses(term: Option<Terminator>): set<nat>
  {
    if term.Some? && term.value.kind.SwitchInt? then Locals([term.value.kind.discr]) else {}
  }

  ghost function UsesAt(func: MirFunction, q: Point): set<nat>
    requires IsPoint(func, q)
  {
    var bb := func.blocks[q.block];
    if AtTerminator(func, q) then TerminatorUses(bb.terminator) else StatementUses(bb.statements[q.idx].kind)
  }

  ghost function KillsAt(func: MirFunction, q: Point): set<nat>
    requires IsPoint(func, q)
  {
    if AtTerminator(func, q) then {} else StatementKills(func.blocks[q.block].statements[q.idx].kind)
  }

  method UseOp(live0: set<nat>, op: Operand) returns (live: set<nat>)
    ensures live == live0 + Locals([op])
  {
    match op
    case Copy(l) => live := live0 + {l};
    case Move(l) => live := live0 + {l};
    case Constant(_) => live := live0;
  }

  method UseOps(live0: set<nat>, ops: seq<Operand>) returns (live: set<nat>)
    ensures live == live0 + Locals(ops)
  {
    live := live0;
    for k := 0 to |ops|
      invariant live == live0 + Locals(ops[..k])
    {
      live := UseOp(live, ops[k]);
      assert ops[..k + 1] == ops[..k] + [ops[k]];
    }
    assert ops[..|ops|] == ops;
  }

  method UseRvalue(live0: set<nat>, rv: Rvalue) returns (live: set<nat>)
    ensures live == live0 + RvalueUses(rv)
  {
    match rv
    case Ref(l) => live := live0 + {l};
    case MutRef(l) => live := live0 + {l};
    case _ => live := UseOps(live0, Operands(rv));
  }

  method UpdateStatement(live0: set<nat>, stmt: Statement) returns (live: set<nat>)
    ensures live == (live0 - StatementKills(stmt.kind)) + StatementUses(stmt.kind)
  {
    match stmt.kind
    case Assign(local, rv) => live := UseRvalue(live0 - {local}, rv);
    case SetAttr(obj, _, val) => live := UseOps(live0, [obj, val]);
    case SetIndex(obj, idx, val, _) => live := UseOps(live0, [obj, idx, val]);
    case Drop(local) => live := live0 - {local};
    case StorageDead(local) => live := live0 - {local};
    case StorageLive(_) => live := live0;
    case VectorStore(obj, idx, val) => live := UseOps(live0, [obj, idx, val]);
    case PtrStore(ptr, val) => live := UseOps(live0, [ptr, val]);
    case GenCheck(checked, generation) => live := live0 + {checked} + {generation};
  }

  method UpdateTerminator(live0: set<nat>, term: Option<Terminator>) returns (live: set<nat>)
    ensures live == live0 + TerminatorUses(term)
  {
    live := live0;
    if term.Some? && term.value.kind.SwitchInt? {
      live := UseOp(live, term.value.kind.discr);
    }
  }

  // ---------------------------------------------------------------- what liveness means

  /** A run of points that ends at a use of `l` and passes no kill of `l` before. */
  ghost predicate UsePath(func: MirFunction, path: seq<Point>, l: nat)
  {
    && |path| > 0
    && (forall i :: 0 <= i < |path| ==> IsPoint(func, path[i]))
    && (forall i, j :: 0 <= i < j < |path| && j == i + 1 ==> Step(func, path[i], path[j]))
    && (forall i :: 0 <= i < |path| - 1 ==> l !in KillsAt(func, path[i]))
    && l in UsesAt(func, path[|path| - 1])
  }

  /** Some path from `q` uses `l` before anything assigns, drops or kills it. */
  ghost predicate LiveAt(func: MirFunction, q: Point, l: nat)
  {
    exists path :: UsePath(func, path, l) && path[0] == q
  }

  ghost predicate Shape(func: MirFunction, live: LiveSets)
  {
    && |live| == |func.blocks|
    && forall b :: 0 <= b < |live| ==> |live[b]| == |func.blocks[b].statements| + 1
  }

  ghost function At(func: MirFunction, live: LiveSets, q: Point): set<nat>
    requires Shape(func, live) && IsPoint(func, q)
  {
    live[q.block][q.idx]
  }

  /** What is live after `q`, going by the sets at its successors. */
  ghost function Out(func: MirFunction, live: LiveSets, q: Point): set<nat>
    requires Shape(func, live) && IsPoint(func, q) && JumpsInside(func)
  {
    if AtTerminator(func, q)
    then set t, l | t in Targets(func.blocks[q.block]) && l in live[t][0] :: l
    else live[q.block][q.idx + 1]
  }

  ghost function In(func: MirFunction, live: LiveSets, q: Point): set<nat>
    requires Shape(func, live) && IsPoint(func, q) && JumpsInside(func)
  {
    (Out(func, live, q) - KillsAt(func, q)) + UsesAt(func, q)
  }

  /** Every recorded local is live, and no set exceeds what its successors justify. */
  ghost predicate Growing(func: MirFunction, live: LiveSets)
    requires JumpsInside(func)
  {
    && Shape(func, live)
    && (forall q {:trigger In(func, live, q)} :: IsPoint(func, q) ==> At(func, live, q) <= In(func, live, q))
    && (forall q, l {:trigger LiveAt(func, q, l)} :: IsPoint(func, q) && l in At(func, live, q) ==> LiveAt(func, q, l))
  }

  datatype Fact = Fact(q: Point, l: nat)

  ghost function UsedLocals(func: MirFunction): set<nat>
  {
    set q, l | q in AllPoints(func) && l in UsesAt(func, q) :: l
  }

  /** The facts not yet recorded. */
  ghost function Missing(func: MirFunction, live: LiveSets): set<Fact>
    requires Shape(func, live)
  {
    set q, l | q in AllPoints(func) && l in UsedLocals(func) && l !in At(func, live, q) :: Fact(q, l)
  }

  lemma LiveIsUsed(func: MirFunction, q: Point, l: nat)
    requires LiveAt(func, q, l)
    ensures l in UsedLocals(func)
  {
    var path :| UsePath(func, path, l) && path[0] == q;
    assert path[|path| - 1] in AllPoints(func);
  }

  function Set(live: LiveSets, q: Point, s: set<nat>): LiveSets
    requires q.block < |live| && q.idx < |live[q.block]|
  {
    live[q.block := live[q.block][q.idx := s]]
  }

  lemma LiveStep(func: MirFunction, q: Point, r: Point, l: nat)
    requires Step(func, q, r) && LiveAt(func, r, l) && l !in KillsAt(func, q)
    ensures LiveAt(func, q, l)
  {
    var path :| UsePath(func, path, l) && path[0] == r;
    assert UsePath(func, [q] + path, l);
  }

  lemma InIsLive(func: MirFunction, live: LiveSets, q: Point, l: nat)
    requires JumpsInside(func) && Growing(func, live) && IsPoint(func, q) && l in In(func, live, q)
    ensures LiveAt(func, q, l)
  {
    if l in UsesAt(func, q) {
      assert UsePath(func, [q], l);
    } else {
      var r: Point;
      if AtTerminator(func, q) {
        var t :| t in Targets(func.blocks[q.block]) && l in live[t][0];
        r := Point(t, 0);
      } else {
        r := Point(q.block, q.idx + 1);
      }
      assert l in At(func, live, r);
      LiveStep(func, q, r, l);
    }
  }

  lemma SetAt(func: MirFunction, live: LiveSets, q: Point, s: set<nat>, r: Point)
    requires Shape(func, live) && IsPoint(func, q) && IsPoint(func, r)
    ensures Shape(func, Set(live, q, s))
    ensures At(func, Set(live, q, s), r) == if r == q then s else At(func, live, r)
  {
  }

  lemma MissingShrinks(func: MirFunction, live: LiveSets, q: Point, s: set<nat>)
    requires Shape(func, live) && IsPoint(func, q) && At(func, live, q) <= s && s <= UsedLocals(func)
    ensures Shape(func, Set(live, q, s))
    ensures Missing(func, Set(live, q, s)) <= Missing(func, live)
    ensures s != At(func, live, q) ==> Missing(func, Set(live, q, s)) != Missing(func, live)
  {
    forall r | IsPoint(func, r) ensures At(func, Set(live, q, s), r) == if r == q then s else At(func, live, r) {
      SetAt(func, live, q, s, r);
    }
    if s != At(func, live, q) {
      var l :| l in s && l !in At(func, live, q);
      assert Fact(q, l) in Missing(func, live);
    }
  }

  /** Recomputing the set at one point keeps the invariant and loses no fact. */
  lemma UpdatePoint(func: MirFunction, live: LiveSets, q: Point)
    requires JumpsInside(func) && Growing(func, live) && IsPoint(func, q)
    ensures Growing(func, Set(live, q, In(func, live, q)))
    ensures Missing(func, Set(live, q, In(func, live, q))) <= Missing(func, live)
    ensures In(func, live, q) != At(func, live, q) ==> Missing(func, Set(live, q, In(func, live, q))) != Missing(func, live)
  {
    var s := In(func, live, q);
    var live' := Set(live, q, s);
    forall r | IsPoint(func, r)
      ensures At(func, live', r) == if r == q then s else At(func, live, r)
      ensures At(func, live, r) <= At(func, live', r)
    {
      SetAt(func, live, q, s, r);
    }
    forall r | IsPoint(func, r) ensures At(func, live', r) <= In(func, live', r) {
      OutGrows(func, live, live', r);
      assert At(func, live, r) <= In(func, live, r);
    }
    forall r, l | IsPoint(func, r) && l in At(func, live', r) ensures LiveAt(func, r, l) {
      if r == q {
        InIsLive(func, live, q, l);
      }
    }
    forall l | l in s ensures l in UsedLocals(func) {
      InIsLive(func, live, q, l);
      LiveIsUsed(func, q, l);
    }
    MissingShrinks(func, live, q, s);
  }

  lemma OutGrows(func: MirFunction, live: LiveSets, live': LiveSets, q: Point)
    requires JumpsInside(func) && Shape(func, live) && Shape(func, live') && IsPoint(func, q)
    requires forall r :: IsPoint(func, r) ==> At(func, live, r) <= At(func, live', r)
    ensures Out(func, live, q) <= Out(func, live', q)
  {
    if AtTerminator(func, q) {
      forall l | l in Out(func, live, q) ensures l in Out(func, live', q) {
        var t :| t in Targets(func.blocks[q.block]) && l in live[t][0];
        assert l in At(func, live, Point(t, 0));
        assert l in At(func, live', Point(t, 0));
      }
    } else {
      assert At(func, live, Point(q.block, q.idx + 1)) <= At(func, live', Point(q.block, q.idx + 1));
    }
  }

  /** At a fixpoint nothing live is missing. */
  lemma {:induction false} FixpointComplete(func: MirFunction, live: LiveSets, path: seq<Point>, l: nat)
    requires JumpsInside(func) && Shape(func, live)
    requires forall q :: IsPoint(func, q) ==> At(func, live, q) == In(func, live, q)
    requires UsePath(func, path, l)
    ensures l in At(func, live, path[0])
    decreases |path|
  {
    assert At(func, live, path[0]) == In(func, live, path[0]);
    if |path| > 1 {
      assert Step(func, path[0], path[1]);
      assert UsePath(func, path[1..], l);
      FixpointComplete(func, live, path[1..], l);
      assert l in At(func, live, path[1]);
    }
  }

  // ---------------------------------------------------------------- the computation

  method UnionOfSuccessors(func: MirFunction, b: nat, live: LiveSets) returns (s: set<nat>)
    requires JumpsInside(func) && Shape(func, live) && b < |func.blocks|
    ensures s == Out(func, live, Point(b, |func.blocks[b].statements|))
  {
    var succs := Targets(func.blocks[b]);
    forall k | 0 <= k < |succs|
      ensures succs[k] < |live|
    {
      assert succs[k] in succs;
    }
    s := {};
    for k := 0 to |succs|
      invariant forall t :: t in succs[..k] ==> t < |live|
      invariant s == set t, l | t in succs[..k] && l in live[t][0] :: l
    {
      assert succs[..k + 1] == succs[..k] + [succs[k]];
      s := s + live[succs[k]][0];
    }
    assert succs[..|succs|] == succs;
  }

  /** The points of block `b` from index `k` on already agree with their successors. */
  ghost predicate AgreesFrom(func: MirFunction, live: LiveSets, b: nat, k: nat)
    requires JumpsInside(func) && Shape(func, live)
  {
    forall q: Point :: q.block == b && k <= q.idx && IsPoint(func, q) ==> At(func, live, q) == In(func, live, q)
  }

  lemma AgreesExtend(func: MirFunction, live: LiveSets, b: nat, k: nat, next: nat)
    requires JumpsInside(func) && Shape(func, live) && IsPoint(func, Point(b, k)) && next == k + 1
    requires AgreesFrom(func, live, b, next) && At(func, live, Point(b, k)) == In(func, live, Point(b, k))
    ensures AgreesFrom(func, live, b, k)
  {
    forall r: Point | r.block == b && k <= r.idx && IsPoint(func, r) ensures At(func, live, r) == In(func, live, r) {
      assert r.idx == k ==> r == Point(b, k);
    }
  }

  lemma InAtStatement(func: MirFunction, live: LiveSets, b: nat, k: nat, next: nat)
    requires JumpsInside(func) && Shape(func, live) && IsPoint(func, Point(b, next)) && next == k + 1
    ensures In(func, live, Point(b, k)) ==
            (At(func, live, Point(b, next)) - StatementKills(func.blocks[b].statements[k].kind))
            + StatementUses(func.blocks[b].statements[k].kind)
  {
  }

  /** Stores a freshly computed set unless it is the recorded one. */
  method Record(func: MirFunction, q: Point, current: set<nat>, live0: LiveSets) returns (live: LiveSets, changed: bool)
    requires JumpsInside(func) && Growing(func, live0) && IsPoint(func, q) && current == In(func, live0, q)
    ensures Growing(func, live) && Missing(func, live) <= Missing(func, live0) && At(func, live, q) == current
    ensures changed ==> Missing(func, live) != Missing(func, live0)
    ensures !changed ==> live == live0
  {
    UpdatePoint(func, live0, q);
    changed := live0[q.block][q.idx] != current;
    live := if changed then Set(live0, q, current) else live0;
  }

  method UpdateBlock(func: MirFunction, b: nat, live0: LiveSets) returns (live: LiveSets, changed: bool)
    requires JumpsInside(func) && Growing(func, live0) && b < |func.blocks|
    ensures Growing(func, live) && Missing(func, live) <= Missing(func, live0)
    ensures changed ==> Missing(func, live) != Missing(func, live0)
    ensures !changed ==> live == live0 && AgreesFrom(func, live, b, 0)
  {
    var bb := func.blocks[b];
    var k := |bb.statements|;
    var current := UnionOfSuccessors(func, b, live0);
    current := UpdateTerminator(current, bb.terminator);
    live, changed := Record(func, Point(b, k), current, live0);
    assert !changed ==> AgreesFrom(func, live, b, k + 1);
    if !changed {
      AgreesExtend(func, live, b, k, k + 1);
    }
    while k > 0
      invariant 0 <= k <= |bb.statements|
      invariant Growing(func, live) && At(func, live, Point(b, k)) == current
      invariant Missing(func, live) <= Missing(func, live0)
      invariant changed ==> Missing(func, live) != Missing(func, live0)
      invariant !changed ==> live == live0 && AgreesFrom(func, live, b, k)
    {
      ghost var next := k;
      k := k - 1;
      InAtStatement(func, live, b, k, next);
      current := UpdateStatement(current, func.blocks[b].statements[k]);
      assert current == In(func, live, Point(b, k));
      var moved;
      live, moved := Record(func, Point(b, k), current, live);
      changed := changed || moved;
      if !changed {
        AgreesExtend(func, live, b, k, next);
      }
    }
  }

  lemma EmptyIsGrowing(func: MirFunction, live: LiveSets)
    requires JumpsInside(func) && Shape(func, live)
    requires forall b, i :: 0 <= b < |live| && 0 <= i < |live[b]| ==> live[b][i] == {}
    ensures Growing(func, live)
  {
  }

  /** The live sets of a function: exactly the locals that some path uses before losing them. */
  method Compute(func: MirFunction) returns (live: LiveSets)
    requires JumpsInside(func)
    ensures Shape(func, live)
    ensures forall q, l :: IsPoint(func, q) ==> (l in At(func, live, q) <==> LiveAt(func, q, l))
  {
    live := [];
    for b := 0 to |func.blocks|
      invariant |live| == b
      invariant forall x :: 0 <= x < b ==> |live[x]| == |func.blocks[x].statements| + 1
      invariant forall x, i :: 0 <= x < b && 0 <= i < |live[x]| ==> live[x][i] == {}
    {
      live := live + [seq(|func.blocks[b].statements| + 1, _ => {})];
    }
    EmptyIsGrowing(func, live);
    var changed := true;
    while changed
      invariant Growing(func, live)
      invariant !changed ==> forall b: nat :: b < |func.blocks| ==> AgreesFrom(func, live, b, 0)
      decreases Missing(func, live), changed
    {
      changed := false;
      ghost var before := live;
      var b := |func.blocks|;
      while b > 0
        invariant 0 <= b <= |func.blocks|
        invariant Growing(func, live) && Missing(func, live) <= Missing(func, before)
        invariant changed ==> Missing(func, live) != Missing(func, before)
        invariant !changed ==> live == before && forall x: nat :: b <= x < |func.blocks| ==> AgreesFrom(func, live, x, 0)
      {
        b := b - 1;
        var moved;
        live, moved := UpdateBlock(func, b, live);
        changed := changed || moved;
      }
    }
    forall q, l | IsPoint(func, q) ensures l in At(func, live, q) <==> LiveAt(func, q, l) {
      forall r | IsPoint(func, r) ensures At(func, live, r) == In(func, live, r) {
        assert AgreesFrom(func, live, r.block, 0);
        assert r == Point(r.block, r.idx);
      }
      if path :| UsePath(func, path, l) && path[0] == q {
        FixpointComplete(func, live, path, l);
      }
    }
  }
}

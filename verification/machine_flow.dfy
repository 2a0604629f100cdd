/** What jumps and liveness mean for the machine that runs a function. */
module MachineFlow {
  import opened Mir
  import opened Options
  import opened Flow
  import opened Liveness
  import Machine

  // ---------------------------------------------------------------- jumps

  /** The machine goes on in block `t` when it comes to the end of `bb` in `c`. */
  ghost predicate GoesTo(env: Machine.Env, c: Machine.Config, bb: BasicBlock, t: nat)
  {
    && c.Running?
    && var next := Machine.StepTerminator(env, c, bb.terminator);
       next.Running? && next.block == t
  }

  /** In some environment and state. */
  ghost predicate MayGoTo(bb: BasicBlock, t: nat)
  {
    exists env, c :: GoesTo(env, c, bb, t)
  }

  /** Every arm of the switch that leads to `t` comes behind one with the same value. */
  ghost predicate Shadowed(bb: BasicBlock, t: nat)
  {
    && bb.terminator.Some? && bb.terminator.value.kind.SwitchInt?
    && var kind := bb.terminator.value.kind;
       && t != kind.otherwise
       && forall i :: 0 <= i < |kind.targets| && kind.targets[i].1 == t ==> Preceded(kind.targets, i)
  }

  predicate Preceded(targets: seq<(int, nat)>, i: nat)
    requires i < |targets|
  {
    exists j :: 0 <= j < i && targets[j].0 == targets[i].0
  }

  lemma {:induction false} SelectFirst(targets: seq<(int, nat)>, otherwise: nat, i: nat)
    requires i < |targets| && !Preceded(targets, i)
    ensures Machine.Select(targets, otherwise, targets[i].0) == targets[i].1
  {
    if i > 0 {
      assert targets[0].0 != targets[i].0;
      assert forall j :: 0 <= j < i - 1 ==> targets[1..][j] == targets[j + 1];
      SelectFirst(targets[1..], otherwise, i - 1);
    }
  }

  /** The arm that is taken, or `|targets|` when none is. */
  lemma {:induction false} SelectArm(targets: seq<(int, nat)>, otherwise: nat, v: int) returns (i: nat)
    ensures i < |targets| ==> !Preceded(targets, i) && Machine.Select(targets, otherwise, v) == targets[i].1
    ensures i >= |targets| ==> Machine.Select(targets, otherwise, v) == otherwise
    ensures forall j :: 0 <= j < i && j < |targets| ==> targets[j].0 != v
    ensures i < |targets| ==> targets[i].0 == v
  {
    i := 0;
    if targets != [] && targets[0].0 != v {
      var k := SelectArm(targets[1..], otherwise, v);
      i := k + 1;
      assert forall j :: 1 <= j < |targets| ==> targets[j] == targets[1..][j - 1];
    }
  }

  /** A value that no arm of a switch has. */
  ghost function Fresh(targets: seq<(int, nat)>): (v: int)
    ensures forall j :: 0 <= j < |targets| ==> targets[j].0 < v
  {
    if targets == [] then 0
    else
      var v := Fresh(targets[1..]);
      assert forall j :: 1 <= j < |targets| ==> targets[j] == targets[1..][j - 1];
      if targets[0].0 < v then v else targets[0].0 + 1
  }

  /** A state in which the operand has word `v`. */
  lemma SomeState(op: Operand, v: int) returns (env: Machine.Env, c: Machine.Config)
    ensures c.Running? && Machine.WordOf(env, c.locals, op) == v
  {
    var n := if op.Constant? then 0 else op.local + 1;
    env := Machine.Env(_ => None, (_, _, _) => 0, _ => v, _ => 0);
    c := Machine.Running(0, 0, seq(n, _ => v), [], Machine.Debugger([], [], [], 0, 0));
  }

  /** The targets of a block are the blocks the machine goes on in, shadowed arms of a switch aside. */
  lemma TargetsAreJumps(bb: BasicBlock, t: nat)
    ensures MayGoTo(bb, t) <==> t in Targets(bb) && !Shadowed(bb, t)
  {
    if bb.terminator.Some? {
      match bb.terminator.value.kind
      case Goto(target) =>
        var env, c := SomeState(Constant(NoneConst), 0);
        assert GoesTo(env, c, bb, target);
      case SwitchInt(_, _, _) => SwitchJumps(bb, t);
      case Return =>
      case Unreachable =>
    }
  }

  lemma SwitchJumps(bb: BasicBlock, t: nat)
    requires bb.terminator.Some? && bb.terminator.value.kind.SwitchInt?
    ensures MayGoTo(bb, t) <==> t in Targets(bb) && !Shadowed(bb, t)
  {
    var kind := bb.terminator.value.kind;
    var targets, otherwise := kind.targets, kind.otherwise;
    var all := Targets(bb);
    assert all[|targets|] == otherwise && forall i :: 0 <= i < |targets| ==> all[i] == targets[i].1;
    if MayGoTo(bb, t) {
      var env, c :| GoesTo(env, c, bb, t);
      var i := SelectArm(targets, otherwise, Machine.WordOf(env, c.locals, kind.discr));
      assert t == all[if i < |targets| then i else |targets|];
    }
    if t in all && !Shadowed(bb, t) {
      var v := Fresh(targets);
      if t != otherwise {
        var i :| 0 <= i < |targets| && targets[i].1 == t && !Preceded(targets, i);
        v := targets[i].0;
        SelectFirst(targets, otherwise, i);
      } else {
        var i := SelectArm(targets, otherwise, v);
      }
      var env, c := SomeState(kind.discr, v);
      assert GoesTo(env, c, bb, t);
    }
  }

  // ---------------------------------------------------------------- reads

  lemma {:induction false} LocalsAreRead(ops: seq<Operand>)
    ensures forall l :: l in Machine.OperandLocals(ops) <==> l in Locals(ops)
  {
    if ops != [] {
      LocalsAreRead(ops[1..]);
      assert ops == [ops[0]] + ops[1..];
    }
  }

  /** The uses of a statement are what the machine reads when it executes it, a dropped local aside. */
  lemma UsesAreReads(kind: StatementKind)
    ensures forall l :: l in Machine.ReadSet(kind) <==> l in StatementUses(kind) || kind == Drop(l)
  {
    match kind
    case Assign(_, rv) => LocalsAreRead(Operands(rv));
    case SetAttr(obj, _, val) => LocalsAreRead([obj, val]);
    case SetIndex(obj, idx, val, _) => LocalsAreRead([obj, idx, val]);
    case VectorStore(obj, idx, val) => LocalsAreRead([obj, idx, val]);
    case PtrStore(ptr, val) => LocalsAreRead([ptr, val]);
    case _ =>
  }

  // ---------------------------------------------------------------- what is not live does not matter

  /** Some statement drops `l` or ends its storage. */
  ghost predicate Released(func: MirFunction, l: nat)
  {
    exists b, i :: 0 <= b < |func.blocks| && 0 <= i < |func.blocks[b].statements|
                   && func.blocks[b].statements[i].kind in {Drop(l), StorageDead(l)}
  }

  /** The two lists of words differ at most in locals that are not live at `q`. The returned local and locals that
      are released do not count as such. */
  ghost predicate Agree(func: MirFunction, q: Point, xs: seq<int>, ys: seq<int>)
  {
    && |xs| == |ys|
    && forall l: nat :: l == 0 || Released(func, l) || LiveAt(func, q, l) ==> Machine.Read(xs, l) == Machine.Read(ys, l)
  }

  /** The two states differ at most in what is not live where they stand. */
  ghost predicate Alike(func: MirFunction, c: Machine.Config, d: Machine.Config)
  {
    if !c.Running? then c == d
    else
      && d.Running? && d == c.(locals := d.locals)
      && (c.block < |func.blocks| ==> IsPoint(func, Point(c.block, c.idx)) && Agree(func, Point(c.block, c.idx), c.locals, d.locals))
  }

  ghost predicate NoHooks(env: Machine.Env)
  {
    forall kind :: env.hook(kind) == None
  }

  lemma UsedIsLive(func: MirFunction, q: Point, l: nat)
    requires IsPoint(func, q) && l in UsesAt(func, q)
    ensures LiveAt(func, q, l)
  {
    assert UsePath(func, [q], l);
  }

  /** The same words are read. */
  lemma SameWords(func: MirFunction, q: Point, xs: seq<int>, ys: seq<int>)
    requires IsPoint(func, q) && !AtTerminator(func, q) && Agree(func, q, xs, ys)
    ensures var read := Machine.ReadSet(func.blocks[q.block].statements[q.idx].kind);
      Machine.Words(xs, read) == Machine.Words(ys, read)
  {
    var kind := func.blocks[q.block].statements[q.idx].kind;
    var read := Machine.ReadSet(kind);
    UsesAreReads(kind);
    forall i | 0 <= i < |read| ensures Machine.Read(xs, read[i]) == Machine.Read(ys, read[i]) {
      assert read[i] in read;
      if kind == Drop(read[i]) {
        assert Released(func, read[i]);
      } else {
        UsedIsLive(func, q, read[i]);
      }
    }
  }

  /** Agreement goes along a step that writes nothing, or the same word. */
  lemma AgreeOn(func: MirFunction, q: Point, r: Point, xs: seq<int>, ys: seq<int>)
    requires Step(func, q, r) && Agree(func, q, xs, ys)
    requires AtTerminator(func, q) || !func.blocks[q.block].statements[q.idx].kind.Assign?
    ensures Agree(func, r, xs, ys)
  {
    forall l: nat | LiveAt(func, r, l) && !Released(func, l) ensures Machine.Read(xs, l) == Machine.Read(ys, l) {
      LiveStep(func, q, r, l);
    }
  }

  lemma AgreeAfter(func: MirFunction, q: Point, r: Point, xs: seq<int>, ys: seq<int>, v: int)
    requires Step(func, q, r) && Agree(func, q, xs, ys)
    requires !AtTerminator(func, q) && func.blocks[q.block].statements[q.idx].kind.Assign?
    ensures var dest := func.blocks[q.block].statements[q.idx].kind.dest;
      Agree(func, r, Machine.Write(xs, dest, v), Machine.Write(ys, dest, v))
  {
    var dest := func.blocks[q.block].statements[q.idx].kind.dest;
    forall l: nat | l != dest && LiveAt(func, r, l) ensures Machine.Read(xs, l) == Machine.Read(ys, l) {
      LiveStep(func, q, r, l);
    }
  }

  lemma StatementAlike(func: MirFunction, env: Machine.Env, c: Machine.Config, d: Machine.Config)
    requires NoHooks(env) && Alike(func, c, d) && c.Running? && c.block < |func.blocks|
    requires c.idx < |func.blocks[c.block].statements|
    ensures Alike(func, Machine.Step(env, func.blocks, c), Machine.Step(env, func.blocks, d))
  {
    var q, r := Point(c.block, c.idx), Point(c.block, c.idx + 1);
    var kind := func.blocks[c.block].statements[c.idx].kind;
    SameWords(func, q, c.locals, d.locals);
    if kind.Assign? {
      AgreeAfter(func, q, r, c.locals, d.locals, env.result(kind, Machine.Words(c.locals, Machine.ReadSet(kind)), c.history));
    } else {
      AgreeOn(func, q, r, c.locals, d.locals);
    }
    hide Agree;
  }

  lemma TerminatorAlike(func: MirFunction, env: Machine.Env, c: Machine.Config, d: Machine.Config)
    requires Alike(func, c, d) && c.Running? && c.block < |func.blocks| && c.idx == |func.blocks[c.block].statements|
    ensures Alike(func, Machine.Step(env, func.blocks, c), Machine.Step(env, func.blocks, d))
  {
    var bb := func.blocks[c.block];
    var q := Point(c.block, c.idx);
    if bb.terminator.Some? && bb.terminator.value.kind.SwitchInt? {
      var discr := bb.terminator.value.kind.discr;
      if !discr.Constant? {
        UsedIsLive(func, q, discr.local);
      }
      assert Machine.WordOf(env, c.locals, discr) == Machine.WordOf(env, d.locals, discr);
    }
    assert Machine.Read(c.locals, 0) == Machine.Read(d.locals, 0);
    var next := Machine.StepTerminator(env, c, bb.terminator);
    if next.Running? && next.block < |func.blocks| {
      assert GoesTo(env, c, bb, next.block);
      TargetsAreJumps(bb, next.block);
      AgreeOn(func, q, Point(next.block, 0), c.locals, d.locals);
    }
    hide Agree;
  }

  /** Runs that differ in words that are not live at the start execute the same statements on the same words, and end
      alike. */
  lemma {:induction false} OnlyLiveMatters(func: MirFunction, env: Machine.Env, c: Machine.Config, d: Machine.Config, k: nat)
    requires NoHooks(env) && Alike(func, c, d)
    ensures Alike(func, Machine.Run(env, func.blocks, c, k), Machine.Run(env, func.blocks, d, k))
    decreases k
  {
    if k > 0 {
      StepAlike(func, env, c, d);
      hide Alike, Machine.Step;
      OnlyLiveMatters(func, env, Machine.Step(env, func.blocks, c), Machine.Step(env, func.blocks, d), k - 1);
    }
  }

  lemma StepAlike(func: MirFunction, env: Machine.Env, c: Machine.Config, d: Machine.Config)
    requires NoHooks(env) && Alike(func, c, d)
    ensures Alike(func, Machine.Step(env, func.blocks, c), Machine.Step(env, func.blocks, d))
  {
    if c.Running? && c.block < |func.blocks| {
      if c.idx < |func.blocks[c.block].statements| {
        StatementAlike(func, env, c, d);
      } else {
        TerminatorAlike(func, env, c, d);
      }
    }
  }
}

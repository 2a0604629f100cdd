/** Execution of MIR functions in an environment, with the debugger hooks working on mirror cells. */
module Machine {
  import opened Mir
  import opened Options

  // ---------------------------------------------------------------- hooks

  /** The runtime calls that instrumentation inserts. */
  datatype HookCall =
    | Enter(fnId: nat)
    | Exit
    | Store(cell: nat, local: nat)
    | Load(cell: nat, local: nat)
    | StopHere(key: int)
    | ShouldCheck(key: int)

  const ENTER := "__olive_debug_enter"
  const EXIT := "__olive_debug_exit"
  const STORE := "__olive_debug_store"
  const LOAD := "__olive_debug_load"
  const STMT := "__olive_debug_stmt"
  const SHOULD_CHECK := "__olive_debug_should_check_stmt"

  function HookName(h: HookCall): string
  {
    match h
    case Enter(_) => ENTER
    case Exit => EXIT
    case Store(_, _) => STORE
    case Load(_, _) => LOAD
    case StopHere(_) => STMT
    case ShouldCheck(_) => SHOULD_CHECK
  }

  function HookArgs(h: HookCall): seq<Operand>
  {
    match h
    case Enter(fnId) => [Constant(Int(fnId))]
    case Exit => []
    case Store(cell, local) => [Constant(Int(cell)), Copy(local)]
    case Load(cell, _) => [Constant(Int(cell))]
    case StopHere(key) => [Constant(Int(key))]
    case ShouldCheck(key) => [Constant(Int(key))]
  }

  function CallRvalue(name: string, args: seq<Operand>): Rvalue
  {
    Call(Constant(Function(name)), args)
  }

  /** The statement assigns the result of hook `h` to `dest`. */
  predicate IsHook(kind: StatementKind, dest: nat, h: HookCall)
  {
    kind == Assign(dest, CallRvalue(HookName(h), HookArgs(h))) && (h.Load? ==> h.local == dest)
  }

  predicate HasIntArg(args: seq<Operand>)
  {
    |args| > 0 && args[0].Constant? && args[0].value.Int?
  }

  /** Reads a hook call back from a statement; `None` for every other statement. */
  function AsHook(kind: StatementKind): Option<HookCall>
  {
    if !(kind.Assign? && kind.rvalue.Call? && kind.rvalue.func.Constant? && kind.rvalue.func.value.Function?) then None
    else
      var name, args := kind.rvalue.func.value.name, kind.rvalue.args;
      if name == EXIT && args == [] then Some(Exit)
      else if !HasIntArg(args) then None
      else
        var i := args[0].value.i;
        if |args| == 2 then
          if name == STORE && i >= 0 && args[1].Copy? then Some(Store(i, args[1].local)) else None
        else if |args| == 1 then
          if name == STMT then Some(StopHere(i))
          else if name == SHOULD_CHECK then Some(ShouldCheck(i))
          else if name == ENTER && i >= 0 then Some(Enter(i))
          else if name == LOAD && i >= 0 then Some(Load(i, kind.dest))
          else None
        else None
  }

  lemma HookNamesDiffer()
    ensures ENTER != STORE && ENTER[14] != STORE[14]
    ensures |STMT| == 18 && |LOAD| == 18 && STMT != LOAD && |EXIT| == 18 && |ENTER| == 19 && |SHOULD_CHECK| == 31
  {
    assert ENTER[14] == 'e' && STORE[14] == 's';
    assert STMT[14] == 's' && LOAD[14] == 'l';
  }

  lemma HookReadsBack(kind: StatementKind, dest: nat, h: HookCall)
    requires IsHook(kind, dest, h)
    ensures AsHook(kind) == Some(h)
  {
    HookNamesDiffer();
  }

  // ---------------------------------------------------------------- states

  /** A statement executed, with the words of the locals it reads. */
  datatype Event = Event(kind: StatementKind, words: seq<int>)

  /** A line check, made when `at` statements had been executed. */
  datatype Check = Check(key: int, at: nat)

  /** A stop, made when `at` statements had been executed, with the cells of the mirror as they were shown. */
  datatype Halt = Halt(key: int, at: nat, seen: seq<int>)

  /** Everything outside the function: which statements call hooks, results of all others, words of
      constants, answers to line checks. */
  datatype Env = Env(
    hook: StatementKind -> Option<HookCall>,
    result: (StatementKind, seq<int>, seq<Event>) -> int,
    word: Constant -> int,
    answer: seq<Check> -> int)

  /** `mirror` holds the debugger's copies of named locals; `checks` and `stops` list the line checks and the stops
      made so far and the counters count the calls of enter and exit. */
  datatype Debugger = Debugger(mirror: seq<int>, checks: seq<Check>, stops: seq<Halt>, enters: nat, exits: nat)

  datatype Config =
    | Running(block: nat, idx: nat, locals: seq<int>, history: seq<Event>, dbg: Debugger)
    | Returned(value: int, history: seq<Event>, dbg: Debugger)
    | Stuck(history: seq<Event>, dbg: Debugger)

  function Read(locals: seq<int>, x: nat): int
  {
    if x < |locals| then locals[x] else 0
  }

  function Write(locals: seq<int>, x: nat, v: int): (r: seq<int>)
    ensures |r| == |locals|
    ensures forall y: nat :: y != x ==> Read(r, y) == Read(locals, y)
    ensures x < |locals| ==> Read(r, x) == v
  {
    if x < |locals| then locals[x := v] else locals
  }

  function WordOf(env: Env, locals: seq<int>, op: Operand): int
  {
    match op
    case Copy(l) => Read(locals, l)
    case Move(l) => Read(locals, l)
    case Constant(c) => env.word(c)
  }

  /** The locals a statement reads, in order. */
  function ReadSet(kind: StatementKind): seq<nat>
  {
    match kind
    case Assign(_, Ref(l)) => [l]
    case Assign(_, MutRef(l)) => [l]
    case Assign(_, rv) => OperandLocals(Operands(rv))
    case SetAttr(obj, _, val) => OperandLocals([obj, val])
    case SetIndex(obj, idx, val, _) => OperandLocals([obj, idx, val])
    case StorageLive(_) => []
    case StorageDead(_) => []
    case Drop(l) => [l]
    case VectorStore(obj, idx, val) => OperandLocals([obj, idx, val])
    case PtrStore(ptr, val) => OperandLocals([ptr, val])
    case GenCheck(v, g) => [v, g]
  }

  function OperandLocals(ops: seq<Operand>): seq<nat>
  {
    if ops == [] then []
    else (if ops[0].Constant? then [] else [ops[0].local]) + OperandLocals(ops[1..])
  }

  function Words(locals: seq<int>, xs: seq<nat>): seq<int>
  {
    seq(|xs|, i requires 0 <= i < |xs| => Read(locals, xs[i]))
  }

  /** The first target whose value matches, or the default. */
  function Select(targets: seq<(int, nat)>, otherwise: nat, v: int): nat
  {
    if targets == [] then otherwise
    else if targets[0].0 == v then targets[0].1
    else Select(targets[1..], otherwise, v)
  }

  // ---------------------------------------------------------------- steps

  function StepHook(env: Env, c: Config, dest: nat, h: HookCall): Config
    requires c.Running?
  {
    var d := c.dbg;
    var next := c.(idx := c.idx + 1);
    match h
    case Enter(_) => next.(locals := Write(c.locals, dest, 0), dbg := d.(enters := d.enters + 1))
    case Exit => next.(locals := Write(c.locals, dest, 0), dbg := d.(exits := d.exits + 1))
    case Store(cell, local) =>
      next.(locals := Write(c.locals, dest, 0), dbg := d.(mirror := Write(d.mirror, cell, Read(c.locals, local))))
    case Load(cell, _) => next.(locals := Write(c.locals, dest, Read(d.mirror, cell)))
    case StopHere(key) =>
      next.(locals := Write(c.locals, dest, 0), dbg := d.(stops := d.stops + [Halt(key, |c.history|, d.mirror)]))
    case ShouldCheck(key) =>
      var checks := d.checks + [Check(key, |c.history|)];
      next.(locals := Write(c.locals, dest, env.answer(checks)), dbg := d.(checks := checks))
  }

  function StepStatement(env: Env, c: Config, kind: StatementKind): Config
    requires c.Running?
  {
    var words := Words(c.locals, ReadSet(kind));
    var next := c.(idx := c.idx + 1, history := c.history + [Event(kind, words)]);
    if kind.Assign? then next.(locals := Write(c.locals, kind.dest, env.result(kind, words, c.history))) else next
  }

  function StepTerminator(env: Env, c: Config, term: Option<Terminator>): Config
    requires c.Running?
  {
    match term
    case None => Stuck(c.history, c.dbg)
    case Some(t) =>
      match t.kind
      case Goto(target) => c.(block := target, idx := 0)
      case SwitchInt(discr, targets, otherwise) =>
        c.(block := Select(targets, otherwise, WordOf(env, c.locals, discr)), idx := 0)
      case Return => Returned(Read(c.locals, 0), c.history, c.dbg)
      case Unreachable => Stuck(c.history, c.dbg)
  }

  function Step(env: Env, blocks: seq<BasicBlock>, c: Config): Config
  {
    if !c.Running? then c
    else if c.block >= |blocks| then Stuck(c.history, c.dbg)
    else
      var bb := blocks[c.block];
      if c.idx < |bb.statements| then
        var kind := bb.statements[c.idx].kind;
        if kind.Assign? && env.hook(kind).Some? then StepHook(env, c, kind.dest, env.hook(kind).value)
        else StepStatement(env, c, kind)
      else StepTerminator(env, c, bb.terminator)
  }

  function Run(env: Env, blocks: seq<BasicBlock>, c: Config, k: nat): Config
    decreases k
  {
    if k == 0 then c else Run(env, blocks, Step(env, blocks, c), k - 1)
  }

  lemma {:induction false} RunAdd(env: Env, blocks: seq<BasicBlock>, c: Config, j: nat, k: nat)
    ensures Run(env, blocks, c, j + k) == Run(env, blocks, Run(env, blocks, c, j), k)
    decreases j
  {
    if j > 0 {
      RunAdd(env, blocks, Step(env, blocks, c), j - 1, k);
    }
  }

  lemma {:induction false} RunFinal(env: Env, blocks: seq<BasicBlock>, c: Config, k: nat)
    requires !c.Running?
    ensures Run(env, blocks, c, k) == c
  {
    if k > 0 {
      RunFinal(env, blocks, c, k - 1);
    }
  }

  // ---------------------------------------------------------------- checks and stops

  /** The checks that were answered with something else than 0. */
  ghost function Answered(env: Env, checks: seq<Check>): seq<Check>
  {
    if checks == [] then []
    else
      var n := |checks| - 1;
      Answered(env, checks[..n]) + if env.answer(checks) != 0 then [checks[n]] else []
  }

  /** Where the stops were made. */
  ghost function StopPoints(stops: seq<Halt>): (r: seq<Check>)
    ensures |r| == |stops| && forall k :: 0 <= k < |r| ==> r[k] == Check(stops[k].key, stops[k].at)
  {
    seq(|stops|, k requires 0 <= k < |stops| => Check(stops[k].key, stops[k].at))
  }
}

/** The instrumented function behaves like the original one. */
module HookSimulation {
  import opened Mir
  import opened Options
  import Flow
  import opened LineContext
  import opened Machine
  import opened HookPlan

  // ---------------------------------------------------------------- what is simulated

  /** A call that the frame takes for a hook is read back as that hook. */
  ghost predicate Understood(env: Env, f: Frame)
  {
    forall kind, dest: nat, h {:trigger f.isHook(kind, dest, h)} :: f.isHook(kind, dest, h) ==>
      kind.Assign? && kind.dest == dest && env.hook(kind) == Some(h) && (h.Load? ==> h.local == dest)
  }

  ghost predicate ReadsInside(xs: seq<nat>, n: nat)
  {
    forall i :: 0 <= i < |xs| ==> xs[i] < n
  }

  /** The statement is no hook call and mentions only locals below `n`. */
  ghost predicate PlainStatement(env: Env, kind: StatementKind, n: nat)
  {
    env.hook(kind).None? && ReadsInside(ReadSet(kind), n) && (kind.Assign? ==> kind.dest < n)
  }

  ghost predicate PlainBlock(env: Env, bb: BasicBlock, n: nat)
  {
    && (forall i :: 0 <= i < |bb.statements| ==> PlainStatement(env, bb.statements[i].kind, n))
    && (bb.terminator.Some? && bb.terminator.value.kind.SwitchInt? && !bb.terminator.value.kind.discr.Constant? ==>
          bb.terminator.value.kind.discr.local < n)
  }

  /** A function as the compiler hands it over: no hook calls yet, and all jumps and locals exist. */
  ghost predicate Plain(env: Env, func: MirFunction)
  {
    && Flow.JumpsInside(func) && |func.blocks| > 0 && |func.locals| > 0
    && forall b :: 0 <= b < |func.blocks| ==> PlainBlock(env, func.blocks[b], |func.locals|)
  }

  // ---------------------------------------------------------------- agreement of states

  ghost predicate MirrorFor(cells: Cells, locals: seq<int>, mirror: seq<int>)
  {
    |mirror| == |cells| && forall k: nat :: k < |cells| ==> mirror[k] == Read(locals, cells[k])
  }

  /** `c` has the original locals' words and the effects of the original. */
  ghost predicate Agrees(f: Frame, locals: seq<int>, history: seq<Event>, c: Config)
  {
    && c.Running? && c.history == history && |locals| == f.locals <= |c.locals|
    && |c.dbg.mirror| == |f.cells|
    && (forall x: nat :: x < f.locals ==> Read(c.locals, x) == Read(locals, x))
  }

  /** Unless hook blocks flush, the mirror is up to date. */
  ghost predicate Fresh(f: Frame, locals: seq<int>, c: Config)
    requires c.Running?
  {
    !f.flush ==> MirrorFor(f.cells, locals, c.dbg.mirror)
  }

  /** What the debugger has been asked and when it has stopped. */
  datatype Log = Log(checks: seq<Check>, halts: seq<Halt>)

  ghost function LogOf(c: Config): Log
  {
    Log(c.dbg.checks, c.dbg.stops)
  }

  /** The words of the mirrored locals. */
  ghost function Values(cells: Cells, locals: seq<int>): (r: seq<int>)
    ensures |r| == |cells| && forall k :: 0 <= k < |cells| ==> r[k] == Read(locals, cells[k])
  {
    seq(|cells|, k requires 0 <= k < |cells| => Read(locals, cells[k]))
  }

  /** A line check answered with anything but 0 stops, and shows the mirrored locals. */
  ghost function WithCheck(env: Env, log: Log, check: Check, seen: seq<int>): Log
  {
    var checks := log.checks + [check];
    Log(checks, if env.answer(checks) != 0 then log.halts + [Halt(check.key, check.at, seen)] else log.halts)
  }

  /** Enter and exit were not called, no local came or went, and the log is now `log`. */
  ghost predicate Made(c: Config, d: Config, log: Log)
  {
    && c.Running? && d.Running? && c.dbg.enters == d.dbg.enters && c.dbg.exits == d.dbg.exits
    && |d.locals| == |c.locals| && LogOf(d) == log
  }

  ghost predicate At(blocks: seq<BasicBlock>, f: Frame, c: Config, items: seq<Item>, term: Option<Terminator>)
  {
    c.Running? && Executes(blocks, f, c.block, c.idx, items, term)
  }

  // ---------------------------------------------------------------- single items

  /** An inserted call, other than a load, touches nothing of the original. */
  lemma StepInsert(env: Env, blocks: seq<BasicBlock>, f: Frame, c: Config, h: HookCall, locals: seq<int>, history: seq<Event>)
    requires Understood(env, f) && Agrees(f, locals, history, c) && !h.Load? && !h.ShouldCheck?
    requires c.block < |blocks| && c.idx < |blocks[c.block].statements|
    requires Carries(blocks[c.block].statements[c.idx], Insert(h), f)
    ensures var d := Step(env, blocks, c);
      && Agrees(f, locals, history, d) && d.block == c.block && d.idx == c.idx + 1
      && d.dbg.mirror == (if h.Store? then Write(c.dbg.mirror, h.cell, Read(c.locals, h.local)) else c.dbg.mirror)
      && |d.locals| == |c.locals| && d.dbg.checks == c.dbg.checks
      && d.dbg.stops == (if h.StopHere? then c.dbg.stops + [Halt(h.key, |history|, c.dbg.mirror)] else c.dbg.stops)
      && d.dbg.enters == c.dbg.enters + (if h.Enter? then 1 else 0)
      && d.dbg.exits == c.dbg.exits + (if h.Exit? then 1 else 0)
  {
  }

  /** A load of a cell that is up to date changes no original local. */
  lemma StepLoad(env: Env, blocks: seq<BasicBlock>, f: Frame, c: Config, cell: nat, local: nat, locals: seq<int>, history: seq<Event>)
    requires Understood(env, f) && Agrees(f, locals, history, c) && local < f.locals
    requires c.block < |blocks| && c.idx < |blocks[c.block].statements|
    requires Carries(blocks[c.block].statements[c.idx], Insert(Load(cell, local)), f)
    requires Read(c.dbg.mirror, cell) == Read(locals, local)
    ensures var d := Step(env, blocks, c);
      Agrees(f, locals, history, d) && d.block == c.block && d.idx == c.idx + 1 && d.dbg == c.dbg && |d.locals| == |c.locals|
  {
  }

  lemma WordsAgree(a: seq<int>, b: seq<int>, xs: seq<nat>, n: nat)
    requires ReadsInside(xs, n) && forall x: nat :: x < n ==> Read(a, x) == Read(b, x)
    ensures Words(a, xs) == Words(b, xs)
  {
  }

  /** An original statement does the same to the original locals and effects. */
  lemma StepKeep(env: Env, blocks: seq<BasicBlock>, f: Frame, c: Config, o: Config, stmt: Statement, original: seq<BasicBlock>)
    requires o.Running? && Agrees(f, o.locals, o.history, c) && PlainStatement(env, stmt.kind, f.locals)
    requires c.block < |blocks| && c.idx < |blocks[c.block].statements| && blocks[c.block].statements[c.idx] == stmt
    requires o.block < |original| && o.idx < |original[o.block].statements| && original[o.block].statements[o.idx] == stmt
    ensures var d, p := Step(env, blocks, c), Step(env, original, o);
      && p.Running? && p.block == o.block && p.idx == o.idx + 1 && |p.locals| == |o.locals|
      && Agrees(f, p.locals, p.history, d) && d.block == c.block && d.idx == c.idx + 1 && d.dbg == c.dbg && |d.locals| == |c.locals|
      && forall x: nat :: !(stmt.kind.Assign? && x == stmt.kind.dest) ==> Read(p.locals, x) == Read(o.locals, x)
  {
    WordsAgree(c.locals, o.locals, ReadSet(stmt.kind), f.locals);
  }

  // ---------------------------------------------------------------- hook blocks

  /** After the first `n` stores of a flush, the first `n` cells are up to date. */
  lemma {:induction false} RunStores(env: Env, blocks: seq<BasicBlock>, f: Frame, c: Config, n: nat, locals: seq<int>, history: seq<Event>)
    requires Understood(env, f) && Agrees(f, locals, history, c) && n <= |f.cells| && c.idx == 0 && c.block < |blocks|
    requires forall k :: 0 <= k < |f.cells| ==> f.cells[k] < f.locals
    requires |blocks[c.block].statements| >= n
    requires forall k :: 0 <= k < n ==> Carries(blocks[c.block].statements[k], Insert(Store(k, f.cells[k])), f)
    ensures var d := Run(env, blocks, c, n);
      && Agrees(f, locals, history, d) && d.block == c.block && d.idx == n && Made(c, d, LogOf(c))
      && forall k: nat :: k < n ==> d.dbg.mirror[k] == Read(locals, f.cells[k])
    decreases n
  {
    if n > 0 {
      var m := n - 1;
      RunStores(env, blocks, f, c, m, locals, history);
      var d := Run(env, blocks, c, m);
      StepInsert(env, blocks, f, d, Store(m, f.cells[m]), locals, history);
      RunOneMore(env, blocks, c, m, n);
    }
  }

  lemma RunOneMore(env: Env, blocks: seq<BasicBlock>, c: Config, m: nat, n: nat)
    requires n == m + 1
    ensures Run(env, blocks, c, n) == Step(env, blocks, Run(env, blocks, c, m))
  {
    RunAdd(env, blocks, c, m, 1);
    assert Run(env, blocks, Run(env, blocks, c, m), 1) == Run(env, blocks, Step(env, blocks, Run(env, blocks, c, m)), 0);
  }

  /** Loads from an up-to-date mirror change no original local. */
  lemma {:induction false} RunLoads(env: Env, blocks: seq<BasicBlock>, f: Frame, c: Config, n: nat, locals: seq<int>, history: seq<Event>)
    requires Understood(env, f) && Agrees(f, locals, history, c) && n <= |f.cells| && c.block < |blocks|
    requires MirrorFor(f.cells, locals, c.dbg.mirror)
    requires forall k :: 0 <= k < |f.cells| ==> f.cells[k] < f.locals
    requires |blocks[c.block].statements| >= c.idx + n
    requires forall k :: 0 <= k < n ==> Carries(blocks[c.block].statements[c.idx + k], Insert(Load(k, f.cells[k])), f)
    ensures var d := Run(env, blocks, c, n);
      Agrees(f, locals, history, d) && d.block == c.block && d.idx == c.idx + n && d.dbg == c.dbg && |d.locals| == |c.locals|
    decreases n
  {
    if n > 0 {
      var m := n - 1;
      RunLoads(env, blocks, f, c, m, locals, history);
      var d := Run(env, blocks, c, m);
      assert Carries(blocks[c.block].statements[c.idx + m], Insert(Load(m, f.cells[m])), f);
      StepLoad(env, blocks, f, d, m, f.cells[m], locals, history);
      RunOneMore(env, blocks, c, m, n);
    }
  }

  ghost predicate CellsInside(f: Frame)
  {
    forall k :: 0 <= k < |f.cells| ==> f.cells[k] < f.locals
  }

  /** `d` is where `c` gets in `k` steps. */
  ghost predicate Leads(env: Env, blocks: seq<BasicBlock>, c: Config, k: nat, d: Config)
  {
    Run(env, blocks, c, k) == d
  }

  lemma LeadsOn(env: Env, blocks: seq<BasicBlock>, c: Config, j: nat, d: Config, k: nat, e: Config)
    requires Leads(env, blocks, c, j, d) && Leads(env, blocks, d, k, e)
    ensures Leads(env, blocks, c, j + k, e)
  {
    RunAdd(env, blocks, c, j, k);
  }

  lemma LeadsOne(env: Env, blocks: seq<BasicBlock>, c: Config)
    ensures Leads(env, blocks, c, 1, Step(env, blocks, c))
  {
    assert Run(env, blocks, c, 1) == Run(env, blocks, Step(env, blocks, c), 0);
  }

  function FlushSize(f: Frame): nat
  {
    if f.flush then |f.cells| else 0
  }

  lemma HookBodyAt(f: Frame, key: LineKey, i: nat)
    requires i < FlushSize(f) + 1 + |f.cells|
    ensures |HookBody(f.cells, f.flush, key)| == FlushSize(f) + 1 + |f.cells|
    ensures HookBody(f.cells, f.flush, key)[i] ==
            if i < FlushSize(f) then Insert(Store(i, f.cells[i]))
            else if i == FlushSize(f) then Insert(StopHere(key))
            else Insert(Load(i - FlushSize(f) - 1, f.cells[i - FlushSize(f) - 1]))
  {
  }

  lemma HookStore(blocks: seq<BasicBlock>, f: Frame, hook: nat, cont: nat, key: LineKey, j: nat)
    requires IsHookBlock(blocks, hook, cont, key, f) && j < FlushSize(f)
    ensures j < |blocks[hook].statements| && Carries(blocks[hook].statements[j], Insert(Store(j, f.cells[j])), f)
  {
    HookBodyAt(f, key, j);
  }

  lemma HookStop(blocks: seq<BasicBlock>, f: Frame, hook: nat, cont: nat, key: LineKey)
    requires IsHookBlock(blocks, hook, cont, key, f)
    ensures |blocks[hook].statements| == FlushSize(f) + 1 + |f.cells|
    ensures Carries(blocks[hook].statements[FlushSize(f)], Insert(StopHere(key)), f)
  {
    HookBodyAt(f, key, FlushSize(f));
  }

  lemma HookLoad(blocks: seq<BasicBlock>, f: Frame, hook: nat, cont: nat, key: LineKey, j: nat, i: nat)
    requires IsHookBlock(blocks, hook, cont, key, f) && j < |f.cells| && i == FlushSize(f) + 1 + j
    ensures i < |blocks[hook].statements| && Carries(blocks[hook].statements[i], Insert(Load(j, f.cells[j])), f)
  {
    HookBodyAt(f, key, i);
  }

  lemma RunFlush(env: Env, blocks: seq<BasicBlock>, f: Frame, c: Config, cont: nat, key: LineKey, locals: seq<int>, history: seq<Event>)
    returns (d: Config)
    requires Understood(env, f) && CellsInside(f) && Agrees(f, locals, history, c) && Fresh(f, locals, c)
    requires c.idx == 0 && IsHookBlock(blocks, c.block, cont, key, f)
    ensures Leads(env, blocks, c, FlushSize(f), d)
    ensures Agrees(f, locals, history, d) && d.block == c.block && d.idx == FlushSize(f) && Made(c, d, LogOf(c))
    ensures MirrorFor(f.cells, locals, d.dbg.mirror)
  {
    HookStop(blocks, f, c.block, cont, key);
    forall j: nat | j < FlushSize(f) ensures Carries(blocks[c.block].statements[j], Insert(Store(j, f.cells[j])), f) {
      HookStore(blocks, f, c.block, cont, key, j);
    }
    RunStores(env, blocks, f, c, FlushSize(f), locals, history);
    d := Run(env, blocks, c, FlushSize(f));
  }

  lemma RunReload(env: Env, blocks: seq<BasicBlock>, f: Frame, c: Config, cont: nat, key: LineKey, locals: seq<int>, history: seq<Event>)
    returns (k: nat, d: Config)
    requires Understood(env, f) && CellsInside(f) && Agrees(f, locals, history, c) && MirrorFor(f.cells, locals, c.dbg.mirror)
    requires c.idx == FlushSize(f) && IsHookBlock(blocks, c.block, cont, key, f)
    ensures Leads(env, blocks, c, k, d)
    ensures Agrees(f, locals, history, d) && d.block == cont && d.idx == 0
    ensures Made(c, d, Log(c.dbg.checks, c.dbg.stops + [Halt(key, |history|, c.dbg.mirror)]))
    ensures MirrorFor(f.cells, locals, d.dbg.mirror)
  {
    HookStop(blocks, f, c.block, cont, key);
    StepInsert(env, blocks, f, c, StopHere(key), locals, history);
    var stopped := Step(env, blocks, c);
    LeadsOne(env, blocks, c);
    var j: nat;
    j, d := RunLoadsAndLeave(env, blocks, f, stopped, cont, key, locals, history);
    LeadsOn(env, blocks, c, 1, stopped, j, d);
    k := 1 + j;
  }

  lemma HookLoads(blocks: seq<BasicBlock>, f: Frame, hook: nat, cont: nat, key: LineKey, from: nat)
    requires IsHookBlock(blocks, hook, cont, key, f) && from == FlushSize(f) + 1
    ensures hook < |blocks| && |blocks[hook].statements| == from + |f.cells|
    ensures forall j :: 0 <= j < |f.cells| ==> Carries(blocks[hook].statements[from + j], Insert(Load(j, f.cells[j])), f)
  {
    HookStop(blocks, f, hook, cont, key);
    forall j: nat | j < |f.cells| ensures Carries(blocks[hook].statements[from + j], Insert(Load(j, f.cells[j])), f) {
      HookLoad(blocks, f, hook, cont, key, j, from + j);
    }
  }

  lemma IsLed(env: Env, blocks: seq<BasicBlock>, c: Config, k: nat)
    ensures Leads(env, blocks, c, k, Run(env, blocks, c, k))
  {
    hide Run;
  }

  /** The end of a hook block. */
  lemma LeaveHook(env: Env, blocks: seq<BasicBlock>, f: Frame, c: Config, cont: nat, key: LineKey, locals: seq<int>, history: seq<Event>)
    requires Agrees(f, locals, history, c) && IsHookBlock(blocks, c.block, cont, key, f) && c.idx == |blocks[c.block].statements|
    ensures var d := Step(env, blocks, c);
      Agrees(f, locals, history, d) && d.block == cont && d.idx == 0 && d.dbg == c.dbg && |d.locals| == |c.locals|
  {
  }

  lemma RunAllLoads(env: Env, blocks: seq<BasicBlock>, f: Frame, c: Config, cont: nat, key: LineKey,
                    locals: seq<int>, history: seq<Event>)
    returns (d: Config)
    requires Understood(env, f) && CellsInside(f) && Agrees(f, locals, history, c) && MirrorFor(f.cells, locals, c.dbg.mirror)
    requires c.idx == FlushSize(f) + 1 && IsHookBlock(blocks, c.block, cont, key, f)
    ensures Leads(env, blocks, c, |f.cells|, d) && Agrees(f, locals, history, d)
    ensures d.block == c.block < |blocks| && d.idx == |blocks[c.block].statements| && d.dbg == c.dbg && |d.locals| == |c.locals|
  {
    HookLoads(blocks, f, c.block, cont, key, c.idx);
    hide Understood, IsHookBlock, Carries, Run, MirrorFor, FlushSize, Step;
    RunLoads(env, blocks, f, c, |f.cells|, locals, history);
    d := Run(env, blocks, c, |f.cells|);
  }

  lemma RunLoadsAndLeave(env: Env, blocks: seq<BasicBlock>, f: Frame, c: Config, cont: nat, key: LineKey,
                         locals: seq<int>, history: seq<Event>)
    returns (k: nat, d: Config)
    requires Understood(env, f) && CellsInside(f) && Agrees(f, locals, history, c) && MirrorFor(f.cells, locals, c.dbg.mirror)
    requires c.idx == FlushSize(f) + 1 && IsHookBlock(blocks, c.block, cont, key, f)
    ensures Leads(env, blocks, c, k, d)
    ensures Agrees(f, locals, history, d) && d.block == cont && d.idx == 0 && d.dbg == c.dbg && |d.locals| == |c.locals|
  {
    var n := |f.cells|;
    var loaded := RunAllLoads(env, blocks, f, c, cont, key, locals, history);
    LeaveHook(env, blocks, f, loaded, cont, key, locals, history);
    hide Leads, Understood, CellsInside, IsHookBlock, MirrorFor, FlushSize, Step, Agrees;
    d := Step(env, blocks, loaded);
    LeadsOne(env, blocks, loaded);
    LeadsOn(env, blocks, c, n, loaded, 1, d);
    k := n + 1;
  }

  lemma MirrorIsValues(cells: Cells, locals: seq<int>, mirror: seq<int>)
    requires MirrorFor(cells, locals, mirror)
    ensures mirror == Values(cells, locals)
  {
  }

  /** A hook block stops once, showing the mirrored locals, and leads to its continuation with the original locals
      unchanged and the mirror up to date. */
  lemma RunHookBlock(env: Env, blocks: seq<BasicBlock>, f: Frame, c: Config, cont: nat, key: LineKey, locals: seq<int>, history: seq<Event>)
    returns (k: nat, d: Config)
    requires Understood(env, f) && CellsInside(f) && Agrees(f, locals, history, c) && Fresh(f, locals, c)
    requires c.idx == 0 && IsHookBlock(blocks, c.block, cont, key, f)
    ensures Leads(env, blocks, c, k, d)
    ensures Agrees(f, locals, history, d) && d.block == cont && d.idx == 0
    ensures Made(c, d, Log(c.dbg.checks, c.dbg.stops + [Halt(key, |history|, Values(f.cells, locals))]))
    ensures MirrorFor(f.cells, locals, d.dbg.mirror)
  {
    hide Leads, IsHookBlock, MirrorFor, FlushSize, CellsInside, Understood;
    var e := RunFlush(env, blocks, f, c, cont, key, locals, history);
    var j: nat;
    MirrorIsValues(f.cells, locals, e.dbg.mirror);
    j, d := RunReload(env, blocks, f, e, cont, key, locals, history);
    LeadsOn(env, blocks, c, FlushSize(f), e, j, d);
    k := FlushSize(f) + j;
  }

  /** Every local that is assigned is one of the first `n`. */
  ghost predicate Declared(blocks: seq<BasicBlock>, n: nat)
  {
    forall b, i :: 0 <= b < |blocks| && 0 <= i < |blocks[b].statements| ==>
      blocks[b].statements[i].kind.Assign? ==> blocks[b].statements[i].kind.dest < n
  }

  /** A stop check is made once, stops exactly when it is answered with something else than 0, and in any case leads
      on to the next item. */
  lemma RunStop(env: Env, blocks: seq<BasicBlock>, f: Frame, c: Config, key: LineKey, rest: seq<Item>, term: Option<Terminator>,
                locals: seq<int>, history: seq<Event>)
    returns (k: nat, d: Config)
    requires Understood(env, f) && CellsInside(f) && Agrees(f, locals, history, c) && Fresh(f, locals, c)
    requires c.Running? && ExecutesStop(blocks, f, c.block, c.idx, key, rest, term) && Declared(blocks, |c.locals|)
    ensures Leads(env, blocks, c, k, d)
    ensures Agrees(f, locals, history, d) && Fresh(f, locals, d) && At(blocks, f, d, rest, term)
    ensures Made(c, d, WithCheck(env, LogOf(c), Check(key, |history|), Values(f.cells, locals)))
  {
    assert blocks[c.block].statements[c.idx].kind.dest < |c.locals|;
    hide Run, IsHookBlock, MirrorFor, Executes, CellsInside, Understood, IsCheck, Declared;
    RunCheck(env, blocks, f, c, key, locals, history);
    var e := Run(env, blocks, c, 2);
    var cont := ContOf(blocks, c.block, c.idx, key, f);
    if env.answer(c.dbg.checks + [Check(key, |history|)]) == 0 {
      k, d := 2, e;
    } else {
      var j: nat;
      j, d := RunHookBlock(env, blocks, f, e, cont, key, locals, history);
      LeadsOn(env, blocks, c, 2, e, j, d);
      k := 2 + j;
    }
  }

  /** The check itself: two steps, to the continuation on answer 0 and otherwise to the hook block. */
  lemma RunCheck(env: Env, blocks: seq<BasicBlock>, f: Frame, c: Config, key: LineKey, locals: seq<int>, history: seq<Event>)
    requires Understood(env, f) && Agrees(f, locals, history, c) && IsCheck(blocks, c.block, c.idx, key, f)
    requires blocks[c.block].statements[c.idx].kind.dest < |c.locals|
    ensures var d, check := Run(env, blocks, c, 2), Check(key, |history|);
      && Agrees(f, locals, history, d) && d.idx == 0 && d.dbg.mirror == c.dbg.mirror
      && Made(c, d, Log(c.dbg.checks + [check], c.dbg.stops))
      && d.block == (if env.answer(c.dbg.checks + [check]) == 0 then ContOf(blocks, c.block, c.idx, key, f)
                     else HookOf(blocks, c.block, c.idx, key, f))
  {
    var d := Step(env, blocks, c);
    assert d == StepHook(env, c, blocks[c.block].statements[c.idx].kind.dest, ShouldCheck(key));
    var t := blocks[c.block].terminator.value.kind;
    assert WordOf(env, d.locals, t.discr) == env.answer(c.dbg.checks + [Check(key, |history|)]);
    assert Select(t.targets[1..], t.otherwise, WordOf(env, d.locals, t.discr)) == t.otherwise;
    assert Run(env, blocks, c, 2) == Step(env, blocks, d) by {
      assert Run(env, blocks, c, 2) == Run(env, blocks, d, 1) == Run(env, blocks, Step(env, blocks, d), 0);
    }
  }

  // ---------------------------------------------------------------- an instrumented function

  /** A function, how it was instrumented, and the blocks that came out with the number of their locals. */
  datatype Subject = Subject(func: MirFunction, mode: Mode, cells: Cells, ctxs: seq<RunCtx>, blocks: seq<BasicBlock>, size: nat,
                             frame: Frame)

  ghost predicate Instrumented(env: Env, s: Subject)
  {
    && Plain(env, s.func) && Understood(env, s.frame) && CellsOk(s.func, s.cells)
    && s.frame.cells == s.cells && s.frame.flush == s.mode.Deferred()
    && Declared(s.blocks, s.size)
    && s.frame.locals == |s.func.locals| && s.frame.blocks == |s.func.blocks| == |s.ctxs|
    && forall b: nat {:trigger CodeOf(s, b)} :: b < |s.func.blocks| ==> Executes(s.blocks, s.frame, b, 0, CodeOf(s, b), TermOf(s, b))
  }

  ghost function CodeOf(s: Subject, b: nat): seq<Item>
    requires b < |s.func.blocks| == |s.ctxs|
  {
    Code(s.func, s.mode, s.cells, s.ctxs[b], true, b)
  }

  ghost function TermOf(s: Subject, b: nat): Option<Terminator>
    requires b < |s.func.blocks|
  {
    s.func.blocks[b].terminator
  }

  ghost function ChunkOf(s: Subject, b: nat, i: nat): seq<Item>
    requires b < |s.func.blocks| == |s.ctxs| && i < |s.func.blocks[b].statements|
  {
    Chunk(s.func.blocks[b].statements, s.ctxs[b], s.cells, s.mode.Deferred(), true, i)
  }

  /** What remains to be executed of block `b` from its original statement `i` on. */
  ghost function Rest(s: Subject, b: nat, i: nat): seq<Item>
    requires b < |s.func.blocks| == |s.ctxs| && i <= |s.func.blocks[b].statements|
    decreases |s.func.blocks[b].statements| - i
  {
    if i == |s.func.blocks[b].statements| then Epilogue(s.mode, s.func.blocks[b])
    else ChunkOf(s, b, i) + Rest(s, b, i + 1)
  }

  ghost function PreludeOf(s: Subject, b: nat): seq<Item>
  {
    if b == 0 then Prelude(s.mode, s.cells, s.func.argCount) else []
  }

  lemma {:induction false} ChunksThenRest(s: Subject, b: nat, i: nat)
    requires b < |s.func.blocks| == |s.ctxs| && i <= |s.func.blocks[b].statements|
    ensures var bb := s.func.blocks[b];
      Chunks(bb.statements, s.ctxs[b], s.cells, s.mode.Deferred(), true, |bb.statements|) + Epilogue(s.mode, bb)
      == Chunks(bb.statements, s.ctxs[b], s.cells, s.mode.Deferred(), true, i) + Rest(s, b, i)
    decreases |s.func.blocks[b].statements| - i
  {
    if i < |s.func.blocks[b].statements| {
      var next := i + 1;
      ChunksThenRest(s, b, next);
      var done := Chunks(s.func.blocks[b].statements, s.ctxs[b], s.cells, s.mode.Deferred(), true, i);
      assert next - 1 == i && Chunks(s.func.blocks[b].statements, s.ctxs[b], s.cells, s.mode.Deferred(), true, next) == done + ChunkOf(s, b, i);
      assert Rest(s, b, i) == ChunkOf(s, b, i) + Rest(s, b, next);
      hide Chunks, ChunkOf, Rest, Epilogue;
      Assoc(done, ChunkOf(s, b, i), Rest(s, b, next));
    }
  }

  lemma CodeIsRest(s: Subject, b: nat)
    requires b < |s.func.blocks| == |s.ctxs|
    ensures CodeOf(s, b) == PreludeOf(s, b) + Rest(s, b, 0)
  {
    var bb := s.func.blocks[b];
    var chunks := Chunks(bb.statements, s.ctxs[b], s.cells, s.mode.Deferred(), true, |bb.statements|);
    ChunksThenRest(s, b, 0);
    assert [] + Rest(s, b, 0) == Rest(s, b, 0);
    Assoc(PreludeOf(s, b), chunks, Epilogue(s.mode, bb));
  }

  // ---------------------------------------------------------------- inserted calls in place

  /** An inserted call at the head of the items. */
  lemma RunInsert(env: Env, blocks: seq<BasicBlock>, f: Frame, c: Config, h: HookCall, rest: seq<Item>, term: Option<Terminator>,
                  locals: seq<int>, history: seq<Event>)
    returns (d: Config)
    requires Understood(env, f) && Agrees(f, locals, history, c) && !h.Load? && !h.ShouldCheck?
    requires At(blocks, f, c, [Insert(h)] + rest, term)
    ensures Leads(env, blocks, c, 1, d) && Agrees(f, locals, history, d) && At(blocks, f, d, rest, term)
    ensures d.dbg.mirror == if h.Store? then Write(c.dbg.mirror, h.cell, Read(c.locals, h.local)) else c.dbg.mirror
    ensures |d.locals| == |c.locals| && d.dbg.checks == c.dbg.checks && (!h.StopHere? ==> d.dbg.stops == c.dbg.stops)
    ensures d.dbg.enters == c.dbg.enters + (if h.Enter? then 1 else 0)
    ensures d.dbg.exits == c.dbg.exits + (if h.Exit? then 1 else 0)
  {
    assert ([Insert(h)] + rest)[1..] == rest;
    StepInsert(env, blocks, f, c, h, locals, history);
    d := Step(env, blocks, c);
    LeadsOne(env, blocks, c);
  }

  /** Storing the value a local just got brings its cell up to date. */
  lemma MirrorAfterStore(cells: Cells, before: seq<int>, after: seq<int>, mirror: seq<int>, cell: nat, x: nat)
    requires MirrorFor(cells, before, mirror) && cell < |cells| && cells[cell] == x
    requires forall c, d :: 0 <= c < d < |cells| ==> cells[c] < cells[d]
    requires forall y: nat :: y != x ==> Read(after, y) == Read(before, y)
    ensures MirrorFor(cells, after, Write(mirror, cell, Read(after, x)))
  {
    forall k: nat | k < |cells| ensures Write(mirror, cell, Read(after, x))[k] == Read(after, cells[k]) {
      assert k < cell || k > cell ==> cells[k] != x;
    }
  }

  lemma MirrorWithoutCell(cells: Cells, before: seq<int>, after: seq<int>, mirror: seq<int>, x: nat)
    requires MirrorFor(cells, before, mirror) && x !in cells
    requires forall y: nat :: y != x ==> Read(after, y) == Read(before, y)
    ensures MirrorFor(cells, after, mirror)
  {
    forall k: nat | k < |cells| ensures mirror[k] == Read(after, cells[k]) {
      assert cells[k] in cells;
    }
  }

  // ---------------------------------------------------------------- one original statement

  /** The statement itself, where a kept item is at the head. */
  lemma RunKeep(env: Env, s: Subject, c: Config, o: Config, rest: seq<Item>) returns (d: Config)
    requires Instrumented(env, s) && o.Running? && Agrees(s.frame, o.locals, o.history, c)
    requires o.block < |s.func.blocks| && o.idx < |s.func.blocks[o.block].statements|
    requires At(s.blocks, s.frame, c, [Keep(s.func.blocks[o.block].statements[o.idx])] + rest, TermOf(s, o.block))
    ensures Leads(env, s.blocks, c, 1, d) && d.Running? && d.dbg == c.dbg && |d.locals| == |c.locals|
    ensures At(s.blocks, s.frame, d, rest, TermOf(s, o.block))
    ensures var p, kind := Step(env, s.func.blocks, o), s.func.blocks[o.block].statements[o.idx].kind;
      && p.Running? && p.block == o.block && p.idx == o.idx + 1
      && Agrees(s.frame, p.locals, p.history, d)
      && forall x: nat :: !(kind.Assign? && x == kind.dest) ==> Read(p.locals, x) == Read(o.locals, x)
  {
    var stmt := s.func.blocks[o.block].statements[o.idx];
    assert ([Keep(stmt)] + rest)[1..] == rest;
    assert PlainBlock(env, s.func.blocks[o.block], |s.func.locals|);
    StepKeep(env, s.blocks, s.frame, c, o, stmt, s.func.blocks);
    d := Step(env, s.blocks, c);
    LeadsOne(env, s.blocks, c);
  }

  /** The statement and the store that may follow it. */
  lemma RunStatement(env: Env, s: Subject, c: Config, o: Config, rest: seq<Item>) returns (k: nat, d: Config)
    requires Instrumented(env, s) && o.Running? && Agrees(s.frame, o.locals, o.history, c) && Fresh(s.frame, o.locals, c)
    requires o.block < |s.func.blocks| && o.idx < |s.func.blocks[o.block].statements|
    requires var stmt := s.func.blocks[o.block].statements[o.idx];
      At(s.blocks, s.frame, c, [Keep(stmt)] + (StoreAfter(s.cells, s.mode.Deferred(), stmt) + rest), TermOf(s, o.block))
    ensures k >= 1 && Leads(env, s.blocks, c, k, d) && Made(c, d, LogOf(c))
    ensures At(s.blocks, s.frame, d, rest, TermOf(s, o.block))
    ensures var p := Step(env, s.func.blocks, o);
      p.Running? && p.block == o.block && p.idx == o.idx + 1 && Agrees(s.frame, p.locals, p.history, d) && Fresh(s.frame, p.locals, d)
  {
    var stmt := s.func.blocks[o.block].statements[o.idx];
    var p := Step(env, s.func.blocks, o);
    var store := StoreAfter(s.cells, s.mode.Deferred(), stmt);
    d := RunKeep(env, s, c, o, store + rest);
    k := 1;
    if store == [] {
      assert store + rest == rest;
      if !s.frame.flush {
        if stmt.kind.Assign? {
          MirrorWithoutCell(s.cells, o.locals, p.locals, d.dbg.mirror, stmt.kind.dest);
        } else {
          assert MirrorFor(s.cells, p.locals, d.dbg.mirror);
        }
      }
    } else {
      var x := stmt.kind.dest;
      var cell := CellOf(s.cells, x).value;
      var kept := d;
      d := RunInsert(env, s.blocks, s.frame, kept, Store(cell, x), rest, TermOf(s, o.block), p.locals, p.history);
      LeadsOn(env, s.blocks, c, 1, kept, 1, d);
      k := 2;
      MirrorAfterStore(s.cells, o.locals, p.locals, kept.dbg.mirror, cell, x);
    }
  }

  ghost function StatementTail(s: Subject, b: nat, i: nat): seq<Item>
    requires b < |s.func.blocks| == |s.ctxs| && i < |s.func.blocks[b].statements|
  {
    var stmt := s.func.blocks[b].statements[i];
    [Keep(stmt)] + (StoreAfter(s.cells, s.mode.Deferred(), stmt) + Rest(s, b, i + 1))
  }

  /** The line check of a statement reached when `at` statements had been executed, if it has one. */
  ghost function SiteChecks(s: Subject, b: nat, i: nat, at: nat): seq<Check>
    requires b < |s.func.blocks| == |s.ctxs| && i < |s.func.blocks[b].statements|
  {
    if IsSite(s.func.blocks[b].statements, s.ctxs[b], i)
    then [Check(PackLine(s.func.blocks[b].statements[i].span), at)]
    else []
  }

  /** What reaching a statement adds to the log. */
  ghost function SiteLog(env: Env, s: Subject, b: nat, i: nat, at: nat, locals: seq<int>, log: Log): Log
    requires b < |s.func.blocks| == |s.ctxs| && i < |s.func.blocks[b].statements|
  {
    if IsSite(s.func.blocks[b].statements, s.ctxs[b], i)
    then WithCheck(env, log, Check(PackLine(s.func.blocks[b].statements[i].span), at), Values(s.cells, locals))
    else log
  }

  /** The stop check, if the statement has one. */
  lemma RunSite(env: Env, s: Subject, c: Config, b: nat, i: nat, locals: seq<int>, history: seq<Event>) returns (k: nat, d: Config)
    requires Instrumented(env, s) && Agrees(s.frame, locals, history, c) && Fresh(s.frame, locals, c)
    requires b < |s.func.blocks| && i < |s.func.blocks[b].statements| && s.size <= |c.locals|
    requires At(s.blocks, s.frame, c, Rest(s, b, i), TermOf(s, b))
    ensures Leads(env, s.blocks, c, k, d) && Agrees(s.frame, locals, history, d) && Fresh(s.frame, locals, d)
    ensures At(s.blocks, s.frame, d, StatementTail(s, b, i), TermOf(s, b))
    ensures Made(c, d, SiteLog(env, s, b, i, |history|, locals, LogOf(c)))
  {
    var tail := StatementTail(s, b, i);
    ChunkShape(s, b, i);
    if IsSite(s.func.blocks[b].statements, s.ctxs[b], i) {
      var key := PackLine(s.func.blocks[b].statements[i].span);
      StopAtHead(s, c, key, tail, b);
      CellsAreInside(env, s);
      assert Declared(s.blocks, |c.locals|);
      k, d := RunStop(env, s.blocks, s.frame, c, key, tail, TermOf(s, b), locals, history);
    } else {
      assert [] + tail == tail;
      k, d := 0, c;
    }
  }

  /** The statement and what follows it, in terms of what then remains of the block. */
  lemma RunTail(env: Env, s: Subject, c: Config, o: Config) returns (k: nat, d: Config)
    requires Instrumented(env, s) && o.Running? && Agrees(s.frame, o.locals, o.history, c) && Fresh(s.frame, o.locals, c)
    requires o.block < |s.func.blocks| && o.idx < |s.func.blocks[o.block].statements|
    requires At(s.blocks, s.frame, c, StatementTail(s, o.block, o.idx), TermOf(s, o.block))
    ensures k >= 1 && Leads(env, s.blocks, c, k, d) && Made(c, d, LogOf(c))
    ensures InsideNext(env, s, Step(env, s.func.blocks, o), o, d)
  {
    assert c.Running? && |s.func.blocks| == |s.ctxs|;
    var next := o.idx + 1;
    TailParts(s, o.block, o.idx, next);
    hide Instrumented, Agrees, Fresh, At, Rest, TermOf, Leads, Run, Made, Step, StatementTail, StoreAfter, InsideNext;
    k, d := RunStatement(env, s, c, o, Rest(s, o.block, next));
    IsInsideNext(env, s, Step(env, s.func.blocks, o), o, d, next);
  }

  lemma TailParts(s: Subject, b: nat, i: nat, next: nat)
    requires b < |s.func.blocks| == |s.ctxs| && i < |s.func.blocks[b].statements| && next == i + 1
    ensures var stmt := s.func.blocks[b].statements[i];
      StatementTail(s, b, i) == [Keep(stmt)] + (StoreAfter(s.cells, s.mode.Deferred(), stmt) + Rest(s, b, next))
  {
    hide Rest, StoreAfter;
  }

  lemma IsInsideNext(env: Env, s: Subject, p: Config, o: Config, c: Config, next: nat)
    requires Instrumented(env, s) && o.Running? && p.Running? && p.block == o.block < |s.func.blocks|
    requires p.idx == next == o.idx + 1 <= |s.func.blocks[o.block].statements|
    requires Agrees(s.frame, p.locals, p.history, c) && Fresh(s.frame, p.locals, c)
    requires At(s.blocks, s.frame, c, Rest(s, o.block, next), TermOf(s, o.block))
    ensures InsideNext(env, s, p, o, c)
  {
    hide Agrees, Fresh, At, Rest, TermOf;
  }

  /** `p` follows `o` in its block, and `c` is where the instrumented function executes what remains there. */
  ghost predicate InsideNext(env: Env, s: Subject, p: Config, o: Config, c: Config)
    requires Instrumented(env, s)
  {
    && o.Running? && p.Running? && p.block == o.block < |s.func.blocks|
    && p.idx == o.idx + 1 <= |s.func.blocks[p.block].statements|
    && Agrees(s.frame, p.locals, p.history, c) && Fresh(s.frame, p.locals, c)
    && At(s.blocks, s.frame, c, Rest(s, p.block, p.idx), TermOf(s, p.block))
  }

  lemma MadeRuns(c: Config, d: Config, log: Log)
    requires Made(c, d, log)
    ensures d.Running?
  {
  }

  lemma MadeThen(c: Config, d: Config, e: Config, log: Log)
    requires Made(c, d, log) && Made(d, e, LogOf(d))
    ensures Made(c, e, log)
  {
  }

  /** Everything one original statement became. */
  lemma RunChunk(env: Env, s: Subject, c: Config, o: Config) returns (k: nat, d: Config)
    requires Instrumented(env, s) && o.Running? && Agrees(s.frame, o.locals, o.history, c) && Fresh(s.frame, o.locals, c)
    requires o.block < |s.func.blocks| && o.idx < |s.func.blocks[o.block].statements| && s.size <= |c.locals|
    requires At(s.blocks, s.frame, c, Rest(s, o.block, o.idx), TermOf(s, o.block))
    ensures k >= 1 && Leads(env, s.blocks, c, k, d)
    ensures Made(c, d, SiteLog(env, s, o.block, o.idx, |o.history|, o.locals, LogOf(c)))
    ensures InsideNext(env, s, Step(env, s.func.blocks, o), o, d)
  {
    assert c.Running? && |s.func.blocks| == |s.ctxs|;
    hide Instrumented, Agrees, Fresh, At, Rest, StatementTail, TermOf, SiteLog, InsideNext, Leads, Step, Run, Made, LogOf;
    var j, e := RunSite(env, s, c, o.block, o.idx, o.locals, o.history);
    var i;
    var log := SiteLog(env, s, o.block, o.idx, |o.history|, o.locals, LogOf(c));
    MadeRuns(c, e, log);
    i, d := RunTail(env, s, e, o);
    MadeThen(c, e, d, log);
    LeadsOn(env, s.blocks, c, j, e, i, d);
    k := j + i;
  }

  ghost function SiteItem(s: Subject, b: nat, i: nat): seq<Item>
    requires b < |s.func.blocks| == |s.ctxs| && i < |s.func.blocks[b].statements|
  {
    if IsSite(s.func.blocks[b].statements, s.ctxs[b], i) then [Stop(PackLine(s.func.blocks[b].statements[i].span))] else []
  }

  lemma ChunkShape(s: Subject, b: nat, i: nat)
    requires b < |s.func.blocks| == |s.ctxs| && i < |s.func.blocks[b].statements|
    ensures Rest(s, b, i) == SiteItem(s, b, i) + StatementTail(s, b, i)
  {
    var stmt := s.func.blocks[b].statements[i];
    var stop, keep, store, rest := SiteItem(s, b, i), [Keep(stmt)], StoreAfter(s.cells, s.mode.Deferred(), stmt), Rest(s, b, i + 1);
    assert ChunkOf(s, b, i) == (stop + keep) + store;
    Assoc(stop + keep, store, rest);
    Assoc(stop, keep, store + rest);
  }

  lemma StopAtHead(s: Subject, c: Config, key: LineKey, tail: seq<Item>, b: nat)
    requires b < |s.func.blocks| && At(s.blocks, s.frame, c, [Stop(key)] + tail, TermOf(s, b))
    ensures ExecutesStop(s.blocks, s.frame, c.block, c.idx, key, tail, TermOf(s, b))
  {
    assert ([Stop(key)] + tail)[1..] == tail;
  }

  lemma CellsAreInside(env: Env, s: Subject)
    requires Instrumented(env, s)
    ensures CellsInside(s.frame)
  {
  }

  // ---------------------------------------------------------------- the prelude

  ghost predicate IsParam(x: nat, argCount: nat)
  {
    1 <= x <= argCount
  }

  /** Every cell that is not a parameter's is up to date. */
  ghost predicate FreshButParams(s: Subject, locals: seq<int>, mirror: seq<int>)
  {
    && |mirror| == |s.cells|
    && (!s.frame.flush ==>
          forall k: nat :: k < |s.cells| && !IsParam(s.cells[k], s.func.argCount) ==> mirror[k] == Read(locals, s.cells[k]))
  }

  /** The mirror after the first `n` parameters have been stored. */
  ghost predicate ParamsStored(cells: Cells, locals: seq<int>, n: nat, before: seq<int>, after: seq<int>)
  {
    && |after| == |before| == |cells|
    && forall k: nat :: k < |cells| ==> after[k] == if IsParam(cells[k], n) then Read(locals, cells[k]) else before[k]
  }

  lemma ParamStored(cells: Cells, locals: seq<int>, m: nat, n: nat, before: seq<int>, mid: seq<int>, cell: nat)
    requires ParamsStored(cells, locals, m, before, mid) && n == m + 1 && cell < |cells| && cells[cell] == n
    requires forall c, d :: 0 <= c < d < |cells| ==> cells[c] < cells[d]
    ensures ParamsStored(cells, locals, n, before, Write(mid, cell, Read(locals, n)))
  {
    forall k: nat | k < |cells| && k != cell ensures cells[k] != n {
      assert k < cell || k > cell;
    }
  }

  lemma ParamNotMirrored(cells: Cells, locals: seq<int>, m: nat, n: nat, before: seq<int>, mid: seq<int>)
    requires ParamsStored(cells, locals, m, before, mid) && n == m + 1 && n !in cells
    ensures ParamsStored(cells, locals, n, before, mid)
  {
    forall k: nat | k < |cells| ensures cells[k] != n {
      assert cells[k] in cells;
    }
  }

  ghost function ParamItem(cells: Cells, n: nat): seq<Item>
  {
    if CellOf(cells, n).Some? then [Insert(Store(CellOf(cells, n).value, n))] else []
  }

  /** The store of parameter `n`, if it is mirrored. */
  lemma RunParam(env: Env, s: Subject, c: Config, m: nat, n: nat, rest: seq<Item>, term: Option<Terminator>,
                 locals: seq<int>, history: seq<Event>, before: seq<int>)
    returns (k: nat, d: Config)
    requires Instrumented(env, s) && n == m + 1 && Agrees(s.frame, locals, history, c)
    requires At(s.blocks, s.frame, c, ParamItem(s.cells, n) + rest, term)
    requires ParamsStored(s.cells, locals, m, before, c.dbg.mirror)
    ensures Leads(env, s.blocks, c, k, d) && Made(c, d, LogOf(c)) && Agrees(s.frame, locals, history, d)
    ensures At(s.blocks, s.frame, d, rest, term)
    ensures ParamsStored(s.cells, locals, n, before, d.dbg.mirror)
  {
    var cell := CellOf(s.cells, n);
    if cell.Some? {
      d := RunInsert(env, s.blocks, s.frame, c, Store(cell.value, n), rest, term, locals, history);
      k := 1;
      StoredLocal(s, env, locals, history, c, n, cell.value);
      ParamStored(s.cells, locals, m, n, before, c.dbg.mirror, cell.value);
    } else {
      assert [] + rest == rest;
      k, d := 0, c;
      ParamNotMirrored(s.cells, locals, m, n, before, c.dbg.mirror);
    }
  }

  lemma {:induction false} RunStoreArgs(env: Env, s: Subject, c: Config, n: nat, rest: seq<Item>, term: Option<Terminator>,
                                       locals: seq<int>, history: seq<Event>)
    returns (k: nat, d: Config)
    requires Instrumented(env, s) && Agrees(s.frame, locals, history, c)
    requires At(s.blocks, s.frame, c, StoreArgs(s.cells, n) + rest, term)
    ensures Leads(env, s.blocks, c, k, d) && Made(c, d, LogOf(c)) && Agrees(s.frame, locals, history, d)
    ensures At(s.blocks, s.frame, d, rest, term)
    ensures ParamsStored(s.cells, locals, n, c.dbg.mirror, d.dbg.mirror)
    decreases n
  {
    if n == 0 {
      assert [] + rest == rest;
      k, d := 0, c;
    } else {
      var m := n - 1;
      assert StoreArgs(s.cells, n) == StoreArgs(s.cells, m) + ParamItem(s.cells, n);
      Assoc(StoreArgs(s.cells, m), ParamItem(s.cells, n), rest);
      var j, e := RunStoreArgs(env, s, c, m, ParamItem(s.cells, n) + rest, term, locals, history);
      var i;
      i, d := RunParam(env, s, e, m, n, rest, term, locals, history, c.dbg.mirror);
      LeadsOn(env, s.blocks, c, j, e, i, d);
      k := j + i;
    }
  }

  lemma StoredLocal(s: Subject, env: Env, locals: seq<int>, history: seq<Event>, c: Config, x: nat, cell: nat)
    requires Instrumented(env, s) && Agrees(s.frame, locals, history, c) && cell < |s.cells| && s.cells[cell] == x
    ensures Read(c.locals, x) == Read(locals, x)
  {
  }

  lemma FreshAfterParams(s: Subject, env: Env, locals: seq<int>, before: seq<int>, d: Config)
    requires Instrumented(env, s) && d.Running? && FreshButParams(s, locals, before)
    requires ParamsStored(s.cells, locals, s.func.argCount, before, d.dbg.mirror)
    ensures Fresh(s.frame, locals, d)
  {
  }

  ghost function EnterCount(s: Subject): nat
  {
    if s.mode.stateMachine then 0 else 1
  }

  /** The prelude: the enter call and the stores of all parameters. */
  lemma RunPrelude(env: Env, s: Subject, c: Config, rest: seq<Item>, term: Option<Terminator>, locals: seq<int>, history: seq<Event>)
    returns (k: nat, d: Config)
    requires Instrumented(env, s) && Agrees(s.frame, locals, history, c) && FreshButParams(s, locals, c.dbg.mirror)
    requires At(s.blocks, s.frame, c, PreludeOf(s, 0) + rest, term)
    ensures Leads(env, s.blocks, c, k, d) && Agrees(s.frame, locals, history, d) && Fresh(s.frame, locals, d)
    ensures At(s.blocks, s.frame, d, rest, term)
    ensures LogOf(d) == LogOf(c) && |d.locals| == |c.locals|
    ensures d.dbg.exits == c.dbg.exits && d.dbg.enters == c.dbg.enters + EnterCount(s)
  {
    var args := StoreArgs(s.cells, s.func.argCount);
    var e, j := c, 0;
    if s.mode.stateMachine {
      assert [] + args == args;
    } else {
      Assoc([Insert(Enter(s.mode.fnId))], args, rest);
      e := RunInsert(env, s.blocks, s.frame, c, Enter(s.mode.fnId), args + rest, term, locals, history);
      j := 1;
    }
    k, d := RunStoreArgs(env, s, e, s.func.argCount, rest, term, locals, history);
    FreshAfterParams(s, env, locals, c.dbg.mirror, d);
    LeadsOn(env, s.blocks, c, j, e, k, d);
    k := j + k;
  }

  /** The start of a block's code, up to its first original statement; the entry block begins with the prelude. */
  lemma RunStart(env: Env, s: Subject, c: Config, b: nat, locals: seq<int>, history: seq<Event>) returns (k: nat, d: Config)
    requires Instrumented(env, s) && Agrees(s.frame, locals, history, c) && b < |s.func.blocks|
    requires c.block == b && c.idx == 0
    requires if b == 0 then FreshButParams(s, locals, c.dbg.mirror) else Fresh(s.frame, locals, c)
    ensures Leads(env, s.blocks, c, k, d) && Agrees(s.frame, locals, history, d) && Fresh(s.frame, locals, d)
    ensures At(s.blocks, s.frame, d, Rest(s, b, 0), TermOf(s, b))
    ensures LogOf(d) == LogOf(c) && |d.locals| == |c.locals| && d.dbg.exits == c.dbg.exits
    ensures d.dbg.enters == c.dbg.enters + if b == 0 then EnterCount(s) else 0
  {
    CodeIsRest(s, b);
    assert At(s.blocks, s.frame, c, CodeOf(s, b), TermOf(s, b));
    var rest := Rest(s, b, 0);
    if b != 0 {
      assert [] + rest == rest;
      k, d := 0, c;
    } else {
      k, d := RunPrelude(env, s, c, rest, TermOf(s, b), locals, history);
    }
  }

  // ---------------------------------------------------------------- simulation

  /** No block jumps back to the entry block. */
  ghost predicate EntryNotTarget(func: MirFunction)
  {
    forall b :: 0 <= b < |func.blocks| ==> 0 !in Targets(func.blocks[b])
  }

  ghost predicate CountsOk(s: Subject, dbg: Debugger, exits: nat, log: Log)
  {
    Log(dbg.checks, dbg.stops) == log && dbg.exits == exits && (EntryNotTarget(s.func) ==> dbg.enters == EnterCount(s))
  }

  /** The original is at a statement or terminator; the instrumented function is at the code made of it and
      has made the checks and stops in `log`. */
  ghost predicate Matches(env: Env, s: Subject, o: Config, c: Config, log: Log)
    requires Instrumented(env, s)
  {
    && o.Running? && o.block < |s.func.blocks| && o.idx <= |s.func.blocks[o.block].statements|
    && Agrees(s.frame, o.locals, o.history, c) && Fresh(s.frame, o.locals, c)
    && At(s.blocks, s.frame, c, Rest(s, o.block, o.idx), TermOf(s, o.block))
    && CountsOk(s, c.dbg, 0, log) && s.size <= |c.locals|
  }

  /** Both have stopped, with the same result and effects; a return was announced exactly once. */
  ghost predicate Ends(s: Subject, o: Config, c: Config, log: Log)
  {
    match o
    case Running(_, _, _, _, _) => false
    case Returned(value, history, _) => c.Returned? && c.value == value && c.history == history && CountsOk(s, c.dbg, EnterCount(s), log)
    case Stuck(history, _) => c.Stuck? && c.history == history && LogOf(c) == log
  }

  ghost predicate Follows(env: Env, s: Subject, o: Config, c: Config, log: Log)
    requires Instrumented(env, s)
  {
    if o.Running? then Matches(env, s, o, c, log) else Ends(s, o, c, log)
  }

  lemma {:induction false} SelectIsTarget(targets: seq<(int, nat)>, otherwise: nat, v: int)
    ensures Select(targets, otherwise, v) == otherwise || exists i :: 0 <= i < |targets| && targets[i].1 == Select(targets, otherwise, v)
    decreases |targets|
  {
    if targets != [] && targets[0].0 != v {
      SelectIsTarget(targets[1..], otherwise, v);
      if i :| 0 <= i < |targets| - 1 && targets[1..][i].1 == Select(targets[1..], otherwise, v) {
        assert targets[i + 1].1 == Select(targets, otherwise, v);
      }
    }
  }

  /** A jump of the original goes to one of the block's targets. */
  lemma JumpsToTarget(env: Env, bb: BasicBlock, o: Config)
    requires o.Running?
    ensures var p := StepTerminator(env, o, bb.terminator); p.Running? ==> p.block in Targets(bb) && p.idx == 0 && p.locals == o.locals && p.history == o.history
  {
    if bb.terminator.Some? && bb.terminator.value.kind.SwitchInt? {
      var t := bb.terminator.value.kind;
      var v := WordOf(env, o.locals, t.discr);
      SelectIsTarget(t.targets, t.otherwise, v);
      var targets := Targets(bb);
      assert targets[|t.targets|] == t.otherwise;
      assert forall i :: 0 <= i < |t.targets| ==> targets[i] == t.targets[i].1;
    }
  }

  /** The same terminator, met in agreeing states. */
  lemma SameTerminator(env: Env, s: Subject, o: Config, c: Config)
    requires Instrumented(env, s) && o.Running? && o.block < |s.func.blocks| && Agrees(s.frame, o.locals, o.history, c)
    requires At(s.blocks, s.frame, c, [], TermOf(s, o.block))
    ensures var p, d, n := StepTerminator(env, o, TermOf(s, o.block)), Step(env, s.blocks, c), |s.func.locals|;
      match p
      case Running(b, i, locals, history, _) =>
        d.Running? && d.block == b && d.idx == 0 && d.dbg == c.dbg && d.locals == c.locals && d.history == c.history
      case Returned(value, history, _) => d == Returned(value, history, c.dbg)
      case Stuck(history, _) => d == Stuck(history, c.dbg)
  {
    assert PlainBlock(env, s.func.blocks[o.block], |s.func.locals|);
    var term := TermOf(s, o.block);
    if term.Some? && term.value.kind.SwitchInt? {
      assert WordOf(env, o.locals, term.value.kind.discr) == WordOf(env, c.locals, term.value.kind.discr);
    }
  }

  /** A return, announced by the exit call. */
  lemma RunReturn(env: Env, s: Subject, o: Config, c: Config, log: Log) returns (k: nat, d: Config)
    requires Instrumented(env, s) && Matches(env, s, o, c, log) && o.idx == |s.func.blocks[o.block].statements|
    requires EndsInReturn(s.func.blocks[o.block])
    ensures k >= 1 && Leads(env, s.blocks, c, k, d) && Ends(s, Step(env, s.func.blocks, o), d, log)
  {
    var e, j := c, 0;
    if !s.mode.stateMachine {
      assert [Insert(Exit)] + [] == [Insert(Exit)];
      e := RunInsert(env, s.blocks, s.frame, c, Exit, [], TermOf(s, o.block), o.locals, o.history);
      j := 1;
    }
    SameTerminator(env, s, o, e);
    d := Step(env, s.blocks, e);
    LeadsOne(env, s.blocks, e);
    LeadsOn(env, s.blocks, c, j, e, 1, d);
    k := j + 1;
  }

  /** What a jump of the original leads to in both functions. */
  lemma BothJump(env: Env, s: Subject, o: Config, c: Config, log: Log)
    requires Instrumented(env, s) && Matches(env, s, o, c, log) && o.idx == |s.func.blocks[o.block].statements|
    requires !EndsInReturn(s.func.blocks[o.block])
    ensures var p, d := Step(env, s.func.blocks, o), Step(env, s.blocks, c);
      if p.Running? then
        && p.block < |s.func.blocks| && p.idx == 0 && p.block in Targets(s.func.blocks[o.block])
        && Agrees(s.frame, p.locals, p.history, d) && FreshButParams(s, p.locals, d.dbg.mirror) && Fresh(s.frame, p.locals, d)
        && d.block == p.block && d.idx == 0 && d.dbg == c.dbg && |d.locals| == |c.locals|
      else Ends(s, p, d, log)
  {
    hide Executes, MirrorFor, Run;
    var p := Step(env, s.func.blocks, o);
    SameTerminator(env, s, o, c);
    JumpsToTarget(env, s.func.blocks[o.block], o);
    if p.Running? {
      assert p.block < |s.func.blocks|;
      FreshIsFreshButParams(s, env, p.locals, Step(env, s.blocks, c));
    }
  }

  /** A jump, or running into a block end that goes nowhere. */
  lemma RunJump(env: Env, s: Subject, o: Config, c: Config, log: Log) returns (k: nat, d: Config)
    requires Instrumented(env, s) && Matches(env, s, o, c, log) && o.idx == |s.func.blocks[o.block].statements|
    requires !EndsInReturn(s.func.blocks[o.block])
    ensures k >= 1 && Leads(env, s.blocks, c, k, d)
    ensures Follows(env, s, Step(env, s.func.blocks, o), d, log)
  {
    var p, e := Step(env, s.func.blocks, o), Step(env, s.blocks, c);
    LeadsOne(env, s.blocks, c);
    BothJump(env, s, o, c, log);
    assert EntryNotTarget(s.func) ==> 0 !in Targets(s.func.blocks[o.block]);
    assert c.Running? && |s.func.blocks| == |s.ctxs|;
    assert p.Running? ==> e.Running?;
    hide Instrumented, At, Run, Step, Leads, Agrees, Fresh, FreshButParams, EntryNotTarget, Rest, TermOf, EnterCount, Targets, EndsInReturn;
    if p.Running? {
      var j;
      j, d := RunStart(env, s, e, p.block, p.locals, p.history);
      LeadsOn(env, s.blocks, c, 1, e, j, d);
      k := 1 + j;
    } else {
      k, d := 1, e;
    }
  }

  lemma FreshIsFreshButParams(s: Subject, env: Env, locals: seq<int>, c: Config)
    requires Instrumented(env, s) && c.Running? && |c.dbg.mirror| == |s.cells| && Fresh(s.frame, locals, c)
    ensures FreshButParams(s, locals, c.dbg.mirror)
  {
  }

  /** The line check that an original state calls for: at a statement that starts a line, before it. */
  ghost function ChecksAt(s: Subject, o: Config): seq<Check>
    requires |s.func.blocks| == |s.ctxs|
  {
    if o.Running? && o.block < |s.func.blocks| && o.idx < |s.func.blocks[o.block].statements|
    then SiteChecks(s, o.block, o.idx, |o.history|)
    else []
  }

  /** What one step of the original adds to the log. */
  ghost function StepLog(env: Env, s: Subject, o: Config, log: Log): (r: Log)
    requires |s.func.blocks| == |s.ctxs|
    ensures r.checks == log.checks + ChecksAt(s, o)
  {
    if o.Running? && o.block < |s.func.blocks| && o.idx < |s.func.blocks[o.block].statements|
    then SiteLog(env, s, o.block, o.idx, |o.history|, o.locals, log)
    else log
  }

  /** One step of the original is matched by at least one step of the instrumented function, and by the line
      check and the stop it calls for. */
  lemma SimulateStep(env: Env, s: Subject, o: Config, c: Config, log: Log) returns (k: nat, d: Config)
    requires Instrumented(env, s) && Matches(env, s, o, c, log)
    ensures k >= 1 && Leads(env, s.blocks, c, k, d)
    ensures Follows(env, s, Step(env, s.func.blocks, o), d, StepLog(env, s, o, log))
  {
    if o.idx < |s.func.blocks[o.block].statements| {
      k, d := RunChunk(env, s, c, o);
    } else if EndsInReturn(s.func.blocks[o.block]) {
      k, d := RunReturn(env, s, o, c, log);
    } else {
      k, d := RunJump(env, s, o, c, log);
    }
  }

  // ---------------------------------------------------------------- whole runs

  /** The call starts: equal original locals, no effects yet, and mirror cells equal to their locals except
      that parameters' cells may hold anything. */
  ghost predicate Starts(s: Subject, o: Config, c: Config)
  {
    && o.Running? && o.block == 0 && o.idx == 0
    && Agrees(s.frame, o.locals, o.history, c) && c.block == 0 && c.idx == 0
    && FreshButParams(s, o.locals, c.dbg.mirror)
    && s.size <= |c.locals| && LogOf(c) == Log([], []) && c.dbg.enters == 0 && c.dbg.exits == 0
  }

  /** What the first `k` steps of the original call for. */
  ghost function RunLog(env: Env, s: Subject, o: Config, k: nat): Log
    requires |s.func.blocks| == |s.ctxs|
  {
    if k == 0 then Log([], []) else StepLog(env, s, Run(env, s.func.blocks, o, k - 1), RunLog(env, s, o, k - 1))
  }

  /** The line checks among it. */
  ghost function CheckLog(env: Env, s: Subject, o: Config, k: nat): seq<Check>
    requires |s.func.blocks| == |s.ctxs|
  {
    RunLog(env, s, o, k).checks
  }

  lemma {:induction false} RunLogGrows(env: Env, s: Subject, o: Config, j: nat, k: nat)
    requires |s.func.blocks| == |s.ctxs| && k == j + 1
    ensures RunLog(env, s, o, k) == StepLog(env, s, Run(env, s.func.blocks, o, j), RunLog(env, s, o, j))
  {
    hide Run, StepLog, Step, WithCheck, Values, IsSite, PackLine, ChecksAt, CheckLog;
    assert k != 0 && k - 1 == j;
  }

  lemma CheckLogGrows(env: Env, s: Subject, o: Config, j: nat, k: nat)
    requires |s.func.blocks| == |s.ctxs| && k == j + 1
    ensures CheckLog(env, s, o, k) == CheckLog(env, s, o, j) + ChecksAt(s, Run(env, s.func.blocks, o, j))
  {
    RunLogGrows(env, s, o, j, k);
    hide Run, ChecksAt, RunLog;
  }

  /** After `k` steps the original is at `p`, after `m` the instrumented function is at `d`. */
  ghost predicate InStep(env: Env, s: Subject, p: Config, k: nat, d: Config, m: nat, log: Log)
    requires Instrumented(env, s)
  {
    Follows(env, s, p, d, log) && (p.Running? ==> m >= k)
  }

  lemma FinalStays(env: Env, blocks: seq<BasicBlock>, c: Config)
    requires !c.Running?
    ensures Step(env, blocks, c) == c
  {
  }

  lemma StayInStep(env: Env, s: Subject, p: Config, k: nat, k': nat, c: Config, m: nat, d: Config, log: Log)
    returns (m': nat, d': Config)
    requires k' == k + 1 && Instrumented(env, s) && InStep(env, s, p, k, d, m, log) && Leads(env, s.blocks, c, m, d)
    ensures Leads(env, s.blocks, c, m', d')
    ensures InStep(env, s, Step(env, s.func.blocks, p), k', d', m', StepLog(env, s, p, log))
  {
    if p.Running? {
      var i, e := SimulateStep(env, s, p, d, log);
      LeadsOn(env, s.blocks, c, m, d, i, e);
      m', d' := m + i, e;
    } else {
      FinalStays(env, s.func.blocks, p);
      m', d' := m, d;
    }
  }

  lemma SimulateStart(env: Env, s: Subject, o: Config, c: Config) returns (m: nat, d: Config)
    requires Instrumented(env, s) && Starts(s, o, c)
    ensures Leads(env, s.blocks, c, m, d) && InStep(env, s, o, 0, d, m, Log([], []))
  {
    hide Run, MirrorFor, Executes, Leads;
    m, d := RunStart(env, s, c, 0, o.locals, o.history);
  }

  /** `k` steps of the original are matched by at least `k` steps of the instrumented function while the
      original runs, and by its end when the original ends; the checks made are exactly those called for. */
  lemma {:induction false} Simulate(env: Env, s: Subject, o: Config, c: Config, k: nat) returns (m: nat, d: Config)
    requires Instrumented(env, s) && Starts(s, o, c)
    ensures Leads(env, s.blocks, c, m, d) && InStep(env, s, Run(env, s.func.blocks, o, k), k, d, m, RunLog(env, s, o, k))
    decreases k
  {
    assert Run(env, s.func.blocks, o, 0) == o && |s.func.blocks| == |s.ctxs|;
    hide InStep, Leads, Starts, Instrumented, Run, Step, ChecksAt;
    if k == 0 {
      m, d := SimulateStart(env, s, o, c);
    } else {
      var j: nat := k - 1;
      RunLogGrows(env, s, o, j, k);
      hide RunLog;
      m, d := Simulate(env, s, o, c, j);
      RunOneMore(env, s.func.blocks, o, j, k);
      m, d := StayInStep(env, s, Run(env, s.func.blocks, o, j), j, k, c, m, d, RunLog(env, s, o, j));
    }
  }

  /** The observable end of a run. */
  datatype Outcome = Done(value: int, effects: seq<Event>) | Fault(effects: seq<Event>)

  ghost predicate EndsWith(env: Env, blocks: seq<BasicBlock>, c: Config, k: nat, out: Outcome)
  {
    match Run(env, blocks, c, k)
    case Running(_, _, _, _, _) => false
    case Returned(value, history, _) => out == Done(value, history)
    case Stuck(history, _) => out == Fault(history)
  }

  /** Two finished runs from one state are the same. */
  lemma FinalIsUnique(env: Env, blocks: seq<BasicBlock>, c: Config, j: nat, k: nat)
    requires !Run(env, blocks, c, j).Running? && !Run(env, blocks, c, k).Running?
    ensures Run(env, blocks, c, j) == Run(env, blocks, c, k)
  {
    if j <= k {
      RunAdd(env, blocks, c, j, k - j);
      RunFinal(env, blocks, Run(env, blocks, c, j), k - j);
    } else {
      RunAdd(env, blocks, c, k, j - k);
      RunFinal(env, blocks, Run(env, blocks, c, k), j - k);
    }
  }

  lemma FinishedStays(env: Env, blocks: seq<BasicBlock>, c: Config, j: nat, k: nat)
    requires !Run(env, blocks, c, j).Running? && j <= k
    ensures Run(env, blocks, c, k) == Run(env, blocks, c, j)
  {
    RunAdd(env, blocks, c, j, k - j);
    RunFinal(env, blocks, Run(env, blocks, c, j), k - j);
  }

  /** When the instrumented function has ended, so has the original, in the same way. */
  lemma OriginalEnds(env: Env, s: Subject, o: Config, c: Config, m: nat)
    requires Instrumented(env, s) && Starts(s, o, c) && !Run(env, s.blocks, c, m).Running?
    ensures Ends(s, Run(env, s.func.blocks, o, m + 1), Run(env, s.blocks, c, m), RunLog(env, s, o, m + 1))
  {
    var i, d := Simulate(env, s, o, c, m + 1);
    if Run(env, s.func.blocks, o, m + 1).Running? {
      FinishedStays(env, s.blocks, c, m, i);
    } else {
      FinalIsUnique(env, s.blocks, c, m, i);
    }
  }

  /** The instrumented function returns or faults exactly when the original does, with the same value and
      the same effects, whatever the line checks answer. */
  lemma SameOutcomes(env: Env, s: Subject, o: Config, c: Config, out: Outcome)
    requires Instrumented(env, s) && Starts(s, o, c)
    ensures (exists k: nat :: EndsWith(env, s.func.blocks, o, k, out)) <==> (exists m: nat :: EndsWith(env, s.blocks, c, m, out))
  {
    if k: nat :| EndsWith(env, s.func.blocks, o, k, out) {
      var m, d := Simulate(env, s, o, c, k);
      assert EndsWith(env, s.blocks, c, m, out);
    }
    if m: nat :| EndsWith(env, s.blocks, c, m, out) {
      OriginalEnds(env, s, o, c, m);
      assert EndsWith(env, s.func.blocks, o, m + 1, out);
    }
  }

  lemma RunsInStep(env: Env, s: Subject, p: Config, k: nat, d: Config, m: nat, log: Log)
    requires Instrumented(env, s) && InStep(env, s, p, k, d, m, log) && p.Running?
    ensures m >= k && d.Running? && d.history == p.history && LogOf(d) == log
  {
  }

  lemma OneCheckAnswered(env: Env, log: Log, check: Check, seen: seq<int>)
    requires StopPoints(log.halts) == Answered(env, log.checks)
    ensures var next := WithCheck(env, log, check, seen); StopPoints(next.halts) == Answered(env, next.checks)
  {
    var next := WithCheck(env, log, check, seen);
    assert next.checks[..|log.checks|] == log.checks;
    assert StopPoints(log.halts + [Halt(check.key, check.at, seen)]) == StopPoints(log.halts) + [check];
  }

  /** The stops called for are the checks answered with something else than 0. */
  lemma {:induction false} LogIsAnswered(env: Env, s: Subject, o: Config, k: nat)
    requires |s.func.blocks| == |s.ctxs|
    ensures var log := RunLog(env, s, o, k); StopPoints(log.halts) == Answered(env, log.checks)
    decreases k
  {
    if k > 0 {
      var j: nat := k - 1;
      LogIsAnswered(env, s, o, j);
      RunLogGrows(env, s, o, j, k);
      hide RunLog, Run, Answered, StopPoints, WithCheck, IsSite;
      var p := Run(env, s.func.blocks, o, j);
      if p.Running? && p.block < |s.func.blocks| && p.idx < |s.func.blocks[p.block].statements| {
        OneCheckAnswered(env, RunLog(env, s, o, j), Check(PackLine(s.func.blocks[p.block].statements[p.idx].span), |p.history|),
                         Values(s.cells, p.locals));
      }
    }
  }

  /** Step `i` of the original is about to execute the statement on line `halt.key`, and `halt` shows its mirrored locals. */
  ghost predicate Shows(env: Env, s: Subject, o: Config, i: nat, halt: Halt)
  {
    var p := Run(env, s.func.blocks, o, i);
    && p.Running? && p.block < |s.func.blocks| && p.idx < |s.func.blocks[p.block].statements|
    && halt == Halt(PackLine(s.func.blocks[p.block].statements[p.idx].span), |p.history|, Values(s.cells, p.locals))
  }

  /** Every stop called for shows the mirrored locals as they are in the original at that moment. */
  lemma {:induction false} StopsShowLocals(env: Env, s: Subject, o: Config, k: nat, halt: Halt)
    requires |s.func.blocks| == |s.ctxs| && halt in RunLog(env, s, o, k).halts
    ensures exists i: nat :: i < k && Shows(env, s, o, i, halt)
    decreases k
  {
    var j: nat := k - 1;
    RunLogGrows(env, s, o, j, k);
    if halt in RunLog(env, s, o, j).halts {
      StopsShowLocals(env, s, o, j, halt);
      var i: nat :| i < j && Shows(env, s, o, i, halt);
    } else {
      assert Shows(env, s, o, j, halt);
    }
  }

  /** In every finished run of an instrumented function the stops made are exactly the line checks answered with
      something else than 0, in order. */
  lemma StopsMade(env: Env, s: Subject, o: Config, c: Config, m: nat)
    requires Instrumented(env, s) && Starts(s, o, c) && !Run(env, s.blocks, c, m).Running?
    ensures var d := Run(env, s.blocks, c, m).dbg;
      && StopPoints(d.stops) == Answered(env, d.checks)
      && forall halt :: halt in d.stops ==> exists i: nat :: Shows(env, s, o, i, halt)
  {
    assert |s.func.blocks| == |s.ctxs|;
    OriginalEnds(env, s, o, c, m);
    LogIsAnswered(env, s, o, m + 1);
    var p, d, log := Run(env, s.func.blocks, o, m + 1), Run(env, s.blocks, c, m), RunLog(env, s, o, m + 1);
    assert Ends(s, p, d, log) && LogOf(d) == log;
    forall halt | halt in d.dbg.stops ensures exists i: nat :: Shows(env, s, o, i, halt) {
      StopsShowLocals(env, s, o, m + 1, halt);
    }
  }

  /** And whenever the original has made any number of steps, there is a moment at which the same holds so far. */
  lemma StopsSoFar(env: Env, s: Subject, o: Config, c: Config, k: nat) returns (m: nat, d: Config)
    requires Instrumented(env, s) && Starts(s, o, c) && Run(env, s.func.blocks, o, k).Running?
    ensures m >= k && Leads(env, s.blocks, c, m, d) && d.Running? && d.history == Run(env, s.func.blocks, o, k).history
    ensures StopPoints(d.dbg.stops) == Answered(env, d.dbg.checks)
  {
    assert |s.func.blocks| == |s.ctxs|;
    hide Instrumented, Starts, InStep, Run, RunLog, Leads, Answered, StopPoints;
    m, d := Simulate(env, s, o, c, k);
    RunsInStep(env, s, Run(env, s.func.blocks, o, k), k, d, m, RunLog(env, s, o, k));
    LogIsAnswered(env, s, o, k);
  }

  lemma StepKeepsChecks(env: Env, blocks: seq<BasicBlock>, c: Config)
    requires c.Running?
    ensures c.dbg.checks <= Step(env, blocks, c).dbg.checks
  {
  }

  /** Checks made stay made. */
  lemma {:induction false} ChecksStay(env: Env, blocks: seq<BasicBlock>, c: Config, k: nat)
    requires c.Running? && Run(env, blocks, c, k).Running?
    ensures c.dbg.checks <= Run(env, blocks, c, k).dbg.checks
    decreases k
  {
    if k > 0 {
      var d := Step(env, blocks, c);
      StepKeepsChecks(env, blocks, c);
      if !d.Running? {
        RunFinal(env, blocks, d, k - 1);
        assert false;
      }
      ChecksStay(env, blocks, d, k - 1);
    }
  }

  lemma {:induction false} LeadsFrom(env: Env, blocks: seq<BasicBlock>, c: Config, m: nat, i: nat, e: Config)
    requires Leads(env, blocks, c, i, e) && m <= i && e.Running?
    ensures var d := Run(env, blocks, c, m); d.Running? && d.dbg.checks <= e.dbg.checks
  {
    var d, rest := Run(env, blocks, c, m), i - m;
    assert Run(env, blocks, c, i) == e;
    RunAdd(env, blocks, c, m, rest);
    hide Run;
    if d.Running? {
      ChecksStay(env, blocks, d, rest);
    } else {
      RunFinal(env, blocks, d, rest);
      assert false;
    }
  }

  /** While the original runs on, so does the instrumented function, with no checks but those called for. */
  lemma {:induction false} ChecksSoFar(env: Env, s: Subject, o: Config, c: Config, m: nat)
    requires Instrumented(env, s) && Starts(s, o, c) && Run(env, s.func.blocks, o, m).Running?
    ensures var d := Run(env, s.blocks, c, m); d.Running? && d.dbg.checks <= CheckLog(env, s, o, m)
  {
    assert |s.func.blocks| == |s.ctxs|;
    var p := Run(env, s.func.blocks, o, m);
    hide Instrumented, Starts, InStep, Run, RunLog, Leads;
    var i, e := Simulate(env, s, o, c, m);
    RunsInStep(env, s, p, m, e, i, RunLog(env, s, o, m));
    LeadsFrom(env, s.blocks, c, m, i, e);
  }

  /** A completed run has made exactly the line checks that the original's run calls for, in order. */
  lemma ChecksMade(env: Env, s: Subject, o: Config, c: Config, m: nat)
    requires Instrumented(env, s) && Starts(s, o, c) && Run(env, s.blocks, c, m).Returned?
    ensures Run(env, s.blocks, c, m).dbg.checks == CheckLog(env, s, o, m + 1)
  {
    OriginalEnds(env, s, o, c, m);
  }

  /** A completed run has called exit exactly once and, when nothing jumps back to the entry, enter exactly
      once; a state machine calls neither. */
  lemma OneEnterOneExit(env: Env, s: Subject, o: Config, c: Config, m: nat)
    requires Instrumented(env, s) && Starts(s, o, c) && Run(env, s.blocks, c, m).Returned?
    ensures var calls := if s.mode.stateMachine then 0 else 1;
      && Run(env, s.blocks, c, m).dbg.exits == calls
      && (EntryNotTarget(s.func) ==> Run(env, s.blocks, c, m).dbg.enters == calls)
  {
    OriginalEnds(env, s, o, c, m);
  }
}

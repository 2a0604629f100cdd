/** Instrumenting functions for the debugger, and what the inserted stop checks cover. */
module DebugHooks {
  import opened Mir
  import opened Options
  import opened Graphs
  import opened Postorder
  import Flow
  import opened LineContext
  import opened Machine
  import opened HookPlan
  import opened HookSimulation
  import opened Instrumenter

  // ---------------------------------------------------------------- which functions, which cells

  /** A function without a single real span is compiler-made and is left alone. */
  predicate HasRealSpan(func: MirFunction)
  {
    exists b, i :: 0 <= b < |func.blocks| && 0 <= i < |func.blocks[b].statements| && HasSpan(func.blocks[b].statements[i])
  }

  predicate IsMirrored(decl: LocalDecl)
  {
    decl.name.Some? && !decl.ty.Vector?
  }

  /** The mirrored locals among the first `n`. */
  function NamedCells(locals: seq<LocalDecl>, n: nat): (r: Cells)
    requires n <= |locals|
    ensures forall x: nat :: x in r <==> x < n && IsMirrored(locals[x])
    ensures forall c, d :: 0 <= c < d < |r| ==> r[c] < r[d]
  {
    if n == 0 then []
    else
      var r := NamedCells(locals, n - 1);
      assert forall c :: 0 <= c < |r| ==> r[c] in r;
      if IsMirrored(locals[n - 1]) then r + [n - 1] else r
  }

  predicate IsAwait(stmt: Statement)
  {
    stmt.kind.Assign? && stmt.kind.rvalue.Call? && stmt.kind.rvalue.func == Constant(Function("__olive_await"))
  }

  predicate HasAwait(bb: BasicBlock)
  {
    exists i :: 0 <= i < |bb.statements| && IsAwait(bb.statements[i])
  }

  ghost predicate ReachesAwait(func: MirFunction)
  {
    exists b: nat :: b < |func.blocks| && Reaches(FlowGraph(func), 0, b) && HasAwait(func.blocks[b])
  }

  /** Visited blocks are await-free and lead only to visited or queued ones. */
  ghost predicate Scanning(func: MirFunction, visited: set<nat>, queue: seq<nat>)
  {
    && (forall b :: b in visited || b in queue ==> b < |func.blocks| && Reaches(FlowGraph(func), 0, b))
    && (0 in visited || 0 in queue)
    && (forall b :: b in visited ==> !HasAwait(func.blocks[b]))
    && (forall b, t: nat :: b in visited && t in Targets(func.blocks[b]) ==> t in visited || t in queue)
  }

  /** Whether a reachable block awaits: breadth-first over the blocks. */
  method IsStateMachineAsync(func: MirFunction) returns (found: bool)
    requires Flow.JumpsInside(func) && |func.blocks| > 0
    ensures found <==> ReachesAwait(func)
  {
    var visited: set<nat> := {};
    var queue: seq<nat> := [0];
    ReachesSelf(FlowGraph(func), 0);
    while queue != []
      invariant Scanning(func, visited, queue)
      decreases Below(|func.blocks|) - visited, |queue|
    {
      var b := queue[0];
      assert b in queue;
      ghost var before := queue;
      queue := queue[1..];
      assert forall x :: x in before <==> x == b || x in queue;
      if b !in visited {
        assert b in Below(|func.blocks|) - visited;
        visited := visited + {b};
        if HasAwait(func.blocks[b]) {
          return true;
        }
        forall t | t in Targets(func.blocks[b]) ensures t < |func.blocks| && Reaches(FlowGraph(func), 0, t) {
          assert Edge(FlowGraph(func), b, t);
          ReachesStep(FlowGraph(func), 0, b, t);
        }
        queue := queue + Targets(func.blocks[b]);
      }
    }
    found := false;
    ScannedAll(func, visited);
  }

  /** With nothing queued, everything reachable has been visited. */
  lemma ScannedAll(func: MirFunction, visited: set<nat>)
    requires Scanning(func, visited, [])
    ensures !ReachesAwait(func)
  {
    forall b: nat | b < |func.blocks| && Reaches(FlowGraph(func), 0, b) ensures b in visited {
      var p :| PathFromTo(FlowGraph(func), p, 0, b);
      forall u: nat, v: nat | u in visited && Edge(FlowGraph(func), u, v) ensures v in visited {
        assert v in Targets(func.blocks[u]);
      }
      ClosedAlongPath(FlowGraph(func), p, visited);
    }
  }

  // ---------------------------------------------------------------- instrumenting

  /** The environment reads hook calls as the runtime does. */
  ghost predicate ReadsHooks(env: Env)
  {
    forall kind :: env.hook(kind) == AsHook(kind)
  }

  lemma FrameIsUnderstood(env: Env, func: MirFunction, mode: Mode, cells: Cells)
    requires ReadsHooks(env)
    ensures Understood(env, FrameOf(func, mode, cells))
  {
    var f := FrameOf(func, mode, cells);
    forall kind, dest: nat, h | f.isHook(kind, dest, h)
      ensures kind.Assign? && kind.dest == dest && env.hook(kind) == Some(h) && (h.Load? ==> h.local == dest)
    {
      HookReadsBack(kind, dest, h);
    }
  }

  /** Every block's context is the meet of the lines that enter it. */
  ghost predicate ExactContexts(s: Subject)
  {
    |s.ctxs| == |s.func.blocks| && forall b: nat :: b < |s.ctxs| ==> IsExact(s.func, b, s.ctxs[b])
  }

  lemma PlainDeclares(env: Env, func: MirFunction)
    requires Plain(env, func)
    ensures Declared(func.blocks, |func.locals|)
  {
    forall b, i | 0 <= b < |func.blocks| && 0 <= i < |func.blocks[b].statements| && func.blocks[b].statements[i].kind.Assign?
      ensures func.blocks[b].statements[i].kind.dest < |func.locals|
    {
      assert PlainBlock(env, func.blocks[b], |func.locals|);
    }
  }

  /** Sinks are declared, and everything else that is assigned was assigned or named before. */
  lemma StaysDeclared(func: MirFunction, cells: Cells, blocks: seq<BasicBlock>, n: nat)
    requires Declared(func.blocks, |func.locals|) && |func.locals| <= n
    requires forall c :: 0 <= c < |cells| ==> cells[c] < |func.locals|
    requires forall b, i :: 0 <= b < |blocks| && 0 <= i < |blocks[b].statements| && blocks[b].statements[i].kind.Assign? ==>
               blocks[b].statements[i].kind.dest < n || blocks[b].statements[i].kind.dest in AssignedIn(func) + set c | c in cells
    ensures Declared(blocks, n)
  {
    var given := AssignedIn(func) + set c | c in cells;
    forall x | x in given ensures x < n {
    }
  }

  lemma SubjectIsInstrumented(env: Env, s: Subject)
    requires ReadsHooks(env) && Plain(env, s.func) && s.frame == FrameOf(s.func, s.mode, s.cells)
    requires s.cells == NamedCells(s.func.locals, |s.func.locals|) && |s.ctxs| == |s.func.blocks|
    requires forall b: nat :: b < |s.ctxs| ==>
               Executes(s.blocks, s.frame, b, 0, Code(s.func, s.mode, s.cells, s.ctxs[b], true, b), s.func.blocks[b].terminator)
    requires Declared(s.func.blocks, |s.func.locals|) ==> Declared(s.blocks, s.size)
    ensures Instrumented(env, s)
  {
    PlainDeclares(env, s.func);
    FrameIsUnderstood(env, s.func, s.mode, s.cells);
    assert forall c :: 0 <= c < |s.cells| ==> s.cells[c] in s.cells;
    hide Executes, Code, Plain, Understood;
  }

  /** Instruments one function; `deferStores` selects the variant whose stores wait for a stop. */
  method InstrumentOne(func: MirFunction, fnId: nat, deferStores: bool) returns (out: MirFunction, ghost s: Subject)
    requires Flow.JumpsInside(func)
    ensures !HasRealSpan(func) ==> out == func
    ensures HasRealSpan(func) ==>
              && s.func == func && s.blocks == out.blocks && |func.locals| <= |out.locals|
              && s.mode == Mode(fnId, deferStores, func.isAsync && ReachesAwait(func))
              && s.cells == NamedCells(func.locals, |func.locals|)
              && ExactContexts(s) && s.size == |out.locals|
              && (Declared(func.blocks, |func.locals|) ==> Declared(out.blocks, |out.locals|))
              && forall env :: ReadsHooks(env) && Plain(env, func) ==> Instrumented(env, s)
  {
    out := func;
    s := Subject(func, Mode(fnId, deferStores, false), [], [], [], 0, FrameOf(func, Mode(fnId, deferStores, false), []));
    if !HasRealSpan(func) {
      return;
    }
    var stateMachine := false;
    if func.isAsync {
      stateMachine := IsStateMachineAsync(func);
    }
    var mode := Mode(fnId, deferStores, stateMachine);
    var cells := NamedCells(func.locals, |func.locals|);
    var rewriter := new Rewriter(func);
    ghost var ctxs := rewriter.InstrumentFunction(func, mode, cells);
    out := func.(locals := rewriter.locals, blocks := rewriter.blocks);
    s := Subject(func, mode, cells, ctxs, rewriter.blocks, |rewriter.locals|, FrameOf(func, mode, cells));
    if Declared(func.blocks, |func.locals|) {
      assert forall c :: 0 <= c < |cells| ==> cells[c] in cells;
      StaysDeclared(func, cells, rewriter.blocks, |rewriter.locals|);
    }
    forall env | ReadsHooks(env) && Plain(env, func) ensures Instrumented(env, s) {
      SubjectIsInstrumented(env, s);
    }
  }

  // ---------------------------------------------------------------- stop coverage

  /** `q` is a statement with a source line. */
  ghost predicate IsReal(func: MirFunction, q: Flow.Point)
  {
    Flow.IsPoint(func, q) && !Flow.AtTerminator(func, q) && HasSpan(func.blocks[q.block].statements[q.idx])
  }

  ghost function KeyAt(func: MirFunction, q: Flow.Point): LineKey
    requires IsReal(func, q)
  {
    PackLine(func.blocks[q.block].statements[q.idx].span)
  }

  /** A run of control from `q` to `r` that executes no statement with a source line in between. */
  ghost predicate QuietPath(func: MirFunction, p: seq<Flow.Point>, q: Flow.Point, r: Flow.Point)
  {
    && |p| >= 2 && p[0] == q && p[|p| - 1] == r
    && (forall i, j :: 0 <= i < j < |p| && j == i + 1 ==> Flow.Step(func, p[i], p[j]))
    && (forall i :: 0 < i < |p| - 1 ==> !IsReal(func, p[i]))
  }

  /** `x` lies further on in `q`'s block, nothing real in between. */
  ghost predicate SameRun(func: MirFunction, q: Flow.Point, x: Flow.Point)
  {
    && Flow.IsPoint(func, x) && x.block == q.block && q.idx < x.idx
    && forall m :: q.idx < m < x.idx ==> !HasSpan(func.blocks[q.block].statements[m])
  }

  /** `q`'s line enters `x`'s block, where nothing real precedes `x`. */
  ghost predicate CrossRun(func: MirFunction, q: Flow.Point, x: Flow.Point)
    requires IsReal(func, q)
  {
    && Flow.IsPoint(func, x) && Enters(func, x.block, KeyAt(func, q))
    && forall m :: 0 <= m < x.idx ==> !HasSpan(func.blocks[x.block].statements[m])
  }

  lemma {:induction false} LastRealIsTail(statements: seq<Statement>, i: nat)
    requires i < |statements| && HasSpan(statements[i])
    requires forall m :: i < m < |statements| ==> !HasSpan(statements[m])
    ensures TailLine(statements) == Some(PackLine(statements[i].span))
    decreases |statements|
  {
    if i < |statements| - 1 {
      LastRealIsTail(statements[..|statements| - 1], i);
    }
  }

  lemma LeaveRun(func: MirFunction, q: Flow.Point, y: Flow.Point, x: Flow.Point)
    requires Flow.JumpsInside(func) && IsReal(func, q) && Flow.IsPoint(func, x) && Flow.IsPoint(func, y)
    requires Flow.AtTerminator(func, y) && SameRun(func, q, y)
    requires Edge(FlowGraph(func), y.block, x.block) && x.idx == 0
    ensures CrossRun(func, q, x)
  {
    hide FlowGraph;
    var key := KeyAt(func, q);
    LastRealIsTail(func.blocks[q.block].statements, q.idx);
    assert TailPath(func, [q.block, x.block], x.block, key);
  }

  lemma LeaveBlock(func: MirFunction, q: Flow.Point, y: Flow.Point, x: Flow.Point)
    requires Flow.JumpsInside(func) && IsReal(func, q) && Flow.Step(func, y, x) && Flow.AtTerminator(func, y)
    requires SameRun(func, q, y) || CrossRun(func, q, y)
    ensures CrossRun(func, q, x)
  {
    var key := KeyAt(func, q);
    assert Edge(FlowGraph(func), y.block, x.block);
    hide FlowGraph;
    if SameRun(func, q, y) {
      LeaveRun(func, q, y, x);
    } else {
      var p :| TailPath(func, p, y.block, key);
      ThroughSpanless(func, p, y.block, x.block, key);
    }
  }

  lemma {:induction false} QuietRuns(func: MirFunction, p: seq<Flow.Point>, q: Flow.Point, r: Flow.Point)
    requires Flow.JumpsInside(func) && IsReal(func, q) && QuietPath(func, p, q, r)
    ensures SameRun(func, q, r) || CrossRun(func, q, r)
    decreases |p|
  {
    var y := p[|p| - 2];
    assert Flow.Step(func, p[|p| - 2], p[|p| - 1]);
    if |p| > 2 {
      QuietRuns(func, p[..|p| - 1], q, y);
      if Flow.AtTerminator(func, y) {
        LeaveBlock(func, q, y, r);
      }
    }
  }

  /** Nothing real precedes `r` in its block. */
  ghost predicate IsFirst(func: MirFunction, r: Flow.Point)
    requires IsReal(func, r)
  {
    forall m :: 0 <= m < r.idx ==> !HasSpan(func.blocks[r.block].statements[m])
  }

  /** Some line other than `r`'s enters its block. */
  ghost predicate OtherEnters(func: MirFunction, r: Flow.Point)
    requires IsReal(func, r)
  {
    exists l :: l != KeyAt(func, r) && Enters(func, r.block, l)
  }

  /** The statement reached quietly from another one has a stop check exactly when it is on another line, or
      comes first in a block that another line enters too. */
  lemma StopBetweenLines(func: MirFunction, ctx: RunCtx, p: seq<Flow.Point>, q: Flow.Point, r: Flow.Point)
    requires Flow.JumpsInside(func) && IsReal(func, q) && IsReal(func, r) && QuietPath(func, p, q, r)
    requires IsExact(func, r.block, ctx)
    ensures IsSite(func.blocks[r.block].statements, ctx, r.idx)
            <==> KeyAt(func, q) != KeyAt(func, r) || (IsFirst(func, r) && OtherEnters(func, r))
  {
    QuietRuns(func, p, q, r);
    if CrossRun(func, q, r) {
      StopOnArrival(func, ctx, r);
    }
  }

  /** The first statement with a line in its block goes without a stop check exactly when that line, and no
      other, is what control arrives from. */
  lemma StopOnArrival(func: MirFunction, ctx: RunCtx, r: Flow.Point)
    requires IsReal(func, r) && IsExact(func, r.block, ctx) && IsFirst(func, r)
    ensures IsSite(func.blocks[r.block].statements, ctx, r.idx) <==> !Enters(func, r.block, KeyAt(func, r)) || OtherEnters(func, r)
  {
    match ctx
    case Unknown =>
    case Line(l) =>
    case Conflict =>
      var l, m :| l != m && Enters(func, r.block, l) && Enters(func, r.block, m);
  }

  // ---------------------------------------------------------------- the stop check in the rewritten function

  /** Statement `idx` of block `blk` is the line check of `r`; both its outcomes lead to the block that begins
      with `r`'s statement, one of them by way of a hook block. */
  ghost predicate Guards(s: Subject, blk: nat, idx: nat, r: Flow.Point)
    requires IsReal(s.func, r)
  {
    var key := KeyAt(s.func, r);
    && IsCheck(s.blocks, blk, idx, key, s.frame)
    && var cont := ContOf(s.blocks, blk, idx, key, s.frame);
       && cont < |s.blocks| && |s.blocks[cont].statements| > 0
       && s.blocks[cont].statements[0] == s.func.blocks[r.block].statements[r.idx]
       && IsHookBlock(s.blocks, HookOf(s.blocks, blk, idx, key, s.frame), cont, key, s.frame)
  }

  /** Execution that carries out `first` gets to a place that carries out the rest. */
  lemma {:induction false} ExecutesLater(blocks: seq<BasicBlock>, f: HookPlan.Frame, b: nat, i: nat, first: seq<Item>, rest: seq<Item>,
                                        term: Option<Terminator>)
    returns (b': nat, i': nat)
    requires Executes(blocks, f, b, i, first + rest, term)
    ensures Executes(blocks, f, b', i', rest, term)
    decreases |first|
  {
    if first == [] {
      assert first + rest == rest;
      b', i' := b, i;
    } else {
      assert (first + rest)[0] == first[0] && (first + rest)[1..] == first[1..] + rest;
      if first[0].Stop? {
        b', i' := ExecutesLater(blocks, f, ContOf(blocks, b, i, first[0].key, f), 0, first[1..], rest, term);
      } else {
        b', i' := ExecutesLater(blocks, f, b, i + 1, first[1..], rest, term);
      }
    }
  }

  lemma {:induction false} RestLater(s: Subject, b: nat, i: nat) returns (first: seq<Item>)
    requires b < |s.func.blocks| == |s.ctxs| && i <= |s.func.blocks[b].statements|
    ensures Rest(s, b, 0) == first + Rest(s, b, i)
    decreases i
  {
    if i == 0 {
      first := [];
    } else {
      var j := i - 1;
      var before := RestLater(s, b, j);
      assert Rest(s, b, j) == ChunkOf(s, b, j) + Rest(s, b, i);
      hide ChunkOf, Rest;
      Assoc(before, ChunkOf(s, b, j), Rest(s, b, i));
      first := before + ChunkOf(s, b, j);
    }
  }

  /** In the rewritten blocks the line check of a stop site stands immediately before its statement. */
  lemma StopComesFirst(env: Env, s: Subject, r: Flow.Point)
    requires Instrumented(env, s) && IsReal(s.func, r) && IsSite(s.func.blocks[r.block].statements, s.ctxs[r.block], r.idx)
    ensures exists blk: nat, idx: nat :: Guards(s, blk, idx, r)
  {
    var b, key := r.block, KeyAt(s.func, r);
    assert Executes(s.blocks, s.frame, b, 0, CodeOf(s, b), TermOf(s, b));
    CodeIsRest(s, b);
    var before := RestLater(s, b, r.idx);
    Assoc(PreludeOf(s, b), before, Rest(s, b, r.idx));
    var blk, idx := ExecutesLater(s.blocks, s.frame, b, 0, PreludeOf(s, b) + before, Rest(s, b, r.idx), TermOf(s, b));
    ChunkShape(s, b, r.idx);
    var tail := StatementTail(s, b, r.idx);
    assert ([Stop(key)] + tail)[1..] == tail;
    var cont := ContOf(s.blocks, blk, idx, key, s.frame);
    assert Executes(s.blocks, s.frame, cont, 0, tail, TermOf(s, b));
    assert Guards(s, blk, idx, r);
  }

  // ---------------------------------------------------------------- the stop checks of a run

  ghost function PointOf(c: Config): Flow.Point
    requires c.Running?
  {
    Flow.Point(c.block, c.idx)
  }

  /** The original's run is at a statement with a source line after `k` steps. */
  ghost predicate RealAt(env: Env, s: Subject, o: Config, k: nat)
  {
    var p := Run(env, s.func.blocks, o, k);
    p.Running? && IsReal(s.func, PointOf(p))
  }

  lemma StepIsFlow(env: Env, func: MirFunction, o: Config)
    requires Flow.JumpsInside(func) && o.Running? && Flow.IsPoint(func, PointOf(o)) && Machine.Step(env, func.blocks, o).Running?
    ensures Flow.Step(func, PointOf(o), PointOf(Machine.Step(env, func.blocks, o)))
    ensures Flow.IsPoint(func, PointOf(Machine.Step(env, func.blocks, o)))
  {
    JumpsToTarget(env, func.blocks[o.block], o);
  }

  lemma {:induction false} StaysInside(env: Env, func: MirFunction, o: Config, k: nat)
    requires Flow.JumpsInside(func) && o.Running? && Flow.IsPoint(func, PointOf(o)) && Run(env, func.blocks, o, k).Running?
    ensures Flow.IsPoint(func, PointOf(Run(env, func.blocks, o, k)))
    decreases k
  {
    if k > 0 {
      var j: nat := k - 1;
      RunOneMore(env, func.blocks, o, j, k);
      StaysInside(env, func, o, j);
      StepIsFlow(env, func, Run(env, func.blocks, o, j));
    }
  }

  /** The points a run passes through, from step `i` to step `j`, form a path. */
  lemma {:induction false} RunIsPath(env: Env, s: Subject, o: Config, i: nat, j: nat) returns (p: seq<Flow.Point>)
    requires Flow.JumpsInside(s.func) && o.Running? && Flow.IsPoint(s.func, PointOf(o))
    requires i < j && Run(env, s.func.blocks, o, j).Running?
    requires forall k: nat :: i < k < j ==> !RealAt(env, s, o, k)
    ensures Run(env, s.func.blocks, o, i).Running?
    ensures QuietPath(s.func, p, PointOf(Run(env, s.func.blocks, o, i)), PointOf(Run(env, s.func.blocks, o, j)))
    decreases j
  {
    var k: nat := j - 1;
    RunOneMore(env, s.func.blocks, o, k, j);
    var mid, end := Run(env, s.func.blocks, o, k), Run(env, s.func.blocks, o, j);
    StaysInside(env, s.func, o, k);
    StepIsFlow(env, s.func, mid);
    if k == i {
      p := [PointOf(mid), PointOf(end)];
    } else {
      var before := RunIsPath(env, s, o, i, k);
      assert !RealAt(env, s, o, k);
      p := before + [PointOf(end)];
    }
  }

  /** The line of the statement the original is at after `k` steps. */
  ghost function KeyOf(env: Env, s: Subject, o: Config, k: nat): LineKey
    requires RealAt(env, s, o, k)
  {
    KeyAt(s.func, PointOf(Run(env, s.func.blocks, o, k)))
  }

  /** When the instrumented run has just executed the statement of step `k`, the checks in `log` are what it has made. */
  ghost predicate ChecksBy(env: Env, s: Subject, o: Config, c: Config, k: nat, log: seq<Check>)
  {
    exists m: nat, d: Config ::
      && Leads(env, s.blocks, c, m, d) && d.Running? && d.dbg.checks == log
      && Run(env, s.func.blocks, o, k + 1).Running? && d.history == Run(env, s.func.blocks, o, k + 1).history
  }

  /** The check that guards the statement of step `k`, made after everything executed before it. */
  ghost function CheckOf(env: Env, s: Subject, o: Config, k: nat): Check
    requires RealAt(env, s, o, k)
  {
    Check(KeyOf(env, s, o, k), |Run(env, s.func.blocks, o, k).history|)
  }

  lemma StatementRuns(env: Env, blocks: seq<BasicBlock>, p: Config)
    requires p.Running? && p.block < |blocks| && p.idx < |blocks[p.block].statements|
    ensures Machine.Step(env, blocks, p).Running?
  {
  }

  lemma ChecksByStatement(env: Env, s: Subject, o: Config, c: Config, k: nat)
    requires Instrumented(env, s) && Starts(s, o, c) && RealAt(env, s, o, k)
    ensures var r := PointOf(Run(env, s.func.blocks, o, k));
      ChecksBy(env, s, o, c, k, CheckLog(env, s, o, k)
        + if IsSite(s.func.blocks[r.block].statements, s.ctxs[r.block], r.idx) then [CheckOf(env, s, o, k)] else [])
  {
    var next := k + 1;
    var p := Run(env, s.func.blocks, o, k);
    StatementRuns(env, s.func.blocks, p);
    CheckLogGrows(env, s, o, k, next);
    RunOneMore(env, s.func.blocks, o, k, next);
    assert |s.func.blocks| == |s.ctxs|;
    hide CheckLog, InStep, Leads, Instrumented, Starts, Run, Step, IsSite;
    var m, d := Simulate(env, s, o, c, next);
    RunsInStep(env, s, Run(env, s.func.blocks, o, next), next, d, m, RunLog(env, s, o, next));
  }

  /** Whenever a run goes from one line to another, the line check for the new line is made, after everything
      executed before and before anything of the new line; on the same line a check is made exactly when its
      block begins there and another line enters that block as well. */
  lemma CheckBetweenLines(env: Env, s: Subject, o: Config, c: Config, i: nat, j: nat)
    requires Instrumented(env, s) && Starts(s, o, c) && ExactContexts(s)
    requires i < j && RealAt(env, s, o, i) && RealAt(env, s, o, j) && forall k: nat :: i < k < j ==> !RealAt(env, s, o, k)
    ensures var r := PointOf(Run(env, s.func.blocks, o, j));
      var due := KeyOf(env, s, o, i) != KeyOf(env, s, o, j) || (IsFirst(s.func, r) && OtherEnters(s.func, r));
      ChecksBy(env, s, o, c, j, CheckLog(env, s, o, j) + if due then [CheckOf(env, s, o, j)] else [])
  {
    var p := RunIsPath(env, s, o, i, j);
    var q, r := PointOf(Run(env, s.func.blocks, o, i)), PointOf(Run(env, s.func.blocks, o, j));
    StopBetweenLines(s.func, s.ctxs[r.block], p, q, r);
    ChecksByStatement(env, s, o, c, j);
  }

  /** Nothing real precedes the state in its block. */
  ghost predicate NothingReal(func: MirFunction, p: Config)
  {
    && p.Running? && Flow.IsPoint(func, PointOf(p))
    && forall m :: 0 <= m < p.idx ==> !HasSpan(func.blocks[p.block].statements[m])
  }

  lemma QuietStep(env: Env, s: Subject, p: Config)
    requires Flow.JumpsInside(s.func) && |s.ctxs| == |s.func.blocks|
    requires NothingReal(s.func, p) && !IsReal(s.func, PointOf(p)) && Machine.Step(env, s.func.blocks, p).Running?
    ensures ChecksAt(s, p) == [] && NothingReal(s.func, Machine.Step(env, s.func.blocks, p))
  {
    StepIsFlow(env, s.func, p);
  }

  /** Before the first statement with a line, nothing real precedes a run in its block and nothing is checked. */
  lemma {:induction false} QuietStart(env: Env, s: Subject, o: Config, k: nat)
    requires Flow.JumpsInside(s.func) && |s.ctxs| == |s.func.blocks|
    requires o.Running? && Flow.IsPoint(s.func, PointOf(o)) && o.idx == 0 && Run(env, s.func.blocks, o, k).Running?
    requires forall m: nat :: m < k ==> !RealAt(env, s, o, m)
    ensures CheckLog(env, s, o, k) == []
    ensures NothingReal(s.func, Run(env, s.func.blocks, o, k))
    decreases k
  {
    assert k == 0 ==> NothingReal(s.func, Run(env, s.func.blocks, o, k));
    if k > 0 {
      var j: nat := k - 1;
      CheckLogGrows(env, s, o, j, k);
      RunOneMore(env, s.func.blocks, o, j, k);
      hide CheckLog, NothingReal, IsReal, ChecksAt, Step;
      QuietStart(env, s, o, j);
      assert !RealAt(env, s, o, j);
      QuietStep(env, s, Run(env, s.func.blocks, o, j));
    }
  }

  /** The first line of a run is checked exactly when it does not enter its block, or another line does too. */
  lemma FirstLineChecked(env: Env, s: Subject, o: Config, c: Config, k: nat)
    requires Instrumented(env, s) && Starts(s, o, c) && ExactContexts(s) && RealAt(env, s, o, k)
    requires forall m: nat :: m < k ==> !RealAt(env, s, o, m)
    ensures var r := PointOf(Run(env, s.func.blocks, o, k));
      ChecksBy(env, s, o, c, k,
        if !Enters(s.func, r.block, KeyAt(s.func, r)) || OtherEnters(s.func, r) then [CheckOf(env, s, o, k)] else [])
  {
    var r := PointOf(Run(env, s.func.blocks, o, k));
    QuietStart(env, s, o, k);
    assert IsFirst(s.func, r);
    StopOnArrival(s.func, s.ctxs[r.block], r);
    ChecksByStatement(env, s, o, c, k);
  }

  // ---------------------------------------------------------------- a line that is never checked

  /** A bare entry block, then a block that repeats one statement for ever. */
  function Loop(stmt: Statement): seq<BasicBlock>
  {
    [BasicBlock([], Some(Terminator(Goto(1), DEFAULT_SPAN))), BasicBlock([stmt], Some(Terminator(Goto(1), DEFAULT_SPAN)))]
  }

  lemma OnlyItsLineEnters(func: MirFunction, stmt: Statement, l: LineKey)
    requires func.blocks == Loop(stmt) && HasSpan(stmt)
    ensures Enters(func, 1, l) <==> l == PackLine(stmt.span)
  {
    var key := PackLine(stmt.span);
    assert func.blocks[1].statements == [stmt] && TailLine([stmt]) == Some(key);
    assert Edge(FlowGraph(func), 1, 1) by {
      assert Targets(func.blocks[1]) == [1];
    }
    assert TailPath(func, [1, 1], 1, key);
    if p :| TailPath(func, p, 1, l) {
      assert p[0] == 0 || p[0] == 1;
      assert Tail(func, 0) == None;
    }
  }

  lemma {:induction false} LoopCallsForNoCheck(env: Env, s: Subject, stmt: Statement, o: Config, k: nat)
    requires s.func.blocks == Loop(stmt) && HasSpan(stmt) && ExactContexts(s)
    ensures CheckLog(env, s, o, k) == []
    decreases k
  {
    if k > 0 {
      var j: nat := k - 1;
      LoopCallsForNoCheck(env, s, stmt, o, j);
      OnlyItsLineEnters(s.func, stmt, PackLine(stmt.span));
      forall l | Enters(s.func, 1, l) ensures l == PackLine(stmt.span) {
        OnlyItsLineEnters(s.func, stmt, l);
      }
      assert IsExact(s.func, 1, s.ctxs[1]);
      assert ChecksAt(s, Run(env, s.func.blocks, o, j)) == [];
    }
  }

  lemma {:induction false} LoopRuns(env: Env, stmt: Statement, o: Config, k: nat)
    requires o.Running? && o.block < 2
    ensures var p := Run(env, Loop(stmt), o, k); p.Running? && p.block < 2
    decreases k
  {
    if k > 0 {
      LoopRuns(env, stmt, Machine.Step(env, Loop(stmt), o), k - 1);
    }
  }

  /** No run of the rewritten function ever stops on that statement's line, although control arrives there from no
      line at first. */
  lemma LoopIsNeverChecked(env: Env, s: Subject, stmt: Statement, o: Config, c: Config, m: nat)
    requires Instrumented(env, s) && Starts(s, o, c) && ExactContexts(s) && s.func.blocks == Loop(stmt) && HasSpan(stmt)
    ensures CheckLog(env, s, o, m) == []
    ensures var d := Run(env, s.blocks, c, m); d.Running? && d.dbg.checks == []
  {
    LoopCallsForNoCheck(env, s, stmt, o, m);
    LoopRuns(env, stmt, o, m);
    ChecksSoFar(env, s, o, c, m);
  }
}

/** Which hooks go where: the code each block is to execute, and what executing it means. */
module HookPlan {
  import opened Mir
  import opened Options
  import opened LineContext
  import opened Machine

  /** Cell `c` mirrors local `cells[c]`. */
  type Cells = seq<nat>

  ghost predicate CellsOk(func: MirFunction, cells: Cells)
  {
    && (forall c :: 0 <= c < |cells| ==> cells[c] < |func.locals|)
    && (forall c, d :: 0 <= c < d < |cells| ==> cells[c] < cells[d])
  }

  function CellOf(cells: Cells, x: nat): (r: Option<nat>)
    ensures r.Some? ==> r.value < |cells| && cells[r.value] == x
    ensures r.None? ==> x !in cells
  {
    if cells == [] then None
    else if cells[|cells| - 1] == x then Some(|cells| - 1)
    else CellOf(cells[..|cells| - 1], x)
  }

  /** How a function is instrumented. */
  datatype Mode = Mode(fnId: nat, deferStores: bool, stateMachine: bool)
  {
    /** A state machine stores eagerly in every variant. */
    predicate Deferred() { deferStores && !stateMachine }
  }

  datatype Item =
    | Keep(stmt: Statement)
    | Insert(hook: HookCall)
    | Stop(key: LineKey)

  // ---------------------------------------------------------------- the plan

  function StartLine(ctx: RunCtx): Option<LineKey>
  {
    if ctx.Line? then Some(ctx.key) else None
  }

  /** The line in effect before statement `i` of a block entered with context `ctx`. */
  function LineBefore(statements: seq<Statement>, ctx: RunCtx, i: nat): (r: Option<LineKey>)
    requires i <= |statements|
    ensures forall k :: 0 <= k < i && HasSpan(statements[k]) && (forall m :: k < m < i ==> !HasSpan(statements[m]))
              ==> r == Some(PackLine(statements[k].span))
    ensures (forall k :: 0 <= k < i ==> !HasSpan(statements[k])) ==> r == StartLine(ctx)
  {
    if i == 0 then StartLine(ctx)
    else if HasSpan(statements[i - 1]) then Some(PackLine(statements[i - 1].span))
    else LineBefore(statements, ctx, i - 1)
  }

  /** Statement `i` starts a new line and gets a stop check. */
  predicate IsSite(statements: seq<Statement>, ctx: RunCtx, i: nat)
    requires i < |statements|
  {
    HasSpan(statements[i]) && LineBefore(statements, ctx, i) != Some(PackLine(statements[i].span))
  }

  /** The store that follows a statement in eager mode. */
  function StoreAfter(cells: Cells, deferred: bool, stmt: Statement): seq<Item>
  {
    if !deferred && stmt.kind.Assign? && CellOf(cells, stmt.kind.dest).Some?
    then [Insert(Store(CellOf(cells, stmt.kind.dest).value, stmt.kind.dest))]
    else []
  }

  /** What statement `i` becomes; `split` tells whether its stop check has been split off yet. */
  function Chunk(statements: seq<Statement>, ctx: RunCtx, cells: Cells, deferred: bool, split: bool, i: nat): seq<Item>
    requires i < |statements|
  {
    var key := PackLine(statements[i].span);
    (if !IsSite(statements, ctx, i) then [] else if split then [Stop(key)] else [Insert(StopHere(key))])
    + [Keep(statements[i])]
    + StoreAfter(cells, deferred, statements[i])
  }

  function Chunks(statements: seq<Statement>, ctx: RunCtx, cells: Cells, deferred: bool, split: bool, n: nat): seq<Item>
    requires n <= |statements|
  {
    if n == 0 then []
    else Chunks(statements, ctx, cells, deferred, split, n - 1) + Chunk(statements, ctx, cells, deferred, split, n - 1)
  }

  function StoreArgs(cells: Cells, argCount: nat): seq<Item>
  {
    if argCount == 0 then []
    else StoreArgs(cells, argCount - 1)
         + if CellOf(cells, argCount).Some? then [Insert(Store(CellOf(cells, argCount).value, argCount))] else []
  }

  function Prelude(mode: Mode, cells: Cells, argCount: nat): seq<Item>
  {
    (if mode.stateMachine then [] else [Insert(Enter(mode.fnId))]) + StoreArgs(cells, argCount)
  }

  predicate EndsInReturn(bb: BasicBlock)
  {
    bb.terminator.Some? && bb.terminator.value.kind.Return?
  }

  function Epilogue(mode: Mode, bb: BasicBlock): seq<Item>
  {
    if !mode.stateMachine && EndsInReturn(bb) then [Insert(Exit)] else []
  }

  /** The code of block `b`. */
  function Code(func: MirFunction, mode: Mode, cells: Cells, ctx: RunCtx, split: bool, b: nat): seq<Item>
    requires b < |func.blocks|
  {
    (if b == 0 then Prelude(mode, cells, func.argCount) else [])
    + Chunks(func.blocks[b].statements, ctx, cells, mode.Deferred(), split, |func.blocks[b].statements|)
    + Epilogue(mode, func.blocks[b])
  }

  // ---------------------------------------------------------------- blocks that execute a plan

  /** What stays fixed while a function is rewritten: its mirrored locals, whether hook blocks flush,
      how many locals and blocks the original has, and which statements call which hook. */
  datatype Frame = Frame(cells: Cells, flush: bool, locals: nat, blocks: nat, isHook: (StatementKind, nat, HookCall) -> bool)

  /** A statement that carries out an item; inserted calls write only locals the original does not have,
      except for loads, which write the local they are for. */
  predicate Carries(stmt: Statement, item: Item, f: Frame)
  {
    match item
    case Keep(s) => stmt == s
    case Insert(h) =>
      stmt.kind.Assign? && f.isHook(stmt.kind, stmt.kind.dest, h) && !h.ShouldCheck? && (!h.Load? ==> stmt.kind.dest >= f.locals)
    case Stop(_) => false
  }

  ghost predicate CarriesAll(statements: seq<Statement>, items: seq<Item>, f: Frame)
  {
    |statements| == |items| && forall i :: 0 <= i < |items| ==> Carries(statements[i], items[i], f)
  }

  function StoreAll(cells: Cells, n: nat): (r: seq<Item>)
    requires n <= |cells|
    ensures |r| == n && forall c :: 0 <= c < n ==> r[c] == Insert(Store(c, cells[c]))
  {
    seq(n, c requires 0 <= c < n => Insert(Store(c, cells[c])))
  }

  function LoadAll(cells: Cells, n: nat): (r: seq<Item>)
    requires n <= |cells|
    ensures |r| == n && forall c :: 0 <= c < n ==> r[c] == Insert(Load(c, cells[c]))
  {
    seq(n, c requires 0 <= c < n => Insert(Load(c, cells[c])))
  }

  /** The body of a hook block. */
  function HookBody(cells: Cells, flush: bool, key: LineKey): seq<Item>
  {
    (if flush then StoreAll(cells, |cells|) else []) + [Insert(StopHere(key))] + LoadAll(cells, |cells|)
  }

  /** Statement `idx` of block `blk` is a line check that ends the block: answer 0 goes on at `cont`,
      any other answer goes there by way of the hook block. */
  predicate IsCheck(blocks: seq<BasicBlock>, blk: nat, idx: nat, key: LineKey, f: Frame)
  {
    && blk < |blocks| && idx + 1 == |blocks[blk].statements| && blocks[blk].terminator.Some?
    && var (kind, t) := (blocks[blk].statements[idx].kind, blocks[blk].terminator.value.kind);
       && kind.Assign? && kind.dest >= f.locals && f.isHook(kind, kind.dest, ShouldCheck(key))
       && t.SwitchInt? && t.discr == Copy(kind.dest) && |t.targets| == 1 && t.targets[0].0 == 0
  }

  function ContOf(blocks: seq<BasicBlock>, blk: nat, idx: nat, key: LineKey, f: Frame): nat
    requires IsCheck(blocks, blk, idx, key, f)
  {
    blocks[blk].terminator.value.kind.targets[0].1
  }

  function HookOf(blocks: seq<BasicBlock>, blk: nat, idx: nat, key: LineKey, f: Frame): nat
    requires IsCheck(blocks, blk, idx, key, f)
  {
    blocks[blk].terminator.value.kind.otherwise
  }

  /** Block `hook` carries out the hook body and goes on at `cont`. */
  ghost predicate IsHookBlock(blocks: seq<BasicBlock>, hook: nat, cont: nat, key: LineKey, f: Frame)
  {
    && hook < |blocks|
    && CarriesAll(blocks[hook].statements, HookBody(f.cells, f.flush, key), f)
    && blocks[hook].terminator.Some? && blocks[hook].terminator.value.kind == Goto(cont)
  }

  /** Execution from statement `idx` of block `blk` carries out `items` and then meets `term`. Blocks
      split off lie beyond the original ones. */
  ghost predicate Executes(blocks: seq<BasicBlock>, f: Frame, blk: nat, idx: nat, items: seq<Item>, term: Option<Terminator>)
    decreases |items|
  {
    blk < |blocks| &&
    if items == [] then idx == |blocks[blk].statements| && blocks[blk].terminator == term
    else if items[0].Stop? then
      && IsCheck(blocks, blk, idx, items[0].key, f)
      && var cont, hook := ContOf(blocks, blk, idx, items[0].key, f), HookOf(blocks, blk, idx, items[0].key, f);
         && cont >= f.blocks && hook >= f.blocks
         && IsHookBlock(blocks, hook, cont, items[0].key, f)
         && Executes(blocks, f, cont, 0, items[1..], term)
    else
      && idx < |blocks[blk].statements|
      && Carries(blocks[blk].statements[idx], items[0], f)
      && Executes(blocks, f, blk, idx + 1, items[1..], term)
  }

  /** A block whose statements carry out items without stop checks, one for one. */
  lemma {:induction false} CarriedExecutes(blocks: seq<BasicBlock>, f: Frame, blk: nat, idx: nat, items: seq<Item>)
    requires blk < |blocks| && idx <= |blocks[blk].statements|
    requires CarriesAll(blocks[blk].statements[idx..], items, f)
    ensures Executes(blocks, f, blk, idx, items, blocks[blk].terminator)
    decreases |items|
  {
    if items != [] {
      var statements := blocks[blk].statements;
      assert statements[idx..][0] == statements[idx] && Carries(statements[idx], items[0], f);
      assert statements[idx..][1..] == statements[idx + 1..];
      CarriedExecutes(blocks, f, blk, idx + 1, items[1..]);
    }
  }

  /** Changing other original blocks and appending new ones does not disturb an execution. */
  lemma {:induction false} ExecutesFrame(blocks: seq<BasicBlock>, blocks': seq<BasicBlock>, f: Frame, changed: nat,
                                        blk: nat, idx: nat, items: seq<Item>, term: Option<Terminator>)
    requires Executes(blocks, f, blk, idx, items, term) && |blocks| <= |blocks'|
    requires forall x :: 0 <= x < |blocks| && x != changed ==> blocks'[x] == blocks[x]
    requires changed < f.blocks && blk != changed
    ensures Executes(blocks', f, blk, idx, items, term)
    decreases |items|
  {
    if items != [] {
      if items[0].Stop? {
        var cont := ContOf(blocks, blk, idx, items[0].key, f);
        ExecutesFrame(blocks, blocks', f, changed, cont, 0, items[1..], term);
      } else {
        ExecutesFrame(blocks, blocks', f, changed, blk, idx + 1, items[1..], term);
      }
    }
  }

  /** What a stop check at the head of the items amounts to. */
  ghost predicate ExecutesStop(blocks: seq<BasicBlock>, f: Frame, blk: nat, idx: nat, key: LineKey,
                               rest: seq<Item>, term: Option<Terminator>)
  {
    && IsCheck(blocks, blk, idx, key, f)
    && var cont, hook := ContOf(blocks, blk, idx, key, f), HookOf(blocks, blk, idx, key, f);
       && cont >= f.blocks && hook >= f.blocks
       && IsHookBlock(blocks, hook, cont, key, f)
       && Executes(blocks, f, cont, 0, rest, term)
  }

  lemma StopMoves(blocks: seq<BasicBlock>, blocks': seq<BasicBlock>, f: Frame, b: nat, cont: nat,
                  from: nat, idx: nat, idx': nat, key: LineKey, rest: seq<Item>, term: Option<Terminator>)
    requires ExecutesStop(blocks, f, b, idx, key, rest, term) && |blocks| <= |blocks'| && b < f.blocks <= cont < |blocks'|
    requires forall x :: 0 <= x < |blocks| && x != b ==> blocks'[x] == blocks[x]
    requires from <= idx && idx' == idx - from
    requires blocks'[cont] == BasicBlock(blocks[b].statements[from..], blocks[b].terminator)
    ensures ExecutesStop(blocks', f, cont, idx', key, rest, term)
  {
    assert blocks'[cont].statements[idx'] == blocks[b].statements[idx];
    ExecutesFrame(blocks, blocks', f, b, ContOf(blocks, b, idx, key, f), 0, rest, term);
  }

  /** Moving the tail of block `b` from statement `from` on into a new block keeps what it executes. */
  lemma {:induction false} TailMoves(blocks: seq<BasicBlock>, blocks': seq<BasicBlock>, f: Frame, b: nat, cont: nat,
                                    from: nat, idx: nat, idx': nat, items: seq<Item>, term: Option<Terminator>)
    requires Executes(blocks, f, b, idx, items, term) && |blocks| <= |blocks'| && b < f.blocks <= cont < |blocks'|
    requires forall x :: 0 <= x < |blocks| && x != b ==> blocks'[x] == blocks[x]
    requires from <= idx && idx' == idx - from && from <= |blocks[b].statements|
    requires blocks'[cont] == BasicBlock(blocks[b].statements[from..], blocks[b].terminator)
    ensures Executes(blocks', f, cont, idx', items, term)
    decreases |items|
  {
    if items != [] {
      if items[0].Stop? {
        StopMoves(blocks, blocks', f, b, cont, from, idx, idx', items[0].key, items[1..], term);
      } else {
        TailMoves(blocks, blocks', f, b, cont, from, idx + 1, idx' + 1, items[1..], term);
      }
    }
  }

  /** `blocks'` is `blocks` with the stop call at statement `pos` of block `b` split off. */
  ghost predicate IsSplit(blocks: seq<BasicBlock>, blocks': seq<BasicBlock>, f: Frame, b: nat, pos: nat, key: LineKey)
  {
    && b < f.blocks <= |blocks| && pos < |blocks[b].statements|
    && |blocks'| == |blocks| + 2
    && (forall x :: 0 <= x < |blocks| && x != b ==> blocks'[x] == blocks[x])
    && IsCheck(blocks', b, pos, key, f)
    && blocks'[b].statements[..pos] == blocks[b].statements[..pos]
    && HookOf(blocks', b, pos, key, f) == |blocks|
    && ContOf(blocks', b, pos, key, f) == |blocks| + 1
    && IsHookBlock(blocks', |blocks|, |blocks| + 1, key, f)
    && blocks'[|blocks| + 1] == BasicBlock(blocks[b].statements[pos + 1..], blocks[b].terminator)
  }

  ghost predicate NoStops(items: seq<Item>)
  {
    forall i :: 0 <= i < |items| ==> !items[i].Stop?
  }

  ghost predicate CarriesFrom(blocks: seq<BasicBlock>, f: Frame, b: nat, idx: nat, items: seq<Item>)
  {
    && b < |blocks| && idx + |items| <= |blocks[b].statements|
    && forall i :: 0 <= i < |items| ==> Carries(blocks[b].statements[idx + i], items[i], f)
  }

  /** Items without stop checks are carried out by consecutive statements. */
  lemma {:induction false} PrefixCarried(blocks: seq<BasicBlock>, f: Frame, b: nat, idx: nat, first: seq<Item>, rest: seq<Item>,
                                        term: Option<Terminator>)
    requires Executes(blocks, f, b, idx, first + rest, term) && NoStops(first)
    ensures CarriesFrom(blocks, f, b, idx, first) && Executes(blocks, f, b, idx + |first|, rest, term)
    decreases |first|
  {
    if first == [] {
      assert first + rest == rest;
    } else {
      assert (first + rest)[0] == first[0] && (first + rest)[1..] == first[1..] + rest;
      PrefixCarried(blocks, f, b, idx + 1, first[1..], rest, term);
      forall i | 0 <= i < |first| ensures Carries(blocks[b].statements[idx + i], first[i], f) {
        if i > 0 {
          assert first[i] == first[1..][i - 1];
        }
      }
    }
  }

  lemma {:induction false} PrefixExecutes(blocks: seq<BasicBlock>, f: Frame, b: nat, idx: nat, first: seq<Item>, rest: seq<Item>,
                                         term: Option<Terminator>)
    requires CarriesFrom(blocks, f, b, idx, first) && Executes(blocks, f, b, idx + |first|, rest, term) && NoStops(first)
    ensures Executes(blocks, f, b, idx, first + rest, term)
    decreases |first|
  {
    if first == [] {
      assert first + rest == rest;
    } else {
      assert (first + rest)[0] == first[0] && (first + rest)[1..] == first[1..] + rest;
      assert Carries(blocks[b].statements[idx + 0], first[0], f);
      forall i | 0 <= i < |first| - 1 ensures Carries(blocks[b].statements[idx + 1 + i], first[1..][i], f) {
        assert Carries(blocks[b].statements[idx + (i + 1)], first[i + 1], f);
      }
      PrefixExecutes(blocks, f, b, idx + 1, first[1..], rest, term);
    }
  }

  lemma Assoc(a: seq<Item>, b: seq<Item>, c: seq<Item>)
    ensures (a + b) + c == a + (b + c)
  {
  }

  lemma SplitHead(blocks: seq<BasicBlock>, blocks': seq<BasicBlock>, f: Frame, b: nat, pos: nat, key: LineKey,
                  rest: seq<Item>, term: Option<Terminator>)
    requires IsSplit(blocks, blocks', f, b, pos, key)
    requires Executes(blocks, f, b, pos, [Insert(StopHere(key))] + rest, term)
    ensures Executes(blocks', f, b, pos, [Stop(key)] + rest, term)
  {
    assert ([Insert(StopHere(key))] + rest)[1..] == rest && ([Stop(key)] + rest)[1..] == rest;
    TailMoves(blocks, blocks', f, b, |blocks| + 1, pos + 1, pos + 1, 0, rest, term);
    assert ExecutesStop(blocks', f, b, pos, key, rest, term);
  }

  /** Splitting turns a stop call before which nothing has been split into a stop check. */
  lemma SplitExecutes(blocks: seq<BasicBlock>, blocks': seq<BasicBlock>, f: Frame, b: nat, pos: nat, key: LineKey,
                      first: seq<Item>, rest: seq<Item>, term: Option<Terminator>)
    requires IsSplit(blocks, blocks', f, b, pos, key) && NoStops(first) && |first| == pos
    requires Executes(blocks, f, b, 0, first + ([Insert(StopHere(key))] + rest), term)
    ensures Executes(blocks', f, b, 0, first + ([Stop(key)] + rest), term)
  {
    PrefixCarried(blocks, f, b, 0, first, [Insert(StopHere(key))] + rest, term);
    SplitHead(blocks, blocks', f, b, pos, key, rest, term);
    forall i | 0 <= i < |first| ensures Carries(blocks'[b].statements[0 + i], first[i], f) {
      assert Carries(blocks[b].statements[0 + i], first[i], f);
      assert blocks'[b].statements[i] == blocks'[b].statements[..pos][i] == blocks[b].statements[..pos][i];
    }
    PrefixExecutes(blocks', f, b, 0, first, [Stop(key)] + rest, term);
  }
}

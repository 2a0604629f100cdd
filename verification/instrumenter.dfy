/** The in-place rewrite: hooks are inserted block by block, then stop calls are split off back to front. */
module Instrumenter {
  import opened Mir
  import opened Options
  import opened LineContext
  import opened Machine
  import opened HookPlan

  datatype Site = Site(block: nat, pos: nat, key: LineKey)

  const SINK := LocalDecl(Null, None, false, true)

  // ---------------------------------------------------------------- plans before and after splitting

  predicate IsStopCall(item: Item)
  {
    item.Insert? && item.hook.StopHere?
  }

  function Split(item: Item): Item
  {
    if IsStopCall(item) then Stop(item.hook.key) else item
  }

  function SplitAll(items: seq<Item>): (r: seq<Item>)
    ensures |r| == |items| && forall i :: 0 <= i < |items| ==> r[i] == Split(items[i])
  {
    seq(|items|, i requires 0 <= i < |items| => Split(items[i]))
  }

  /** The items with those from position `cut` on split. */
  function SplitFrom(items: seq<Item>, cut: nat): (r: seq<Item>)
    requires cut <= |items|
    ensures |r| == |items|
    ensures forall i :: 0 <= i < |items| ==> r[i] == if i < cut then items[i] else Split(items[i])
  {
    items[..cut] + SplitAll(items[cut..])
  }

  lemma SplitAllConcat(a: seq<Item>, b: seq<Item>)
    ensures SplitAll(a + b) == SplitAll(a) + SplitAll(b)
  {
  }

  lemma ChunkSplit(statements: seq<Statement>, ctx: RunCtx, cells: Cells, deferred: bool, i: nat)
    requires i < |statements|
    ensures Chunk(statements, ctx, cells, deferred, true, i) == SplitAll(Chunk(statements, ctx, cells, deferred, false, i))
  {
    var tail := [Keep(statements[i])] + StoreAfter(cells, deferred, statements[i]);
    var key := PackLine(statements[i].span);
    assert SplitAll(tail) == tail;
    SplitAllConcat([Insert(StopHere(key))], tail);
    assert SplitAll([Insert(StopHere(key))]) == [Stop(key)];
    assert [Stop(key)] + tail == [Stop(key)] + [Keep(statements[i])] + StoreAfter(cells, deferred, statements[i]);
    assert [Insert(StopHere(key))] + tail == [Insert(StopHere(key))] + [Keep(statements[i])] + StoreAfter(cells, deferred, statements[i]);
    assert [] + tail == tail;
  }

  lemma {:induction false} ChunksSplit(statements: seq<Statement>, ctx: RunCtx, cells: Cells, deferred: bool, n: nat)
    requires n <= |statements|
    ensures Chunks(statements, ctx, cells, deferred, true, n) == SplitAll(Chunks(statements, ctx, cells, deferred, false, n))
  {
    if n > 0 {
      var m := n - 1;
      var done, chunk := Chunks(statements, ctx, cells, deferred, false, m), Chunk(statements, ctx, cells, deferred, false, m);
      ChunksSplit(statements, ctx, cells, deferred, m);
      ChunkSplit(statements, ctx, cells, deferred, m);
      SplitAllConcat(done, chunk);
      assert Chunks(statements, ctx, cells, deferred, false, n) == done + chunk;
      assert Chunks(statements, ctx, cells, deferred, true, n) == SplitAll(done) + SplitAll(chunk);
    }
  }

  lemma {:induction false} StoreArgsSplit(cells: Cells, argCount: nat)
    ensures SplitAll(StoreArgs(cells, argCount)) == StoreArgs(cells, argCount)
  {
    if argCount > 0 {
      StoreArgsSplit(cells, argCount - 1);
    }
  }

  /** Splitting every stop call of a block's plan gives its final plan. */
  lemma CodeSplit(func: MirFunction, mode: Mode, cells: Cells, ctx: RunCtx, b: nat)
    requires b < |func.blocks|
    ensures Code(func, mode, cells, ctx, true, b) == SplitAll(Code(func, mode, cells, ctx, false, b))
  {
    hide Chunks, SplitAll;
    var bb := func.blocks[b];
    ChunksSplit(bb.statements, ctx, cells, mode.Deferred(), |bb.statements|);
    StoreArgsSplit(cells, func.argCount);
    assert SplitAll(Prelude(mode, cells, func.argCount)) == Prelude(mode, cells, func.argCount);
  }

  // ---------------------------------------------------------------- sites

  /** `sites` lists the stop calls among the items, in ascending order. */
  ghost predicate ListsSites(items: seq<Item>, b: nat, sites: seq<Site>)
  {
    && (forall s :: s in sites ==> s.block == b && s.pos < |items| && items[s.pos] == Insert(StopHere(s.key)))
    && (forall i: nat :: i < |items| && IsStopCall(items[i]) ==> Site(b, i, items[i].hook.key) in sites)
    && (forall k, m :: 0 <= k < m < |sites| ==> sites[k].pos < sites[m].pos)
  }

  lemma ListsMore(items: seq<Item>, b: nat, sites: seq<Site>, more: seq<Item>)
    requires ListsSites(items, b, sites)
    requires forall i :: 0 <= i < |more| ==> !IsStopCall(more[i])
    ensures ListsSites(items + more, b, sites)
  {
  }

  lemma ListsStop(items: seq<Item>, b: nat, sites: seq<Site>, key: LineKey)
    requires ListsSites(items, b, sites)
    ensures ListsSites(items + [Insert(StopHere(key))], b, sites + [Site(b, |items|, key)])
  {
    assert forall k :: 0 <= k < |sites| ==> sites[k] in sites;
  }

  lemma CarryMore(statements: seq<Statement>, items: seq<Item>, stmt: Statement, item: Item, f: Frame)
    requires CarriesAll(statements, items, f) && Carries(stmt, item, f)
    ensures CarriesAll(statements + [stmt], items + [item], f)
  {
  }

  function HookStatement(h: HookCall, dest: nat, span: Span): Statement
  {
    Statement(Assign(dest, CallRvalue(HookName(h), HookArgs(h))), span)
  }

  predicate Precedes(s: Site, t: Site)
  {
    s.block < t.block || (s.block == t.block && s.pos < t.pos)
  }

  /** The listed sites are the stop calls that lie before the cuts. */
  ghost predicate PendingSites(codes: seq<seq<Item>>, cuts: seq<nat>, sites: seq<Site>)
  {
    && |cuts| == |codes|
    && (forall b :: 0 <= b < |cuts| ==> cuts[b] <= |codes[b]|)
    && (forall s :: s in sites ==>
          s.block < |codes| && s.pos < cuts[s.block] && codes[s.block][s.pos] == Insert(StopHere(s.key)))
    && (forall b: nat, i: nat {:trigger codes[b][i]} ::
          b < |codes| && i < cuts[b] && IsStopCall(codes[b][i]) ==> Site(b, i, codes[b][i].hook.key) in sites)
    && (forall k, m :: 0 <= k < m < |sites| ==> Precedes(sites[k], sites[m]))
  }

  lemma NoneBetween(codes: seq<seq<Item>>, cuts: seq<nat>, sites: seq<Site>, i: nat)
    requires PendingSites(codes, cuts, sites) && sites != [] && sites[|sites| - 1].block < |codes|
    requires sites[|sites| - 1].pos < i < cuts[sites[|sites| - 1].block]
    ensures !IsStopCall(codes[sites[|sites| - 1].block][i])
  {
    var last := sites[|sites| - 1];
    forall s | s in sites ensures s.block != last.block || s.pos <= last.pos {
      var k :| 0 <= k < |sites| && sites[k] == s;
      assert k < |sites| - 1 ==> Precedes(sites[k], last);
    }
  }

  lemma SplitFromTail(items: seq<Item>, cut: nat, pos: nat, item: Item, rest: seq<Item>)
    requires pos < |items| && pos <= cut <= |items| && rest == SplitAll(items[pos + 1..])
    requires SplitFrom(items, cut)[pos] == item
    requires forall i :: pos < i < cut ==> !IsStopCall(items[i])
    ensures SplitFrom(items, cut) == items[..pos] + ([item] + rest)
  {
    var split := [item] + rest;
    forall i | 0 <= i < |items| ensures SplitFrom(items, cut)[i] == (items[..pos] + split)[i] {
      if pos < i {
        assert items[pos + 1..][i - pos - 1] == items[i];
        assert rest[i - pos - 1] == Split(items[i]) && split[i - pos] == rest[i - pos - 1];
      }
    }
  }

  lemma SplitFromAt(items: seq<Item>, cut: nat, pos: nat, key: LineKey)
    requires pos < cut <= |items| && items[pos] == Insert(StopHere(key))
    requires forall i :: pos < i < cut ==> !IsStopCall(items[i])
    ensures SplitFrom(items, cut) == items[..pos] + ([Insert(StopHere(key))] + SplitAll(items[pos + 1..]))
    ensures SplitFrom(items, pos) == items[..pos] + ([Stop(key)] + SplitAll(items[pos + 1..]))
  {
    var rest := SplitAll(items[pos + 1..]);
    SplitFromTail(items, cut, pos, Insert(StopHere(key)), rest);
    SplitFromTail(items, pos, pos, Stop(key), rest);
  }

  lemma PendingBefore(codes: seq<seq<Item>>, cuts: seq<nat>, sites: seq<Site>)
    requires PendingSites(codes, cuts, sites) && sites != [] && sites[|sites| - 1].block < |codes|
    ensures PendingSites(codes, cuts[sites[|sites| - 1].block := sites[|sites| - 1].pos], sites[..|sites| - 1])
  {
    var last, init := sites[|sites| - 1], sites[..|sites| - 1];
    assert last in sites;
    forall s | s in init ensures s in sites && Precedes(s, last) {
      var k :| 0 <= k < |init| && init[k] == s;
      assert sites[k] == s;
    }
    assert forall s :: s in sites ==> s in init || s == last;
  }

  /** The last listed site is the last stop call of its block that is not yet split. */
  lemma LastSite(codes: seq<seq<Item>>, cuts: seq<nat>, sites: seq<Site>)
    requires PendingSites(codes, cuts, sites) && sites != []
    ensures var Site(b, pos, key) := sites[|sites| - 1];
      && b < |codes| && pos < cuts[b] <= |codes[b]|
      && SplitFrom(codes[b], cuts[b]) == codes[b][..pos] + ([Insert(StopHere(key))] + SplitAll(codes[b][pos + 1..]))
      && SplitFrom(codes[b], pos) == codes[b][..pos] + ([Stop(key)] + SplitAll(codes[b][pos + 1..]))
      && PendingSites(codes, cuts[b := pos], sites[..|sites| - 1])
  {
    var Site(b, pos, key) := sites[|sites| - 1];
    assert sites[|sites| - 1] in sites;
    forall i: nat | pos < i < cuts[b] ensures !IsStopCall(codes[b][i]) {
      NoneBetween(codes, cuts, sites, i);
    }
    SplitFromAt(codes[b], cuts[b], pos, key);
    PendingBefore(codes, cuts, sites);
  }

  lemma NothingPending(codes: seq<seq<Item>>, cuts: seq<nat>, b: nat)
    requires PendingSites(codes, cuts, []) && b < |codes|
    ensures SplitFrom(codes[b], cuts[b]) == SplitAll(codes[b])
  {
    assert forall i: nat :: i < cuts[b] ==> !IsStopCall(codes[b][i]);
  }

  // ---------------------------------------------------------------- the rewrite

  /** The frame of a rewrite of `func`. */
  function FrameOf(func: MirFunction, mode: Mode, cells: Cells): Frame
  {
    Frame(cells, mode.Deferred(), |func.locals|, |func.blocks|, (kind: StatementKind, dest: nat, h: HookCall) => IsHook(kind, dest, h))
  }

  /** The locals that the statements assign. */
  ghost function Assigned(statements: seq<Statement>): set<nat>
  {
    set i | 0 <= i < |statements| && statements[i].kind.Assign? :: statements[i].kind.dest
  }

  lemma AssignedGiven(statements: seq<Statement>, given: set<nat>)
    requires Assigned(statements) <= given
    ensures forall i :: 0 <= i < |statements| && statements[i].kind.Assign? ==> statements[i].kind.dest in given
  {
    forall i | 0 <= i < |statements| && statements[i].kind.Assign? ensures statements[i].kind.dest in given {
      assert statements[i].kind.dest in Assigned(statements);
    }
  }

  ghost function AssignedIn(func: MirFunction): set<nat>
  {
    set b, x | 0 <= b < |func.blocks| && x in Assigned(func.blocks[b].statements) :: x
  }

  class Rewriter {
    var locals: seq<LocalDecl>
    var blocks: seq<BasicBlock>
    var lines: set<LineKey>
    var lineToFn: map<LineKey, nat>

    constructor (func: MirFunction)
      ensures locals == func.locals && blocks == func.blocks && lines == {} && lineToFn == map[]
    {
      locals := func.locals;
      blocks := func.blocks;
      lines := {};
      lineToFn := map[];
    }

    /** The lines of the sites, and nothing else, have been added to the line tables. */
    ghost predicate Noted(lines0: set<LineKey>, toFn0: map<LineKey, nat>, sites: seq<Site>, fnId: nat)
      reads this`lines, this`lineToFn
    {
      lines == lines0 + SiteKeys(sites) && lineToFn == WithLines(toFn0, SiteKeys(sites), fnId)
    }

    /** Every local that the statements assign has been declared or is among `given`. */
    ghost predicate Declares(statements: seq<Statement>, given: set<nat>)
      reads this`locals
    {
      forall i :: 0 <= i < |statements| && statements[i].kind.Assign? ==>
        statements[i].kind.dest < |locals| || statements[i].kind.dest in given
    }

    ghost predicate AllDeclared(given: set<nat>)
      reads this`locals, this`blocks
    {
      forall b :: 0 <= b < |blocks| ==> Declares(blocks[b].statements, given)
    }

    lemma DeclaresNothing(given: set<nat>)
      ensures Declares([], given)
    {
    }

    method AllocSink() returns (id: nat)
      modifies this`locals
      ensures id == |old(locals)| && locals == old(locals) + [SINK]
    {
      id := |locals|;
      locals := locals + [SINK];
    }

    /** A call of hook `h` whose result goes to a fresh sink. */
    method CallStmt(h: HookCall, span: Span, ghost f: Frame) returns (stmt: Statement)
      requires !h.Load? && !h.ShouldCheck? && f.locals <= |locals|
      requires forall kind, dest: nat :: IsHook(kind, dest, h) ==> f.isHook(kind, dest, h)
      modifies this`locals
      ensures old(locals) <= locals && Carries(stmt, Insert(h), f) && stmt.kind.dest < |locals|
    {
      var sink := AllocSink();
      stmt := HookStatement(h, sink, span);
      assert IsHook(stmt.kind, sink, h);
    }

    /** The frame recognizes the hook calls. */
    static ghost predicate Recognizes(f: Frame)
    {
      forall kind, dest: nat, h :: IsHook(kind, dest, h) ==> f.isHook(kind, dest, h)
    }

    method BuildEntryPrelude(mode: Mode, cells: Cells, argCount: nat, ghost f: Frame, ghost given: set<nat>)
      returns (out: seq<Statement>)
      requires f.locals <= |locals| && Recognizes(f)
      modifies this`locals
      ensures old(locals) <= locals && CarriesAll(out, Prelude(mode, cells, argCount), f) && Declares(out, given)
    {
      out := [];
      ghost var enter: seq<Item> := if mode.stateMachine then [] else [Insert(Enter(mode.fnId))];
      if !mode.stateMachine {
        var call := CallStmt(Enter(mode.fnId), DEFAULT_SPAN, f);
        out := [call];
      }
      for n := 0 to argCount
        invariant old(locals) <= locals && Declares(out, given)
        invariant CarriesAll(out, enter + StoreArgs(cells, n), f)
      {
        var x := n + 1;
        var cell := CellOf(cells, x);
        ghost var items := enter + StoreArgs(cells, n);
        ghost var more: seq<Item> := [];
        if cell.Some? {
          var call := CallStmt(Store(cell.value, x), DEFAULT_SPAN, f);
          CarryMore(out, items, call, Insert(Store(cell.value, x)), f);
          out := out + [call];
          more := [Insert(Store(cell.value, x))];
        } else {
          assert items + more == items;
        }
        Assoc(enter, StoreArgs(cells, n), more);
      }
    }

    /** Appends the stop call that a new source line gets. */
    method AppendStop(b: nat, key: LineKey, span: Span, fnId: nat, rebuilt0: seq<Statement>, sites0: seq<Site>,
                      ghost items: seq<Item>, ghost f: Frame, ghost given: set<nat>, ghost lines0: set<LineKey>,
                      ghost toFn0: map<LineKey, nat>)
      returns (rebuilt: seq<Statement>, sites: seq<Site>)
      requires f.locals <= |locals| && Recognizes(f) && Builds(rebuilt0, items, b, sites0, f) && Declares(rebuilt0, given)
      requires Noted(lines0, toFn0, sites0, fnId)
      modifies this`locals, this`lines, this`lineToFn
      ensures old(locals) <= locals && Declares(rebuilt, given)
      ensures Builds(rebuilt, items + [Insert(StopHere(key))], b, sites, f)
      ensures Noted(lines0, toFn0, sites, fnId)
    {
      lines := lines + {key};
      lineToFn := lineToFn[key := fnId];
      var call := CallStmt(StopHere(key), span, f);
      CarryMore(rebuilt0, items, call, Insert(StopHere(key)), f);
      ListsStop(items, b, sites0, key);
      SiteKeysMore(sites0, Site(b, |rebuilt0|, key));
      LinesMore(toFn0, SiteKeys(sites0), key, fnId);
      rebuilt, sites := rebuilt0 + [call], sites0 + [Site(b, |rebuilt0|, key)];
    }

    /** Appends the statement itself and, in eager mode, the store of the local it assigns. */
    method AppendStatement(stmt: Statement, b: nat, mode: Mode, cells: Cells, rebuilt0: seq<Statement>, ghost sites: seq<Site>,
                           ghost items: seq<Item>, ghost f: Frame, ghost given: set<nat>)
      returns (rebuilt: seq<Statement>)
      requires f.locals <= |locals| && Recognizes(f) && Builds(rebuilt0, items, b, sites, f)
      requires Declares(rebuilt0, given) && (stmt.kind.Assign? ==> stmt.kind.dest in given)
      modifies this`locals
      ensures old(locals) <= locals && Declares(rebuilt, given)
      ensures Builds(rebuilt, items + ([Keep(stmt)] + StoreAfter(cells, mode.Deferred(), stmt)), b, sites, f)
    {
      CarryMore(rebuilt0, items, stmt, Keep(stmt), f);
      ListsMore(items, b, sites, [Keep(stmt)]);
      rebuilt := rebuilt0 + [stmt];
      ghost var kept := items + [Keep(stmt)];
      var cell := if !mode.Deferred() && stmt.kind.Assign? then CellOf(cells, stmt.kind.dest) else None;
      if cell.Some? {
        var call := CallStmt(Store(cell.value, stmt.kind.dest), stmt.span, f);
        CarryMore(rebuilt, kept, call, Insert(Store(cell.value, stmt.kind.dest)), f);
        ListsMore(kept, b, sites, [Insert(Store(cell.value, stmt.kind.dest))]);
        rebuilt := rebuilt + [call];
      }
      assert items + ([Keep(stmt)] + StoreAfter(cells, mode.Deferred(), stmt)) == kept + StoreAfter(cells, mode.Deferred(), stmt);
    }

    /** Appends the stop call of a statement that starts a new line, and moves on to its line. */
    method AppendLine(b: nat, stmt: Statement, lastLine0: Option<LineKey>, fnId: nat, rebuilt0: seq<Statement>, sites0: seq<Site>,
                      ghost items: seq<Item>, ghost stop: seq<Item>, ghost f: Frame, ghost given: set<nat>, ghost lines0: set<LineKey>,
                      ghost toFn0: map<LineKey, nat>)
      returns (rebuilt: seq<Statement>, sites: seq<Site>, lastLine: Option<LineKey>)
      requires f.locals <= |locals| && Recognizes(f) && Builds(rebuilt0, items, b, sites0, f) && Declares(rebuilt0, given)
      requires Noted(lines0, toFn0, sites0, fnId)
      requires stop == if HasSpan(stmt) && lastLine0 != Some(PackLine(stmt.span)) then [Insert(StopHere(PackLine(stmt.span)))] else []
      modifies this`locals, this`lines, this`lineToFn
      ensures old(locals) <= locals && Declares(rebuilt, given)
      ensures lastLine == if HasSpan(stmt) then Some(PackLine(stmt.span)) else lastLine0
      ensures Builds(rebuilt, items + stop, b, sites, f)
      ensures Noted(lines0, toFn0, sites, fnId)
    {
      hide Builds, SiteKeys, WithLines, HasSpan, PackLine, Recognizes;
      rebuilt, sites, lastLine := rebuilt0, sites0, lastLine0;
      if HasSpan(stmt) {
        var packed := PackLine(stmt.span);
        if lastLine != Some(packed) {
          rebuilt, sites := AppendStop(b, packed, stmt.span, fnId, rebuilt, sites, items, f, given, lines0, toFn0);
          lastLine := Some(packed);
          return;
        }
      }
      assert items + stop == items;
    }

    /** The first `i` statements of a block have been rebuilt. */
    static ghost predicate Reached(original: seq<Statement>, i: nat, lastLine: Option<LineKey>, ctx: RunCtx, mode: Mode, cells: Cells,
                                   before: seq<Item>, rebuilt: seq<Statement>, b: nat, sites: seq<Site>, f: Frame)
    {
      && i <= |original| && lastLine == LineBefore(original, ctx, i)
      && Builds(rebuilt, before + Chunks(original, ctx, cells, mode.Deferred(), false, i), b, sites, f)
    }

    static lemma ReachedNext(original: seq<Statement>, i: nat, lastLine: Option<LineKey>, ctx: RunCtx, mode: Mode, cells: Cells,
                             before: seq<Item>, rebuilt: seq<Statement>, b: nat, sites: seq<Site>, f: Frame, stop: seq<Item>)
      requires i < |original| && lastLine == LineBefore(original, ctx, i + 1)
      requires stop == if IsSite(original, ctx, i) then [Insert(StopHere(PackLine(original[i].span)))] else []
      requires var items := before + Chunks(original, ctx, cells, mode.Deferred(), false, i);
        Builds(rebuilt, items + stop + ([Keep(original[i])] + StoreAfter(cells, mode.Deferred(), original[i])), b, sites, f)
      ensures Reached(original, i + 1, lastLine, ctx, mode, cells, before, rebuilt, b, sites, f)
    {
      NextChunk(before, original, ctx, cells, mode.Deferred(), i, stop);
      hide Builds, Chunks, LineBefore, IsSite, StoreAfter;
    }

    static lemma NothingReached(original: seq<Statement>, ctx: RunCtx, mode: Mode, cells: Cells, before: seq<Item>,
                                prelude: seq<Statement>, b: nat, f: Frame)
      requires Builds(prelude, before, b, [], f)
      ensures Reached(original, 0, StartLine(ctx), ctx, mode, cells, before, prelude, b, [], f)
    {
      assert before + [] == before;
      hide Builds;
    }

    static lemma AllReached(original: seq<Statement>, lastLine: Option<LineKey>, ctx: RunCtx, mode: Mode, cells: Cells,
                            before: seq<Item>, rebuilt: seq<Statement>, b: nat, sites: seq<Site>, f: Frame)
      requires Reached(original, |original|, lastLine, ctx, mode, cells, before, rebuilt, b, sites, f)
      ensures Builds(rebuilt, before + Chunks(original, ctx, cells, mode.Deferred(), false, |original|), b, sites, f)
    {
      hide Builds, Chunks;
    }

    /** Appends what one original statement becomes. */
    method AppendChunk(b: nat, original: seq<Statement>, i: nat, lastLine0: Option<LineKey>, ghost ctx: RunCtx, mode: Mode, cells: Cells,
                       rebuilt0: seq<Statement>, sites0: seq<Site>, ghost before: seq<Item>, ghost f: Frame, ghost given: set<nat>,
                       ghost lines0: set<LineKey>, ghost toFn0: map<LineKey, nat>)
      returns (rebuilt: seq<Statement>, sites: seq<Site>, lastLine: Option<LineKey>)
      requires f.locals <= |locals| && Recognizes(f) && i < |original|
      requires Reached(original, i, lastLine0, ctx, mode, cells, before, rebuilt0, b, sites0, f)
      requires Noted(lines0, toFn0, sites0, mode.fnId)
      requires Declares(rebuilt0, given) && (original[i].kind.Assign? ==> original[i].kind.dest in given)
      modifies this`locals, this`lines, this`lineToFn
      ensures old(locals) <= locals && Declares(rebuilt, given)
      ensures Reached(original, i + 1, lastLine, ctx, mode, cells, before, rebuilt, b, sites, f)
      ensures Noted(lines0, toFn0, sites, mode.fnId)
    {
      var stmt := original[i];
      ghost var items := before + Chunks(original, ctx, cells, mode.Deferred(), false, i);
      ghost var stop: seq<Item> := if IsSite(original, ctx, i) then [Insert(StopHere(PackLine(stmt.span)))] else [];
      LineAfter(original, ctx, i);
      hide *;
      rebuilt, sites, lastLine := AppendLine(b, stmt, lastLine0, mode.fnId, rebuilt0, sites0, items, stop, f, given, lines0, toFn0);
      rebuilt := AppendStatement(stmt, b, mode, cells, rebuilt, sites, items + stop, f, given);
      ReachedNext(original, i, lastLine, ctx, mode, cells, before, rebuilt, b, sites, f, stop);
    }

    /** Inserts a block's hooks, noting the stop calls and their lines. */
    method RebuildBlock(b: nat, original: seq<Statement>, prelude: seq<Statement>, ghost before: seq<Item>, ctx: RunCtx,
                        mode: Mode, cells: Cells, ghost f: Frame, ghost given: set<nat>)
      returns (rebuilt: seq<Statement>, sites: seq<Site>)
      requires f.locals <= |locals| && Recognizes(f) && Builds(prelude, before, b, [], f)
      requires Declares(prelude, given) && Assigned(original) <= given
      modifies this`locals, this`lines, this`lineToFn
      ensures old(locals) <= locals && Declares(rebuilt, given)
      ensures Builds(rebuilt, before + Chunks(original, ctx, cells, mode.Deferred(), false, |original|), b, sites, f)
      ensures Noted(old(lines), old(lineToFn), sites, mode.fnId)
    {
      rebuilt, sites := prelude, [];
      var lastLine := StartLine(ctx);
      NothingReached(original, ctx, mode, cells, before, prelude, b, f);
      NotedNothing(lines, lineToFn, mode.fnId);
      AssignedGiven(original, given);
      hide *;
      for i := 0 to |original|
        invariant old(locals) <= locals && Declares(rebuilt, given)
        invariant Reached(original, i, lastLine, ctx, mode, cells, before, rebuilt, b, sites, f)
        invariant Noted(old(lines), old(lineToFn), sites, mode.fnId)
      {
        rebuilt, sites, lastLine := AppendChunk(b, original, i, lastLine, ctx, mode, cells, rebuilt, sites, before, f, given,
                                                old(lines), old(lineToFn));
      }
      AllReached(original, lastLine, ctx, mode, cells, before, rebuilt, b, sites, f);
    }

    /** The exit call that goes before a return. */
    method AppendExit(mode: Mode, bb: BasicBlock, rebuilt0: seq<Statement>, ghost items: seq<Item>, b: nat, ghost sites: seq<Site>,
                      ghost f: Frame, ghost given: set<nat>)
      returns (rebuilt: seq<Statement>)
      requires f.locals <= |locals| && Recognizes(f) && Builds(rebuilt0, items, b, sites, f) && Declares(rebuilt0, given)
      modifies this`locals
      ensures old(locals) <= locals && Builds(rebuilt, items + Epilogue(mode, bb), b, sites, f) && Declares(rebuilt, given)
    {
      rebuilt := rebuilt0;
      if !mode.stateMachine && EndsInReturn(bb) {
        var call := CallStmt(Exit, bb.terminator.value.span, f);
        CarryMore(rebuilt, items, call, Insert(Exit), f);
        ListsMore(items, b, sites, [Insert(Exit)]);
        rebuilt := rebuilt + [call];
      } else {
        assert items + [] == items;
      }
    }

    /** One store for each cell. */
    method BuildFlush(cells: Cells, ghost f: Frame, ghost given: set<nat>) returns (body: seq<Statement>)
      requires f.locals <= |locals| && Recognizes(f)
      modifies this`locals
      ensures old(locals) <= locals && CarriesAll(body, StoreAll(cells, |cells|), f) && Declares(body, given)
    {
      body := [];
      for c := 0 to |cells|
        invariant old(locals) <= locals && CarriesAll(body, StoreAll(cells, c), f) && Declares(body, given)
      {
        var call := CallStmt(Store(c, cells[c]), DEFAULT_SPAN, f);
        CarryMore(body, StoreAll(cells, c), call, Insert(Store(c, cells[c])), f);
        assert StoreAll(cells, c) + [Insert(Store(c, cells[c]))] == StoreAll(cells, c + 1);
        body := body + [call];
      }
    }

    /** The statements of a hook block: flush, stop, reload. */
    method BuildHookBody(key: LineKey, cells: Cells, flush: bool, ghost f: Frame, ghost given: set<nat>) returns (body: seq<Statement>)
      requires f.locals <= |locals| && Recognizes(f) && f.cells == cells && f.flush == flush
      requires forall c :: 0 <= c < |cells| ==> cells[c] in given
      modifies this`locals
      ensures old(locals) <= locals && CarriesAll(body, HookBody(cells, flush, key), f) && Declares(body, given)
    {
      body := [];
      ghost var items: seq<Item> := [];
      if flush {
        body := BuildFlush(cells, f, given);
        items := StoreAll(cells, |cells|);
      }
      var stop := CallStmt(StopHere(key), DEFAULT_SPAN, f);
      CarryMore(body, items, stop, Insert(StopHere(key)), f);
      body, items := body + [stop], items + [Insert(StopHere(key))];
      for c := 0 to |cells|
        invariant old(locals) <= locals && CarriesAll(body, items + LoadAll(cells, c), f) && Declares(body, given)
      {
        var load := HookStatement(Load(c, cells[c]), cells[c], DEFAULT_SPAN);
        assert IsHook(load.kind, cells[c], Load(c, cells[c]));
        CarryMore(body, items + LoadAll(cells, c), load, Insert(Load(c, cells[c])), f);
        assert LoadAll(cells, c) + [Insert(Load(c, cells[c]))] == LoadAll(cells, c + 1);
        Assoc(items, LoadAll(cells, c), [Insert(Load(c, cells[c]))]);
        body := body + [load];
      }
    }

    /** Splits the stop call at statement `pos` of block `b` off into a conditional. */
    method MakeStmtConditional(b: nat, pos: nat, key: LineKey, cells: Cells, flush: bool, ghost f: Frame, ghost given: set<nat>)
      requires f.locals <= |locals| && Recognizes(f) && f.cells == cells && f.flush == flush
      requires b < f.blocks <= |blocks| && pos < |blocks[b].statements|
      requires AllDeclared(given) && forall c :: 0 <= c < |cells| ==> cells[c] in given
      modifies this`locals, this`blocks
      ensures old(locals) <= locals && IsSplit(old(blocks), blocks, f, b, pos, key) && AllDeclared(given)
    {
      var statements, oldTerminator := blocks[b].statements, blocks[b].terminator;
      var before, after := statements[..pos], statements[pos + 1..];
      var check := AllocSink();
      var hookBody := BuildHookBody(key, cells, flush, f, given);
      var hookBb := |blocks|;
      var contBb := |blocks| + 1;
      var checkStmt := HookStatement(ShouldCheck(key), check, DEFAULT_SPAN);
      assert IsHook(checkStmt.kind, check, ShouldCheck(key));
      blocks := blocks + [BasicBlock(hookBody, Some(Terminator(Goto(contBb), DEFAULT_SPAN)))];
      blocks := blocks + [BasicBlock(after, oldTerminator)];
      blocks := blocks[b := BasicBlock(before + [checkStmt],
                                       Some(Terminator(SwitchInt(Copy(check), [(0, contBb)], hookBb), DEFAULT_SPAN)))];
    }

    /** Rebuilds block `b` with its hooks. */
    method RebuildAt(func: MirFunction, mode: Mode, cells: Cells, ctx: RunCtx, b: nat, prelude: seq<Statement>, ghost f: Frame, ghost given: set<nat>)
      returns (sites: seq<Site>)
      requires b < |func.blocks| && b < |blocks| && blocks[b] == func.blocks[b]
      requires f.locals <= |locals| && Recognizes(f)
      requires CarriesAll(prelude, if b == 0 then Prelude(mode, cells, func.argCount) else [], f)
      requires Declares(prelude, given) && Assigned(func.blocks[b].statements) <= given && AllDeclared(given)
      modifies this
      ensures old(locals) <= locals && |blocks| == |old(blocks)| && AllDeclared(given)
      ensures forall x :: 0 <= x < |blocks| && x != b ==> blocks[x] == old(blocks)[x]
      ensures IsRebuilt(blocks[b], func.blocks[b], Code(func, mode, cells, ctx, false, b), f)
      ensures ListsSites(Code(func, mode, cells, ctx, false, b), b, sites)
      ensures Noted(old(lines), old(lineToFn), sites, mode.fnId)
    {
      var original := blocks[b].statements;
      ghost var before := if b == 0 then Prelude(mode, cells, func.argCount) else [];
      PreludeBuilds(func, mode, cells, b, prelude, before, f);
      var rebuilt, found := RebuildBlock(b, original, prelude, before, ctx, mode, cells, f, given);
      sites := found;
      rebuilt := AppendExit(mode, blocks[b], rebuilt,
                            before + Chunks(original, ctx, cells, mode.Deferred(), false, |original|), b, sites, f, given);
      blocks := blocks[b := BasicBlock(rebuilt, blocks[b].terminator)];
    }

    /** Rebuilds block `b` once all before it have been rebuilt. */
    method RebuildNext(func: MirFunction, mode: Mode, cells: Cells, ctxs: seq<RunCtx>, b: nat, prelude: seq<Statement>,
                       sites0: seq<Site>, ghost f: Frame, ghost given: set<nat>, ghost codes0: seq<seq<Item>>,
                       ghost lines0: set<LineKey>, ghost toFn0: map<LineKey, nat>)
      returns (sites: seq<Site>, ghost codes: seq<seq<Item>>)
      requires b < |func.blocks| == |blocks| == |ctxs| && |codes0| == b && f.locals <= |locals| && Recognizes(f)
      requires CarriesAll(prelude, if b == 0 then Prelude(mode, cells, func.argCount) else [], f)
      requires Declares(prelude, given) && Assigned(func.blocks[b].statements) <= given && AllDeclared(given)
      requires RebuiltUpTo(func, mode, cells, ctxs, blocks, codes0, b, f) && PendingSites(codes0, Lengths(codes0), sites0)
      requires Noted(lines0, toFn0, sites0, mode.fnId)
      modifies this
      ensures old(locals) <= locals && |blocks| == |func.blocks| && |codes| == b + 1 && AllDeclared(given)
      ensures RebuiltUpTo(func, mode, cells, ctxs, blocks, codes, b + 1, f) && PendingSites(codes, Lengths(codes), sites)
      ensures Noted(lines0, toFn0, sites, mode.fnId)
    {
      hide RebuiltUpTo, IsCodes, AllDeclared, Declares, Assigned;
      hide IsRebuilt, Recognizes, Code, Prelude, PendingSites, ListsSites, Lengths, CarriesAll, SiteKeys, WithLines;
      ghost var before := blocks;
      RebuiltNext(func, mode, cells, ctxs, blocks, codes0, b, f);
      var found := RebuildAt(func, mode, cells, ctxs[b], b, prelude, f, given);
      ghost var code := Code(func, mode, cells, ctxs[b], false, b);
      RebuiltOneMore(func, mode, cells, ctxs, before, blocks, codes0, b, b + 1, f);
      PendingAppend(codes0, sites0, code, found);
      NotedAppend(lines0, toFn0, sites0, found, mode.fnId);
      codes := codes0 + [code];
      sites := sites0 + found;
    }

    /** The first phase: every block is rebuilt with its hooks and all stop calls are noted. */
    method RebuildAll(func: MirFunction, mode: Mode, cells: Cells, ctxs: seq<RunCtx>, prelude: seq<Statement>, ghost f: Frame,
                      ghost given: set<nat>)
      returns (sites: seq<Site>, ghost codes: seq<seq<Item>>)
      requires blocks == func.blocks && |ctxs| == |func.blocks| && f.locals <= |locals| && Recognizes(f)
      requires CarriesAll(prelude, Prelude(mode, cells, func.argCount), f)
      requires Declares(prelude, given) && forall b :: 0 <= b < |func.blocks| ==> Assigned(func.blocks[b].statements) <= given
      modifies this
      ensures old(locals) <= locals && |blocks| == |func.blocks| && AllDeclared(given)
      ensures IsCodes(func, mode, cells, ctxs, codes)
      ensures forall b :: 0 <= b < |blocks| ==> IsRebuilt(blocks[b], func.blocks[b], codes[b], f)
      ensures PendingSites(codes, Lengths(codes), sites)
      ensures Noted(old(lines), old(lineToFn), sites, mode.fnId)
    {
      assert PendingSites([], Lengths([]), []);
      assert RebuiltUpTo(func, mode, cells, ctxs, blocks, [], 0, f);
      assert AllDeclared(given) && CarriesAll([], [], f);
      hide *;
      sites, codes := [], [];
      var entryPrelude := prelude;
      NotedNothing(lines, lineToFn, mode.fnId);
      for b := 0 to |func.blocks|
        invariant old(locals) <= locals && |blocks| == |func.blocks| && |codes| == b
        invariant AllDeclared(given) && Declares(entryPrelude, given)
        invariant CarriesAll(entryPrelude, if b == 0 then Prelude(mode, cells, func.argCount) else [], f)
        invariant RebuiltUpTo(func, mode, cells, ctxs, blocks, codes, b, f)
        invariant PendingSites(codes, Lengths(codes), sites)
        invariant Noted(old(lines), old(lineToFn), sites, mode.fnId)
      {
        sites, codes := RebuildNext(func, mode, cells, ctxs, b, entryPrelude, sites, f, given, codes, old(lines), old(lineToFn));
        entryPrelude := [];
        DeclaresNothing(given);
      }
      RebuiltNext(func, mode, cells, ctxs, blocks, codes, |func.blocks|, f);
    }

    /** Splits off the last pending stop call. */
    method SplitSite(site: Site, cells: Cells, flush: bool, ghost f: Frame, ghost given: set<nat>, ghost codes: seq<seq<Item>>, ghost cuts0: seq<nat>,
                     ghost terms: seq<Option<Terminator>>, ghost pending: seq<Site>)
      returns (ghost cuts: seq<nat>)
      requires f.locals <= |locals| && Recognizes(f) && f.cells == cells && f.flush == flush && f.blocks <= |blocks|
      requires PendingSites(codes, cuts0, pending) && ExecutesCut(blocks, f, codes, cuts0, terms)
      requires pending != [] && pending[|pending| - 1] == site
      requires AllDeclared(given) && forall c :: 0 <= c < |cells| ==> cells[c] in given
      modifies this`locals, this`blocks
      ensures old(locals) <= locals && f.blocks <= |blocks| && AllDeclared(given)
      ensures PendingSites(codes, cuts, pending[..|pending| - 1]) && ExecutesCut(blocks, f, codes, cuts, terms)
    {
      ghost var before := blocks;
      LastSite(codes, cuts0, pending);
      SiteStatementExists(blocks, f, codes, cuts0, terms, site.block, site.pos, site.key);
      MakeStmtConditional(site.block, site.pos, site.key, cells, flush, f, given);
      SplitOne(before, blocks, f, codes, cuts0, terms, site.block, site.pos, site.key);
      cuts := cuts0[site.block := site.pos];
    }

    /** The second phase: the stop calls are split off from the last to the first. */
    method SplitSites(sites: seq<Site>, cells: Cells, flush: bool, ghost f: Frame, ghost given: set<nat>, ghost codes: seq<seq<Item>>,
                      ghost terms: seq<Option<Terminator>>)
      requires f.locals <= |locals| && Recognizes(f) && f.cells == cells && f.flush == flush
      requires |terms| == |codes| == f.blocks == |blocks| && PendingSites(codes, Lengths(codes), sites)
      requires forall b :: 0 <= b < |codes| ==> NoStops(codes[b])
      requires forall b :: 0 <= b < |codes| ==> CarriesAll(blocks[b].statements, codes[b], f) && blocks[b].terminator == terms[b]
      requires AllDeclared(given) && forall c :: 0 <= c < |cells| ==> cells[c] in given
      modifies this`locals, this`blocks
      ensures old(locals) <= locals && AllDeclared(given)
      ensures forall b: nat :: b < |codes| ==> Executes(blocks, f, b, 0, SplitAll(codes[b]), terms[b])
    {
      hide Executes, CarriesAll, Recognizes;
      ghost var cuts: seq<nat> := Lengths(codes);
      AllCarriedExecute(blocks, f, codes, terms);
      var k := |sites|;
      while k > 0
        invariant 0 <= k <= |sites| && old(locals) <= locals && f.blocks <= |blocks| && AllDeclared(given)
        invariant PendingSites(codes, cuts, sites[..k]) && ExecutesCut(blocks, f, codes, cuts, terms)
      {
        ghost var pending := sites[..k];
        k := k - 1;
        assert pending[|pending| - 1] == sites[k] && pending[..|pending| - 1] == sites[..k];
        cuts := SplitSite(sites[k], cells, flush, f, given, codes, cuts, terms, pending);
      }
      assert sites[..0] == [];
      forall b: nat | b < |codes| ensures Executes(blocks, f, b, 0, SplitAll(codes[b]), terms[b]) {
        NothingPending(codes, cuts, b);
      }
    }

    /** Rewrites the function held by this object, which starts out as `func`. Every original block ends up
        executing its plan, for line contexts that are exact. */
    method InstrumentFunction(func: MirFunction, mode: Mode, cells: Cells) returns (ghost ctxs: seq<RunCtx>)
      requires locals == func.locals && blocks == func.blocks
      modifies this
      ensures old(locals) <= locals && |ctxs| == |func.blocks|
      ensures AllDeclared(AssignedIn(func) + set c | c in cells)
      ensures forall b: nat :: b < |ctxs| ==> IsExact(func, b, ctxs[b])
      ensures forall b: nat :: b < |ctxs| ==>
                Executes(blocks, FrameOf(func, mode, cells), b, 0, Code(func, mode, cells, ctxs[b], true, b), func.blocks[b].terminator)
      ensures forall key :: key in lines <==> key in old(lines) || StopsAt(func, mode, cells, ctxs, key)
      ensures forall key :: key in lineToFn <==> key in old(lineToFn) || StopsAt(func, mode, cells, ctxs, key)
      ensures forall key :: key in lineToFn ==>
                lineToFn[key] == if StopsAt(func, mode, cells, ctxs, key) then mode.fnId else old(lineToFn)[key]
    {
      ghost var f := FrameOf(func, mode, cells);
      ghost var given := AssignedIn(func) + set c | c in cells;
      var prelude := BuildEntryPrelude(mode, cells, func.argCount, f, given);
      var contexts := ComputeContexts(func);
      ctxs := contexts;
      var sites;
      ghost var codes;
      sites, codes := RebuildAll(func, mode, cells, contexts, prelude, f, given);
      forall b: nat | b < |codes| ensures NoStops(codes[b]) {
        CodeHasNoStops(func, mode, cells, contexts[b], b);
      }
      ghost var terms := seq(|func.blocks|, b requires 0 <= b < |func.blocks| => func.blocks[b].terminator);
      SplitSites(sites, cells, mode.Deferred(), f, given, codes, terms);
      forall b: nat | b < |ctxs|
        ensures Executes(blocks, f, b, 0, Code(func, mode, cells, ctxs[b], true, b), func.blocks[b].terminator)
      {
        CodeSplit(func, mode, cells, ctxs[b], b);
      }
      forall key ensures key in SiteKeys(sites) <==> StopsAt(func, mode, cells, ctxs, key) {
        KeyIsStop(func, mode, cells, ctxs, codes, sites, key);
      }
    }
  }

  /** Some block of the final plan stops at line `key`. */
  ghost predicate StopsAt(func: MirFunction, mode: Mode, cells: Cells, ctxs: seq<RunCtx>, key: LineKey)
    requires |ctxs| == |func.blocks|
  {
    exists b: nat :: b < |ctxs| && Stop(key) in Code(func, mode, cells, ctxs[b], true, b)
  }

  ghost predicate IsCodes(func: MirFunction, mode: Mode, cells: Cells, ctxs: seq<RunCtx>, codes: seq<seq<Item>>)
  {
    |codes| == |ctxs| == |func.blocks| &&
    forall b :: 0 <= b < |codes| ==> codes[b] == Code(func, mode, cells, ctxs[b], false, b)
  }

  /** The first `n` blocks are rebuilt from their codes, the others still as they were. */
  ghost predicate RebuiltUpTo(func: MirFunction, mode: Mode, cells: Cells, ctxs: seq<RunCtx>, blocks: seq<BasicBlock>,
                              codes: seq<seq<Item>>, n: nat, f: Frame)
  {
    && |blocks| == |func.blocks| == |ctxs| && |codes| == n <= |blocks|
    && (forall x: nat :: x < n ==> codes[x] == Code(func, mode, cells, ctxs[x], false, x))
    && (forall x: nat :: x < n ==> IsRebuilt(blocks[x], func.blocks[x], codes[x], f))
    && (forall x: nat :: n <= x < |blocks| ==> blocks[x] == func.blocks[x])
  }

  /** The next block is as it was, or there is none and all codes are there. */
  lemma RebuiltNext(func: MirFunction, mode: Mode, cells: Cells, ctxs: seq<RunCtx>, blocks: seq<BasicBlock>,
                    codes: seq<seq<Item>>, n: nat, f: Frame)
    requires RebuiltUpTo(func, mode, cells, ctxs, blocks, codes, n, f)
    ensures |codes| == n <= |blocks| == |func.blocks| && (n < |blocks| ==> blocks[n] == func.blocks[n])
    ensures n == |blocks| ==> IsCodes(func, mode, cells, ctxs, codes)
    ensures n == |blocks| ==> forall b :: 0 <= b < |blocks| ==> IsRebuilt(blocks[b], func.blocks[b], codes[b], f)
  {
    hide Code, IsRebuilt;
  }

  lemma RebuiltOneMore(func: MirFunction, mode: Mode, cells: Cells, ctxs: seq<RunCtx>, before: seq<BasicBlock>,
                       after: seq<BasicBlock>, codes: seq<seq<Item>>, b: nat, n: nat, f: Frame)
    requires RebuiltUpTo(func, mode, cells, ctxs, before, codes, b, f) && b < |before| == |after| && n == b + 1
    requires forall x :: 0 <= x < |after| && x != b ==> after[x] == before[x]
    requires IsRebuilt(after[b], func.blocks[b], Code(func, mode, cells, ctxs[b], false, b), f)
    ensures RebuiltUpTo(func, mode, cells, ctxs, after, codes + [Code(func, mode, cells, ctxs[b], false, b)], n, f)
  {
    hide Code, IsRebuilt;
  }

  lemma KeyIsStop(func: MirFunction, mode: Mode, cells: Cells, ctxs: seq<RunCtx>, codes: seq<seq<Item>>, sites: seq<Site>, key: LineKey)
    requires IsCodes(func, mode, cells, ctxs, codes) && PendingSites(codes, Lengths(codes), sites)
    requires forall b :: 0 <= b < |codes| ==> NoStops(codes[b])
    ensures key in SiteKeys(sites) <==> StopsAt(func, mode, cells, ctxs, key)
  {
    if key in SiteKeys(sites) {
      var s :| s in sites && s.key == key;
      CodeSplit(func, mode, cells, ctxs[s.block], s.block);
      assert SplitAll(codes[s.block])[s.pos] == Stop(key);
    }
    if b: nat :| b < |ctxs| && Stop(key) in Code(func, mode, cells, ctxs[b], true, b) {
      CodeSplit(func, mode, cells, ctxs[b], b);
      var i: nat :| i < |codes[b]| && SplitAll(codes[b])[i] == Stop(key);
      assert IsStopCall(codes[b][i]);
      assert Site(b, i, key) in sites;
    }
  }

  function Lengths(codes: seq<seq<Item>>): (r: seq<nat>)
    ensures |r| == |codes| && forall b :: 0 <= b < |codes| ==> r[b] == |codes[b]|
  {
    seq(|codes|, b requires 0 <= b < |codes| => |codes[b]|)
  }

  ghost predicate IsRebuilt(bb: BasicBlock, original: BasicBlock, code: seq<Item>, f: Frame)
  {
    CarriesAll(bb.statements, code, f) && bb.terminator == original.terminator
  }

  lemma NotedNothing(lines: set<LineKey>, toFn: map<LineKey, nat>, fnId: nat)
    ensures SiteKeys([]) == {} && lines + {} == lines && WithLines(toFn, {}, fnId) == toFn
  {
  }

  lemma PendingAppend(codes: seq<seq<Item>>, sites: seq<Site>, code: seq<Item>, found: seq<Site>)
    requires PendingSites(codes, Lengths(codes), sites) && ListsSites(code, |codes|, found)
    ensures PendingSites(codes + [code], Lengths(codes + [code]), sites + found)
  {
    var all := sites + found;
    forall k, m | 0 <= k < m < |all| ensures Precedes(all[k], all[m]) {
      if k < |sites| {
        assert sites[k] in sites;
      }
      if m >= |sites| {
        assert found[m - |sites|] in found;
      }
    }
  }

  lemma SiteKeysConcat(sites: seq<Site>, found: seq<Site>)
    ensures SiteKeys(sites + found) == SiteKeys(sites) + SiteKeys(found)
  {
    forall key | key in SiteKeys(sites) + SiteKeys(found) ensures key in SiteKeys(sites + found) {
      var s :| (s in sites || s in found) && s.key == key;
      assert s in sites + found;
    }
  }

  lemma WithMoreLines(toFn: map<LineKey, nat>, a: set<LineKey>, b: set<LineKey>, fnId: nat)
    ensures WithLines(WithLines(toFn, a, fnId), b, fnId) == WithLines(toFn, a + b, fnId)
  {
  }

  lemma NotedAppend(lines: set<LineKey>, toFn: map<LineKey, nat>, sites: seq<Site>, found: seq<Site>, fnId: nat)
    ensures SiteKeys(sites + found) == SiteKeys(sites) + SiteKeys(found)
    ensures WithLines(WithLines(toFn, SiteKeys(sites), fnId), SiteKeys(found), fnId) == WithLines(toFn, SiteKeys(sites + found), fnId)
  {
    hide SiteKeys, WithLines;
    SiteKeysConcat(sites, found);
    WithMoreLines(toFn, SiteKeys(sites), SiteKeys(found), fnId);
  }

  lemma {:induction false} StoreArgsHaveNoStops(cells: Cells, argCount: nat)
    ensures forall i :: 0 <= i < |StoreArgs(cells, argCount)| ==>
      !IsStopCall(StoreArgs(cells, argCount)[i]) && !StoreArgs(cells, argCount)[i].Stop?
  {
    if argCount > 0 {
      StoreArgsHaveNoStops(cells, argCount - 1);
    }
  }

  lemma PreludeHasNoStops(mode: Mode, cells: Cells, argCount: nat)
    ensures forall i :: 0 <= i < |Prelude(mode, cells, argCount)| ==>
      !IsStopCall(Prelude(mode, cells, argCount)[i]) && !Prelude(mode, cells, argCount)[i].Stop?
  {
    StoreArgsHaveNoStops(cells, argCount);
  }

  lemma PreludeBuilds(func: MirFunction, mode: Mode, cells: Cells, b: nat, prelude: seq<Statement>, before: seq<Item>, f: Frame)
    requires before == (if b == 0 then Prelude(mode, cells, func.argCount) else []) && CarriesAll(prelude, before, f)
    ensures Builds(prelude, before, b, [], f)
  {
    PreludeHasNoStops(mode, cells, func.argCount);
    ListsMore([], b, [], before);
    assert [] + before == before;
  }

  lemma {:induction false} ChunksHaveNoStops(statements: seq<Statement>, ctx: RunCtx, cells: Cells, deferred: bool, n: nat)
    requires n <= |statements|
    ensures NoStops(Chunks(statements, ctx, cells, deferred, false, n))
  {
    if n > 0 {
      ChunksHaveNoStops(statements, ctx, cells, deferred, n - 1);
      assert NoStops(Chunk(statements, ctx, cells, deferred, false, n - 1));
    }
  }

  lemma CodeHasNoStops(func: MirFunction, mode: Mode, cells: Cells, ctx: RunCtx, b: nat)
    requires b < |func.blocks|
    ensures NoStops(Code(func, mode, cells, ctx, false, b))
  {
    PreludeHasNoStops(mode, cells, func.argCount);
    ChunksHaveNoStops(func.blocks[b].statements, ctx, cells, mode.Deferred(), |func.blocks[b].statements|);
  }

  /** Every block executes its items, split from its cut on. */
  ghost predicate ExecutesCut(blocks: seq<BasicBlock>, f: Frame, codes: seq<seq<Item>>, cuts: seq<nat>, terms: seq<Option<Terminator>>)
  {
    && |codes| == |cuts| == |terms| == f.blocks
    && (forall b :: 0 <= b < |codes| ==> cuts[b] <= |codes[b]| && NoStops(codes[b]))
    && forall b: nat :: b < |codes| ==> Executes(blocks, f, b, 0, SplitFrom(codes[b], cuts[b]), terms[b])
  }

  lemma AllCarriedExecute(blocks: seq<BasicBlock>, f: Frame, codes: seq<seq<Item>>, terms: seq<Option<Terminator>>)
    requires |terms| == |codes| == f.blocks == |blocks|
    requires forall b :: 0 <= b < |codes| ==> NoStops(codes[b])
    requires forall b :: 0 <= b < |codes| ==> CarriesAll(blocks[b].statements, codes[b], f) && blocks[b].terminator == terms[b]
    ensures ExecutesCut(blocks, f, codes, Lengths(codes), terms)
  {
    forall b: nat | b < |codes| ensures Executes(blocks, f, b, 0, SplitFrom(codes[b], Lengths(codes)[b]), terms[b]) {
      assert blocks[b].statements[0..] == blocks[b].statements;
      CarriedExecutes(blocks, f, b, 0, codes[b]);
      assert SplitFrom(codes[b], |codes[b]|) == codes[b];
    }
  }

  lemma SiteStatementExists(blocks: seq<BasicBlock>, f: Frame, codes: seq<seq<Item>>, cuts: seq<nat>, terms: seq<Option<Terminator>>,
                            b: nat, pos: nat, key: LineKey)
    requires ExecutesCut(blocks, f, codes, cuts, terms) && b < |codes| && pos < |codes[b]|
    requires SplitFrom(codes[b], cuts[b]) == codes[b][..pos] + ([Insert(StopHere(key))] + SplitAll(codes[b][pos + 1..]))
    ensures b < |blocks| && pos < |blocks[b].statements|
  {
    var first := codes[b][..pos];
    assert NoStops(first);
    PrefixCarried(blocks, f, b, 0, first, [Insert(StopHere(key))] + SplitAll(codes[b][pos + 1..]), terms[b]);
  }

  lemma SplitOne(before: seq<BasicBlock>, after: seq<BasicBlock>, f: Frame, codes: seq<seq<Item>>, cuts: seq<nat>,
                 terms: seq<Option<Terminator>>, b: nat, pos: nat, key: LineKey)
    requires ExecutesCut(before, f, codes, cuts, terms) && b < |codes| && pos < |codes[b]|
    requires IsSplit(before, after, f, b, pos, key)
    requires SplitFrom(codes[b], cuts[b]) == codes[b][..pos] + ([Insert(StopHere(key))] + SplitAll(codes[b][pos + 1..]))
    requires SplitFrom(codes[b], pos) == codes[b][..pos] + ([Stop(key)] + SplitAll(codes[b][pos + 1..]))
    ensures ExecutesCut(after, f, codes, cuts[b := pos], terms)
  {
    forall c: nat | c < |codes| ensures Executes(after, f, c, 0, SplitFrom(codes[c], cuts[b := pos][c]), terms[c]) {
      if c == b {
        assert NoStops(codes[b][..pos]);
        SplitExecutes(before, after, f, b, pos, key, codes[b][..pos], SplitAll(codes[b][pos + 1..]), terms[b]);
      } else {
        ExecutesFrame(before, after, f, b, c, 0, SplitFrom(codes[c], cuts[c]), terms[c]);
      }
    }
  }

  /** The statements carry out the items, whose stop calls are listed. */
  ghost predicate Builds(statements: seq<Statement>, items: seq<Item>, b: nat, sites: seq<Site>, f: Frame)
  {
    CarriesAll(statements, items, f) && ListsSites(items, b, sites)
  }

  lemma {:induction false} LineAfter(statements: seq<Statement>, ctx: RunCtx, i: nat)
    requires i < |statements|
    ensures var stmt, before := statements[i], LineBefore(statements, ctx, i);
      && LineBefore(statements, ctx, i + 1) == (if HasSpan(stmt) then Some(PackLine(stmt.span)) else before)
      && (IsSite(statements, ctx, i) <==> HasSpan(stmt) && before != Some(PackLine(stmt.span)))
  {
  }

  lemma NextChunk(before: seq<Item>, statements: seq<Statement>, ctx: RunCtx, cells: Cells, deferred: bool, i: nat, stop: seq<Item>)
    requires i < |statements|
    requires stop == if IsSite(statements, ctx, i) then [Insert(StopHere(PackLine(statements[i].span)))] else []
    ensures before + Chunks(statements, ctx, cells, deferred, false, i + 1)
            == before + Chunks(statements, ctx, cells, deferred, false, i) + stop
               + ([Keep(statements[i])] + StoreAfter(cells, deferred, statements[i]))
  {
    var done := Chunks(statements, ctx, cells, deferred, false, i);
    var store := StoreAfter(cells, deferred, statements[i]);
    var tail := [Keep(statements[i])] + store;
    Assoc(stop, [Keep(statements[i])], store);
    Assoc(before + done, stop, tail);
    Assoc(before, done, stop + tail);
  }

  ghost function SiteKeys(sites: seq<Site>): set<LineKey>
  {
    set s | s in sites :: s.key
  }

  ghost function WithLines(toFn: map<LineKey, nat>, keys: set<LineKey>, fnId: nat): map<LineKey, nat>
  {
    toFn + map key | key in keys :: fnId
  }

  lemma LinesMore(toFn: map<LineKey, nat>, keys: set<LineKey>, key: LineKey, fnId: nat)
    ensures WithLines(toFn, keys + {key}, fnId) == WithLines(toFn, keys, fnId)[key := fnId]
  {
  }

  lemma SiteKeysMore(sites: seq<Site>, s: Site)
    ensures SiteKeys(sites + [s]) == SiteKeys(sites) + {s.key}
  {
    assert s in sites + [s];
    forall key | key in SiteKeys(sites) ensures key in SiteKeys(sites + [s]) {
      var t :| t in sites && t.key == key;
      assert t in sites + [s];
    }
  }
}

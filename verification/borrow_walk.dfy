/** Visiting a whole block from any state, borrows included. */
module BorrowWalk {
  import opened Mir
  import opened Options
  import opened Flow
  import opened Liveness
  import opened MovePaths
  import opened FlowStates
  import opened MoveAnalysis
  import opened BorrowRules

  // ---------------------------------------------------------------- single statements without borrows

  lemma CleanSet(func: MirFunction, st: FlowState, a: Action, x: nat, to: LocalState, at: Point)
    requires Sized(st, |func.locals|) && Clean(st)
    requires a == SetTo(x, to) || (a == DropLocal(x) && to == Moved && Get(st, x) == Initialized)
    ensures Clean(SetState(st, x, to)) && Advances(func, st, [a], SetState(st, x, to)) && Reports(func, st, [a], at, [])
  {
    SetAdvances(func, st, a, x, to, SetState(st, x, to), at);
  }

  lemma CleanStore(func: MirFunction, obj: Operand, ops: seq<Operand>, st: FlowState, at: Point)
    requires Sized(st, |func.locals|) && Clean(st)
    ensures MutationReports(obj, st, at) + OperandsReports(func, ops, st, at) == OperandsReports(func, ops, st, at)
    ensures var r := OperandsState(func, ops, st);
      && Clean(r) && Advances(func, st, Checks(ops), r)
      && Reports(func, st, Checks(ops), at, OperandsReports(func, ops, st, at))
  {
    CleanOperands(func, ops, st, at);
  }

  /** Without borrows, a statement that takes none does and reports what its actions ask for. */
  lemma {:induction false} CleanStatement(func: MirFunction, kind: StatementKind, st: FlowState, at: Point)
    requires Sized(st, |func.locals|) && Clean(st) && BorrowTargetsInside(func, kind) && BorrowFree(kind)
    ensures var r := StatementState(func, kind, st);
      && Clean(r) && Advances(func, st, StatementActions(func, kind), r)
      && Reports(func, st, StatementActions(func, kind), at, StatementReports(func, kind, st, at))
    ensures ProvenanceAfter(map[], kind) == map[]
  {
    hide Advances, Reports, Checks, OperandsState, OperandsReports, MutationReports, SetState, Clean;
    match kind
    case Assign(dest, rv) => CleanAssign(func, dest, rv, st, at);
    case SetAttr(obj, field, val) => CleanSetAttr(func, obj, field, val, st, at);
    case SetIndex(obj, idx, val, _) => CleanStore(func, obj, [obj, idx, val], st, at);
    case StorageLive(local) => CleanSet(func, st, SetTo(local, Initialized), local, Initialized, at);
    case StorageDead(local) => CleanSet(func, st, SetTo(local, Dead), local, Dead, at);
    case Drop(local) =>
      NotBorrowed(st, local);
      if Get(st, local) == Initialized {
        CleanSet(func, st, DropLocal(local), local, Moved, at);
      } else {
        IdleDrop(func, st, local, at);
      }
    case VectorStore(obj, idx, val) => CleanStore(func, obj, [obj, idx, val], st, at);
    case PtrStore(ptr, val) => CleanOperands(func, [ptr, val], st, at);
    case GenCheck(_, _) => AdvancesNothing(func, st, at);
  }

  lemma NotBorrowed(st: FlowState, x: nat)
    requires Clean(st)
    ensures !Borrowed(st, x)
  {
  }

  // ---------------------------------------------------------------- releasing

  ghost predicate ProvenanceOk(func: MirFunction, provenance: map<nat, nat>)
  {
    forall r :: r in provenance ==> provenance[r] < |func.locals|
  }

  lemma ProvenanceStaysOk(func: MirFunction, provenance: map<nat, nat>, kind: StatementKind)
    requires ProvenanceOk(func, provenance) && BorrowTargetsInside(func, kind)
    ensures ProvenanceOk(func, ProvenanceAfter(provenance, kind))
  {
    assert kind.Assign? && SourceOf(provenance, kind.rvalue).Some? ==> SourceOf(provenance, kind.rvalue).value < |func.locals|;
  }

  /** The state once the borrows of dead references have been released. */
  ghost function Release(provenance: map<nat, nat>, live: set<nat>, st: FlowState): (r: FlowState)
    ensures r.locals == st.locals && r.fields == st.fields && |r.borrows| == |st.borrows|
    ensures provenance == map[] ==> r == st
    ensures forall x: nat :: x < |r.borrows| ==>
              r.borrows[x] == if StillBorrowed(provenance, live, x) then st.borrows[x]
                              else Lowered(st.borrows[x], |DeadRefs(provenance, live, x)|)
  {
    var borrows := seq(|st.borrows|, x requires 0 <= x < |st.borrows| =>
      if StillBorrowed(provenance, live, x) then st.borrows[x] else Lowered(st.borrows[x], |DeadRefs(provenance, live, x)|));
    if provenance == map[] then
      assert forall x: nat :: DeadRefs(provenance, live, x) == {};
      assert borrows == st.borrows;
      st.(borrows := borrows)
    else
      st.(borrows := borrows)
  }

  lemma ReleaseIs(provenance: map<nat, nat>, live: set<nat>, st: FlowState, r: FlowState)
    requires r.locals == st.locals && r.fields == st.fields && |r.borrows| == |st.borrows|
    requires forall x: nat :: x < |r.borrows| ==>
               r.borrows[x] == if StillBorrowed(provenance, live, x) then st.borrows[x]
                               else Lowered(st.borrows[x], |DeadRefs(provenance, live, x)|)
    ensures r == Release(provenance, live, st)
  {
    assert r.borrows == Release(provenance, live, st).borrows;
  }

  // ---------------------------------------------------------------- the statements of a block

  /** All jumps and all locals that the checker indexes exist. */
  ghost predicate WellFormed(func: MirFunction, live: LiveSets)
  {
    && JumpsInside(func) && Shape(func, live)
    && forall b, i :: 0 <= b < |func.blocks| && 0 <= i < |func.blocks[b].statements| ==>
         BorrowTargetsInside(func, func.blocks[b].statements[i].kind)
  }

  /** What the checker holds in the middle of a block. */
  datatype Walk = Walk(st: FlowState, provenance: map<nat, nat>, reports: seq<Diag>)

  ghost predicate WalkOk(func: MirFunction, w: Walk)
  {
    Sized(w.st, |func.locals|) && ProvenanceOk(func, w.provenance)
  }

  /** One statement, and the release of what is dead after it. */
  ghost function WalkOne(func: MirFunction, kind: StatementKind, w: Walk, at: Point, live: set<nat>): (r: Walk)
    requires WalkOk(func, w) && BorrowTargetsInside(func, kind)
    ensures WalkOk(func, r)
  {
    ProvenanceStaysOk(func, w.provenance, kind);
    var provenance := ProvenanceAfter(w.provenance, kind);
    Walk(Release(provenance, live, StatementState(func, kind, w.st)), provenance, w.reports + StatementReports(func, kind, w.st, at))
  }

  /** The first `k` statements of block `b`. */
  ghost function WalkTo(func: MirFunction, live: LiveSets, b: nat, k: nat, w0: Walk): (w: Walk)
    requires WellFormed(func, live) && b < |func.blocks| && k <= |func.blocks[b].statements| && WalkOk(func, w0)
    ensures WalkOk(func, w)
  {
    if k == 0 then w0
    else WalkOne(func, func.blocks[b].statements[k - 1].kind, WalkTo(func, live, b, k - 1, w0), Point(b, k - 1), live[b][k])
  }

  lemma NextStatement(func: MirFunction, live: LiveSets, b: nat, k: nat, next: nat, w0: Walk)
    requires WellFormed(func, live) && b < |func.blocks| && next == k + 1 <= |func.blocks[b].statements| && WalkOk(func, w0)
    ensures |live| == |func.blocks| && |live[b]| == |func.blocks[b].statements| + 1
    ensures var kind, w := func.blocks[b].statements[k].kind, WalkTo(func, live, b, k, w0);
      && BorrowTargetsInside(func, kind)
      && WalkTo(func, live, b, next, w0) == WalkOne(func, kind, w, Point(b, k), live[b][next])
      && WalkTo(func, live, b, next, w0).reports == w.reports + StatementReports(func, kind, w.st, Point(b, k))
  {
    hide Release, StatementState, StatementReports, ProvenanceAfter;
  }

  /** What a return reports: the required fields that are not set, in order. */
  ghost function ReturnReports(required: seq<string>, st: FlowState, at: Point): seq<Diag>
  {
    if required == [] then []
    else
      var last := required[|required| - 1];
      ReturnReports(required[..|required| - 1], st, at) + if last in st.fields then [] else [FieldUnset(last, at)]
  }

  ghost function WalkTerminator(func: MirFunction, required: seq<string>, term: Option<Terminator>, w: Walk, at: Point, live: set<nat>)
    : (r: Walk)
    requires WalkOk(func, w)
    ensures WalkOk(func, r)
  {
    var st := if term.Some? && term.value.kind.SwitchInt? then OperandState(func, term.value.kind.discr, w.st) else w.st;
    Walk(Release(w.provenance, live, st), w.provenance, w.reports + TerminatorReports(func, required, term, w.st, at))
  }

  ghost function TerminatorReports(func: MirFunction, required: seq<string>, term: Option<Terminator>, st: FlowState, at: Point): seq<Diag>
    requires Sized(st, |func.locals|)
  {
    if term.None? then []
    else
      match term.value.kind
      case SwitchInt(discr, _, _) => OperandReports(func, discr, st, at)
      case Return => ReturnReports(required, st, at)
      case Goto(_) => []
      case Unreachable => []
  }

  /** A whole block. */
  ghost function WalkBlock(func: MirFunction, live: LiveSets, required: seq<string>, b: nat, w0: Walk): (w: Walk)
    requires WellFormed(func, live) && b < |func.blocks| && WalkOk(func, w0)
    ensures WalkOk(func, w)
  {
    var n := |func.blocks[b].statements|;
    WalkTerminator(func, required, func.blocks[b].terminator, WalkTo(func, live, b, n, w0), Point(b, n), live[b][n])
  }

  // ---------------------------------------------------------------- blocks without borrows

  ghost predicate AllBorrowFree(func: MirFunction)
  {
    forall b, i :: 0 <= b < |func.blocks| && 0 <= i < |func.blocks[b].statements| ==> BorrowFree(func.blocks[b].statements[i].kind)
  }

  /** What holds in the middle of a borrow-free block: its actions have run, and reported what they deserve. */
  ghost predicate CleanUpTo(func: MirFunction, required: seq<string>, b: nat, st0: FlowState, k: nat, w: Walk)
    requires b < |func.blocks| && k <= |func.blocks[b].statements|
  {
    && Sized(w.st, |func.locals|) && Clean(w.st) && w.provenance == map[]
    && Advances(func, st0, Prefix(func, b, k), w.st)
    && ReportedUpTo(func, required, b, st0, k, w.reports)
  }

  lemma {:induction false} CleanWalkOne(func: MirFunction, required: seq<string>, b: nat, st0: FlowState, k: nat, next: nat, w: Walk,
                                       live: set<nat>)
    requires b < |func.blocks| && next == k + 1 <= |func.blocks[b].statements| && CleanUpTo(func, required, b, st0, k, w)
    requires var kind := func.blocks[b].statements[k].kind; BorrowFree(kind) && BorrowTargetsInside(func, kind)
    ensures CleanUpTo(func, required, b, st0, next, WalkOne(func, func.blocks[b].statements[k].kind, w, Point(b, k), live))
  {
    var q, kind := Point(b, k), func.blocks[b].statements[k].kind;
    var st, more := StatementState(func, kind, w.st), StatementReports(func, kind, w.st, q);
    CleanStatement(func, kind, w.st, q);
    assert WalkOne(func, kind, w, q, live) == Walk(st, map[], w.reports + more);
    assert ActionsAt(func, q) == StatementActions(func, kind);
    hide Advances, Reports, Prefix, ReportedUpTo, Clean, WalkOne, StatementState, StatementReports, StatementActions;
    AdvancesConcat(func, st0, Prefix(func, b, k), w.st, ActionsAt(func, q), st);
    PrefixNext(func, q, Point(b, next));
    VisitStatement(func, required, st0, q, w.st, next, w.reports, more);
  }

  lemma {:induction false} CleanWalkTo(func: MirFunction, live: LiveSets, required: seq<string>, b: nat, k: nat, st0: FlowState)
    requires WellFormed(func, live) && AllBorrowFree(func) && b < |func.blocks| && k <= |func.blocks[b].statements|
    requires Sized(st0, |func.locals|) && Clean(st0)
    ensures CleanUpTo(func, required, b, st0, k, WalkTo(func, live, b, k, Walk(st0, map[], [])))
    decreases k
  {
    var w0 := Walk(st0, map[], []);
    if k == 0 {
      AdvancesNothing(func, st0, Point(b, 0));
      NothingVisited(func, required, b, st0, []);
    } else {
      var m: nat := k - 1;
      CleanWalkTo(func, live, required, b, m, st0);
      CleanWalkOne(func, required, b, st0, m, k, WalkTo(func, live, b, m, w0), live[b][k]);
    }
  }

  lemma NothingVisited(func: MirFunction, required: seq<string>, b: nat, st0: FlowState, none: seq<Diag>)
    requires b < |func.blocks| && none == []
    ensures Prefix(func, b, 0) == [] && ReportedUpTo(func, required, b, st0, 0, none)
  {
  }

  lemma {:induction false} ReturnReportsAre(required: seq<string>, st: FlowState, at: Point)
    ensures forall d :: d in ReturnReports(required, st, at) <==> d.FieldUnset? && d.at == at && d.field in required && d.field !in st.fields
    decreases |required|
  {
    if required != [] {
      var init, last := required[..|required| - 1], required[|required| - 1];
      assert required == init + [last];
      ReturnReportsAre(init, st, at);
    }
  }

  /** A borrow-free block from a state without borrows: its actions have run, and reported what they deserve. */
  lemma {:induction false} CleanWalkBlock(func: MirFunction, live: LiveSets, required: seq<string>, b: nat, st0: FlowState)
    requires WellFormed(func, live) && AllBorrowFree(func) && b < |func.blocks| && Sized(st0, |func.locals|) && Clean(st0)
    ensures var w := WalkBlock(func, live, required, b, Walk(st0, map[], []));
      && Clean(w.st) && w.provenance == map[] && Advances(func, st0, BlockActions(func, b), w.st)
      && ReportedUpTo(func, required, b, st0, LastIndex(func, b) + 1, w.reports)
  {
    var n := |func.blocks[b].statements|;
    var q, w, next := Point(b, n), WalkTo(func, live, b, n, Walk(st0, map[], [])), n + 1;
    var term := func.blocks[b].terminator;
    CleanWalkTo(func, live, required, b, n, st0);
    var r, more := WalkBlock(func, live, required, b, Walk(st0, map[], [])), TerminatorReports(func, required, term, w.st, q);
    CleanTerminator(func, required, term, w.st, q);
    assert r.reports == w.reports + more && r.provenance == map[];
    assert BlockActions(func, b) == Prefix(func, b, n) + ActionsAt(func, q) && ActionsAt(func, q) == TerminatorActions(term);
    hide Advances, Reports, Prefix, ReportedUpTo, Clean, WalkTo, TerminatorReports, TerminatorActions, ActionsAt, BlockActions;
    AdvancesConcat(func, st0, Prefix(func, b, n), w.st, ActionsAt(func, q), r.st);
    if IsReturn(func, q) {
      ReturnReportsAre(required, w.st, q);
      VisitReturn(func, required, st0, q, w.st, next, w.reports, more);
    } else {
      VisitStatement(func, required, st0, q, w.st, next, w.reports, more);
    }
  }

  lemma {:induction false} CleanTerminator(func: MirFunction, required: seq<string>, term: Option<Terminator>, st: FlowState, at: Point)
    requires Sized(st, |func.locals|) && Clean(st)
    ensures var r := if term.Some? && term.value.kind.SwitchInt? then OperandState(func, term.value.kind.discr, st) else st;
      && Clean(r) && Advances(func, st, TerminatorActions(term), r)
    ensures if term.Some? && term.value.kind.Return? then TerminatorReports(func, required, term, st, at) == ReturnReports(required, st, at)
            else Reports(func, st, TerminatorActions(term), at, TerminatorReports(func, required, term, st, at))
  {
    AdvancesNothing(func, st, at);
    if term.Some? && term.value.kind.SwitchInt? {
      CleanOperand(func, term.value.kind.discr, st, at);
    }
  }
}

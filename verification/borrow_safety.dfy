/** What it means that the checker is silent: borrowed locals are left alone, and mutable borrows are alone. */
module BorrowSafety {
  import opened Mir
  import opened Options
  import opened Flow
  import opened Liveness
  import opened FlowStates
  import opened MovePaths
  import opened BorrowRules
  import opened BorrowWalk

  // ---------------------------------------------------------------- borrowed locals are left alone

  /** The operands that a statement evaluates. */
  function Evaluated(kind: StatementKind): seq<Operand>
  {
    match kind
    case Assign(_, rv) => Operands(rv)
    case SetAttr(obj, _, val) => [obj, val]
    case SetIndex(obj, idx, val, _) => [obj, idx, val]
    case VectorStore(obj, idx, val) => [obj, idx, val]
    case PtrStore(ptr, val) => [ptr, val]
    case _ => []
  }

  /** The object that a statement stores into. */
  predicate StoresInto(kind: StatementKind, x: nat)
  {
    (kind.SetAttr? || kind.SetIndex? || kind.VectorStore?) && (kind.obj == Copy(x) || kind.obj == Move(x))
  }

  lemma {:induction false} QuietOperands(func: MirFunction, ops: seq<Operand>, st: FlowState, at: Point, x: nat)
    requires Sized(st, |func.locals|) && x < |func.locals| && (st.borrows[x].shared > 0 || st.borrows[x].exclusive)
    requires OperandsReports(func, ops, st, at) == []
    ensures Move(x) in ops ==> st.locals[x] != Initialized || !func.locals[x].ty.IsMoveType()
    decreases |ops|
  {
    if ops != [] {
      var init, last := ops[..|ops| - 1], ops[|ops| - 1];
      var mid := OperandsState(func, init, st);
      assert Borrowed(st, x) && Get(mid, x) == Get(st, x) && Borrowed(mid, x);
      assert OperandsReports(func, init, st, at) == [] && OperandReports(func, last, mid, at) == [];
      QuietOperands(func, init, st, at, x);
      assert ops == init + [last];
    }
  }

  /** A statement over which the checker is silent does not assign a borrowed local, move it out, drop it or borrow it
      for writing. What is borrowed for writing is not borrowed at all, and what is borrowed for reading is not stored
      into. */
  lemma {:induction false} QuietLeavesAlone(func: MirFunction, kind: StatementKind, st: FlowState, at: Point, x: nat)
    requires Sized(st, |func.locals|) && BorrowTargetsInside(func, kind) && x < |func.locals|
    requires StatementReports(func, kind, st, at) == []
    requires st.borrows[x].shared > 0 || st.borrows[x].exclusive
    ensures kind.Assign? ==> kind.dest != x && kind.rvalue != MutRef(x)
    ensures kind.Assign? && kind.rvalue == Ref(x) ==> !st.borrows[x].exclusive
    ensures kind == Drop(x) ==> st.locals[x] != Initialized
    ensures Move(x) in Evaluated(kind) ==> st.locals[x] != Initialized || !func.locals[x].ty.IsMoveType()
    ensures st.borrows[x].shared > 0 ==> !StoresInto(kind, x)
  {
    assert Borrowed(st, x);
    if kind.Assign? {
      QuietAssign(func, kind.dest, kind.rvalue, st, at, x);
    } else if Evaluated(kind) != [] {
      var ops := Evaluated(kind);
      QuietParts(func, kind, st, at);
      assert StoresInto(kind, x) ==> MutationReports(kind.obj, st, at) == if st.borrows[x].shared > 0 then [MutatesBorrowed(x, at)] else [];
      hide StatementReports, OperandsReports, MutationReports, Evaluated;
      QuietOperands(func, ops, st, at, x);
    }
  }

  lemma {:induction false} QuietParts(func: MirFunction, kind: StatementKind, st: FlowState, at: Point)
    requires Sized(st, |func.locals|) && BorrowTargetsInside(func, kind) && !kind.Assign? && Evaluated(kind) != []
    requires StatementReports(func, kind, st, at) == []
    ensures OperandsReports(func, Evaluated(kind), st, at) == []
    ensures kind.SetAttr? || kind.SetIndex? || kind.VectorStore? ==> MutationReports(kind.obj, st, at) == []
  {
    hide OperandsReports, MutationReports;
  }

  lemma {:induction false} QuietAssign(func: MirFunction, dest: nat, rv: Rvalue, st: FlowState, at: Point, x: nat)
    requires Sized(st, |func.locals|) && BorrowTargetsInside(func, Assign(dest, rv)) && x < |func.locals|
    requires StatementReports(func, Assign(dest, rv), st, at) == []
    requires st.borrows[x].shared > 0 || st.borrows[x].exclusive
    ensures dest != x && rv != MutRef(x) && (rv == Ref(x) ==> !st.borrows[x].exclusive)
    ensures Move(x) in Operands(rv) ==> st.locals[x] != Initialized || !func.locals[x].ty.IsMoveType()
  {
    var mid := EvalState(func, rv, st);
    assert Borrowed(st, x) && Borrowed(mid, x);
    assert EvalReports(func, rv, st, at) == [];
    if !rv.Ref? && !rv.MutRef? {
      assert OperandsReports(func, Operands(rv), st, at) == [];
      QuietOperands(func, Operands(rv), st, at, x);
    }
  }

  // ---------------------------------------------------------------- mutable borrows are alone

  /** Whatever is borrowed for writing is not borrowed for reading. */
  ghost predicate WritersAlone(st: FlowState)
  {
    forall x :: 0 <= x < |st.borrows| ==> !(st.borrows[x].exclusive && st.borrows[x].shared > 0)
  }

  lemma {:induction false} QuietStatement(func: MirFunction, kind: StatementKind, st: FlowState, at: Point)
    requires Sized(st, |func.locals|) && BorrowTargetsInside(func, kind) && WritersAlone(st)
    requires StatementReports(func, kind, st, at) == []
    ensures WritersAlone(StatementState(func, kind, st))
  {
    var r := StatementState(func, kind, st);
    forall x | 0 <= x < |r.borrows| ensures !(r.borrows[x].exclusive && r.borrows[x].shared > 0) {
      StatementRuns(func, kind, st, x);
    }
  }

  lemma QuietRelease(provenance: map<nat, nat>, live: set<nat>, st: FlowState)
    requires WritersAlone(st)
    ensures WritersAlone(Release(provenance, live, st))
  {
    var r := Release(provenance, live, st);
    forall x: nat | x < |r.borrows| ensures !(r.borrows[x].exclusive && r.borrows[x].shared > 0) {
    }
  }

  /** As long as nothing is reported in a block, mutable borrows stay alone. */
  lemma {:induction false} QuietWalk(func: MirFunction, live: LiveSets, b: nat, k: nat, w0: Walk)
    requires WellFormed(func, live) && b < |func.blocks| && k <= |func.blocks[b].statements| && WalkOk(func, w0)
    requires WritersAlone(w0.st) && WalkTo(func, live, b, k, w0).reports == []
    ensures WritersAlone(WalkTo(func, live, b, k, w0).st)
    decreases k
  {
    if k > 0 {
      var m: nat := k - 1;
      var kind, w, q := func.blocks[b].statements[m].kind, WalkTo(func, live, b, m, w0), Point(b, m);
      NextStatement(func, live, b, m, k, w0);
      assert w.reports == [] && StatementReports(func, kind, w.st, q) == [];
      hide WalkTo, StatementReports, StatementState, WritersAlone;
      QuietWalk(func, live, b, m, w0);
      QuietStatement(func, kind, w.st, q);
      hide Release;
      QuietRelease(ProvenanceAfter(w.provenance, kind), live[b][k], StatementState(func, kind, w.st));
    }
  }

  lemma {:induction false} QuietBlock(func: MirFunction, live: LiveSets, required: seq<string>, b: nat, w0: Walk)
    requires WellFormed(func, live) && b < |func.blocks| && WalkOk(func, w0)
    requires WritersAlone(w0.st) && WalkBlock(func, live, required, b, w0).reports == []
    ensures WritersAlone(WalkBlock(func, live, required, b, w0).st)
  {
    var n := |func.blocks[b].statements|;
    var w, term := WalkTo(func, live, b, n, w0), func.blocks[b].terminator;
    var st := if term.Some? && term.value.kind.SwitchInt? then OperandState(func, term.value.kind.discr, w.st) else w.st;
    assert WalkBlock(func, live, required, b, w0) == WalkTerminator(func, required, term, w, Point(b, n), live[b][n]);
    assert WalkBlock(func, live, required, b, w0).st == Release(w.provenance, live[b][n], st);
    assert w.reports == [];
    hide WalkBlock, WalkTo, Release, TerminatorReports, WellFormed;
    QuietWalk(func, live, b, n, w0);
    assert st.borrows == w.st.borrows;
    QuietRelease(w.provenance, live[b][n], st);
  }

  /** Where paths meet they need not: one has taken a local for reading and the other for writing. */
  lemma MeetingAlone(a: FlowState, b: FlowState, x: nat)
    requires x < |a.borrows| && x < |b.borrows| && WritersAlone(a) && WritersAlone(b)
    ensures var m := MergeBorrow(a.borrows[x], b.borrows[x]);
      m.exclusive && m.shared > 0
      <==> (a.borrows[x].exclusive && b.borrows[x].shared > 0) || (b.borrows[x].exclusive && a.borrows[x].shared > 0)
  {
  }
}

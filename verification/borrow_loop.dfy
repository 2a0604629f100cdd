/** A loop that takes a shared borrow of a local while another reference to it stays live is never at rest. */
module BorrowLoop {
  import opened Mir
  import opened Options
  import opened Flow
  import opened Liveness
  import opened MovePaths
  import opened FlowStates
  import opened BorrowRules
  import opened BorrowWalk

  /** How many of the first `k` statements of block `b` take a shared borrow of `x`. */
  function SharedBorrows(func: MirFunction, b: nat, k: nat, x: nat): nat
    requires b < |func.blocks| && k <= |func.blocks[b].statements|
  {
    if k == 0 then 0
    else
      var kind := func.blocks[b].statements[k - 1].kind;
      SharedBorrows(func, b, k - 1, x) + if kind.Assign? && kind.rvalue == Ref(x) then 1 else 0
  }

  /** Reference `r` is not assigned in block `b` and is live after each of its statements. */
  ghost predicate LiveThroughout(func: MirFunction, live: LiveSets, b: nat, r: nat)
    requires WellFormed(func, live) && b < |func.blocks|
  {
    && (forall k :: 0 <= k < |func.blocks[b].statements| ==> var kind := func.blocks[b].statements[k].kind; kind.Assign? ==> kind.dest != r)
    && (forall k :: 0 <= k <= |func.blocks[b].statements| && k > 0 ==> r in live[b][k])
  }

  ghost predicate PointsTo(provenance: map<nat, nat>, r: nat, x: nat)
  {
    r in provenance && provenance[r] == x
  }

  lemma HeldStays(provenance: map<nat, nat>, live: set<nat>, st: FlowState, r: nat, x: nat)
    requires PointsTo(provenance, r, x) && r in live && x < |st.borrows|
    ensures Release(provenance, live, st).borrows[x] == st.borrows[x]
  {
    assert StillBorrowed(provenance, live, x);
  }

  lemma OneStatement(func: MirFunction, kind: StatementKind, w: Walk, at: Point, live: set<nat>, r: nat, x: nat)
    requires WalkOk(func, w) && BorrowTargetsInside(func, kind) && x < |func.locals|
    requires PointsTo(w.provenance, r, x) && r in live && (kind.Assign? ==> kind.dest != r)
    ensures var w' := WalkOne(func, kind, w, at, live);
      && PointsTo(w'.provenance, r, x)
      && w'.st.borrows[x].shared == w.st.borrows[x].shared + if kind.Assign? && kind.rvalue == Ref(x) then 1 else 0
  {
    StatementRuns(func, kind, w.st, x);
    hide StatementState, Release;
    HeldStays(ProvenanceAfter(w.provenance, kind), live, StatementState(func, kind, w.st), r, x);
  }

  lemma OneMoreBorrow(func: MirFunction, b: nat, m: nat, k: nat, x: nat)
    requires b < |func.blocks| && k == m + 1 <= |func.blocks[b].statements|
    ensures var kind := func.blocks[b].statements[m].kind;
      SharedBorrows(func, b, k, x) == SharedBorrows(func, b, m, x) + if kind.Assign? && kind.rvalue == Ref(x) then 1 else 0
  {
  }

  lemma {:induction false} StatementsCount(func: MirFunction, live: LiveSets, b: nat, k: nat, w0: Walk, r: nat, x: nat)
    requires WellFormed(func, live) && b < |func.blocks| && k <= |func.blocks[b].statements| && WalkOk(func, w0) && x < |func.locals|
    requires PointsTo(w0.provenance, r, x) && LiveThroughout(func, live, b, r)
    ensures var w := WalkTo(func, live, b, k, w0);
      PointsTo(w.provenance, r, x) && w.st.borrows[x].shared == w0.st.borrows[x].shared + SharedBorrows(func, b, k, x)
    decreases k
  {
    if k > 0 {
      var m: nat := k - 1;
      var kind := func.blocks[b].statements[m].kind;
      NextStatement(func, live, b, m, k, w0);
      assert r in live[b][k] && (kind.Assign? ==> kind.dest != r);
      OneMoreBorrow(func, b, m, k, x);
      hide WalkTo, WalkOne, WellFormed, LiveThroughout, BorrowTargetsInside, SharedBorrows, PointsTo, StatementReports;
      StatementsCount(func, live, b, m, w0, r, x);
      OneStatement(func, kind, WalkTo(func, live, b, m, w0), Point(b, m), live[b][k], r, x);
    }
  }

  /** A visit of the block counts every shared borrow it takes, and releases none. */
  lemma {:induction false} VisitCounts(func: MirFunction, live: LiveSets, required: seq<string>, b: nat, w0: Walk, r: nat, x: nat)
    requires WellFormed(func, live) && b < |func.blocks| && |func.blocks[b].statements| > 0 && WalkOk(func, w0) && x < |func.locals|
    requires PointsTo(w0.provenance, r, x) && LiveThroughout(func, live, b, r)
    ensures var w := WalkBlock(func, live, required, b, w0); var n := |func.blocks[b].statements|;
      PointsTo(w.provenance, r, x) && w.st.borrows[x].shared == w0.st.borrows[x].shared + SharedBorrows(func, b, n, x)
  {
    var n := |func.blocks[b].statements|;
    var term := func.blocks[b].terminator;
    StatementsCount(func, live, b, n, w0, r, x);
    var mid := WalkTo(func, live, b, n, w0);
    var st := if term.Some? && term.value.kind.SwitchInt? then OperandState(func, term.value.kind.discr, mid.st) else mid.st;
    assert st.borrows == mid.st.borrows;
    HeldStays(mid.provenance, live[b][n], st, r, x);
  }

  /** Merged back into the entry state of its own block, what leaves a visit leaves the count of `x` as it was exactly
      when the block takes no shared borrow of `x`. As the reference is still known and live, the same holds of the
      next visit: a block that jumps to itself and does take one is queued again by every visit. */
  lemma {:induction false} SettlesExactly(func: MirFunction, live: LiveSets, required: seq<string>, b: nat, w0: Walk, r: nat, x: nat)
    requires WellFormed(func, live) && b < |func.blocks| && |func.blocks[b].statements| > 0 && WalkOk(func, w0) && x < |func.locals|
    requires PointsTo(w0.provenance, r, x) && LiveThroughout(func, live, b, r)
    ensures var w := WalkBlock(func, live, required, b, w0);
      && PointsTo(w.provenance, r, x)
      && (MergeBorrow(w0.st.borrows[x], w.st.borrows[x]).shared == w0.st.borrows[x].shared
          <==> SharedBorrows(func, b, |func.blocks[b].statements|, x) == 0)
  {
    VisitCounts(func, live, required, b, w0, r, x);
  }

  // ---------------------------------------------------------------- the smallest such loop

  const X := 1
  const HELD := 2

  function Take(dest: nat): Statement
  {
    Statement(Assign(dest, Ref(X)), DEFAULT_SPAN)
  }

  function ReadHeld(): Statement
  {
    Statement(Assign(4, Use(Copy(HELD))), DEFAULT_SPAN)
  }

  function Jump(): Option<Terminator>
  {
    Some(Terminator(Goto(1), DEFAULT_SPAN))
  }

  /** `held = &x; loop { again = &x; _ = held }`. */
  ghost predicate IsSpin(func: MirFunction)
  {
    && |func.locals| == 5
    && func.blocks == [BasicBlock([Take(HELD)], Jump()), BasicBlock([Take(3), ReadHeld()], Jump())]
  }

  ghost predicate ExactLiveness(func: MirFunction, live: LiveSets)
  {
    Shape(func, live) && forall q, l :: IsPoint(func, q) ==> (l in At(func, live, q) <==> LiveAt(func, q, l))
  }

  lemma SpinShape(func: MirFunction, live: LiveSets)
    requires IsSpin(func) && Shape(func, live)
    ensures WellFormed(func, live)
    ensures |func.blocks[0].statements| == 1 && func.blocks[0].statements[0] == Take(HELD)
    ensures |func.blocks[1].statements| == 2 && func.blocks[1].statements[0] == Take(3) && func.blocks[1].statements[1] == ReadHeld()
  {
  }

  lemma SpinSteps(func: MirFunction)
    requires IsSpin(func)
    ensures forall i :: 0 <= i <= 2 ==> IsPoint(func, Point(1, i))
    ensures Step(func, Point(1, 0), Point(1, 1)) && Step(func, Point(1, 2), Point(1, 0))
    ensures HELD in Liveness.UsesAt(func, Point(1, 1)) && HELD !in KillsAt(func, Point(1, 0)) && HELD !in KillsAt(func, Point(1, 2))
  {
    assert |func.blocks[1].statements| == 2 && func.blocks[1].statements[0] == Take(3) && func.blocks[1].statements[1] == ReadHeld();
    assert Targets(func.blocks[1]) == [1];
  }

  lemma HeldIsUsed(func: MirFunction)
    requires IsSpin(func)
    ensures IsPoint(func, Point(1, 1)) && LiveAt(func, Point(1, 1), HELD)
    ensures IsPoint(func, Point(1, 2)) && LiveAt(func, Point(1, 2), HELD)
  {
    SpinSteps(func);
    var start, read, end := Point(1, 0), Point(1, 1), Point(1, 2);
    assert IsPoint(func, start) && IsPoint(func, read) && IsPoint(func, end);
    hide IsSpin, IsPoint, Step, Liveness.UsesAt, KillsAt;
    assert UsePath(func, [read], HELD);
    assert UsePath(func, [end, start, read], HELD);
  }

  lemma HeldIsLive(func: MirFunction, live: LiveSets)
    requires IsSpin(func) && ExactLiveness(func, live)
    ensures WellFormed(func, live) && LiveThroughout(func, live, 1, HELD)
  {
    SpinShape(func, live);
    HeldIsUsed(func);
    assert HELD in At(func, live, Point(1, 1)) && HELD in At(func, live, Point(1, 2));
    hide LiveAt, WellFormed, IsSpin;
  }

  /** The loop's entry state changes with every visit, whatever it was: the worklist never empties. */
  lemma SpinNeverSettles(func: MirFunction, live: LiveSets, required: seq<string>, w0: Walk)
    requires IsSpin(func) && ExactLiveness(func, live) && WalkOk(func, w0) && PointsTo(w0.provenance, HELD, X)
    ensures WellFormed(func, live) && 1 in Targets(func.blocks[1])
    ensures var w := WalkBlock(func, live, required, 1, w0);
      && PointsTo(w.provenance, HELD, X)
      && MergeBorrow(w0.st.borrows[X], w.st.borrows[X]).shared == w0.st.borrows[X].shared + 1
  {
    HeldIsLive(func, live);
    SpinShape(func, live);
    assert SharedBorrows(func, 1, 1, X) == 1;
    assert func.blocks[1].statements[1].kind == Assign(4, Use(Copy(HELD)));
    assert SharedBorrows(func, 1, 2, X) == 1;
    VisitCounts(func, live, required, 1, w0, HELD, X);
  }

  /** The entry block leads there with the reference known. */
  lemma SpinStarts(func: MirFunction, live: LiveSets, required: seq<string>, w0: Walk)
    requires IsSpin(func) && ExactLiveness(func, live) && WalkOk(func, w0)
    ensures WellFormed(func, live) && 1 in Targets(func.blocks[0]) && PointsTo(WalkBlock(func, live, required, 0, w0).provenance, HELD, X)
  {
    SpinShape(func, live);
    var kind := Take(HELD).kind;
    assert WalkTo(func, live, 0, 0, w0) == w0;
    assert WalkTo(func, live, 0, 1, w0) == WalkOne(func, kind, w0, Point(0, 0), live[0][1]);
    assert PointsTo(ProvenanceAfter(w0.provenance, kind), HELD, X);
  }
}

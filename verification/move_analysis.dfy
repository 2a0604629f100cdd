/** Entry states of blocks: what justifies them, and why a state of rest covers every path. */
module MoveAnalysis {
  import opened Mir
  import opened Options
  import opened Flow
  import opened MovePaths
  import opened FlowStates

  type Entries = seq<Option<FlowState>>

  // ---------------------------------------------------------------- blocks

  /** Everything executed in block `b` before index `k`. */
  ghost function Prefix(func: MirFunction, b: nat, k: nat): seq<Action>
    requires b < |func.blocks| && k <= |func.blocks[b].statements|
  {
    if k == 0 then [] else Prefix(func, b, k - 1) + ActionsAt(func, Point(b, k - 1))
  }

  lemma PrefixNext(func: MirFunction, q: Point, r: Point)
    requires IsPoint(func, q) && !AtTerminator(func, q) && r == Point(q.block, q.idx + 1)
    ensures Prefix(func, r.block, r.idx) == Prefix(func, q.block, q.idx) + ActionsAt(func, q)
  {
    assert r.idx - 1 == q.idx && q == Point(q.block, q.idx);
  }

  function LastIndex(func: MirFunction, b: nat): nat
    requires b < |func.blocks|
  {
    |func.blocks[b].statements|
  }

  ghost function BlockActions(func: MirFunction, b: nat): seq<Action>
    requires b < |func.blocks|
  {
    Prefix(func, b, LastIndex(func, b)) + ActionsAt(func, Point(b, LastIndex(func, b)))
  }

  lemma Associative(a: seq<Action>, b: seq<Action>, c: seq<Action>)
    ensures (a + b) + c == a + (b + c)
  {
  }

  /** A path to an index of a block goes on to the next index. */
  lemma NextInBlock(func: MirFunction, path: seq<Point>, before: seq<Action>, q: Point, r: Point)
    requires IsPoint(func, q) && !AtTerminator(func, q) && r == Point(q.block, q.idx + 1)
    requires PathTo(func, path, q) && Trace(func, path) == before + Prefix(func, q.block, q.idx)
    ensures PathTo(func, path + [r], r)
    ensures Trace(func, path + [r]) == before + Prefix(func, r.block, r.idx)
  {
    PathStep(func, path, q, r);
    PrefixNext(func, q, r);
    Associative(before, Prefix(func, q.block, q.idx), ActionsAt(func, q));
  }

  /** A path to the start of a block goes on to every index of the block. */
  lemma IntoBlock(func: MirFunction, path: seq<Point>, b: nat, k: nat) returns (path': seq<Point>)
    requires PathTo(func, path, Point(b, 0)) && b < |func.blocks| && k <= LastIndex(func, b)
    ensures PathTo(func, path', Point(b, k)) && Trace(func, path') == Trace(func, path) + Prefix(func, b, k)
  {
    path' := path;
    var before, q := Trace(func, path), Point(b, 0);
    while q.idx < k
      invariant q.block == b && q.idx <= k
      invariant PathTo(func, path', q) && Trace(func, path') == before + Prefix(func, q.block, q.idx)
    {
      var r := Point(b, q.idx + 1);
      NextInBlock(func, path', before, q, r);
      path', q := path' + [r], r;
    }
  }

  /** ... and from its terminator to every target. */
  lemma ThroughBlock(func: MirFunction, path: seq<Point>, b: nat, t: nat) returns (path': seq<Point>)
    requires JumpsInside(func) && PathTo(func, path, Point(b, 0)) && IsPoint(func, Point(b, 0))
    requires t in Targets(func.blocks[b])
    ensures PathTo(func, path', Point(t, 0)) && Trace(func, path') == Trace(func, path) + BlockActions(func, b)
  {
    var q := Point(b, LastIndex(func, b));
    var before := IntoBlock(func, path, b, q.idx);
    PathStep(func, before, q, Point(t, 0));
    path' := before + [Point(t, 0)];
    Associative(Trace(func, path), Prefix(func, b, q.idx), ActionsAt(func, q));
  }

  // ---------------------------------------------------------------- justified states

  ghost predicate SomePathGives(func: MirFunction, b: nat, x: nat, s: LocalState)
  {
    exists path :: PathTo(func, path, Point(b, 0)) && StateOn(func, path, x) == s
  }

  ghost predicate SomePathSkips(func: MirFunction, b: nat, f: string)
  {
    exists path :: PathTo(func, path, Point(b, 0)) && !AssignsField(Trace(func, path), f)
  }

  /** Each local's state and each absent field is what some path to the block produces. */
  ghost predicate Justified(func: MirFunction, b: nat, st: FlowState)
  {
    && |st.locals| == |func.locals|
    && (forall x: nat :: x < |st.locals| ==> SomePathGives(func, b, x, st.locals[x]))
    && (forall f :: f !in st.fields ==> SomePathSkips(func, b, f))
  }

  lemma JustifiedJump(func: MirFunction, b: nat, st0: FlowState, st: FlowState, t: nat)
    requires JumpsInside(func) && b < |func.blocks| && t in Targets(func.blocks[b])
    requires Justified(func, b, st0) && Advances(func, st0, BlockActions(func, b), st)
    ensures Justified(func, t, st)
  {
    forall x: nat | x < |st.locals| ensures SomePathGives(func, t, x, st.locals[x]) {
      assert SomePathGives(func, b, x, st0.locals[x]);
      var path :| PathTo(func, path, Point(b, 0)) && StateOn(func, path, x) == st0.locals[x];
      var path' := ThroughBlock(func, path, b, t);
      RunConcat(func, x, StartState(func, x), Trace(func, path), BlockActions(func, b));
      assert StateOn(func, path', x) == st.locals[x];
    }
    forall f | f !in st.fields ensures SomePathSkips(func, t, f) {
      assert SomePathSkips(func, b, f);
      var path :| PathTo(func, path, Point(b, 0)) && !AssignsField(Trace(func, path), f);
      var path' := ThroughBlock(func, path, b, t);
      assert !AssignsField(Trace(func, path'), f);
    }
  }

  /** `r` merges two states of equal size. */
  ghost predicate Joins(a: FlowState, b: FlowState, r: FlowState)
  {
    && |r.locals| == |a.locals| == |b.locals|
    && (forall x: nat :: x < |r.locals| ==> r.locals[x] == Merge(a.locals[x], b.locals[x]))
    && r.fields == a.fields * b.fields
  }

  lemma JustifiedJoin(func: MirFunction, t: nat, a: FlowState, b: FlowState, r: FlowState)
    requires Justified(func, t, a) && Justified(func, t, b) && Joins(a, b, r)
    ensures Justified(func, t, r)
  {
    forall x: nat | x < |r.locals| ensures SomePathGives(func, t, x, r.locals[x]) {
      assert SomePathGives(func, t, x, a.locals[x]) && SomePathGives(func, t, x, b.locals[x]);
    }
    forall f | f !in r.fields ensures SomePathSkips(func, t, f) {
      assert f !in a.fields ==> SomePathSkips(func, t, f);
      assert f !in b.fields ==> SomePathSkips(func, t, f);
    }
  }

  // ---------------------------------------------------------------- diagnostics

  /** The diagnostics reported exactly when some path deserves them. */
  predicate Tracked(d: Diag)
  {
    d.UseOfMoved? || d.FieldUnset?
  }

  /** The diagnostics that are reported only when some path deserves them. */
  predicate Checked(d: Diag)
  {
    Tracked(d) || d.Uninitialized?
  }

  /** Visiting block `b` from `st0` reports `d`. */
  ghost predicate ShouldReport(func: MirFunction, required: seq<string>, b: nat, st0: FlowState, d: Diag)
  {
    && IsPoint(func, d.at) && d.at.block == b
    && match d
       case UseOfMoved(x, q) =>
         x < |st0.locals| && Uses(Moved, func, x, RunOne(func, x, st0.locals[x], Prefix(func, b, q.idx)), ActionsAt(func, q))
       case Uninitialized(x, q) =>
         x < |st0.locals| && IsNamed(func, x)
         && Uses(Dead, func, x, RunOne(func, x, st0.locals[x], Prefix(func, b, q.idx)), ActionsAt(func, q))
       case FieldUnset(f, q) =>
         IsReturn(func, q) && f in required && f !in st0.fields && !AssignsField(Prefix(func, b, q.idx), f)
       case _ => false
  }

  /** What a checked diagnostic claims is true of some path. */
  ghost predicate Real(func: MirFunction, required: seq<string>, d: Diag)
  {
    match d
    case UseOfMoved(x, q) => x < |func.locals| && IsPoint(func, q) && MovedUse(func, x, q)
    case Uninitialized(x, q) => IsNamed(func, x) && IsPoint(func, q) && DeadUse(func, x, q)
    case FieldUnset(f, q) => f in required && ReturnsWithout(func, f, q)
    case _ => true
  }

  lemma ReportIsReal(func: MirFunction, required: seq<string>, b: nat, st0: FlowState, d: Diag)
    requires Justified(func, b, st0) && ShouldReport(func, required, b, st0, d)
    ensures Real(func, required, d)
  {
    match d
    case UseOfMoved(x, q) =>
      assert SomePathGives(func, b, x, st0.locals[x]);
      var path :| PathTo(func, path, Point(b, 0)) && StateOn(func, path, x) == st0.locals[x];
      var path' := IntoBlock(func, path, b, q.idx);
      RunConcat(func, x, StartState(func, x), Trace(func, path), Prefix(func, b, q.idx));
      assert q == Point(b, q.idx);
      assert Uses(Moved, func, x, StateOn(func, path', x), ActionsAt(func, q));
    case Uninitialized(x, q) =>
      assert SomePathGives(func, b, x, st0.locals[x]);
      var path :| PathTo(func, path, Point(b, 0)) && StateOn(func, path, x) == st0.locals[x];
      var path' := IntoBlock(func, path, b, q.idx);
      RunConcat(func, x, StartState(func, x), Trace(func, path), Prefix(func, b, q.idx));
      assert q == Point(b, q.idx);
      assert Uses(Dead, func, x, StateOn(func, path', x), ActionsAt(func, q));
    case FieldUnset(f, q) =>
      assert SomePathSkips(func, b, f);
      var path :| PathTo(func, path, Point(b, 0)) && !AssignsField(Trace(func, path), f);
      var path' := IntoBlock(func, path, b, q.idx);
      assert q == Point(b, q.idx);
      assert PathTo(func, path', q) && IsReturn(func, q) && !AssignsField(Trace(func, path'), f);
  }

  // ---------------------------------------------------------------- states of rest

  /** `e` is at least what leaving block `b` from `s` gives. */
  ghost predicate CoversOut(func: MirFunction, b: nat, s: FlowState, e: FlowState)
    requires b < |func.blocks|
  {
    && |e.locals| == |s.locals|
    && (forall x: nat :: x < |s.locals| ==> RunOne(func, x, s.locals[x], BlockActions(func, b)).Rank() <= e.locals[x].Rank())
    && (forall f :: f in e.fields ==> f in s.fields || AssignsField(BlockActions(func, b), f))
  }

  ghost predicate Covered(func: MirFunction, b: nat, s: FlowState, entry: Option<FlowState>)
    requires b < |func.blocks|
  {
    entry.Some? && CoversOut(func, b, s, entry.value)
  }

  /** Block `b`, if reached, has been reported on and passed on from its current entry state. */
  ghost predicate Settled(func: MirFunction, required: seq<string>, entries: Entries, errors: seq<Diag>, b: nat)
    requires b < |entries| == |func.blocks|
  {
    entries[b].Some? ==>
      && (forall d :: ShouldReport(func, required, b, entries[b].value, d) ==> d in errors)
      && (forall t :: t in Targets(func.blocks[b]) && t < |entries| ==> Covered(func, b, entries[b].value, entries[t]))
  }

  ghost predicate StartCovered(func: MirFunction, entries: Entries)
  {
    && |entries| > 0 && entries[0].Some? && |entries[0].value.locals| == |func.locals|
    && (forall x: nat :: x < |func.locals| ==> StartState(func, x).Rank() <= entries[0].value.locals[x].Rank())
    && entries[0].value.fields == {}
  }

  ghost predicate AtRest(func: MirFunction, required: seq<string>, entries: Entries, errors: seq<Diag>)
  {
    && |entries| == |func.blocks| && StartCovered(func, entries)
    && (forall b: nat :: b < |entries| ==> Settled(func, required, entries, errors, b))
    && (forall b: nat :: b < |entries| && entries[b].Some? ==> |entries[b].value.locals| == |func.locals|)
  }

  lemma CoverRun(func: MirFunction, x: nat, s: LocalState, a: seq<Action>, t: LocalState, b: seq<Action>, more: seq<Action>)
    requires RunOne(func, x, s, a).Rank() <= RunOne(func, x, t, b).Rank()
    ensures RunOne(func, x, s, a + more).Rank() <= RunOne(func, x, t, b + more).Rank()
  {
    RunConcat(func, x, s, a, more);
    RunConcat(func, x, t, b, more);
    RunMonotone(func, x, RunOne(func, x, s, a), RunOne(func, x, t, b), more);
  }

  /** State `s` followed by `actions` covers what the trace produces. */
  ghost predicate CoversTrace(func: MirFunction, trace: seq<Action>, s: FlowState, actions: seq<Action>)
  {
    && |s.locals| == |func.locals|
    && (forall x: nat :: x < |func.locals| ==>
          RunOne(func, x, StartState(func, x), trace).Rank() <= RunOne(func, x, s.locals[x], actions).Rank())
    && (forall f :: f in s.fields || AssignsField(actions, f) ==> AssignsField(trace, f))
  }

  lemma CoversMore(func: MirFunction, trace: seq<Action>, s: FlowState, actions: seq<Action>, more: seq<Action>)
    requires CoversTrace(func, trace, s, actions)
    ensures CoversTrace(func, trace + more, s, actions + more)
  {
    forall x: nat | x < |func.locals|
      ensures RunOne(func, x, StartState(func, x), trace + more).Rank() <= RunOne(func, x, s.locals[x], actions + more).Rank()
    {
      CoverRun(func, x, StartState(func, x), trace, s.locals[x], actions, more);
    }
  }

  /** The entry state of `q`'s block, run up to `q`, covers what the path produces. */
  ghost predicate CoversPath(func: MirFunction, entries: Entries, path: seq<Point>, q: Point)
    requires PathTo(func, path, q)
  {
    && q.block < |entries| && entries[q.block].Some?
    && CoversTrace(func, Trace(func, path), entries[q.block].value, Prefix(func, q.block, q.idx))
  }

  lemma CoverJump(func: MirFunction, trace: seq<Action>, b: nat, s: FlowState, e: FlowState)
    requires b < |func.blocks| && CoversTrace(func, trace, s, BlockActions(func, b)) && CoversOut(func, b, s, e)
    ensures CoversTrace(func, trace, e, [])
  {
  }

  lemma CoverInside(func: MirFunction, trace: seq<Action>, s: FlowState, q: Point, r: Point)
    requires IsPoint(func, q) && !AtTerminator(func, q) && r == Point(q.block, q.idx + 1)
    requires CoversTrace(func, trace, s, Prefix(func, q.block, q.idx))
    ensures CoversTrace(func, trace + ActionsAt(func, q), s, Prefix(func, r.block, r.idx))
  {
    CoversMore(func, trace, s, Prefix(func, q.block, q.idx), ActionsAt(func, q));
    PrefixNext(func, q, r);
  }

  lemma CoverStep(func: MirFunction, required: seq<string>, entries: Entries, errors: seq<Diag>,
                  trace: seq<Action>, q: Point, r: Point)
    requires JumpsInside(func) && AtRest(func, required, entries, errors)
    requires IsPoint(func, q) && Step(func, q, r) && entries[q.block].Some?
    requires CoversTrace(func, trace, entries[q.block].value, Prefix(func, q.block, q.idx))
    ensures r.block < |entries| && entries[r.block].Some? && IsPoint(func, r)
    ensures CoversTrace(func, trace + ActionsAt(func, q), entries[r.block].value, Prefix(func, r.block, r.idx))
  {
    var s := entries[q.block].value;
    if AtTerminator(func, q) {
      CoversMore(func, trace, s, Prefix(func, q.block, q.idx), ActionsAt(func, q));
      assert q == Point(q.block, LastIndex(func, q.block));
      assert Settled(func, required, entries, errors, q.block);
      assert Covered(func, q.block, s, entries[r.block]);
      CoverJump(func, trace + ActionsAt(func, q), q.block, s, entries[r.block].value);
    } else {
      CoverInside(func, trace, s, q, r);
    }
  }

  lemma {:induction false} RestCoversPath(func: MirFunction, required: seq<string>, entries: Entries, errors: seq<Diag>,
                                         path: seq<Point>, q: Point)
    requires JumpsInside(func) && AtRest(func, required, entries, errors) && PathTo(func, path, q)
    ensures CoversPath(func, entries, path, q)
    decreases |path|
  {
    if |path| == 1 {
      assert Trace(func, path) == [] && Prefix(func, 0, 0) == [];
    } else {
      var before, p := path[..|path| - 1], path[|path| - 2];
      PathEndsWithStep(func, path, q);
      RestCoversPath(func, required, entries, errors, before, p);
      CoverStep(func, required, entries, errors, Trace(func, before), p, q);
    }
  }

  lemma PathEndsWithStep(func: MirFunction, path: seq<Point>, q: Point)
    requires PathTo(func, path, q) && |path| > 1
    ensures PathTo(func, path[..|path| - 1], path[|path| - 2]) && Step(func, path[|path| - 2], q)
    ensures Trace(func, path) == Trace(func, path[..|path| - 1]) + ActionsAt(func, path[|path| - 2])
  {
    assert Step(func, path[|path| - 2], path[|path| - 1]);
  }

  /** At rest, everything true of some path has been reported. */
  lemma RealIsReported(func: MirFunction, required: seq<string>, entries: Entries, errors: seq<Diag>, d: Diag)
    requires JumpsInside(func) && AtRest(func, required, entries, errors)
    requires Tracked(d) && Real(func, required, d)
    ensures d in errors
  {
    var q := d.at;
    assert q == Point(q.block, q.idx);
    match d
    case UseOfMoved(x, _) =>
      var path :| PathTo(func, path, q) && Uses(Moved, func, x, StateOn(func, path, x), ActionsAt(func, q));
      RestCoversPath(func, required, entries, errors, path, q);
      var s := entries[q.block].value;
      UsesMovedMonotone(func, x, StateOn(func, path, x), RunOne(func, x, s.locals[x], Prefix(func, q.block, q.idx)), ActionsAt(func, q));
      assert Settled(func, required, entries, errors, q.block);
      assert ShouldReport(func, required, q.block, s, d);
    case FieldUnset(f, _) =>
      var path :| PathTo(func, path, q) && IsReturn(func, q) && !AssignsField(Trace(func, path), f);
      RestCoversPath(func, required, entries, errors, path, q);
      assert Settled(func, required, entries, errors, q.block);
      assert ShouldReport(func, required, q.block, entries[q.block].value, d);
  }

  /** At rest, every use that finds a named local dead on all paths has been reported. */
  lemma AlwaysDeadIsReported(func: MirFunction, required: seq<string>, entries: Entries, errors: seq<Diag>, x: nat, q: Point)
    requires JumpsInside(func) && AtRest(func, required, entries, errors) && IsPoint(func, q)
    requires forall b: nat :: b < |entries| && entries[b].Some? ==> Justified(func, b, entries[b].value)
    requires IsNamed(func, x) && AlwaysDeadUse(func, x, q)
    ensures Uninitialized(x, q) in errors
  {
    var some :| PathTo(func, some, q);
    RestCoversPath(func, required, entries, errors, some, q);
    var b, s := q.block, entries[q.block].value;
    assert SomePathGives(func, b, x, s.locals[x]);
    var path :| PathTo(func, path, Point(b, 0)) && StateOn(func, path, x) == s.locals[x];
    var path' := IntoBlock(func, path, b, q.idx);
    RunConcat(func, x, StartState(func, x), Trace(func, path), Prefix(func, b, q.idx));
    assert q == Point(b, q.idx);
    assert Uses(Dead, func, x, StateOn(func, path', x), ActionsAt(func, q));
    assert Settled(func, required, entries, errors, b);
    assert ShouldReport(func, required, b, s, Uninitialized(x, q));
  }

  // ---------------------------------------------------------------- visiting a block

  /** The checked diagnostics of block `b` anchored before index `k`, and no others. */
  ghost predicate ReportedUpTo(func: MirFunction, required: seq<string>, b: nat, st0: FlowState, k: nat, diags: seq<Diag>)
  {
    forall d :: Checked(d) ==> (d in diags <==> ShouldReport(func, required, b, st0, d) && d.at.idx < k)
  }

  lemma VisitStatement(func: MirFunction, required: seq<string>, st0: FlowState, q: Point, st: FlowState, next: nat,
                       diags: seq<Diag>, more: seq<Diag>)
    requires IsPoint(func, q) && next == q.idx + 1 && !IsReturn(func, q)
    requires Advances(func, st0, Prefix(func, q.block, q.idx), st)
    requires ReportedUpTo(func, required, q.block, st0, q.idx, diags)
    requires Reports(func, st, ActionsAt(func, q), q, more)
    ensures ReportedUpTo(func, required, q.block, st0, next, diags + more)
  {
    forall d | Checked(d)
      ensures d in diags + more <==> ShouldReport(func, required, q.block, st0, d) && d.at.idx < next
    {
      assert d.at.block == q.block && d.at.idx == q.idx ==> d.at == q;
      if d.at == q && d.UseOfMoved? {
        assert d == UseOfMoved(d.local, q);
      }
      if d.at == q && d.Uninitialized? {
        assert d == Uninitialized(d.local, q);
      }
    }
  }

  lemma VisitReturn(func: MirFunction, required: seq<string>, st0: FlowState, q: Point, st: FlowState, next: nat,
                    diags: seq<Diag>, more: seq<Diag>)
    requires IsReturn(func, q) && next == q.idx + 1
    requires Advances(func, st0, Prefix(func, q.block, q.idx), st)
    requires ReportedUpTo(func, required, q.block, st0, q.idx, diags)
    requires forall d :: d in more <==> d.FieldUnset? && d.at == q && d.field in required && d.field !in st.fields
    ensures ReportedUpTo(func, required, q.block, st0, next, diags + more)
  {
    forall d | Checked(d)
      ensures d in diags + more <==> ShouldReport(func, required, q.block, st0, d) && d.at.idx < next
    {
      assert d.at.block == q.block && d.at.idx == q.idx ==> d.at == q;
    }
  }

  // ---------------------------------------------------------------- progress

  datatype Fact =
    | Unreached(block: nat)
    | CanRise(block: nat, local: nat, level: nat)
    | HasField(block: nat, field: string)

  ghost function FieldNames(func: MirFunction): set<string>
  {
    set b: nat, i: nat | b < |func.blocks| && i < |func.blocks[b].statements| && func.blocks[b].statements[i].kind.SetAttr?
      :: func.blocks[b].statements[i].kind.attr
  }

  /** What can still change in the entry state of block `b`. */
  ghost predicate Pending(func: MirFunction, e: Option<FlowState>, f: Fact)
  {
    match f
    case Unreached(_) => e.None?
    case CanRise(_, x, level) => e.None? || (x < |e.value.locals| && e.value.locals[x].Rank() < level)
    case HasField(_, name) => e.None? || name in e.value.fields
  }

  ghost function AllFacts(func: MirFunction): set<Fact>
  {
    (set b: nat | b < |func.blocks| :: Unreached(b))
    + (set b: nat, x: nat, level: nat | b < |func.blocks| && x < |func.locals| && level < 3 :: CanRise(b, x, level))
    + (set b: nat, f | b < |func.blocks| && f in FieldNames(func) :: HasField(b, f))
  }

  ghost function Facts(func: MirFunction, entries: Entries): set<Fact>
  {
    set f | f in AllFacts(func) && f.block < |entries| && Pending(func, entries[f.block], f)
  }

  lemma FieldKnown(func: MirFunction, q: Point, f: string)
    requires IsPoint(func, q) && AssignsField(ActionsAt(func, q), f)
    ensures f in FieldNames(func)
  {
    var stmt := func.blocks[q.block].statements[q.idx];
    assert stmt.kind.SetAttr? && stmt.kind.attr == f;
  }

  lemma {:induction false} PrefixFieldsKnown(func: MirFunction, b: nat, k: nat, f: string)
    requires b < |func.blocks| && k <= LastIndex(func, b) && AssignsField(Prefix(func, b, k), f)
    ensures f in FieldNames(func)
  {
    if AssignsField(Prefix(func, b, k - 1), f) {
      PrefixFieldsKnown(func, b, k - 1, f);
    } else {
      FieldKnown(func, Point(b, k - 1), f);
    }
  }

  lemma BlockFieldsKnown(func: MirFunction, b: nat)
    requires b < |func.blocks|
    ensures forall f :: AssignsField(BlockActions(func, b), f) ==> f in FieldNames(func)
  {
    forall f | AssignsField(BlockActions(func, b), f) ensures f in FieldNames(func) {
      if AssignsField(Prefix(func, b, LastIndex(func, b)), f) {
        PrefixFieldsKnown(func, b, LastIndex(func, b), f);
      }
    }
  }

  /** Raising one entry state leaves less to do. */
  lemma FactsDrop(func: MirFunction, entries: Entries, t: nat, r: FlowState)
    requires t < |entries| == |func.blocks| && |r.locals| == |func.locals|
    requires entries[t].Some? ==>
      && |entries[t].value.locals| == |r.locals|
      && (forall x: nat :: x < |r.locals| ==> entries[t].value.locals[x].Rank() <= r.locals[x].Rank())
      && r.fields <= entries[t].value.fields <= FieldNames(func)
      && (r.locals != entries[t].value.locals || r.fields != entries[t].value.fields)
    ensures Facts(func, entries[t := Some(r)]) < Facts(func, entries)
  {
    var entries' := entries[t := Some(r)];
    forall f | f in Facts(func, entries') ensures f in Facts(func, entries) {
      assert f.block != t ==> entries'[f.block] == entries[f.block];
    }
    var gone: Fact;
    if entries[t].None? {
      gone := Unreached(t);
    } else if r.fields != entries[t].value.fields {
      var f :| f in entries[t].value.fields && f !in r.fields;
      gone := HasField(t, f);
    } else {
      var x: nat :| x < |r.locals| && r.locals[x] != entries[t].value.locals[x];
      gone := CanRise(t, x, r.locals[x].Rank());
    }
    assert gone in AllFacts(func);
    assert gone in Facts(func, entries) && gone !in Facts(func, entries');
  }
}

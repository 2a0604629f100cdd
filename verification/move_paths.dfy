/** What a path through a function does to one local and to the fields of `self`. */
module MovePaths {
  import opened Mir
  import opened Options
  import opened Flow

  /** The states of a local, in the order in which merging prefers them. */
  datatype LocalState = Dead | Initialized | Moved
  {
    function Rank(): nat { if Dead? then 0 else if Initialized? then 1 else 2 }
  }

  /** The elementary effects of statements and terminators, in execution order. */
  datatype Action =
    | UseOperand(op: Operand)
    | SetTo(local: nat, to: LocalState)
    | DropLocal(local: nat)
    | AssignField(field: string)

  function Checks(ops: seq<Operand>): (r: seq<Action>)
    ensures |r| == |ops| && forall i :: 0 <= i < |ops| ==> r[i] == UseOperand(ops[i])
  {
    seq(|ops|, i requires 0 <= i < |ops| => UseOperand(ops[i]))
  }

  /** Operands 1 and up are the parameters; parameter 1 of an `__init__` is `self`. */
  predicate IsSelf(op: Operand)
  {
    !op.Constant? && op.local == 1
  }

  function EndsWith(s: string, suffix: string): bool
  {
    |suffix| <= |s| && s[|s| - |suffix|..] == suffix
  }

  /** Strips every trailing copy of the suffix. */
  function TrimEnd(s: string, suffix: string): (r: string)
    requires suffix != []
    ensures !EndsWith(r, suffix) && r <= s
    decreases |s|
  {
    if EndsWith(s, suffix) then TrimEnd(s[..|s| - |suffix|], suffix) else s
  }

  const INIT_SUFFIX := "::__init__"

  predicate IsInit(func: MirFunction)
  {
    EndsWith(func.name, INIT_SUFFIX)
  }

  ghost function StatementActions(func: MirFunction, kind: StatementKind): seq<Action>
  {
    match kind
    case Assign(dest, rv) => Checks(Operands(rv)) + [SetTo(dest, Initialized)]
    case SetAttr(obj, field, val) =>
      Checks([obj, val]) + (if IsInit(func) && IsSelf(obj) then [AssignField(field)] else [])
    case SetIndex(obj, idx, val, _) => Checks([obj, idx, val])
    case StorageLive(local) => [SetTo(local, Initialized)]
    case StorageDead(local) => [SetTo(local, Dead)]
    case Drop(local) => [DropLocal(local)]
    case VectorStore(obj, idx, val) => Checks([obj, idx, val])
    case PtrStore(ptr, val) => Checks([ptr, val])
    case GenCheck(_, _) => []
  }

  ghost function TerminatorActions(term: Option<Terminator>): seq<Action>
  {
    if term.Some? && term.value.kind.SwitchInt? then [UseOperand(term.value.kind.discr)] else []
  }

  ghost function ActionsAt(func: MirFunction, q: Point): seq<Action>
    requires IsPoint(func, q)
  {
    var bb := func.blocks[q.block];
    if AtTerminator(func, q) then TerminatorActions(bb.terminator)
    else StatementActions(func, bb.statements[q.idx].kind)
  }

  // ---------------------------------------------------------------- one local

  predicate MovesFrom(func: MirFunction, x: nat)
  {
    x < |func.locals| && func.locals[x].ty.IsMoveType()
  }

  /** An action that takes the value out of an initialized `x`. */
  ghost predicate Takes(func: MirFunction, x: nat, a: Action)
  {
    match a
    case UseOperand(Move(l)) => l == x && MovesFrom(func, x)
    case DropLocal(l) => l == x
    case _ => false
  }

  /** What one action does to the state of local `x`. */
  ghost function StepOne(func: MirFunction, x: nat, s: LocalState, a: Action): LocalState
  {
    if a.SetTo? && a.local == x then a.to
    else if Takes(func, x, a) && s == Initialized then Moved
    else s
  }

  ghost function RunOne(func: MirFunction, x: nat, s: LocalState, actions: seq<Action>): LocalState
  {
    if actions == [] then s
    else StepOne(func, x, RunOne(func, x, s, actions[..|actions| - 1]), actions[|actions| - 1])
  }

  lemma {:induction false} RunConcat(func: MirFunction, x: nat, s: LocalState, a: seq<Action>, b: seq<Action>)
    ensures RunOne(func, x, s, a + b) == RunOne(func, x, RunOne(func, x, s, a), b)
    decreases |b|
  {
    if b == [] {
      assert a + b == a;
    } else {
      var b' := b[..|b| - 1];
      assert (a + b)[..|a + b| - 1] == a + b';
      RunConcat(func, x, s, a, b');
    }
  }

  lemma {:induction false} RunMonotone(func: MirFunction, x: nat, s: LocalState, t: LocalState, actions: seq<Action>)
    requires s.Rank() <= t.Rank()
    ensures RunOne(func, x, s, actions).Rank() <= RunOne(func, x, t, actions).Rank()
    decreases |actions|
  {
    if actions != [] {
      RunMonotone(func, x, s, t, actions[..|actions| - 1]);
    }
  }

  /** Position `i` takes an initialized `x` and nothing after it sets `x` again. */
  ghost predicate TakenAt(func: MirFunction, x: nat, s: LocalState, actions: seq<Action>, i: nat)
  {
    && i < |actions|
    && Takes(func, x, actions[i])
    && RunOne(func, x, s, actions[..i]) == Initialized
    && forall k :: i < k < |actions| ==> !(actions[k].SetTo? && actions[k].local == x)
  }

  /** A local that did not start moved is moved exactly when it was taken and not set since. */
  lemma {:induction false} MovedMeansTaken(func: MirFunction, x: nat, s: LocalState, actions: seq<Action>)
    requires s != Moved
    requires forall k :: 0 <= k < |actions| && actions[k].SetTo? ==> actions[k].to != Moved
    ensures RunOne(func, x, s, actions) == Moved <==> exists i: nat :: TakenAt(func, x, s, actions, i)
    decreases |actions|
  {
    if actions != [] {
      var n := |actions| - 1;
      var init := actions[..n];
      MovedMeansTaken(func, x, s, init);
      if i: nat :| TakenAt(func, x, s, init, i) && !(actions[n].SetTo? && actions[n].local == x) {
        assert actions[..i] == init[..i];
        assert TakenAt(func, x, s, actions, i);
      }
      if RunOne(func, x, s, actions) == Moved && RunOne(func, x, s, init) != Moved {
        assert TakenAt(func, x, s, actions, n);
      }
      if i: nat :| TakenAt(func, x, s, actions, i) {
        if i < n {
          assert actions[..i] == init[..i];
          assert TakenAt(func, x, s, init, i);
        } else {
          assert actions[..i] == init;
        }
      }
    }
  }

  ghost predicate Sets(a: Action, x: nat)
  {
    a.SetTo? && a.local == x
  }

  /** Position `i` ends the storage of `x` and nothing after it sets `x` again. */
  ghost predicate EndedAt(x: nat, actions: seq<Action>, i: nat)
  {
    i < |actions| && actions[i] == SetTo(x, Dead) && forall k :: i < k < |actions| ==> !Sets(actions[k], x)
  }

  ghost predicate NeverSets(x: nat, actions: seq<Action>)
  {
    forall k :: 0 <= k < |actions| ==> !Sets(actions[k], x)
  }

  /** A local is dead exactly when its storage was ended and not set since, or it started dead and was never set. */
  lemma {:induction false} DeadMeansUnset(func: MirFunction, x: nat, s: LocalState, actions: seq<Action>)
    ensures RunOne(func, x, s, actions) == Dead
            <==> (exists i: nat :: EndedAt(x, actions, i)) || (s == Dead && NeverSets(x, actions))
    decreases |actions|
  {
    if actions != [] {
      var n := |actions| - 1;
      var init := actions[..n];
      DeadMeansUnset(func, x, s, init);
      if Sets(actions[n], x) {
        if actions[n].to == Dead {
          assert EndedAt(x, actions, n);
        }
        forall i: nat | EndedAt(x, actions, i) ensures i == n {
        }
      } else {
        assert NeverSets(x, actions) <==> NeverSets(x, init);
        forall i: nat ensures EndedAt(x, actions, i) <==> EndedAt(x, init, i) {
        }
      }
    }
  }

  /** Some operand among the actions reads `x` while its state is `w`. */
  ghost predicate Uses(w: LocalState, func: MirFunction, x: nat, s: LocalState, actions: seq<Action>)
  {
    exists j: nat :: UsesAt(w, func, x, s, actions, j)
  }

  ghost predicate Reads(a: Action, x: nat)
  {
    a.UseOperand? && !a.op.Constant? && a.op.local == x
  }

  ghost predicate UsesAt(w: LocalState, func: MirFunction, x: nat, s: LocalState, actions: seq<Action>, j: nat)
  {
    j < |actions| && Reads(actions[j], x) && RunOne(func, x, s, actions[..j]) == w
  }

  lemma UsesMovedMonotone(func: MirFunction, x: nat, s: LocalState, t: LocalState, actions: seq<Action>)
    requires s.Rank() <= t.Rank() && Uses(Moved, func, x, s, actions)
    ensures Uses(Moved, func, x, t, actions)
  {
    var j: nat :| UsesAt(Moved, func, x, s, actions, j);
    RunMonotone(func, x, s, t, actions[..j]);
    assert UsesAt(Moved, func, x, t, actions, j);
  }

  lemma UsesConcat(w: LocalState, func: MirFunction, x: nat, s: LocalState, a: seq<Action>, b: seq<Action>)
    ensures Uses(w, func, x, s, a + b) <==> Uses(w, func, x, s, a) || Uses(w, func, x, RunOne(func, x, s, a), b)
  {
    if j: nat :| UsesAt(w, func, x, s, a, j) {
      assert (a + b)[..j] == a[..j];
      assert UsesAt(w, func, x, s, a + b, j);
    }
    if j: nat :| UsesAt(w, func, x, RunOne(func, x, s, a), b, j) {
      assert (a + b)[..|a| + j] == a + b[..j];
      RunConcat(func, x, s, a, b[..j]);
      assert UsesAt(w, func, x, s, a + b, |a| + j);
    }
    if j: nat :| UsesAt(w, func, x, s, a + b, j) {
      if j < |a| {
        assert (a + b)[..j] == a[..j];
        assert UsesAt(w, func, x, s, a, j);
      } else {
        assert (a + b)[..j] == a + b[..j - |a|];
        RunConcat(func, x, s, a, b[..j - |a|]);
        assert UsesAt(w, func, x, RunOne(func, x, s, a), b, j - |a|);
      }
    }
  }

  // ---------------------------------------------------------------- paths

  /** The parameters and the return slot start initialized. */
  ghost function StartState(func: MirFunction, x: nat): LocalState
  {
    if x < |func.locals| && x <= func.argCount then Initialized else Dead
  }

  /** A run of control from the start of the entry block to `q`. */
  ghost predicate PathTo(func: MirFunction, path: seq<Point>, q: Point)
  {
    && |path| > 0 && path[0] == Point(0, 0) && path[|path| - 1] == q
    && (forall i :: 0 <= i < |path| ==> IsPoint(func, path[i]))
    && (forall i, j :: 0 <= i < j < |path| && j == i + 1 ==> Step(func, path[i], path[j]))
  }

  /** Everything executed along the path before its last point. */
  ghost function Trace(func: MirFunction, path: seq<Point>): seq<Action>
    requires forall i :: 0 <= i < |path| ==> IsPoint(func, path[i])
  {
    if |path| <= 1 then []
    else Trace(func, path[..|path| - 1]) + ActionsAt(func, path[|path| - 2])
  }

  ghost function StateOn(func: MirFunction, path: seq<Point>, x: nat): LocalState
    requires forall i :: 0 <= i < |path| ==> IsPoint(func, path[i])
  {
    RunOne(func, x, StartState(func, x), Trace(func, path))
  }

  ghost predicate AssignsField(actions: seq<Action>, f: string)
  {
    AssignField(f) in actions
  }

  lemma PathStep(func: MirFunction, path: seq<Point>, q: Point, r: Point)
    requires PathTo(func, path, q) && Step(func, q, r) && IsPoint(func, r)
    ensures PathTo(func, path + [r], r)
    ensures Trace(func, path + [r]) == Trace(func, path) + ActionsAt(func, q)
  {
    assert (path + [r])[..|path|] == path;
  }

  /** Some path uses `x` at `q` after moving or dropping it without setting it again. */
  ghost predicate MovedUse(func: MirFunction, x: nat, q: Point)
  {
    exists path :: PathTo(func, path, q) && Uses(Moved, func, x, StateOn(func, path, x), ActionsAt(func, q))
  }

  /** Some path uses `x` at `q` where nothing has set it, or its storage has ended since. */
  ghost predicate DeadUse(func: MirFunction, x: nat, q: Point)
  {
    exists path :: PathTo(func, path, q) && Uses(Dead, func, x, StateOn(func, path, x), ActionsAt(func, q))
  }

  /** Every path to `q` does, and there is one. */
  ghost predicate AlwaysDeadUse(func: MirFunction, x: nat, q: Point)
  {
    && (exists path :: PathTo(func, path, q))
    && forall path :: PathTo(func, path, q) ==> Uses(Dead, func, x, StateOn(func, path, x), ActionsAt(func, q))
  }

  /** Some path returns at `q` without having assigned field `f` of `self`. */
  ghost predicate ReturnsWithout(func: MirFunction, f: string, q: Point)
  {
    exists path :: PathTo(func, path, q) && IsReturn(func, q) && !AssignsField(Trace(func, path), f)
  }

  ghost predicate IsReturn(func: MirFunction, q: Point)
  {
    && IsPoint(func, q) && AtTerminator(func, q)
    && func.blocks[q.block].terminator.Some? && func.blocks[q.block].terminator.value.kind.Return?
  }

  // ---------------------------------------------------------------- what a moved use means

  lemma ActionsNeverSetMoved(func: MirFunction, q: Point)
    requires IsPoint(func, q)
    ensures forall k :: 0 <= k < |ActionsAt(func, q)| && ActionsAt(func, q)[k].SetTo? ==> ActionsAt(func, q)[k].to != Moved
  {
  }

  lemma {:induction false} TraceNeverSetsMoved(func: MirFunction, path: seq<Point>)
    requires forall i :: 0 <= i < |path| ==> IsPoint(func, path[i])
    ensures forall k :: 0 <= k < |Trace(func, path)| && Trace(func, path)[k].SetTo? ==> Trace(func, path)[k].to != Moved
    decreases |path|
  {
    if |path| > 1 {
      TraceNeverSetsMoved(func, path[..|path| - 1]);
      ActionsNeverSetMoved(func, path[|path| - 2]);
    }
  }

  /** Everything executed on the path up to action `j` at its last point. */
  ghost function TraceUpTo(func: MirFunction, path: seq<Point>, q: Point, j: nat): seq<Action>
    requires PathTo(func, path, q) && j <= |ActionsAt(func, q)|
  {
    Trace(func, path) + ActionsAt(func, q)[..j]
  }

  /** Action `j` at `q` reads `x`, which action `i` of the path took away and nothing set since. */
  ghost predicate ReadAfterTake(func: MirFunction, x: nat, q: Point, path: seq<Point>, j: nat, i: nat)
  {
    && PathTo(func, path, q) && j < |ActionsAt(func, q)| && Reads(ActionsAt(func, q)[j], x)
    && TakenAt(func, x, StartState(func, x), TraceUpTo(func, path, q, j), i)
  }

  lemma MovedUseIsReadAfterTake(func: MirFunction, x: nat, q: Point)
    requires IsPoint(func, q)
    ensures MovedUse(func, x, q) <==> exists path, j: nat, i: nat :: ReadAfterTake(func, x, q, path, j, i)
  {
    var actions := ActionsAt(func, q);
    forall path, j: nat | PathTo(func, path, q) && j < |actions| && Reads(actions[j], x)
      ensures UsesAt(Moved, func, x, StateOn(func, path, x), actions, j)
              <==> exists i: nat :: ReadAfterTake(func, x, q, path, j, i)
    {
      RunConcat(func, x, StartState(func, x), Trace(func, path), actions[..j]);
      TraceNeverSetsMoved(func, path);
      ActionsNeverSetMoved(func, q);
      MovedMeansTaken(func, x, StartState(func, x), TraceUpTo(func, path, q, j));
      if i: nat :| TakenAt(func, x, StartState(func, x), TraceUpTo(func, path, q, j), i) {
        assert ReadAfterTake(func, x, q, path, j, i);
      }
    }
    if MovedUse(func, x, q) {
      var path :| PathTo(func, path, q) && Uses(Moved, func, x, StateOn(func, path, x), actions);
      var j: nat :| UsesAt(Moved, func, x, StateOn(func, path, x), actions, j);
      var i: nat :| ReadAfterTake(func, x, q, path, j, i);
    }
    if path, j: nat, i: nat :| ReadAfterTake(func, x, q, path, j, i) {
      assert UsesAt(Moved, func, x, StateOn(func, path, x), actions, j);
      assert Uses(Moved, func, x, StateOn(func, path, x), actions);
    }
  }
}

/** What statements and blocks do to a checker state, and what they report, whatever is borrowed. */
module BorrowRules {
  import opened Mir
  import opened Options
  import opened Flow
  import opened Liveness
  import opened MovePaths
  import opened FlowStates

  const MUTATES_RECEIVER: map<string, nat> := map[
    "__olive_list_append" := 0, "__olive_list_insert" := 0, "__olive_list_extend" := 0,
    "__olive_list_extend_typed" := 0, "__olive_list_remove" := 0, "__olive_list_pop" := 0,
    "__olive_list_reverse" := 0, "__olive_list_sort_int" := 0, "__olive_list_sort_float" := 0,
    "__olive_list_sort_str" := 0, "__olive_list_clear" := 0, "__olive_set_add" := 0,
    "__olive_set_add_typed" := 0, "__olive_set_remove" := 0, "__olive_set_remove_typed" := 0,
    "__olive_set_remove_checked" := 0, "__olive_set_remove_checked_typed" := 0, "__olive_set_clear" := 0,
    "__olive_obj_set" := 0, "__olive_obj_remove" := 0, "__olive_obj_clear" := 0,
    "__olive_obj_pop_default" := 0, "__olive_obj_pop_default_typed" := 0, "__olive_obj_pop_checked" := 0,
    "__olive_obj_pop_checked_typed" := 0, "__olive_obj_setdefault" := 0, "__olive_obj_setdefault_typed" := 0,
    "__olive_obj_update" := 0, "__olive_obj_update_typed" := 0]

  /** The operand a runtime call mutates in place, if any. */
  function MutatedReceiver(rv: Rvalue): Option<Operand>
  {
    if rv.Call? && rv.func.Constant? && rv.func.value.Function? && rv.func.value.name in MUTATES_RECEIVER
       && MUTATES_RECEIVER[rv.func.value.name] < |rv.args|
    then Some(rv.args[MUTATES_RECEIVER[rv.func.value.name]])
    else None
  }

  predicate IsBorrowPassthrough(callee: Operand)
  {
    callee.Constant? && callee.value.Function? && (callee.value.name == "__olive_iter" || callee.value.name == "iter")
  }

  predicate OperandInside(func: MirFunction, op: Operand)
  {
    !op.Constant? ==> op.local < |func.locals|
  }

  /** The locals whose borrow entry the checker indexes directly exist. */
  predicate BorrowTargetsInside(func: MirFunction, kind: StatementKind)
  {
    match kind
    case Assign(_, Ref(l)) => l < |func.locals|
    case Assign(_, MutRef(l)) => l < |func.locals|
    case Assign(_, rv) => MutatedReceiver(rv).Some? ==> OperandInside(func, MutatedReceiver(rv).value)
    case SetAttr(obj, _, _) => OperandInside(func, obj)
    case SetIndex(obj, _, _, _) => OperandInside(func, obj)
    case VectorStore(obj, _, _) => OperandInside(func, obj)
    case _ => true
  }

  predicate BorrowFree(kind: StatementKind)
  {
    !(kind.Assign? && (kind.rvalue.Ref? || kind.rvalue.MutRef?))
  }

  // ---------------------------------------------------------------- what checking operands amounts to

  /** The state after an operand has been checked, whatever is borrowed: a move takes an initialized local of a move
      type, unless it is borrowed. */
  ghost function OperandState(func: MirFunction, op: Operand, st: FlowState): (r: FlowState)
    requires Sized(st, |func.locals|)
    ensures Sized(r, |func.locals|) && KeepsBorrowed(st, r)
  {
    if op.Move? && Get(st, op.local) == Initialized && func.locals[op.local].ty.IsMoveType() && TrySet(st, op.local, Moved).Some?
    then TrySet(st, op.local, Moved).value
    else st
  }

  ghost function OperandReports(func: MirFunction, op: Operand, st: FlowState, at: Point): seq<Diag>
    requires Sized(st, |func.locals|)
  {
    if op.Constant? then []
    else
      match Get(st, op.local)
      case Moved => [UseOfMoved(op.local, at)]
      case Dead =>
        if op.local < |func.locals| && func.locals[op.local].name.Some? then [Uninitialized(op.local, at)] else []
      case Initialized =>
        if op.Move? && func.locals[op.local].ty.IsMoveType() && Borrowed(st, op.local) then [ConflictingMove(op.local, at)] else []
  }

  /** Operands are checked in order, each in the state the one before it leaves. */
  ghost function OperandsState(func: MirFunction, ops: seq<Operand>, st: FlowState): (r: FlowState)
    requires Sized(st, |func.locals|)
    ensures Sized(r, |func.locals|) && KeepsBorrowed(st, r)
  {
    if ops == [] then st
    else
      var init := OperandsState(func, ops[..|ops| - 1], st);
      var r := OperandState(func, ops[|ops| - 1], init);
      KeepsBoth(st, init, r);
      r
  }

  ghost function OperandsReports(func: MirFunction, ops: seq<Operand>, st: FlowState, at: Point): seq<Diag>
    requires Sized(st, |func.locals|)
  {
    if ops == [] then []
    else
      var init := ops[..|ops| - 1];
      OperandsReports(func, init, st, at) + OperandReports(func, ops[|ops| - 1], OperandsState(func, init, st), at)
  }

  /** What mutating a receiver in place reports. */
  ghost function MutationReports(op: Operand, st: FlowState, at: Point): seq<Diag>
  {
    if !op.Constant? && BorrowOf(st, op.local).shared > 0 then [MutatesBorrowed(op.local, at)] else []
  }

  /** What checking an rvalue that is no borrow reports. */
  ghost function RvalueReports(func: MirFunction, rv: Rvalue, st: FlowState, at: Point): seq<Diag>
    requires Sized(st, |func.locals|)
  {
    (if MutatedReceiver(rv).Some? then MutationReports(MutatedReceiver(rv).value, st, at) else [])
    + OperandsReports(func, Operands(rv), st, at)
  }

  /** The state after a borrow has been taken. */
  ghost function BorrowState(rv: Rvalue, st: FlowState): (r: FlowState)
    requires (rv.Ref? || rv.MutRef?) && rv.target < |st.borrows|
    ensures |r.locals| == |st.locals| && |r.borrows| == |st.borrows| && KeepsBorrowed(st, r)
  {
    var b := st.borrows[rv.target];
    st.(borrows := st.borrows[rv.target := if rv.Ref? then Borrow(b.shared + 1, b.exclusive) else Borrow(b.shared, true)])
  }

  ghost function BorrowReports(func: MirFunction, rv: Rvalue, st: FlowState, at: Point): seq<Diag>
    requires (rv.Ref? || rv.MutRef?) && rv.target < |func.locals| && Sized(st, |func.locals|)
  {
    var b := st.borrows[rv.target];
    (if st.locals[rv.target] != Initialized then [BorrowsUnset(rv.target, at)] else [])
    + (if rv.MutRef? && !func.locals[rv.target].isMut then [BorrowsImmutable(rv.target, at)] else [])
    + (if b.exclusive || (rv.MutRef? && b.shared > 0) then [ConflictingBorrow(rv.target, at)] else [])
  }

  /** The state after any rvalue has been evaluated. */
  ghost function EvalState(func: MirFunction, rv: Rvalue, st: FlowState): (r: FlowState)
    requires Sized(st, |func.locals|) && BorrowTargetsInside(func, Assign(0, rv))
    ensures Sized(r, |func.locals|) && KeepsBorrowed(st, r)
  {
    if rv.Ref? || rv.MutRef? then BorrowState(rv, st) else OperandsState(func, Operands(rv), st)
  }

  ghost function EvalReports(func: MirFunction, rv: Rvalue, st: FlowState, at: Point): seq<Diag>
    requires Sized(st, |func.locals|) && BorrowTargetsInside(func, Assign(0, rv))
  {
    if rv.Ref? || rv.MutRef? then BorrowReports(func, rv, st, at) else RvalueReports(func, rv, st, at)
  }

  /** Setting a local, unless it is borrowed. */
  ghost function SetState(st: FlowState, x: nat, to: LocalState): (r: FlowState)
    requires |st.locals| == |st.borrows|
    ensures Sized(r, |st.locals|) && KeepsBorrowed(st, r)
  {
    if TrySet(st, x, to).Some? then TrySet(st, x, to).value else st
  }

  /** The state after a statement, whatever is borrowed. */
  ghost function StatementState(func: MirFunction, kind: StatementKind, st: FlowState): (r: FlowState)
    requires Sized(st, |func.locals|) && BorrowTargetsInside(func, kind)
    ensures Sized(r, |func.locals|) && KeepsBorrowed(st, r)
  {
    match kind
    case Assign(dest, rv) =>
      var mid := EvalState(func, rv, st);
      var r := SetState(mid, dest, Initialized);
      KeepsBoth(st, mid, r);
      r
    case SetAttr(obj, field, val) =>
      var mid := OperandsState(func, [obj, val], st);
      if IsInit(func) && IsSelf(obj) then mid.(fields := mid.fields + {field}) else mid
    case SetIndex(obj, idx, val, _) => OperandsState(func, [obj, idx, val], st)
    case StorageLive(local) => SetState(st, local, Initialized)
    case StorageDead(local) => SetState(st, local, Dead)
    case Drop(local) => if Get(st, local) == Initialized then SetState(st, local, Moved) else st
    case VectorStore(obj, idx, val) => OperandsState(func, [obj, idx, val], st)
    case PtrStore(ptr, val) => OperandsState(func, [ptr, val], st)
    case GenCheck(_, _) => st
  }

  /** What a statement reports. */
  ghost function StatementReports(func: MirFunction, kind: StatementKind, st: FlowState, at: Point): seq<Diag>
    requires Sized(st, |func.locals|) && BorrowTargetsInside(func, kind)
  {
    match kind
    case Assign(dest, rv) =>
      EvalReports(func, rv, st, at) + if Borrowed(EvalState(func, rv, st), dest) then [ConflictingAssign(dest, at)] else []
    case SetAttr(obj, _, val) => MutationReports(obj, st, at) + OperandsReports(func, [obj, val], st, at)
    case SetIndex(obj, idx, val, _) => MutationReports(obj, st, at) + OperandsReports(func, [obj, idx, val], st, at)
    case StorageLive(_) => []
    case StorageDead(_) => []
    case Drop(local) => if Get(st, local) == Initialized && Borrowed(st, local) then [DropsBorrowed(local, at)] else []
    case VectorStore(obj, idx, val) => MutationReports(obj, st, at) + OperandsReports(func, [obj, idx, val], st, at)
    case PtrStore(ptr, val) => OperandsReports(func, [ptr, val], st, at)
    case GenCheck(_, _) => []
  }

  /** The local that an operand's value borrows from, as far as is known. */
  function CarriedIn(provenance: map<nat, nat>, op: Operand): Option<nat>
  {
    if !op.Constant? && op.local in provenance then Some(provenance[op.local]) else None
  }

  /** The local that the value of an rvalue borrows from, as far as is known. */
  function SourceOf(provenance: map<nat, nat>, rv: Rvalue): Option<nat>
  {
    match rv
    case Ref(l) => Some(l)
    case MutRef(l) => Some(l)
    case Use(op) => CarriedIn(provenance, op)
    case Call(callee, args) => if IsBorrowPassthrough(callee) && |args| > 0 then CarriedIn(provenance, args[0]) else None
    case _ => None
  }

  /** What is known of references after a statement: only assignments teach or forget anything. */
  function ProvenanceAfter(provenance: map<nat, nat>, kind: StatementKind): map<nat, nat>
  {
    if !kind.Assign? then provenance
    else
      match SourceOf(provenance, kind.rvalue)
      case Some(l) => provenance[kind.dest := l]
      case None => provenance - {kind.dest}
  }

  /** The statement cannot change the state of `x`: it is borrowed, or the statement borrows it for itself. */
  ghost predicate Held(kind: StatementKind, st: FlowState, x: nat)
  {
    Borrowed(st, x) || (kind.Assign? && kind.dest == x && (kind.rvalue.Ref? || kind.rvalue.MutRef?) && kind.rvalue.target == x)
  }

  lemma {:induction false} OperandsRun(func: MirFunction, ops: seq<Operand>, st: FlowState, x: nat)
    requires Sized(st, |func.locals|) && x < |func.locals|
    ensures var r := OperandsState(func, ops, st);
      && r.fields == st.fields && r.borrows == st.borrows
      && r.locals[x] == if Borrowed(st, x) then st.locals[x] else RunOne(func, x, st.locals[x], Checks(ops))
    decreases |ops|
  {
    if ops != [] {
      var init, last := ops[..|ops| - 1], ops[|ops| - 1];
      OperandsRun(func, init, st, x);
      var mid := OperandsState(func, init, st);
      assert Checks(ops)[..|ops| - 1] == Checks(init) && Checks(ops)[|ops| - 1] == UseOperand(last);
      assert OperandsState(func, ops, st) == OperandState(func, last, mid);
    }
  }

  /** `r` is `st` after `actions`, but for local `x` if it is held. */
  ghost predicate RunsOn(func: MirFunction, st: FlowState, actions: seq<Action>, held: bool, x: nat, r: FlowState)
    requires x < |st.locals| && x < |r.locals|
  {
    && r.locals[x] == (if held then st.locals[x] else RunOne(func, x, st.locals[x], actions))
    && forall f :: f in r.fields <==> f in st.fields || AssignsField(actions, f)
  }

  lemma {:induction false} SetRuns(func: MirFunction, st: FlowState, local: nat, to: LocalState, a: Action, x: nat)
    requires Sized(st, |func.locals|) && x < |func.locals|
    requires a == SetTo(local, to) || (a == DropLocal(local) && to == Moved && Get(st, local) == Initialized)
    ensures RunsOn(func, st, [a], Borrowed(st, x), x, SetState(st, local, to)) && SetState(st, local, to).borrows == st.borrows
  {
    UsesSingle(Moved, func, x, st.locals[x], a);
  }

  lemma {:induction false} ChecksRun(func: MirFunction, ops: seq<Operand>, st: FlowState, x: nat)
    requires Sized(st, |func.locals|) && x < |func.locals|
    ensures RunsOn(func, st, Checks(ops), Borrowed(st, x), x, OperandsState(func, ops, st))
    ensures OperandsState(func, ops, st).borrows == st.borrows
  {
    OperandsRun(func, ops, st, x);
  }

  lemma {:induction false} RunsThen(func: MirFunction, st: FlowState, a: seq<Action>, mid: FlowState, b: seq<Action>, r: FlowState,
                                   held: bool, x: nat)
    requires x < |st.locals| && x < |mid.locals| && x < |r.locals|
    requires RunsOn(func, st, a, held, x, mid) && RunsOn(func, mid, b, held, x, r)
    ensures RunsOn(func, st, a + b, held, x, r)
  {
    RunConcat(func, x, st.locals[x], a, b);
  }

  lemma {:induction false} AssignRuns(func: MirFunction, dest: nat, rv: Rvalue, st: FlowState, x: nat)
    requires Sized(st, |func.locals|) && BorrowTargetsInside(func, Assign(dest, rv)) && x < |func.locals|
    ensures var kind := Assign(dest, rv); var r := StatementState(func, kind, st);
      && RunsOn(func, st, StatementActions(func, kind), Held(kind, st, x), x, r)
      && r.borrows == EvalState(func, rv, st).borrows
      && (BorrowFree(kind) ==> r.borrows == st.borrows)
  {
    var mid := EvalState(func, rv, st);
    SetRuns(func, mid, dest, Initialized, SetTo(dest, Initialized), x);
    var r := SetState(mid, dest, Initialized);
    if rv.Ref? || rv.MutRef? {
      assert Checks(Operands(rv)) + [SetTo(dest, Initialized)] == [SetTo(dest, Initialized)];
      UsesSingle(Moved, func, x, st.locals[x], SetTo(dest, Initialized));
    } else {
      ChecksRun(func, Operands(rv), st, x);
      hide OperandsState, RunsOn, Checks, Operands, RunOne;
      RunsThen(func, st, Checks(Operands(rv)), mid, [SetTo(dest, Initialized)], r, Borrowed(st, x), x);
    }
  }

  lemma {:induction false} SetAttrRuns(func: MirFunction, obj: Operand, field: string, val: Operand, st: FlowState, x: nat)
    requires Sized(st, |func.locals|) && BorrowTargetsInside(func, SetAttr(obj, field, val)) && x < |func.locals|
    ensures var kind := SetAttr(obj, field, val); var r := StatementState(func, kind, st);
      RunsOn(func, st, StatementActions(func, kind), Borrowed(st, x), x, r) && r.borrows == st.borrows
  {
    var mid, ops := OperandsState(func, [obj, val], st), [obj, val];
    ChecksRun(func, ops, st, x);
    if IsInit(func) && IsSelf(obj) {
      var r := mid.(fields := mid.fields + {field});
      UsesSingle(Moved, func, x, mid.locals[x], AssignField(field));
      assert RunsOn(func, mid, [AssignField(field)], Borrowed(st, x), x, r);
      hide OperandsState, RunsOn, Checks, RunOne;
      RunsThen(func, st, Checks(ops), mid, [AssignField(field)], r, Borrowed(st, x), x);
    } else {
      assert Checks(ops) + [] == Checks(ops);
    }
  }

  /** What a statement does to every local whatever is borrowed: its actions run on the locals that are not held,
      and held locals stay. Borrows change only where one is taken. */
  lemma {:induction false} StatementRuns(func: MirFunction, kind: StatementKind, st: FlowState, x: nat)
    requires Sized(st, |func.locals|) && BorrowTargetsInside(func, kind) && x < |func.locals|
    ensures RunsOn(func, st, StatementActions(func, kind), Held(kind, st, x), x, StatementState(func, kind, st))
    ensures StatementState(func, kind, st).borrows == if BorrowFree(kind) then st.borrows else BorrowState(kind.rvalue, st).borrows
  {
    match kind
    case Assign(dest, rv) => AssignRuns(func, dest, rv, st, x);
    case SetAttr(obj, field, val) => SetAttrRuns(func, obj, field, val, st, x);
    case SetIndex(obj, idx, val, _) => ChecksRun(func, [obj, idx, val], st, x);
    case StorageLive(local) => SetRuns(func, st, local, Initialized, SetTo(local, Initialized), x);
    case StorageDead(local) => SetRuns(func, st, local, Dead, SetTo(local, Dead), x);
    case Drop(local) =>
      if Get(st, local) == Initialized {
        SetRuns(func, st, local, Moved, DropLocal(local), x);
      } else {
        UsesSingle(Moved, func, x, st.locals[x], DropLocal(local));
      }
    case VectorStore(obj, idx, val) => ChecksRun(func, [obj, idx, val], st, x);
    case PtrStore(ptr, val) => ChecksRun(func, [ptr, val], st, x);
    case GenCheck(_, _) =>
  }

  lemma AssignParts(func: MirFunction, dest: nat, rv: Rvalue, st: FlowState, at: Point)
    requires Sized(st, |func.locals|) && BorrowTargetsInside(func, Assign(dest, rv))
    ensures BorrowTargetsInside(func, Assign(0, rv))
    ensures var mid := EvalState(func, rv, st);
      && StatementState(func, Assign(dest, rv), st) == SetState(mid, dest, Initialized)
      && StatementReports(func, Assign(dest, rv), st, at)
         == EvalReports(func, rv, st, at) + (if Borrowed(mid, dest) then [ConflictingAssign(dest, at)] else [])
    ensures StatementActions(func, Assign(dest, rv)) == Checks(Operands(rv)) + [SetTo(dest, Initialized)]
  {
  }

  lemma NoMutation(func: MirFunction, rv: Rvalue, st: FlowState, at: Point)
    requires Sized(st, |func.locals|) && !rv.Call?
    ensures RvalueReports(func, rv, st, at) == OperandsReports(func, Operands(rv), st, at)
  {
    hide OperandsReports, Operands;
  }

  lemma JoinReports(a: seq<Diag>, b: seq<Diag>, c: seq<Diag>)
    ensures (a + b) + c == a + (b + c)
  {
  }

  lemma ConstantIsQuiet(func: MirFunction, rv: Rvalue, st: FlowState, at: Point)
    requires rv.Call? && Sized(st, |func.locals|)
    ensures MutatedReceiver(rv).Some? ==> OperandState(func, rv.func, st) == st && OperandReports(func, rv.func, st, at) == []
  {
  }

  /** A callee and an in-place mutation never both report. */
  lemma CallReports(before: seq<Diag>, callee: seq<Diag>, mutation: seq<Diag>, args: seq<Diag>)
    requires callee == [] || mutation == []
    ensures ((before + callee) + mutation) + args == (before + mutation) + (callee + args)
  {
    if callee == [] {
      assert before + callee == before && callee + args == args;
    } else {
      assert (before + callee) + mutation == before + callee && before + mutation == before;
      JoinReports(before, callee, args);
    }
  }

  lemma {:induction false} OneMoreOperand(func: MirFunction, ops: seq<Operand>, op: Operand, st: FlowState, at: Point)
    requires Sized(st, |func.locals|)
    ensures var mid := OperandsState(func, ops, st);
      && OperandsState(func, ops + [op], st) == OperandState(func, op, mid)
      && OperandsReports(func, ops + [op], st, at) == OperandsReports(func, ops, st, at) + OperandReports(func, op, mid, at)
  {
    var all := ops + [op];
    assert all[..|all| - 1] == ops && all[|all| - 1] == op;
    hide OperandState, OperandReports;
  }

  /** Checking `op` and then `ops` is checking them together. */
  ghost predicate ChecksTogether(func: MirFunction, op: Operand, ops: seq<Operand>, st: FlowState, at: Point)
    requires Sized(st, |func.locals|)
  {
    var mid := OperandState(func, op, st);
    && OperandsState(func, [op] + ops, st) == OperandsState(func, ops, mid)
    && OperandsReports(func, [op] + ops, st, at) == OperandReports(func, op, st, at) + OperandsReports(func, ops, mid, at)
  }

  lemma {:induction false} OneThenNone(func: MirFunction, op: Operand, st: FlowState, at: Point)
    requires Sized(st, |func.locals|)
    ensures ChecksTogether(func, op, [], st, at)
  {
    var mid, reports := OperandState(func, op, st), OperandReports(func, op, st, at);
    assert OperandsState(func, [], st) == st && OperandsReports(func, [], st, at) == [];
    assert OperandsState(func, [], mid) == mid && OperandsReports(func, [], mid, at) == [];
    OneMoreOperand(func, [], op, st, at);
    hide OperandsState, OperandsReports, OperandState, OperandReports;
    assert [] + reports == reports && reports + [] == reports;
    assert [] + [op] == [op] && [op] + [] == [op];
  }

  lemma {:induction false} TogetherOneMore(func: MirFunction, op: Operand, ops: seq<Operand>, last: Operand, st: FlowState, at: Point)
    requires Sized(st, |func.locals|) && ChecksTogether(func, op, ops, st, at)
    ensures ChecksTogether(func, op, ops + [last], st, at)
  {
    var mid := OperandState(func, op, st);
    hide OperandsState, OperandsReports, OperandState, OperandReports;
    OneMoreOperand(func, [op] + ops, last, st, at);
    OneMoreOperand(func, ops, last, mid, at);
    JoinReports(OperandReports(func, op, st, at), OperandsReports(func, ops, mid, at),
                OperandReports(func, last, OperandsState(func, ops, mid), at));
    assert ([op] + ops) + [last] == [op] + (ops + [last]);
  }

  lemma {:induction false} OneThenOthers(func: MirFunction, op: Operand, ops: seq<Operand>, st: FlowState, at: Point)
    requires Sized(st, |func.locals|)
    ensures ChecksTogether(func, op, ops, st, at)
    decreases |ops|
  {
    hide ChecksTogether;
    if ops == [] {
      OneThenNone(func, op, st, at);
    } else {
      var init, last := ops[..|ops| - 1], ops[|ops| - 1];
      OneThenOthers(func, op, init, st, at);
      TogetherOneMore(func, op, init, last, st, at);
      assert init + [last] == ops;
    }
  }

  /** Without borrows, checking an operand does what its action asks for. */
  lemma {:induction false} CleanOperand(func: MirFunction, op: Operand, st: FlowState, at: Point)
    requires Sized(st, |func.locals|) && Clean(st)
    ensures var r := OperandState(func, op, st);
      && Clean(r) && Advances(func, st, [UseOperand(op)], r)
      && Reports(func, st, [UseOperand(op)], at, OperandReports(func, op, st, at))
  {
    CleanOperandAdvances(func, op, st);
    CleanOperandReports(func, op, st, at);
  }

  lemma {:induction false} CleanOperandAdvances(func: MirFunction, op: Operand, st: FlowState)
    requires Sized(st, |func.locals|) && Clean(st)
    ensures Clean(OperandState(func, op, st)) && Advances(func, st, [UseOperand(op)], OperandState(func, op, st))
  {
    var a := UseOperand(op);
    forall x: nat, s: LocalState ensures RunOne(func, x, s, [a]) == StepOne(func, x, s, a) {
      UsesSingle(Moved, func, x, s, a);
    }
  }

  lemma {:induction false} CleanOperandReports(func: MirFunction, op: Operand, st: FlowState, at: Point)
    requires Sized(st, |func.locals|) && Clean(st)
    ensures Reports(func, st, [UseOperand(op)], at, OperandReports(func, op, st, at))
  {
    var a := UseOperand(op);
    forall w: LocalState, x: nat, s: LocalState ensures Uses(w, func, x, s, [a]) <==> Reads(a, x) && s == w {
      UsesSingle(w, func, x, s, a);
    }
    hide Uses;
  }

  lemma {:induction false} CleanOperands(func: MirFunction, ops: seq<Operand>, st: FlowState, at: Point)
    requires Sized(st, |func.locals|) && Clean(st)
    ensures var r := OperandsState(func, ops, st);
      && Clean(r) && Advances(func, st, Checks(ops), r)
      && Reports(func, st, Checks(ops), at, OperandsReports(func, ops, st, at))
    decreases |ops|
  {
    if ops == [] {
      AdvancesNothing(func, st, at);
    } else {
      var init, last := ops[..|ops| - 1], ops[|ops| - 1];
      var mid := OperandsState(func, init, st);
      assert Checks(ops) == Checks(init) + [UseOperand(last)] && init + [last] == ops;
      hide OperandsState, OperandsReports, OperandState, OperandReports, Advances, Reports, Clean, Checks;
      CleanOperands(func, init, st, at);
      CleanOperand(func, last, mid, at);
      OneMoreOperand(func, init, last, st, at);
      AdvancesConcat(func, st, Checks(init), mid, [UseOperand(last)], OperandState(func, last, mid));
      ReportsConcat(func, st, Checks(init), mid, [UseOperand(last)], at, OperandsReports(func, init, st, at),
                    OperandReports(func, last, mid, at));
    }
  }

  /** Without borrows, an assignment that takes none does what its actions ask for. */
  lemma {:induction false} CleanAssign(func: MirFunction, dest: nat, rv: Rvalue, st: FlowState, at: Point)
    requires Sized(st, |func.locals|) && Clean(st) && BorrowTargetsInside(func, Assign(dest, rv)) && BorrowFree(Assign(dest, rv))
    ensures var kind := Assign(dest, rv); var r := StatementState(func, kind, st);
      && Clean(r) && Advances(func, st, StatementActions(func, kind), r)
      && Reports(func, st, StatementActions(func, kind), at, StatementReports(func, kind, st, at))
  {
    var mid, reports := OperandsState(func, Operands(rv), st), OperandsReports(func, Operands(rv), st, at);
    CleanOperands(func, Operands(rv), st, at);
    AssignParts(func, dest, rv, st, at);
    assert EvalState(func, rv, st) == mid && EvalReports(func, rv, st, at) == reports;
    assert !Borrowed(mid, dest) && TrySet(mid, dest, Initialized).Some?;
    var r := SetState(mid, dest, Initialized);
    SetAdvances(func, mid, SetTo(dest, Initialized), dest, Initialized, r, at);
    hide OperandsState, OperandsReports, EvalState, EvalReports, StatementState, StatementReports, SetState;
    hide Advances, Reports, Clean, Checks, Operands, Borrowed;
    AdvancesConcat(func, st, Checks(Operands(rv)), mid, [SetTo(dest, Initialized)], r);
    ReportsConcat(func, st, Checks(Operands(rv)), mid, [SetTo(dest, Initialized)], at, reports, []);
  }

  lemma SetAttrParts(func: MirFunction, obj: Operand, field: string, val: Operand, st: FlowState, at: Point)
    requires Sized(st, |func.locals|) && BorrowTargetsInside(func, SetAttr(obj, field, val))
    ensures var kind := SetAttr(obj, field, val); var mid := OperandsState(func, [obj, val], st);
      && StatementState(func, kind, st) == (if IsInit(func) && IsSelf(obj) then mid.(fields := mid.fields + {field}) else mid)
      && StatementReports(func, kind, st, at) == MutationReports(obj, st, at) + OperandsReports(func, [obj, val], st, at)
  {
  }

  lemma {:induction false} CleanSetAttr(func: MirFunction, obj: Operand, field: string, val: Operand, st: FlowState, at: Point)
    requires Sized(st, |func.locals|) && Clean(st) && BorrowTargetsInside(func, SetAttr(obj, field, val))
    ensures var kind := SetAttr(obj, field, val); var r := StatementState(func, kind, st);
      && Clean(r) && Advances(func, st, StatementActions(func, kind), r)
      && Reports(func, st, StatementActions(func, kind), at, StatementReports(func, kind, st, at))
  {
    var ops := [obj, val];
    var mid, reports := OperandsState(func, ops, st), OperandsReports(func, ops, st, at);
    CleanOperands(func, ops, st, at);
    SetAttrParts(func, obj, field, val, st, at);
    assert MutationReports(obj, st, at) + reports == reports;
    if IsInit(func) && IsSelf(obj) {
      var r := mid.(fields := mid.fields + {field});
      FieldAdvances(func, mid, field, r, at);
      assert Clean(r);
      hide OperandsState, OperandsReports, StatementState, StatementReports, Advances, Reports, Clean, Checks, MutationReports;
      AdvancesConcat(func, st, Checks(ops), mid, [AssignField(field)], r);
      ReportsConcat(func, st, Checks(ops), mid, [AssignField(field)], at, reports, []);
      assert reports + [] == reports;
    } else {
      assert Checks(ops) + [] == Checks(ops);
    }
  }

  /** The reports added since `before`. */
  lemma Added(before: seq<Diag>, reports: seq<Diag>)
    ensures (before + reports)[|before|..] == reports && before <= before + reports
  {
  }

  // ---------------------------------------------------------------- references

  /** Some live reference points at `x`. */
  ghost predicate StillBorrowed(provenance: map<nat, nat>, live: set<nat>, x: nat)
  {
    exists r :: r in provenance && provenance[r] == x && r in live
  }

  /** The references to `x` that are no longer live. */
  ghost function DeadRefs(provenance: map<nat, nat>, live: set<nat>, x: nat): set<nat>
  {
    set r | r in provenance && provenance[r] == x && r !in live
  }

  lemma IdleDrop(func: MirFunction, st0: FlowState, local: nat, at: Point)
    requires Get(st0, local) != Initialized
    ensures Advances(func, st0, [DropLocal(local)], st0) && Reports(func, st0, [DropLocal(local)], at, [])
  {
    forall y: nat, s: LocalState ensures RunOne(func, y, s, [DropLocal(local)]) == StepOne(func, y, s, DropLocal(local)) {
      UsesSingle(Moved, func, y, s, DropLocal(local));
    }
    SilentAction(func, st0, DropLocal(local), at);
  }

  lemma FieldAdvances(func: MirFunction, st0: FlowState, field: string, st: FlowState, at: Point)
    requires st == st0.(fields := st0.fields + {field})
    ensures Advances(func, st0, [AssignField(field)], st) && Reports(func, st0, [AssignField(field)], at, [])
  {
    forall y: nat, s: LocalState ensures RunOne(func, y, s, [AssignField(field)]) == s {
      UsesSingle(Moved, func, y, s, AssignField(field));
    }
    SilentAction(func, st0, AssignField(field), at);
  }
}

/** The borrow checker as it runs: operand checks, statement transfer, and the worklist over blocks. */
module BorrowCheck {
  import opened Mir
  import opened Options
  import opened Flow
  import opened Liveness
  import opened MovePaths
  import opened FlowStates
  import opened MoveAnalysis
  import opened BorrowRules
  import opened BorrowWalk
  import opened CheckerClaims

  class BorrowChecker {
    const func: MirFunction
    const structFields: map<string, seq<string>>
    var errors: seq<Diag>
    var provenance: map<nat, nat>

    constructor (func: MirFunction, structFields: map<string, seq<string>>)
      ensures this.func == func && this.structFields == structFields && errors == [] && provenance == map[]
    {
      this.func := func;
      this.structFields := structFields;
      errors := [];
      provenance := map[];
    }

    ghost predicate ProvenanceInside()
      reads this
    {
      ProvenanceOk(func, provenance)
    }

    method Report(d: Diag)
      modifies this`errors
      ensures errors == old(errors) + [d]
    {
      errors := errors + [d];
    }

    method CheckMutation(op: Operand, st: FlowState, at: Point)
      requires Sized(st, |func.locals|) && OperandInside(func, op)
      modifies this`errors
      ensures errors == old(errors) + MutationReports(op, st, at)
    {
      if !op.Constant? && st.borrows[op.local].shared > 0 {
        Report(MutatesBorrowed(op.local, at));
      }
    }

    method CheckOperand(op: Operand, st0: FlowState, at: Point) returns (st: FlowState)
      requires Sized(st0, |func.locals|)
      modifies this`errors
      ensures Sized(st, |func.locals|) && old(errors) <= errors
      ensures st == OperandState(func, op, st0) && errors == old(errors) + OperandReports(func, op, st0, at)
      ensures Clean(st0) ==>
                && Clean(st) && Advances(func, st0, [UseOperand(op)], st)
                && Reports(func, st0, [UseOperand(op)], at, errors[|old(errors)|..])
    {
      st := st0;
      Added(errors, OperandReports(func, op, st0, at));
      if Clean(st0) {
        CleanOperand(func, op, st0, at);
      }
      hide Advances, Reports, Clean;
      if op.Constant? {
        return;
      }
      match Get(st0, op.local)
      case Dead =>
        if op.local >= |func.locals| || func.locals[op.local].name.None? {
          return;
        }
        Report(Uninitialized(op.local, at));
      case Moved =>
        Report(UseOfMoved(op.local, at));
      case Initialized =>
        if op.Move? && func.locals[op.local].ty.IsMoveType() {
          match TrySet(st0, op.local, Moved) {
            case Some(moved) => st := moved;
            case None => Report(ConflictingMove(op.local, at));
          }
        }
    }

    method CheckOperands(ops: seq<Operand>, st0: FlowState, at: Point) returns (st: FlowState)
      requires Sized(st0, |func.locals|)
      modifies this`errors
      ensures Sized(st, |func.locals|) && old(errors) <= errors
      ensures st == OperandsState(func, ops, st0) && errors == old(errors) + OperandsReports(func, ops, st0, at)
      ensures Clean(st0) ==>
                && Clean(st) && Advances(func, st0, Checks(ops), st)
                && Reports(func, st0, Checks(ops), at, errors[|old(errors)|..])
    {
      st := st0;
      assert OperandsState(func, [], st0) == st0 && OperandsReports(func, [], st0, at) == [];
      hide OperandsState, OperandsReports, OperandState, OperandReports, Advances, Reports, KeepsBorrowed, Clean, Checks;
      for k := 0 to |ops|
        invariant Sized(st, |func.locals|)
        invariant st == OperandsState(func, ops[..k], st0) && errors == old(errors) + OperandsReports(func, ops[..k], st0, at)
      {
        OneMoreOperand(func, ops[..k], ops[k], st0, at);
        assert ops[..k] + [ops[k]] == ops[..k + 1];
        JoinReports(old(errors), OperandsReports(func, ops[..k], st0, at), OperandReports(func, ops[k], st, at));
        st := CheckOperand(ops[k], st, at);
      }
      assert ops[..|ops|] == ops;
      Added(old(errors), OperandsReports(func, ops, st0, at));
      if Clean(st0) {
        CleanOperands(func, ops, st0, at);
      }
    }

    method CheckCall(rv: Rvalue, st0: FlowState, at: Point) returns (st: FlowState)
      requires rv.Call? && Sized(st0, |func.locals|)
      requires MutatedReceiver(rv).Some? ==> OperandInside(func, MutatedReceiver(rv).value)
      modifies this`errors
      ensures Sized(st, |func.locals|) && old(errors) <= errors
      ensures st == OperandsState(func, Operands(rv), st0)
      ensures errors == old(errors) + RvalueReports(func, rv, st0, at)
      ensures Clean(st0) ==>
                && Clean(st) && Advances(func, st0, Checks(Operands(rv)), st)
                && Reports(func, st0, Checks(Operands(rv)), at, errors[|old(errors)|..])
    {
      OneThenOthers(func, rv.func, rv.args, st0, at);
      ConstantIsQuiet(func, rv, st0, at);
      var receiver := MutatedReceiver(rv);
      ghost var mutation := if receiver.Some? then MutationReports(receiver.value, st0, at) else [];
      ghost var callee := OperandReports(func, rv.func, st0, at);
      assert Operands(rv) == [rv.func] + rv.args && (Clean(st0) ==> mutation == []);
      hide OperandsState, OperandsReports, OperandState, OperandReports, MutationReports;
      hide Advances, Reports, KeepsBorrowed, MutatedReceiver, Clean, Checks;
      st := CheckOperand(rv.func, st0, at);
      ghost var args := OperandsReports(func, rv.args, st, at);
      if receiver.Some? {
        CheckMutation(receiver.value, st, at);
      } else {
        assert errors + mutation == errors;
      }
      CallReports(old(errors), callee, mutation, args);
      st := CheckOperands(rv.args, st, at);
      Added(old(errors), mutation + (callee + args));
      JoinReports(old(errors), mutation, callee + args);
      if Clean(st0) {
        CleanOperands(func, Operands(rv), st0, at);
        assert mutation + (callee + args) == callee + args;
      }
    }

    method CheckBorrow(rv: Rvalue, st0: FlowState, at: Point) returns (st: FlowState)
      requires (rv.Ref? || rv.MutRef?) && rv.target < |func.locals| && Sized(st0, |func.locals|)
      modifies this`errors
      ensures st.locals == st0.locals && st.fields == st0.fields && |st.borrows| == |st0.borrows| && KeepsBorrowed(st0, st)
      ensures st.borrows == st0.borrows[rv.target :=
                if rv.Ref? then Borrow(st0.borrows[rv.target].shared + 1, st0.borrows[rv.target].exclusive)
                else Borrow(st0.borrows[rv.target].shared, true)]
      ensures errors == old(errors)
                + (if st0.locals[rv.target] != Initialized then [BorrowsUnset(rv.target, at)] else [])
                + (if rv.MutRef? && !func.locals[rv.target].isMut then [BorrowsImmutable(rv.target, at)] else [])
                + (if st0.borrows[rv.target].exclusive || (rv.MutRef? && st0.borrows[rv.target].shared > 0)
                   then [ConflictingBorrow(rv.target, at)] else [])
      ensures st == BorrowState(rv, st0) && errors == old(errors) + BorrowReports(func, rv, st0, at)
    {
      var local := rv.target;
      if Get(st0, local) != Initialized {
        Report(BorrowsUnset(local, at));
      }
      if rv.MutRef? && !func.locals[local].isMut {
        Report(BorrowsImmutable(local, at));
      }
      var borrow := st0.borrows[local];
      if borrow.exclusive || (rv.MutRef? && borrow.shared > 0) {
        Report(ConflictingBorrow(local, at));
      }
      st := st0.(borrows := st0.borrows[local := if rv.Ref? then Borrow(borrow.shared + 1, borrow.exclusive)
                                                 else Borrow(borrow.shared, true)]);
    }

    method CheckRvalue(rv: Rvalue, st0: FlowState, at: Point) returns (st: FlowState)
      requires Sized(st0, |func.locals|) && BorrowTargetsInside(func, Assign(0, rv))
      modifies this`errors
      ensures Sized(st, |func.locals|) && old(errors) <= errors && KeepsBorrowed(st0, st)
      ensures st == EvalState(func, rv, st0) && errors == old(errors) + EvalReports(func, rv, st0, at)
      ensures !rv.Ref? && !rv.MutRef? ==>
                && st == OperandsState(func, Operands(rv), st0)
                && errors == old(errors) + RvalueReports(func, rv, st0, at)
      ensures Clean(st0) && !rv.Ref? && !rv.MutRef? ==>
                && Clean(st) && Advances(func, st0, Checks(Operands(rv)), st)
                && Reports(func, st0, Checks(Operands(rv)), at, errors[|old(errors)|..])
    {
      assert (rv.Ref? || rv.MutRef?) ==> rv.target < |func.locals|;
      if !rv.Call? {
        NoMutation(func, rv, st0, at);
      }
      assert MutatedReceiver(rv).Some? ==> OperandInside(func, MutatedReceiver(rv).value);
      hide OperandsState, OperandsReports, MutatedReceiver, MutationReports, Advances, Reports, Checks;
      hide BorrowTargetsInside, OperandInside, KeepsBorrowed, Clean, Operands, RvalueReports, BorrowState, BorrowReports;
      match rv
      case Call(_, _) => st := CheckCall(rv, st0, at);
      case Ref(_) => st := CheckBorrow(rv, st0, at);
      case MutRef(_) => st := CheckBorrow(rv, st0, at);
      case _ => st := CheckOperands(Operands(rv), st0, at);
    }

    method UpdateProvenance(dest: nat, rv: Rvalue)
      requires ProvenanceInside() && BorrowTargetsInside(func, Assign(dest, rv))
      modifies this`provenance
      ensures ProvenanceInside()
      ensures provenance == ProvenanceAfter(old(provenance), Assign(dest, rv))
      ensures old(provenance) == map[] && !rv.Ref? && !rv.MutRef? ==> provenance == map[]
    {
      var source: Option<nat> := None;
      match rv {
        case Ref(l) => source := Some(l);
        case MutRef(l) => source := Some(l);
        case Use(op) => source := CarriedIn(provenance, op);
        case Call(callee, args) =>
          if IsBorrowPassthrough(callee) && |args| > 0 {
            source := CarriedIn(provenance, args[0]);
          }
        case _ =>
      }
      match source
      case Some(l) => provenance := provenance[dest := l];
      case None => provenance := provenance - {dest};
    }

    method TransferAssign(dest: nat, rv: Rvalue, st0: FlowState, at: Point) returns (st: FlowState)
      requires Sized(st0, |func.locals|) && ProvenanceInside() && BorrowTargetsInside(func, Assign(dest, rv))
      modifies this`errors, this`provenance
      ensures Sized(st, |func.locals|) && ProvenanceInside() && old(errors) <= errors && KeepsBorrowed(st0, st)
      ensures st == StatementState(func, Assign(dest, rv), st0)
      ensures errors == old(errors) + StatementReports(func, Assign(dest, rv), st0, at)
      ensures provenance == ProvenanceAfter(old(provenance), Assign(dest, rv))
      ensures Clean(st0) && old(provenance) == map[] && BorrowFree(Assign(dest, rv)) ==>
                && Clean(st) && provenance == map[]
                && Advances(func, st0, StatementActions(func, Assign(dest, rv)), st)
                && Reports(func, st0, StatementActions(func, Assign(dest, rv)), at, errors[|old(errors)|..])
    {
      ghost var mid := EvalState(func, rv, st0);
      AssignParts(func, dest, rv, st0, at);
      hide StatementState, StatementReports, EvalState, EvalReports, OperandsState, RvalueReports, OperandsReports;
      hide Advances, Reports, KeepsBorrowed, Clean, BorrowTargetsInside, ProvenanceAfter, Checks;
      st := CheckRvalue(rv, st0, at);
      UpdateProvenance(dest, rv);
      match TrySet(st, dest, Initialized) {
        case Some(next) => st := next;
        case None => Report(ConflictingAssign(dest, at));
      }
      JoinReports(old(errors), EvalReports(func, rv, st0, at), if Borrowed(mid, dest) then [ConflictingAssign(dest, at)] else []);
      Added(old(errors), StatementReports(func, Assign(dest, rv), st0, at));
      if Clean(st0) && BorrowFree(Assign(dest, rv)) {
        CleanAssign(func, dest, rv, st0, at);
      }
    }

    /** The operands of a store, after its receiver has been checked for being borrowed. */
    method CheckStore(obj: Operand, ops: seq<Operand>, st0: FlowState, at: Point) returns (st: FlowState)
      requires Sized(st0, |func.locals|) && OperandInside(func, obj)
      modifies this`errors
      ensures Sized(st, |func.locals|) && old(errors) <= errors
      ensures st == OperandsState(func, ops, st0)
      ensures errors == old(errors) + (MutationReports(obj, st0, at) + OperandsReports(func, ops, st0, at))
      ensures Clean(st0) ==>
                && Clean(st) && Advances(func, st0, Checks(ops), st)
                && Reports(func, st0, Checks(ops), at, errors[|old(errors)|..])
    {
      assert Clean(st0) ==> MutationReports(obj, st0, at) == [];
      hide OperandsState, OperandsReports, MutationReports, Advances, Reports, Clean, Checks;
      CheckMutation(obj, st0, at);
      JoinReports(old(errors), MutationReports(obj, st0, at), OperandsReports(func, ops, st0, at));
      assert Clean(st0) ==> errors == old(errors);
      st := CheckOperands(ops, st0, at);
    }

    method TransferSetAttr(obj: Operand, field: string, val: Operand, st0: FlowState, at: Point) returns (st: FlowState)
      requires Sized(st0, |func.locals|) && OperandInside(func, obj)
      modifies this`errors
      ensures Sized(st, |func.locals|) && old(errors) <= errors && KeepsBorrowed(st0, st)
      ensures st == StatementState(func, SetAttr(obj, field, val), st0)
      ensures errors == old(errors) + StatementReports(func, SetAttr(obj, field, val), st0, at)
      ensures Clean(st0) ==>
                && Clean(st) && Advances(func, st0, StatementActions(func, SetAttr(obj, field, val)), st)
                && Reports(func, st0, StatementActions(func, SetAttr(obj, field, val)), at, errors[|old(errors)|..])
    {
      ghost var kind := SetAttr(obj, field, val);
      SetAttrParts(func, obj, field, val, st0, at);
      Added(errors, StatementReports(func, kind, st0, at));
      if Clean(st0) {
        CleanSetAttr(func, obj, field, val, st0, at);
      }
      hide OperandsState, OperandsReports, MutationReports, StatementState, StatementReports;
      hide Advances, Reports, Clean, KeepsBorrowed, Checks;
      st := CheckStore(obj, [obj, val], st0, at);
      if IsInit(func) && IsSelf(obj) {
        st := st.(fields := st.fields + {field});
      }
    }

    /** One statement, in any state. */
    method TransferStatement(kind: StatementKind, st0: FlowState, at: Point) returns (st: FlowState)
      requires Sized(st0, |func.locals|) && ProvenanceInside() && BorrowTargetsInside(func, kind)
      modifies this`errors, this`provenance
      ensures Sized(st, |func.locals|) && ProvenanceInside() && old(errors) <= errors && KeepsBorrowed(st0, st)
      ensures st == StatementState(func, kind, st0) && errors == old(errors) + StatementReports(func, kind, st0, at)
      ensures provenance == ProvenanceAfter(old(provenance), kind)
      ensures Clean(st0) && old(provenance) == map[] && BorrowFree(kind) ==>
                && Clean(st) && provenance == map[]
                && Advances(func, st0, StatementActions(func, kind), st)
                && Reports(func, st0, StatementActions(func, kind), at, errors[|old(errors)|..])
    {
      assert !kind.Assign? ==> ProvenanceAfter(provenance, kind) == provenance;
      hide OperandsState, OperandsReports, MutationReports, EvalState, EvalReports, SetState, ProvenanceAfter;
      hide Advances, Reports, Clean, KeepsBorrowed, Checks, Borrowed, Sized;
      match kind
      case Assign(dest, rv) =>
        hide StatementState, StatementReports;
        st := TransferAssign(dest, rv, st0, at);
      case SetAttr(obj, field, val) =>
        hide StatementState, StatementReports;
        st := TransferSetAttr(obj, field, val, st0, at);
      case SetIndex(obj, idx, val, _) =>
        st := CheckStore(obj, [obj, idx, val], st0, at);
      case StorageLive(local) =>
        st := SetQuietly(st0, local, Initialized, at);
      case StorageDead(local) =>
        st := SetQuietly(st0, local, Dead, at);
      case Drop(local) =>
        hide StatementState, StatementReports;
        st := TransferDrop(local, st0, at);
      case VectorStore(obj, idx, val) =>
        st := CheckStore(obj, [obj, idx, val], st0, at);
      case PtrStore(ptr, val) =>
        st := CheckOperands([ptr, val], st0, at);
      case GenCheck(_, _) =>
        st := st0;
        AdvancesNothing(func, st0, at);
    }

    /** Storage markers set a local and ignore a failure to do so. */
    method SetQuietly(st0: FlowState, local: nat, to: LocalState, at: Point) returns (st: FlowState)
      requires Sized(st0, |func.locals|)
      ensures st == SetState(st0, local, to)
      ensures Sized(st, |func.locals|) && KeepsBorrowed(st0, st)
      ensures Clean(st0) ==>
                Clean(st) && Advances(func, st0, [SetTo(local, to)], st) && Reports(func, st0, [SetTo(local, to)], at, [])
    {
      match TrySet(st0, local, to) {
        case Some(changed) => st := changed;
        case None => st := st0;
      }
      if Clean(st0) {
        SetAdvances(func, st0, SetTo(local, to), local, to, st, at);
      }
    }

    method TransferDrop(local: nat, st0: FlowState, at: Point) returns (st: FlowState)
      requires Sized(st0, |func.locals|)
      modifies this`errors
      ensures Sized(st, |func.locals|) && old(errors) <= errors && KeepsBorrowed(st0, st)
      ensures st == StatementState(func, Drop(local), st0)
      ensures errors == old(errors) + StatementReports(func, Drop(local), st0, at)
      ensures Clean(st0) ==>
                && Clean(st) && errors == old(errors)
                && Advances(func, st0, [DropLocal(local)], st) && Reports(func, st0, [DropLocal(local)], at, [])
    {
      st := st0;
      if Get(st0, local) == Initialized {
        match TrySet(st0, local, Moved) {
          case Some(dropped) => st := dropped;
          case None => Report(DropsBorrowed(local, at));
        }
        if Clean(st0) {
          SetAdvances(func, st0, DropLocal(local), local, Moved, st, at);
        }
      } else {
        IdleDrop(func, st0, local, at);
      }
    }

    // -------------------------------------------------------------- terminators

    /** The fields an initializer has to assign: those the table gives for its struct. */
    function RequiredFields(): (fields: seq<string>)
      ensures forall s :: IsInitOf(func.name, s) && s in structFields ==> fields == structFields[s]
      ensures (forall s :: IsInitOf(func.name, s) ==> s !in structFields) ==> fields == []
    {
      InitNames(func.name);
      if IsInit(func) && TrimEnd(func.name, INIT_SUFFIX) in structFields
      then structFields[TrimEnd(func.name, INIT_SUFFIX)]
      else []
    }

    method CheckReturn(st: FlowState, at: Point)
      modifies this`errors
      ensures old(errors) <= errors
      ensures forall d :: d in errors[|old(errors)|..] <==>
                d.FieldUnset? && d.at == at && d.field in RequiredFields() && d.field !in st.fields
      ensures errors == old(errors) + ReturnReports(RequiredFields(), st, at)
      ensures forall s :: IsInitOf(func.name, s) && s in structFields ==>
                forall f :: FieldUnset(f, at) in errors[|old(errors)|..] <==> f in structFields[s] && f !in st.fields
    {
      var fields := RequiredFields();
      for k := 0 to |fields|
        invariant errors == old(errors) + ReturnReports(fields[..k], st, at)
      {
        assert fields[..k + 1][..k] == fields[..k];
        if fields[k] !in st.fields {
          Report(FieldUnset(fields[k], at));
        }
      }
      assert fields[..|fields|] == fields;
      hide IsInitOf;
      ReturnReportsAre(fields, st, at);
      Added(old(errors), ReturnReports(fields, st, at));
    }

    method CheckTerminator(term: Option<Terminator>, st0: FlowState, at: Point) returns (st: FlowState)
      requires Sized(st0, |func.locals|)
      modifies this`errors
      ensures Sized(st, |func.locals|) && old(errors) <= errors
      ensures Clean(st0) ==> Clean(st) && Advances(func, st0, TerminatorActions(term), st)
      ensures Clean(st0) && !(term.Some? && term.value.kind.Return?) ==>
                Reports(func, st0, TerminatorActions(term), at, errors[|old(errors)|..])
      ensures term.Some? && term.value.kind.Return? ==>
                forall d :: d in errors[|old(errors)|..] <==>
                  d.FieldUnset? && d.at == at && d.field in RequiredFields() && d.field !in st0.fields
      ensures st == if term.Some? && term.value.kind.SwitchInt? then OperandState(func, term.value.kind.discr, st0) else st0
      ensures errors == old(errors) + TerminatorReports(func, RequiredFields(), term, st0, at)
    {
      st := st0;
      AdvancesNothing(func, st0, at);
      if term.Some? {
        match term.value.kind {
          case SwitchInt(discr, _, _) => st := CheckOperand(discr, st0, at);
          case Return => CheckReturn(st0, at);
          case Goto(_) =>
          case Unreachable =>
        }
      }
    }

    /** Lowers the borrow counts whose reference is dead and whose referent no live reference names. */
    method ReleaseDeadBorrows(st0: FlowState, live: set<nat>) returns (st: FlowState)
      requires Sized(st0, |func.locals|) && ProvenanceInside()
      ensures Sized(st, |func.locals|) && st.locals == st0.locals && st.fields == st0.fields
      ensures provenance == map[] ==> st == st0
      ensures forall x: nat :: x < |st.borrows| ==>
                st.borrows[x] == if StillBorrowed(provenance, live, x) then st0.borrows[x]
                                 else Lowered(st0.borrows[x], |DeadRefs(provenance, live, x)|)
      ensures st == Release(provenance, live, st0)
    {
      st := st0;
      var stillBorrowed := set r | r in provenance && r in live :: provenance[r];
      var todo := provenance.Keys;
      NoneReleased(provenance, live, stillBorrowed, st0.borrows);
      while todo != {}
        invariant todo <= provenance.Keys
        invariant st.locals == st0.locals && st.fields == st0.fields
        invariant Released(provenance, live, stillBorrowed, todo, st0.borrows, st.borrows)
        invariant provenance == map[] ==> st == st0
        decreases todo
      {
        var r :| r in todo;
        var l := provenance[r];
        ghost var before := st.borrows;
        if r !in live && l !in stillBorrowed {
          var borrow := st.borrows[l];
          st := st.(borrows := st.borrows[l := if borrow.shared > 0 then Borrow(borrow.shared - 1, borrow.exclusive)
                                               else Borrow(0, false)]);
        }
        OneReleased(provenance, live, stillBorrowed, todo, r, st0.borrows, before, st.borrows);
        todo := todo - {r};
      }
      AllReleased(provenance, live, stillBorrowed, st0.borrows, st.borrows);
      ReleaseIs(provenance, live, st0, st);
    }

    // -------------------------------------------------------------- the worklist

    method InitialState() returns (st: FlowState)
      ensures Sized(st, |func.locals|) && Clean(st) && st.fields == {}
      ensures forall x: nat :: x < |func.locals| ==> st.locals[x] == StartState(func, x)
    {
      var n := |func.locals|;
      st := FlowState(seq(n, _ => Dead), seq(n, _ => NO_BORROW), {});
      st := TrySet(st, 0, Initialized).value;
      for i := 1 to func.argCount + 1
        invariant Sized(st, n) && Clean(st) && st.fields == {}
        invariant forall x: nat :: x < n ==> st.locals[x] == if x < i then Initialized else Dead
      {
        if i < n {
          st := TrySet(st, i, Initialized).value;
        }
      }
    }

    /** Every statement is borrow-free and mutates only existing locals. */
    ghost predicate Checkable(live: LiveSets)
    {
      WellFormed(func, live) && AllBorrowFree(func)
    }

    /** One statement and the release of what is dead after it. */
    method VisitOne(kind: StatementKind, st0: FlowState, at: Point, live: set<nat>, ghost w: Walk) returns (st: FlowState)
      requires WalkOk(func, w) && st0 == w.st && provenance == w.provenance && BorrowTargetsInside(func, kind)
      modifies this`errors, this`provenance
      ensures st == WalkOne(func, kind, w, at, live).st && provenance == WalkOne(func, kind, w, at, live).provenance
      ensures errors == old(errors) + StatementReports(func, kind, w.st, at)
    {
      hide Release, StatementState, StatementReports, ProvenanceAfter, BorrowTargetsInside, ProvenanceOk;
      hide Advances, Reports, Clean, BorrowFree, StillBorrowed, Lowered, DeadRefs, KeepsBorrowed;
      st := TransferStatement(kind, st0, at);
      st := ReleaseDeadBorrows(st, live);
    }

    method VisitStatements(live: LiveSets, b: nat, st0: FlowState) returns (st: FlowState)
      requires WellFormed(func, live) && b < |func.blocks| && Sized(st0, |func.locals|) && ProvenanceInside()
      modifies this`errors, this`provenance
      ensures var w := WalkTo(func, live, b, LastIndex(func, b), Walk(st0, old(provenance), []));
        st == w.st && provenance == w.provenance && errors == old(errors) + w.reports
    {
      var statements := func.blocks[b].statements;
      ghost var w0 := Walk(st0, provenance, []);
      st := st0;
      assert WalkTo(func, live, b, 0, w0) == w0 && WalkOk(func, w0);
      hide WalkTo, WalkOne, StatementReports, WellFormed, BorrowTargetsInside, ProvenanceOk;
      for k := 0 to |statements|
        invariant var w := WalkTo(func, live, b, k, w0);
          st == w.st && provenance == w.provenance && errors == old(errors) + w.reports
      {
        ghost var w, kind := WalkTo(func, live, b, k, w0), statements[k].kind;
        NextStatement(func, live, b, k, k + 1, w0);
        JoinReports(old(errors), w.reports, StatementReports(func, kind, w.st, Point(b, k)));
        st := VisitOne(statements[k].kind, st, Point(b, k), live[b][k + 1], w);
      }
    }

    /** One visit of a block, from any state. */
    method VisitBlock(live: LiveSets, b: nat, st0: FlowState) returns (st: FlowState)
      requires WellFormed(func, live) && b < |func.blocks| && Sized(st0, |func.locals|) && ProvenanceInside()
      modifies this`errors, this`provenance
      ensures ProvenanceInside() && Sized(st, |func.locals|) && old(errors) <= errors
      ensures var w := WalkBlock(func, live, RequiredFields(), b, Walk(st0, old(provenance), []));
        st == w.st && provenance == w.provenance && errors == old(errors) + w.reports
      ensures Checkable(live) && Clean(st0) && old(provenance) == map[] ==>
                && Clean(st) && provenance == map[] && Advances(func, st0, BlockActions(func, b), st)
                && ReportedUpTo(func, RequiredFields(), b, st0, LastIndex(func, b) + 1, errors[|old(errors)|..])
    {
      ghost var w := WalkBlock(func, live, RequiredFields(), b, Walk(st0, provenance, []));
      Added(errors, w.reports);
      if Checkable(live) && Clean(st0) && provenance == map[] {
        CleanWalkBlock(func, live, RequiredFields(), b, st0);
      }
      var bb, n := func.blocks[b], |func.blocks[b].statements|;
      ghost var mid := WalkTo(func, live, b, n, Walk(st0, provenance, []));
      assert w == WalkTerminator(func, RequiredFields(), bb.terminator, mid, Point(b, n), live[b][n]);
      assert |live[b]| == n + 1;
      hide WalkBlock, WalkTo, Release, TerminatorReports, WellFormed, Checkable, Advances, ReportedUpTo, Clean, OperandState, RequiredFields;
      hide TerminatorActions, Reports, BlockActions, StillBorrowed, DeadRefs, Lowered, ProvenanceOk;
      JoinReports(errors, mid.reports, TerminatorReports(func, RequiredFields(), bb.terminator, mid.st, Point(b, n)));
      st := VisitStatements(live, b, st0);
      st := CheckTerminator(bb.terminator, st, Point(b, n));
      st := ReleaseDeadBorrows(st, live[b][n]);
    }

    /** Visits the first queued block and propagates the state that leaves it. */
    method VisitNext(live: LiveSets, entries0: Entries, work0: Work) returns (entries: Entries, work: Work)
      requires Checkable(live) && provenance == map[] && work0.queue != []
      requires Sound(func, RequiredFields(), errors, entries0) && Queued(func, RequiredFields(), errors, entries0, work0, {})
      modifies this`errors, this`provenance
      ensures provenance == map[]
      ensures Sound(func, RequiredFields(), errors, entries) && Queued(func, RequiredFields(), errors, entries, work, {})
      ensures (entries == entries0 && |work.queue| < |work0.queue|) || Facts(func, entries) < Facts(func, entries0)
    {
      var b := work0.queue[0];
      assert b in work0.queue;
      work := Work(work0.queue[1..], work0.queued[b := false]);
      var st0 := entries0[b].value;
      assert EntryOk(func, b, entries0[b].value);
      ghost var before := errors;
      var st := VisitBlock(live, b, st0);
      NewReportsReal(func, RequiredFields(), b, st0, before, errors);
      PopQueued(func, RequiredFields(), before, errors, entries0, work0, work);
      StaySound(func, RequiredFields(), before, errors, entries0);
      entries, work := PropagateAll(func, RequiredFields(), errors, b, st0, st, entries0, work);
    }

    /** Checks the function: use of moved values and unset fields are reported exactly when some path has them; a use
        of an unset local is reported only when some path has it, and always when every path has it. */
    method Check()
      requires JumpsInside(func) && errors == [] && provenance == map[]
      requires forall b, i :: 0 <= b < |func.blocks| && 0 <= i < |func.blocks[b].statements| ==>
           BorrowFree(func.blocks[b].statements[i].kind) && BorrowTargetsInside(func, func.blocks[b].statements[i].kind)
      modifies this`errors, this`provenance
      ensures forall d :: Tracked(d) ==> (d in errors <==> Real(func, RequiredFields(), d))
      ensures forall d :: d in errors && Checked(d) ==> Real(func, RequiredFields(), d)
      ensures forall x: nat, q {:trigger AlwaysDeadUse(func, x, q)} ::
                IsPoint(func, q) && IsNamed(func, x) && AlwaysDeadUse(func, x, q) ==> Uninitialized(x, q) in errors
      ensures forall s, f, q :: IsInitOf(func.name, s) && s in structFields ==>
                (FieldUnset(f, q) in errors <==> f in structFields[s] && MayMiss(func, f, q))
      ensures (forall s :: IsInitOf(func.name, s) ==> s !in structFields) ==> forall d :: d in errors ==> !d.FieldUnset?
    {
      hide Real, MayMiss, IsInitOf, Sound, Queued, Facts, AlwaysDeadUse, RequiredFields;
      if |func.blocks| == 0 {
        NothingToReport();
        return;
      }
      var live := Compute(func);
      var start := InitialState();
      var entries: Entries := seq(|func.blocks|, _ => None)[0 := Some(start)];
      var work := Work([0], seq(|func.blocks|, _ => false)[0 := true]);
      StartIsSound(func, RequiredFields(), start, entries, work);
      while work.queue != []
        invariant provenance == map[] && Sound(func, RequiredFields(), errors, entries)
        invariant Queued(func, RequiredFields(), errors, entries, work, {})
        decreases Facts(func, entries), |work.queue|
      {
        entries, work := VisitNext(live, entries, work);
      }
      AtRestIsExact(func, RequiredFields(), errors, entries, work);
      FieldReports();
    }

    lemma NothingToReport()
      requires |func.blocks| == 0
      ensures forall d :: Tracked(d) ==> !Real(func, RequiredFields(), d)
      ensures forall f, q :: !MayMiss(func, f, q)
      ensures forall x: nat, q :: !AlwaysDeadUse(func, x, q)
    {
    }

    /** Once the reports are exactly the real ones, those of unset fields are exactly the fields in the table of the
        struct that some path to a return misses. */
    lemma FieldReports()
      requires forall d :: Tracked(d) ==> (d in errors <==> Real(func, RequiredFields(), d))
      ensures forall s, f, q :: IsInitOf(func.name, s) && s in structFields ==>
                (FieldUnset(f, q) in errors <==> f in structFields[s] && MayMiss(func, f, q))
      ensures (forall s :: IsInitOf(func.name, s) ==> s !in structFields) ==> forall d :: d in errors ==> !d.FieldUnset?
    {
      InitNames(func.name);
      forall s, f, q | IsInitOf(func.name, s) && s in structFields
        ensures FieldUnset(f, q) in errors <==> f in structFields[s] && MayMiss(func, f, q)
      {
        assert RequiredFields() == structFields[s];
        assert Tracked(FieldUnset(f, q));
        MissedIsUnassigned(func, f, q);
      }
      if forall s :: IsInitOf(func.name, s) ==> s !in structFields {
        assert RequiredFields() == [];
        forall d | d in errors ensures !d.FieldUnset? {
          assert d.FieldUnset? ==> Tracked(d);
        }
      }
    }
  }

  lemma StartIsSound(func: MirFunction, required: seq<string>, start: FlowState, entries: Entries, work: Work)
    requires |func.blocks| > 0 && Sized(start, |func.locals|) && Clean(start) && start.fields == {}
    requires forall x: nat :: x < |func.locals| ==> start.locals[x] == StartState(func, x)
    requires |entries| == |func.blocks| && forall b: nat :: b < |entries| ==> entries[b] == if b == 0 then Some(start) else None
    requires work.queue == [0] && |work.queued| == |entries|
    requires forall b: nat :: b < |entries| ==> (work.queued[b] <==> b == 0)
    ensures Sound(func, required, [], entries) && Queued(func, required, [], entries, work, {})
  {
    StartIsJustified(func, start);
  }

  lemma StaySound(func: MirFunction, required: seq<string>, before: seq<Diag>, after: seq<Diag>, entries: Entries)
    requires Sound(func, required, before, entries)
    requires forall d :: d in after && Checked(d) ==> d in before || Real(func, required, d)
    ensures Sound(func, required, after, entries)
  {
  }

  /** With nothing queued, the tracked diagnostics are exactly the real ones, and dead uses are reported between
      those on some path and those on every path. */
  lemma AtRestIsExact(func: MirFunction, required: seq<string>, errors: seq<Diag>, entries: Entries, work: Work)
    requires JumpsInside(func) && Sound(func, required, errors, entries)
    requires Queued(func, required, errors, entries, work, {}) && work.queue == []
    ensures forall d :: Tracked(d) ==> (d in errors <==> Real(func, required, d))
    ensures forall d :: d in errors && Checked(d) ==> Real(func, required, d)
    ensures forall x: nat, q {:trigger AlwaysDeadUse(func, x, q)} ::
              IsPoint(func, q) && IsNamed(func, x) && AlwaysDeadUse(func, x, q) ==> Uninitialized(x, q) in errors
  {
    assert AtRest(func, required, entries, errors) by {
      forall b: nat | b < |entries| && entries[b].Some? ensures |entries[b].value.locals| == |func.locals| {
        assert EntryOk(func, b, entries[b].value);
      }
    }
    forall d | Tracked(d) ensures d in errors <==> Real(func, required, d) {
      if Real(func, required, d) {
        RealIsReported(func, required, entries, errors, d);
      }
    }
    forall x: nat, q {:trigger AlwaysDeadUse(func, x, q)} | IsPoint(func, q) && IsNamed(func, x) && AlwaysDeadUse(func, x, q)
      ensures Uninitialized(x, q) in errors
    {
      forall b: nat | b < |entries| && entries[b].Some? ensures Justified(func, b, entries[b].value) {
        assert EntryOk(func, b, entries[b].value);
      }
      AlwaysDeadIsReported(func, required, entries, errors, x, q);
    }
  }

  ghost predicate EntryOk(func: MirFunction, b: nat, st: FlowState)
  {
    Sized(st, |func.locals|) && Clean(st) && Justified(func, b, st) && st.fields <= FieldNames(func)
  }

  /** The borrows once all references but those in `todo` have been looked at. */
  ghost predicate Released(provenance: map<nat, nat>, live: set<nat>, still: set<nat>, todo: set<nat>,
                           before: seq<Borrow>, after: seq<Borrow>)
  {
    && |after| == |before|
    && forall x: nat :: x < |after| ==>
         after[x] == if x in still then before[x] else Lowered(before[x], |DeadRefs(provenance, live, x) - todo|)
  }

  lemma NoneReleased(provenance: map<nat, nat>, live: set<nat>, still: set<nat>, borrows: seq<Borrow>)
    ensures Released(provenance, live, still, provenance.Keys, borrows, borrows)
  {
    forall x: nat ensures DeadRefs(provenance, live, x) - provenance.Keys == {} {
    }
  }

  lemma OneReleased(provenance: map<nat, nat>, live: set<nat>, still: set<nat>, todo: set<nat>, r: nat,
                    before: seq<Borrow>, middle: seq<Borrow>, after: seq<Borrow>)
    requires r in todo && todo <= provenance.Keys && Released(provenance, live, still, todo, before, middle)
    requires provenance[r] < |before|
    requires var l := provenance[r];
      after == if r !in live && l !in still then middle[l := Lower(middle[l])] else middle
    ensures Released(provenance, live, still, todo - {r}, before, after)
  {
    forall x: nat | x < |after| && x !in still
      ensures after[x] == Lowered(before[x], |DeadRefs(provenance, live, x) - (todo - {r})|)
    {
      var seen := DeadRefs(provenance, live, x) - todo;
      if x == provenance[r] && r !in live {
        assert DeadRefs(provenance, live, x) - (todo - {r}) == seen + {r};
        assert |seen + {r}| == |seen| + 1;
      } else {
        assert DeadRefs(provenance, live, x) - (todo - {r}) == seen;
      }
    }
  }

  lemma AllReleased(provenance: map<nat, nat>, live: set<nat>, still: set<nat>, before: seq<Borrow>, after: seq<Borrow>)
    requires still == set r | r in provenance && r in live :: provenance[r]
    requires Released(provenance, live, still, {}, before, after)
    ensures forall x: nat :: x < |after| ==>
              after[x] == if StillBorrowed(provenance, live, x) then before[x]
                          else Lowered(before[x], |DeadRefs(provenance, live, x)|)
  {
    forall x: nat ensures DeadRefs(provenance, live, x) - {} == DeadRefs(provenance, live, x) {
    }
  }

  /** The queue of blocks to visit, and the flags telling which are on it. */
  datatype Work = Work(queue: seq<nat>, queued: seq<bool>)

  /** The entry states are well-sized, unborrowed and justified, and everything reported is real. */
  ghost predicate Sound(func: MirFunction, required: seq<string>, errors: seq<Diag>, entries: Entries)
  {
    && |entries| == |func.blocks|
    && (forall b: nat {:trigger EntryOk(func, b, entries[b].value)} :: b < |entries| && entries[b].Some? ==> EntryOk(func, b, entries[b].value))
    && (forall d {:trigger Real(func, required, d)} :: d in errors && Checked(d) ==> Real(func, required, d))
  }

  ghost predicate QueueOk(entries: Entries, work: Work)
  {
    && |work.queued| == |entries|
    && (forall b: nat :: b < |work.queued| ==> (work.queued[b] <==> b in work.queue))
    && (forall i, j :: 0 <= i < j < |work.queue| ==> work.queue[i] != work.queue[j])
    && (forall b :: b in work.queue ==> b < |entries| && entries[b].Some?)
  }

  /** All blocks that are neither queued nor busy are settled; queued blocks have been reached. */
  ghost predicate Queued(func: MirFunction, required: seq<string>, errors: seq<Diag>, entries: Entries, work: Work, busy: set<nat>)
  {
    && |entries| == |func.blocks| && QueueOk(entries, work) && StartCovered(func, entries)
    && (forall b: nat {:trigger Settled(func, required, entries, errors, b)} ::
          b < |entries| && b !in work.queue && b !in busy ==> Settled(func, required, entries, errors, b))
  }

  lemma PopQueued(func: MirFunction, required: seq<string>, before: seq<Diag>, after: seq<Diag>, entries: Entries, work: Work, work': Work)
    requires Queued(func, required, before, entries, work, {}) && work.queue != [] && before <= after
    requires work.queue[0] < |work.queued| && work' == Work(work.queue[1..], work.queued[work.queue[0] := false])
    ensures Queued(func, required, after, entries, work', {work.queue[0]})
  {
    var b0 := work.queue[0];
    assert forall b: nat :: b in work.queue <==> b == b0 || b in work'.queue;
    assert b0 !in work'.queue;
    forall b: nat | b < |entries| && b !in work'.queue && b != b0 ensures Settled(func, required, entries, after, b) {
      assert Settled(func, required, entries, before, b);
    }
  }

  /** Queues `t` unless it is queued already. */
  function Push(work: Work, t: nat): Work
    requires t < |work.queued|
  {
    if work.queued[t] then work else Work(work.queue + [t], work.queued[t := true])
  }

  lemma PushQueued(func: MirFunction, required: seq<string>, errors: seq<Diag>, entries0: Entries, entries: Entries,
                   work: Work, busy: set<nat>, t: nat)
    requires Queued(func, required, errors, entries0, work, busy) && t < |entries0|
    requires Raised(entries0, entries) && entries[t].Some?
    requires forall c: nat :: c < |entries| && c != t ==> entries[c] == entries0[c]
    ensures Queued(func, required, errors, entries, Push(work, t), busy)
  {
    StaySettled(func, required, entries0, entries, errors, t);
    forall b | b in work.queue ensures entries[b].Some? {
      assert RaisedAt(entries0[b], entries[b]);
    }
    assert RaisedAt(entries0[0], entries[0]);
    forall b: nat | b < |entries| && b !in Push(work, t).queue && b !in busy ensures Settled(func, required, entries, errors, b) {
      assert b != t && Settled(func, required, entries0, errors, b);
    }
  }

  /** Merges the state leaving block `b` into the entry state of `t` and queues `t` when that changes it. */
  method Propagate(func: MirFunction, ghost required: seq<string>, ghost errors: seq<Diag>,
                   ghost b: nat, ghost st0: FlowState, st: FlowState, t: nat, entries0: Entries, work0: Work)
    returns (entries: Entries, work: Work)
    requires JumpsInside(func) && Sound(func, required, errors, entries0) && Queued(func, required, errors, entries0, work0, {b})
    requires b < |func.blocks| && t in Targets(func.blocks[b]) && t < |func.blocks| && EntryOk(func, b, st0)
    requires Sized(st, |func.locals|) && Clean(st) && Advances(func, st0, BlockActions(func, b), st)
    ensures Sound(func, required, errors, entries) && Queued(func, required, errors, entries, work, {b})
    ensures (entries == entries0 && work == work0) || Facts(func, entries) < Facts(func, entries0)
    ensures Raised(entries0, entries) && Covered(func, b, st0, entries[t])
    ensures b in work.queue || (entries[b] == entries0[b] && b !in work0.queue)
  {
    hide Advances, Facts, BlockActions, Justified, StartCovered, Settled;
    LeavingIsOk(func, b, st0, st, t);
    var changed := true;
    var merged := st;
    if entries0[t].Some? {
      assert EntryOk(func, t, entries0[t].value);
      merged, changed := Join(entries0[t].value, st);
      JoinIsOk(func, t, entries0[t].value, st, merged);
    }
    if changed {
      entries, work := entries0[t := Some(merged)], Push(work0, t);
      FactsDrop(func, entries0, t, merged);
      PushQueued(func, required, errors, entries0, entries, work0, {b}, t);
    } else {
      entries, work := entries0, work0;
    }
    assert EntryOk(func, t, entries[t].value);
  }

  ghost predicate AllCovered(func: MirFunction, b: nat, s: FlowState, entries: Entries, targets: seq<nat>)
    requires b < |func.blocks|
  {
    forall t :: t in targets ==> t < |entries| && Covered(func, b, s, entries[t])
  }

  lemma CoveredNext(func: MirFunction, b: nat, s: FlowState, entries0: Entries, entries: Entries, done: seq<nat>, next: nat)
    requires b < |func.blocks| && Raised(entries0, entries) && next < |entries|
    requires AllCovered(func, b, s, entries0, done) && Covered(func, b, s, entries[next])
    ensures AllCovered(func, b, s, entries, done + [next])
  {
    forall t | t in done ensures Covered(func, b, s, entries[t]) {
      StayCovered(func, b, s, entries0, entries, t);
    }
  }

  /** Propagates the state leaving block `b` to all its targets; then `b` is settled or queued again. */
  method PropagateAll(func: MirFunction, ghost required: seq<string>, ghost errors: seq<Diag>,
                      b: nat, ghost st0: FlowState, st: FlowState, entries0: Entries, work0: Work)
    returns (entries: Entries, work: Work)
    requires JumpsInside(func) && Sound(func, required, errors, entries0) && Queued(func, required, errors, entries0, work0, {b})
    requires b < |func.blocks| && EntryOk(func, b, st0) && entries0[b] == Some(st0)
    requires forall d :: ShouldReport(func, required, b, st0, d) ==> d in errors
    requires Sized(st, |func.locals|) && Clean(st) && Advances(func, st0, BlockActions(func, b), st)
    ensures Sound(func, required, errors, entries) && Queued(func, required, errors, entries, work, {})
    ensures (entries == entries0 && work == work0) || Facts(func, entries) < Facts(func, entries0)
  {
    hide Queued, EntryOk, Advances, Clean, Sized, ShouldReport, Covered, Facts;
    entries, work := entries0, work0;
    var succs := Targets(func.blocks[b]);
    ghost var done: seq<nat> := [];
    for k := 0 to |succs|
      invariant Sound(func, required, errors, entries) && Queued(func, required, errors, entries, work, {b})
      invariant done == succs[..k] && AllCovered(func, b, st0, entries, done)
      invariant b in work.queue || entries[b] == Some(st0)
      invariant (entries == entries0 && work == work0) || Facts(func, entries) < Facts(func, entries0)
    {
      assert succs[k] in succs;
      ghost var before := entries;
      entries, work := Propagate(func, required, errors, b, st0, st, succs[k], entries, work);
      CoveredNext(func, b, st0, before, entries, done, succs[k]);
      done := done + [succs[k]];
    }
    assert done == succs;
    NothingBusy(func, required, errors, entries, work, b, st0);
  }

  lemma NothingBusy(func: MirFunction, required: seq<string>, errors: seq<Diag>, entries: Entries, work: Work, b: nat, st0: FlowState)
    requires b < |func.blocks| && Queued(func, required, errors, entries, work, {b})
    requires b in work.queue || entries[b] == Some(st0)
    requires AllCovered(func, b, st0, entries, Targets(func.blocks[b]))
    requires forall d :: ShouldReport(func, required, b, st0, d) ==> d in errors
    ensures Queued(func, required, errors, entries, work, {})
  {
    forall c: nat | c < |entries| && c !in work.queue ensures Settled(func, required, entries, errors, c) {
      assert c != b ==> Settled(func, required, entries, errors, c);
    }
  }

  /** Reached blocks stay reached and their states only rise. */
  ghost predicate Raised(entries0: Entries, entries: Entries)
  {
    |entries| == |entries0| && forall c: nat :: c < |entries| ==> RaisedAt(entries0[c], entries[c])
  }

  ghost predicate RaisedAt(e0: Option<FlowState>, e: Option<FlowState>)
  {
    e0.Some? ==>
      && e.Some? && |e.value.locals| == |e0.value.locals|
      && (forall x: nat :: x < |e.value.locals| ==> e0.value.locals[x].Rank() <= e.value.locals[x].Rank())
      && e.value.fields <= e0.value.fields
  }

  lemma StayCovered(func: MirFunction, b: nat, s: FlowState, entries0: Entries, entries: Entries, t: nat)
    requires b < |func.blocks| && Raised(entries0, entries) && t < |entries| && Covered(func, b, s, entries0[t])
    ensures Covered(func, b, s, entries[t])
  {
    assert RaisedAt(entries0[t], entries[t]);
  }

  lemma StaySettled(func: MirFunction, required: seq<string>, entries0: Entries, entries: Entries, errors: seq<Diag>, t: nat)
    requires |entries0| == |func.blocks| && Raised(entries0, entries) && t < |entries|
    requires forall c: nat :: c < |entries| && c != t ==> entries[c] == entries0[c]
    ensures forall c: nat :: c < |entries| && c != t && Settled(func, required, entries0, errors, c)
              ==> Settled(func, required, entries, errors, c)
  {
    forall c: nat | c < |entries| && c != t && Settled(func, required, entries0, errors, c) && entries0[c].Some?
      ensures Settled(func, required, entries, errors, c)
    {
      forall u | u in Targets(func.blocks[c]) && u < |entries| ensures Covered(func, c, entries[c].value, entries[u]) {
        StayCovered(func, c, entries[c].value, entries0, entries, u);
      }
    }
  }

  lemma LeavingIsOk(func: MirFunction, b: nat, st0: FlowState, st: FlowState, t: nat)
    requires JumpsInside(func) && b < |func.blocks| && t in Targets(func.blocks[b]) && EntryOk(func, b, st0)
    requires Sized(st, |func.locals|) && Clean(st) && Advances(func, st0, BlockActions(func, b), st)
    ensures EntryOk(func, t, st) && CoversOut(func, b, st0, st)
  {
    JustifiedJump(func, b, st0, st, t);
    BlockFieldsKnown(func, b);
  }

  lemma JoinIsOk(func: MirFunction, t: nat, a: FlowState, b: FlowState, r: FlowState)
    requires EntryOk(func, t, a) && EntryOk(func, t, b) && Sized(r, |func.locals|)
    requires forall x: nat :: x < |r.locals| ==> r.locals[x] == Merge(Get(a, x), Get(b, x))
    requires forall x: nat :: x < |r.borrows| ==> r.borrows[x] == MergeBorrow(BorrowOf(a, x), BorrowOf(b, x))
    requires r.fields == a.fields * b.fields
    ensures EntryOk(func, t, r) && RaisedAt(Some(a), Some(r)) && RaisedAt(Some(b), Some(r))
    ensures r != a ==> r.locals != a.locals || r.fields != a.fields
  {
    JustifiedJoin(func, t, a, b, r);
    assert r.borrows == a.borrows;
  }

  lemma StartIsJustified(func: MirFunction, st: FlowState)
    requires |func.blocks| > 0 && Sized(st, |func.locals|) && Clean(st) && st.fields == {}
    requires forall x: nat :: x < |func.locals| ==> st.locals[x] == StartState(func, x)
    ensures EntryOk(func, 0, st)
  {
    var path := [Point(0, 0)];
    assert PathTo(func, path, Point(0, 0)) && Trace(func, path) == [];
    forall x: nat | x < |func.locals| ensures SomePathGives(func, 0, x, st.locals[x]) {
      assert StateOn(func, path, x) == st.locals[x];
    }
    forall f ensures SomePathSkips(func, 0, f) {
      assert !AssignsField(Trace(func, path), f);
    }
  }

  lemma NewReportsReal(func: MirFunction, required: seq<string>, b: nat, st0: FlowState, before: seq<Diag>, after: seq<Diag>)
    requires b < |func.blocks| && Justified(func, b, st0) && before <= after
    requires ReportedUpTo(func, required, b, st0, LastIndex(func, b) + 1, after[|before|..])
    ensures forall d :: d in after && Checked(d) ==> d in before || Real(func, required, d)
    ensures forall d :: ShouldReport(func, required, b, st0, d) ==> d in after
  {
    assert after == before + after[|before|..];
    forall d | d in after[|before|..] && Checked(d) ensures Real(func, required, d) {
      ReportIsReal(func, required, b, st0, d);
    }
  }

}

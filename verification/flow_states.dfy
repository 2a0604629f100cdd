/** The checker's abstract state of all locals, and the diagnostics it reports. */
module FlowStates {
  import opened Mir
  import opened Options
  import opened Flow
  import opened MovePaths

  datatype Borrow = Borrow(shared: nat, exclusive: bool)

  const NO_BORROW := Borrow(0, false)

  datatype FlowState = FlowState(locals: seq<LocalState>, borrows: seq<Borrow>, fields: set<string>)

  /** Diagnostics with the local or field they name and the point they are anchored at. */
  datatype Diag =
    | ConflictingAssign(local: nat, at: Point)    // E0500
    | UseOfMoved(local: nat, at: Point)           // E0501
    | ConflictingMove(local: nat, at: Point)      // E0501
    | Uninitialized(local: nat, at: Point)        // E0502
    | BorrowsUnset(local: nat, at: Point)         // E0502
    | ConflictingBorrow(local: nat, at: Point)    // E0503
    | MutatesBorrowed(local: nat, at: Point)      // E0504
    | BorrowsImmutable(local: nat, at: Point)     // E0505
    | FieldUnset(field: string, at: Point)        // E0506
    | DropsBorrowed(local: nat, at: Point)        // E0507

  ghost predicate Sized(st: FlowState, n: nat)
  {
    |st.locals| == n && |st.borrows| == n
  }

  /** No local is borrowed. */
  ghost predicate Clean(st: FlowState)
  {
    forall x :: 0 <= x < |st.borrows| ==> st.borrows[x] == NO_BORROW
  }

  function Get(st: FlowState, x: nat): LocalState
  {
    if x < |st.locals| then st.locals[x] else Dead
  }

  function BorrowOf(st: FlowState, x: nat): Borrow
  {
    if x < |st.borrows| then st.borrows[x] else NO_BORROW
  }

  /** Sets the state of a local; `None` when it is borrowed. */
  function TrySet(st: FlowState, x: nat, to: LocalState): (r: Option<FlowState>)
    requires |st.locals| == |st.borrows|
    ensures r.None? <==> x < |st.locals| && (st.borrows[x].shared > 0 || st.borrows[x].exclusive)
    ensures r.Some? ==> Sized(r.value, |st.locals|) && r.value.fields == st.fields
    ensures r.Some? ==> KeepsBorrowed(st, r.value)
    ensures r.Some? ==> r.value.borrows == st.borrows && (x < |st.locals| ==> r.value.locals == st.locals[x := to])
    ensures Clean(st) ==> r.Some? && Clean(r.value) && r.value.locals == if x < |st.locals| then st.locals[x := to] else st.locals
  {
    if x < |st.locals| then
      if st.borrows[x].shared > 0 || st.borrows[x].exclusive then None
      else Some(FlowState(st.locals[x := to],
                          if to != Initialized then st.borrows[x := NO_BORROW] else st.borrows,
                          st.fields))
    else Some(st)
  }

  predicate Borrowed(st: FlowState, x: nat)
  {
    BorrowOf(st, x).shared > 0 || BorrowOf(st, x).exclusive
  }

  /** Borrowed locals keep their state, and stay borrowed. */
  ghost predicate KeepsBorrowed(before: FlowState, after: FlowState)
  {
    forall x: nat :: Borrowed(before, x) ==>
      && Get(after, x) == Get(before, x)
      && BorrowOf(after, x).shared >= BorrowOf(before, x).shared
      && (BorrowOf(before, x).exclusive ==> BorrowOf(after, x).exclusive)
  }

  lemma KeepsBoth(a: FlowState, b: FlowState, c: FlowState)
    requires KeepsBorrowed(a, b) && KeepsBorrowed(b, c)
    ensures KeepsBorrowed(a, c)
  {
    forall x: nat | Borrowed(a, x) ensures Borrowed(b, x) {
    }
  }

  /** One reference to the local fewer: a shared borrow ends if there is one, and otherwise the exclusive one. */
  function Lower(b: Borrow): Borrow
  {
    if b.shared > 0 then Borrow(b.shared - 1, b.exclusive) else NO_BORROW
  }

  /** The borrow after `n` references have gone: shared borrows end first, and any further reference ends the
      exclusive one. */
  function Lowered(b: Borrow, n: nat): (r: Borrow)
    ensures r.shared == if n <= b.shared then b.shared - n else 0
    ensures r.exclusive <==> b.exclusive && n <= b.shared
  {
    if n == 0 then b else Lower(Lowered(b, n - 1))
  }

  function Merge(a: LocalState, b: LocalState): (r: LocalState)
    ensures r == a || r == b
    ensures a.Rank() <= r.Rank() && b.Rank() <= r.Rank()
  {
    match (a, b)
    case (Moved, _) => Moved
    case (_, Moved) => Moved
    case (Initialized, _) => Initialized
    case (_, Initialized) => Initialized
    case _ => Dead
  }

  function MergeBorrow(a: Borrow, b: Borrow): Borrow
  {
    Borrow(if a.shared > b.shared then a.shared else b.shared, a.exclusive || b.exclusive)
  }

  /** Merges `other` into `st`, telling whether that changed anything. */
  method Join(st: FlowState, other: FlowState) returns (r: FlowState, changed: bool)
    requires |st.locals| == |st.borrows| && |other.locals| == |other.borrows|
    ensures |r.locals| == |r.borrows| == if |st.locals| < |other.locals| then |other.locals| else |st.locals|
    ensures forall x: nat :: x < |r.locals| ==> r.locals[x] == Merge(Get(st, x), Get(other, x))
    ensures forall x: nat :: x < |r.borrows| ==> r.borrows[x] == MergeBorrow(BorrowOf(st, x), BorrowOf(other, x))
    ensures r.fields == st.fields * other.fields
    ensures |other.locals| <= |st.locals| ==> (changed <==> r != st)
  {
    changed := false;
    var n := if |st.locals| < |other.locals| then |other.locals| else |st.locals|;
    var locals := st.locals + seq(n - |st.locals|, _ => Dead);
    var borrows := st.borrows + seq(n - |st.borrows|, _ => NO_BORROW);
    var before := (locals, borrows);
    for i := 0 to |other.locals|
      invariant |locals| == |borrows| == n
      invariant forall x: nat :: x < n ==> locals[x] == if x < i then Merge(Get(st, x), other.locals[x]) else Get(st, x)
      invariant borrows == before.1
      invariant changed <==> locals != before.0
    {
      var merged := Merge(locals[i], other.locals[i]);
      if merged != locals[i] {
        assert before.0[i] == locals[i];
        locals := locals[i := merged];
        changed := true;
      }
    }
    for i := 0 to |other.borrows|
      invariant |locals| == |borrows| == n
      invariant forall x: nat :: x < n ==> locals[x] == Merge(Get(st, x), Get(other, x))
      invariant forall x: nat :: x < n ==>
        borrows[x] == if x < i then MergeBorrow(BorrowOf(st, x), other.borrows[x]) else BorrowOf(st, x)
      invariant changed <==> locals != before.0 || borrows != before.1
    {
      var merged := MergeBorrow(borrows[i], other.borrows[i]);
      if merged != borrows[i] {
        assert before.1[i] == borrows[i];
        borrows := borrows[i := merged];
        changed := true;
      }
    }
    var fields := st.fields * other.fields;
    if fields != st.fields {
      changed := true;
    }
    r := FlowState(locals, borrows, fields);
  }

  // ---------------------------------------------------------------- running actions on whole states

  /** `st` is `st0` after the actions, local by local and field by field. */
  ghost predicate Advances(func: MirFunction, st0: FlowState, actions: seq<Action>, st: FlowState)
  {
    && |st.locals| == |st0.locals|
    && (forall x: nat :: x < |st.locals| ==> st.locals[x] == RunOne(func, x, st0.locals[x], actions))
    && (forall f :: f in st.fields <==> f in st0.fields || AssignsField(actions, f))
  }

  predicate IsNamed(func: MirFunction, x: nat)
  {
    x < |func.locals| && func.locals[x].name.Some?
  }

  /** The diagnostics that the operands among the actions, executed at `at` from `st0`, give rise to. */
  ghost predicate Reports(func: MirFunction, st0: FlowState, actions: seq<Action>, at: Point, diags: seq<Diag>)
  {
    && (forall x: nat :: UseOfMoved(x, at) in diags <==> x < |st0.locals| && Uses(Moved, func, x, st0.locals[x], actions))
    && (forall x: nat :: Uninitialized(x, at) in diags
          <==> x < |st0.locals| && IsNamed(func, x) && Uses(Dead, func, x, st0.locals[x], actions))
    && (forall d :: d in diags ==> d.at == at && !d.FieldUnset?)
  }

  lemma AdvancesNothing(func: MirFunction, st: FlowState, at: Point)
    ensures Advances(func, st, [], st) && Reports(func, st, [], at, [])
  {
  }

  lemma AdvancesConcat(func: MirFunction, st0: FlowState, a: seq<Action>, st1: FlowState, b: seq<Action>, st2: FlowState)
    requires Advances(func, st0, a, st1) && Advances(func, st1, b, st2)
    ensures Advances(func, st0, a + b, st2)
  {
    forall x: nat | x < |st0.locals| ensures st2.locals[x] == RunOne(func, x, st0.locals[x], a + b) {
      RunConcat(func, x, st0.locals[x], a, b);
    }
  }

  lemma ReportsConcat(func: MirFunction, st0: FlowState, a: seq<Action>, st1: FlowState, b: seq<Action>, at: Point,
                      d1: seq<Diag>, d2: seq<Diag>)
    requires Advances(func, st0, a, st1) && Reports(func, st0, a, at, d1) && Reports(func, st1, b, at, d2)
    ensures Reports(func, st0, a + b, at, d1 + d2)
  {
    forall w: LocalState, x: nat | x < |st0.locals|
      ensures Uses(w, func, x, st0.locals[x], a + b)
              <==> Uses(w, func, x, st0.locals[x], a) || Uses(w, func, x, st1.locals[x], b)
    {
      UsesConcat(w, func, x, st0.locals[x], a, b);
    }
  }

  lemma UsesSingle(w: LocalState, func: MirFunction, x: nat, s: LocalState, a: Action)
    ensures RunOne(func, x, s, [a]) == StepOne(func, x, s, a)
    ensures Uses(w, func, x, s, [a]) <==> Reads(a, x) && s == w
  {
    assert [a][..0] == [];
    if Reads(a, x) && s == w {
      assert UsesAt(w, func, x, s, [a], 0);
    }
  }

  /** A single action that reads nothing reports nothing. */
  lemma SilentAction(func: MirFunction, st0: FlowState, a: Action, at: Point)
    requires !a.UseOperand?
    ensures Reports(func, st0, [a], at, [])
  {
    forall w: LocalState, x: nat | x < |st0.locals| ensures !Uses(w, func, x, st0.locals[x], [a]) {
      UsesSingle(w, func, x, st0.locals[x], a);
    }
  }

  /** One execution after another, seen through the growing list of diagnostics. */
  lemma Chain(func: MirFunction, at: Point, st0: FlowState, a: seq<Action>, st1: FlowState, b: seq<Action>, st2: FlowState,
              e0: seq<Diag>, e1: seq<Diag>, e2: seq<Diag>)
    requires e0 <= e1 <= e2
    requires Advances(func, st0, a, st1) && Reports(func, st0, a, at, e1[|e0|..])
    requires Advances(func, st1, b, st2) && Reports(func, st1, b, at, e2[|e1|..])
    ensures Advances(func, st0, a + b, st2) && Reports(func, st0, a + b, at, e2[|e0|..])
  {
    AdvancesConcat(func, st0, a, st1, b, st2);
    ReportsConcat(func, st0, a, st1, b, at, e1[|e0|..], e2[|e1|..]);
    assert e2[|e0|..] == e1[|e0|..] + e2[|e1|..];
  }

  /** Setting a local, or dropping an initialized one, as one action. */
  lemma SetAdvances(func: MirFunction, st0: FlowState, a: Action, x: nat, to: LocalState, st: FlowState, at: Point)
    requires Clean(st0) && |st0.locals| == |st0.borrows| && TrySet(st0, x, to) == Some(st)
    requires a == SetTo(x, to) || (a == DropLocal(x) && to == Moved && Get(st0, x) == Initialized)
    ensures Clean(st) && Advances(func, st0, [a], st) && Reports(func, st0, [a], at, [])
  {
    forall y: nat, s: LocalState ensures RunOne(func, y, s, [a]) == StepOne(func, y, s, a) {
      UsesSingle(Moved, func, y, s, a);
    }
    SilentAction(func, st0, a, at);
  }
}

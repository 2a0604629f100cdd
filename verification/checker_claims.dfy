/** What the checker's reports claim, in terms of names, statements and the machine that runs them. */
module CheckerClaims {
  import opened Mir
  import opened Options
  import opened Flow
  import opened MovePaths
  import Machine

  // ---------------------------------------------------------------- initializers

  predicate EndsInInit(name: string)
  {
    |name| >= 10 && name[|name| - 10..] == "::__init__"
  }

  function Inits(n: nat): string
  {
    if n == 0 then "" else Inits(n - 1) + "::__init__"
  }

  /** `name` is that of an initializer of struct `s`; further copies of the ending do not count. */
  ghost predicate IsInitOf(name: string, s: string)
  {
    !EndsInInit(s) && exists n: nat :: n > 0 && name == s + Inits(n)
  }

  lemma EndingIsInit(name: string)
    ensures EndsWith(name, INIT_SUFFIX) <==> EndsInInit(name)
  {
    assert |INIT_SUFFIX| == 10;
  }

  lemma {:induction false} TrimmedInit(s: string, n: nat)
    requires !EndsInInit(s)
    ensures TrimEnd(s + Inits(n), INIT_SUFFIX) == s && (n > 0 ==> EndsInInit(s + Inits(n)))
  {
    EndingIsInit(s);
    if n == 0 {
      assert s + Inits(n) == s;
    } else {
      var m: nat := n - 1;
      var before := s + Inits(m);
      var name := s + Inits(n);
      assert name == before + "::__init__" && name[|name| - 10..] == "::__init__";
      EndingIsInit(name);
      assert name[..|name| - 10] == before;
      TrimmedInit(s, m);
    }
  }

  lemma TrimOnce(name: string)
    requires EndsInInit(name)
    ensures var before := name[..|name| - 10];
      name == before + "::__init__" && TrimEnd(name, INIT_SUFFIX) == TrimEnd(before, INIT_SUFFIX)
  {
    EndingIsInit(name);
  }

  lemma {:induction false} OneMoreInit(before: string, name: string, s: string, n: nat)
    requires before == s + Inits(n) && name == before + "::__init__"
    ensures name == s + Inits(n + 1)
  {
  }

  lemma NoneToTrim(name: string)
    requires !EndsInInit(name)
    ensures TrimEnd(name, INIT_SUFFIX) == name && name == name + Inits(0)
  {
    EndingIsInit(name);
  }

  lemma {:induction false} TrimLeavesInit(name: string)
    requires EndsInInit(name)
    ensures IsInitOf(name, TrimEnd(name, INIT_SUFFIX))
    decreases |name|
  {
    var before, s := name[..|name| - 10], TrimEnd(name, INIT_SUFFIX);
    TrimOnce(name);
    hide EndsInInit, TrimEnd, EndsWith, Inits;
    var n: nat := 0;
    if EndsInInit(before) {
      TrimLeavesInit(before);
      n :| n > 0 && before == s + Inits(n);
    } else {
      NoneToTrim(before);
    }
    OneMoreInit(before, name, s, n);
  }

  /** Trimming the ending finds the struct of an initializer, and every name with the ending has one. */
  lemma InitNames(name: string)
    ensures EndsWith(name, INIT_SUFFIX) <==> EndsInInit(name)
    ensures forall s :: IsInitOf(name, s) ==> EndsInInit(name) && TrimEnd(name, INIT_SUFFIX) == s
    ensures EndsInInit(name) ==> IsInitOf(name, TrimEnd(name, INIT_SUFFIX))
  {
    EndingIsInit(name);
    forall s | IsInitOf(name, s) ensures EndsInInit(name) && TrimEnd(name, INIT_SUFFIX) == s {
      var n: nat :| n > 0 && name == s + Inits(n);
      TrimmedInit(s, n);
    }
    if EndsInInit(name) {
      TrimLeavesInit(name);
    }
  }

  // ---------------------------------------------------------------- fields of self

  /** The statement at `q` assigns field `f` of `self`, which is parameter 1. */
  ghost predicate SetsSelf(func: MirFunction, q: Point, f: string)
  {
    && IsPoint(func, q) && q.idx < |func.blocks[q.block].statements|
    && var kind := func.blocks[q.block].statements[q.idx].kind;
       kind.SetAttr? && kind.attr == f && (kind.obj == Copy(1) || kind.obj == Move(1))
  }

  /** Some path returns at `q` and meets no statement that assigns field `f` of `self`. */
  ghost predicate MayMiss(func: MirFunction, f: string, q: Point)
  {
    exists path :: PathTo(func, path, q) && Returns(func, q) && forall i :: 0 <= i < |path| - 1 ==> !SetsSelf(func, path[i], f)
  }

  ghost predicate Returns(func: MirFunction, q: Point)
  {
    && IsPoint(func, q) && q.idx == |func.blocks[q.block].statements|
    && func.blocks[q.block].terminator.Some? && func.blocks[q.block].terminator.value.kind == Return
  }

  lemma ActionSetsSelf(func: MirFunction, q: Point, f: string)
    requires IsPoint(func, q) && EndsInInit(func.name)
    ensures AssignsField(ActionsAt(func, q), f) <==> SetsSelf(func, q, f)
  {
    EndingIsInit(func.name);
    if q.idx < |func.blocks[q.block].statements| {
      var kind := func.blocks[q.block].statements[q.idx].kind;
      if kind.SetAttr? {
        assert AssignField(kind.attr) in [AssignField(kind.attr)];
      }
    }
  }

  /** One of the first `n` points of the path assigns the field. */
  ghost predicate SetBefore(func: MirFunction, path: seq<Point>, n: int, f: string)
    requires n <= |path|
  {
    exists i :: 0 <= i < n && SetsSelf(func, path[i], f)
  }

  lemma SetOneMore(func: MirFunction, path: seq<Point>, before: seq<Point>, f: string)
    requires |path| > 1 && before == path[..|path| - 1]
    ensures SetBefore(func, path, |path| - 1, f) <==> SetBefore(func, before, |before| - 1, f) || SetsSelf(func, path[|path| - 2], f)
  {
    hide SetsSelf;
    assert forall i :: 0 <= i < |before| ==> before[i] == path[i];
  }

  lemma {:induction false} TraceSets(func: MirFunction, path: seq<Point>, f: string)
    requires EndsInInit(func.name) && forall i :: 0 <= i < |path| ==> IsPoint(func, path[i])
    ensures AssignsField(Trace(func, path), f) <==> SetBefore(func, path, |path| - 1, f)
    decreases |path|
  {
    if |path| > 1 {
      var before, q := path[..|path| - 1], path[|path| - 2];
      var a, b := Trace(func, before), ActionsAt(func, q);
      assert Trace(func, path) == a + b;
      hide Trace, ActionsAt, SetsSelf, EndsInInit, SetBefore;
      SetOneMore(func, path, before, f);
      TraceSets(func, before, f);
      ActionSetsSelf(func, q, f);
      AssignsEither(a, b, f);
    }
  }

  lemma AssignsEither(a: seq<Action>, b: seq<Action>, f: string)
    ensures AssignsField(a + b, f) <==> AssignsField(a, f) || AssignsField(b, f)
  {
  }

  lemma TraceSetsSelf(func: MirFunction, path: seq<Point>, f: string)
    requires EndsInInit(func.name) && forall i :: 0 <= i < |path| ==> IsPoint(func, path[i])
    ensures AssignsField(Trace(func, path), f) <==> exists i :: 0 <= i < |path| - 1 && SetsSelf(func, path[i], f)
  {
    hide Trace, AssignsField, SetsSelf, EndsInInit;
    TraceSets(func, path, f);
  }

  lemma MissedIsUnassigned(func: MirFunction, f: string, q: Point)
    requires EndsInInit(func.name)
    ensures ReturnsWithout(func, f, q) <==> MayMiss(func, f, q)
  {
    forall path | PathTo(func, path, q)
      ensures AssignsField(Trace(func, path), f) <==> exists i :: 0 <= i < |path| - 1 && SetsSelf(func, path[i], f)
    {
      TraceSetsSelf(func, path, f);
    }
  }

  // ---------------------------------------------------------------- reads and writes

  /** The locals that the actions read as operands, in order. */
  function ReadBy(actions: seq<Action>): seq<nat>
  {
    if actions == [] then []
    else (if actions[0].UseOperand? && !actions[0].op.Constant? then [actions[0].op.local] else []) + ReadBy(actions[1..])
  }

  lemma {:induction false} ChecksRead(ops: seq<Operand>, tail: seq<Action>)
    requires ReadBy(tail) == []
    ensures ReadBy(Checks(ops) + tail) == Machine.OperandLocals(ops)
    decreases |ops|
  {
    if ops == [] {
      assert Checks(ops) + tail == tail;
    } else {
      assert (Checks(ops) + tail)[0] == UseOperand(ops[0]) && (Checks(ops) + tail)[1..] == Checks(ops[1..]) + tail;
      ChecksRead(ops[1..], tail);
    }
  }

  /** The actions of a statement read, in order, what the machine reads when it executes it, except that borrows,
      drops and generation checks are no uses; an assignment ends by setting what the machine writes. */
  lemma ActionsAreExecution(func: MirFunction, kind: StatementKind)
    ensures var actions := StatementActions(func, kind);
      && (kind.Assign? ==> actions != [] && actions[|actions| - 1] == SetTo(kind.dest, Initialized))
      && ReadBy(actions) == (if (kind.Assign? && (kind.rvalue.Ref? || kind.rvalue.MutRef?)) || kind.Drop? || kind.GenCheck? then []
                             else Machine.ReadSet(kind))
  {
    match kind
    case Assign(dest, rv) => ChecksRead(Operands(rv), [SetTo(dest, Initialized)]);
    case SetAttr(obj, field, val) =>
      ChecksRead([obj, val], if IsInit(func) && IsSelf(obj) then [AssignField(field)] else []);
    case SetIndex(obj, idx, val, _) => CheckedAlone([obj, idx, val]);
    case VectorStore(obj, idx, val) => CheckedAlone([obj, idx, val]);
    case PtrStore(ptr, val) => CheckedAlone([ptr, val]);
    case StorageLive(_) =>
    case StorageDead(_) =>
    case Drop(_) =>
    case GenCheck(_, _) =>
  }

  lemma CheckedAlone(ops: seq<Operand>)
    ensures ReadBy(Checks(ops)) == Machine.OperandLocals(ops)
  {
    ChecksRead(ops, []);
    assert Checks(ops) + [] == Checks(ops);
  }
}

/** The mid-level IR shared by the analyses: locals, statements, blocks and terminators. */
module Mir {
  import opened Options

  /** A source position. The 64-bit fields are machine words. */
  datatype Span = Span(fileId: bv64, line: bv64, col: bv64, start: bv64, end: bv64)

  const DEFAULT_SPAN := Span(0, 0, 0, 0, 0)

  datatype Constant =
    | Int(i: int)
    | Float(bits: bv64)
    | Str(s: string)
    | Bool(b: bool)
    | Function(name: string)
    | GlobalData(symbol: string)
    | NoneConst

  datatype Operand =
    | Copy(local: nat)
    | Move(local: nat)
    | Constant(value: Constant)

  datatype AggregateKind = TupleAgg | ListAgg | SetAgg | DictAgg | EnumVariant(tag: int, arity: nat) | FatPtr

  /** Types, as far as the modelled passes look at them. */
  datatype Type =
    | Scalar
    | Any
    | Reference
    | Vector
    | Null
    | Managed
  {
    predicate IsMoveType() { Managed? }
  }

  datatype Rvalue =
    | Use(op: Operand)
    | BinaryOp(binop: string, lhs: Operand, rhs: Operand)
    | UnaryOp(unop: string, op: Operand)
    | Call(func: Operand, args: seq<Operand>)
    | Aggregate(kind: AggregateKind, ops: seq<Operand>)
    | Cast(op: Operand, ty: Type)
    | GetAttr(op: Operand, attr: string)
    | GetIndex(obj: Operand, idx: Operand, unchecked: bool)
    | GetTag(op: Operand)
    | GetTypeId(op: Operand)
    | Ref(target: nat)
    | MutRef(target: nat)
    | VectorSplat(op: Operand, lanes: nat)
    | VectorLoad(obj: Operand, idx: Operand, lanes: nat)
    | VectorFMA(a: Operand, b: Operand, c: Operand)
    | VectorReduce(binop: string, op: Operand, lanes: nat)
    | PtrLoad(op: Operand)
    | FatPtrData(op: Operand)
    | VTableLoad(vtable: Operand, methodIdx: nat)
    | GenOf(op: Operand)

  datatype StatementKind =
    | Assign(dest: nat, rvalue: Rvalue)
    | SetAttr(obj: Operand, attr: string, val: Operand)
    | SetIndex(obj: Operand, idx: Operand, val: Operand, unchecked: bool)
    | StorageLive(local: nat)
    | StorageDead(local: nat)
    | Drop(local: nat)
    | VectorStore(obj: Operand, idx: Operand, val: Operand)
    | PtrStore(ptr: Operand, val: Operand)
    | GenCheck(checked: nat, generation: nat)

  datatype Statement = Statement(kind: StatementKind, span: Span)

  datatype TerminatorKind =
    | Goto(target: nat)
    | SwitchInt(discr: Operand, targets: seq<(int, nat)>, otherwise: nat)
    | Return
    | Unreachable

  datatype Terminator = Terminator(kind: TerminatorKind, span: Span)

  datatype BasicBlock = BasicBlock(statements: seq<Statement>, terminator: Option<Terminator>)

  datatype LocalDecl = LocalDecl(ty: Type, name: Option<string>, isMut: bool, isOwning: bool)

  datatype MirFunction = MirFunction(
    name: string,
    locals: seq<LocalDecl>,
    blocks: seq<BasicBlock>,
    argCount: nat,
    isAsync: bool)

  /** Jump targets of a block in the order the terminator lists them. */
  function Targets(bb: BasicBlock): (out: seq<nat>)
  {
    match bb.terminator
    case None => []
    case Some(t) =>
      match t.kind
      case Goto(target) => [target]
      case SwitchInt(_, targets, otherwise) =>
        seq(|targets|, i requires 0 <= i < |targets| => targets[i].1) + [otherwise]
      case Return => []
      case Unreachable => []
  }

  /** The operands an rvalue evaluates, in evaluation order (borrowed locals are not operands). */
  function Operands(rv: Rvalue): seq<Operand>
  {
    match rv
    case Use(op) => [op]
    case BinaryOp(_, l, r) => [l, r]
    case UnaryOp(_, op) => [op]
    case Call(func, args) => [func] + args
    case Aggregate(_, ops) => ops
    case Cast(op, _) => [op]
    case GetAttr(op, _) => [op]
    case GetIndex(obj, idx, _) => [obj, idx]
    case GetTag(op) => [op]
    case GetTypeId(op) => [op]
    case Ref(_) => []
    case MutRef(_) => []
    case VectorSplat(op, _) => [op]
    case VectorLoad(obj, idx, _) => [obj, idx]
    case VectorFMA(a, b, c) => [a, b, c]
    case VectorReduce(_, op, _) => [op]
    case PtrLoad(op) => [op]
    case FatPtrData(op) => [op]
    case VTableLoad(vtable, _) => [vtable]
    case GenOf(op) => [op]
  }

  /** `o` is a part of the rvalue. */
  predicate IsPart(rv: Rvalue, o: Operand)
  {
    || ((rv.Use? || rv.UnaryOp? || rv.Cast? || rv.GetAttr? || rv.GetTag? || rv.GetTypeId? || rv.VectorSplat?
         || rv.VectorReduce? || rv.PtrLoad? || rv.FatPtrData? || rv.GenOf?) && o == rv.op)
    || (rv.BinaryOp? && (o == rv.lhs || o == rv.rhs))
    || (rv.Call? && (o == rv.func || o in rv.args))
    || (rv.Aggregate? && o in rv.ops)
    || ((rv.GetIndex? || rv.VectorLoad?) && (o == rv.obj || o == rv.idx))
    || (rv.VectorFMA? && (o == rv.a || o == rv.b || o == rv.c))
    || (rv.VTableLoad? && o == rv.vtable)
  }

  /** All parts are evaluated, from left to right. */
  lemma OperandsAreParts(rv: Rvalue)
    ensures forall o :: o in Operands(rv) <==> IsPart(rv, o)
    ensures var ops := Operands(rv);
      && (rv.BinaryOp? ==> |ops| == 2 && ops[0] == rv.lhs && ops[1] == rv.rhs)
      && (rv.Call? ==> |ops| == 1 + |rv.args| && ops[0] == rv.func && ops[1..] == rv.args)
      && (rv.GetIndex? || rv.VectorLoad? ==> |ops| == 2 && ops[0] == rv.obj && ops[1] == rv.idx)
      && (rv.VectorFMA? ==> |ops| == 3 && ops[0] == rv.a && ops[1] == rv.b && ops[2] == rv.c)
  {
  }
}

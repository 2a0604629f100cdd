/** The type grammar as a function from tokens to types, and the round trip with the printer. */
module TypeGrammar {
  import opened TypeSyntax

  const MAX_NESTING_DEPTH: nat := 100

  type Tokens = seq<Token>

  /** Token streams end in an end-of-file token. */
  predicate Stream(toks: Tokens)
  {
    toks != [] && toks[|toks| - 1].kind == Eof
  }

  datatype Problem = Expected(kind: Kind) | ExpectedType | TooDeep

  /** A value and the tokens after it, or a problem and the tokens at which it is reported. */
  datatype Result<T> = Ok(value: T, rest: Tokens) | Err(problem: Problem, at: Tokens)

  predicate Ends<T>(r: Result<T>, toks: Tokens)
  {
    match r
    case Ok(_, rest) => Stream(rest) && |rest| <= |toks|
    case Err(_, at) => Stream(at) && |at| <= |toks|
  }

  function Expect(kind: Kind, toks: Tokens): (r: Result<string>)
    requires Stream(toks) && kind != Eof
    ensures Ends(r, toks) && (r.Ok? ==> |r.rest| < |toks|)
  {
    if toks[0].kind == kind then Ok(toks[0].value, toks[1..]) else Err(Expected(kind), toks)
  }

  /** What may follow the first name of a dotted name. */
  function MoreNames(toks: Tokens): (r: Result<seq<string>>)
    requires Stream(toks)
    ensures Ends(r, toks)
    decreases |toks|
  {
    if toks[0].kind != Dot then Ok([], toks)
    else
      match Expect(Identifier, toks[1..])
      case Err(p, at) => Err(p, at)
      case Ok(name, rest) =>
        match MoreNames(rest)
        case Err(p, at) => Err(p, at)
        case Ok(names, rest') => Ok([name] + names, rest')
  }

  function TypeOf(toks: Tokens, depth: nat): (r: Result<Type>)
    requires Stream(toks)
    ensures Ends(r, toks) && (r.Ok? ==> |r.rest| < |toks|)
    decreases |toks|, 3
  {
    match SingleOf(toks, depth)
    case Err(p, at) => Err(p, at)
    case Ok(left, rest) => UnionTail(left, rest, depth)
  }

  function UnionTail(left: Type, toks: Tokens, depth: nat): (r: Result<Type>)
    requires Stream(toks)
    ensures Ends(r, toks)
    decreases |toks|, 2
  {
    if toks[0].kind != Pipe then Ok(left, toks)
    else
      match SingleOf(toks[1..], depth)
      case Err(p, at) => Err(p, at)
      case Ok(right, rest) => UnionTail(Union(left, right), rest, depth)
  }

  /** Types separated by commas, a last comma allowed, up to the closing token. */
  function ItemsOf(close: Kind, toks: Tokens, depth: nat): (r: Result<seq<Type>>)
    requires Stream(toks)
    ensures Ends(r, toks)
    decreases |toks|, 4
  {
    if toks[0].kind == close || toks[0].kind == Eof then Ok([], toks)
    else
      match TypeOf(toks, depth)
      case Err(p, at) => Err(p, at)
      case Ok(item, rest) =>
        if rest[0].kind != Comma then Ok([item], rest)
        else
          match ItemsOf(close, rest[1..], depth)
          case Err(p, at) => Err(p, at)
          case Ok(items, rest') => Ok([item] + items, rest')
  }

  /** The items and their closing token. */
  function ClosedItems(close: Kind, toks: Tokens, depth: nat): (r: Result<seq<Type>>)
    requires Stream(toks) && close != Eof
    ensures Ends(r, toks)
    decreases |toks|, 5
  {
    match ItemsOf(close, toks, depth)
    case Err(p, at) => Err(p, at)
    case Ok(items, rest) =>
      match Expect(close, rest)
      case Err(p, at) => Err(p, at)
      case Ok(_, rest') => Ok(items, rest')
  }

  function SingleOf(toks: Tokens, depth: nat): (r: Result<Type>)
    requires Stream(toks)
    ensures Ends(r, toks) && (r.Ok? ==> |r.rest| < |toks|)
    decreases |toks|, 1
  {
    match toks[0].kind
    case Null => Ok(Name("None"), toks[1..])
    case Identifier => NamedOf(toks, depth)
    case LParen => TupleOf(toks, depth)
    case LBracket => ListOf(toks[1..], depth)
    case LBrace => DictOf(toks[1..], depth)
    case Ampersand =>
      if toks[1].kind == Mut then Wrap(toks[0], SingleOf(toks[1..][1..], depth), true)
      else Wrap(toks[0], SingleOf(toks[1..], depth), false)
    case Star => Wrap(toks[0], SingleOf(toks[1..], depth), false)
    case Fn =>
      if depth >= MAX_NESTING_DEPTH then Err(TooDeep, toks) else FunctionOf(toks[1..], depth + 1)
    case _ => Err(ExpectedType, toks)
  }

  /** A reference or a pointer to what was read after its sign. */
  function Wrap(sign: Token, r: Result<Type>, mutable: bool): Result<Type>
  {
    match r
    case Err(p, at) => Err(p, at)
    case Ok(t, rest) => Ok(if sign.kind == Star then Ptr(t) else if mutable then MutRef(t) else Ref(t), rest)
  }

  /** Items one nesting level down, after an opening token. */
  function NestedItems(close: Kind, toks: Tokens, depth: nat): (r: Result<seq<Type>>)
    requires Stream(toks) && toks[0].kind != Eof && close != Eof
    ensures Ends(r, toks) && (r.Ok? ==> |r.rest| < |toks|)
    decreases |toks|, 0, 0
  {
    if depth >= MAX_NESTING_DEPTH then Err(TooDeep, toks) else ClosedItems(close, toks[1..], depth + 1)
  }

  function TupleOf(toks: Tokens, depth: nat): (r: Result<Type>)
    requires Stream(toks) && toks[0].kind == LParen
    ensures Ends(r, toks) && (r.Ok? ==> |r.rest| < |toks|)
    decreases |toks|, 0, 1
  {
    match NestedItems(RParen, toks, depth)
    case Err(p, at) => Err(p, at)
    case Ok(items, rest) => Ok(Tuple(items), rest)
  }

  /** A list or an array after its opening bracket. */
  function ListOf(toks: Tokens, depth: nat): (r: Result<Type>)
    requires Stream(toks)
    ensures Ends(r, toks)
    decreases |toks|, 4
  {
    match TypeOf(toks, depth)
    case Err(p, at) => Err(p, at)
    case Ok(item, rest) => AfterItem(item, rest)
  }

  /** A dict after its opening brace. */
  function DictOf(toks: Tokens, depth: nat): (r: Result<Type>)
    requires Stream(toks)
    ensures Ends(r, toks)
    decreases |toks|, 4
  {
    match TypeOf(toks, depth)
    case Err(p, at) => Err(p, at)
    case Ok(key, rest) =>
      match Expect(Colon, rest)
      case Err(p, at) => Err(p, at)
      case Ok(_, rest') => DictValue(key, rest', depth)
  }

  function NamedOf(toks: Tokens, depth: nat): (r: Result<Type>)
    requires Stream(toks) && toks[0].kind == Identifier
    ensures Ends(r, toks) && (r.Ok? ==> |r.rest| < |toks|)
    decreases |toks|, 0, 1
  {
    match MoreNames(toks[1..])
    case Err(p, at) => Err(p, at)
    case Ok(names, rest) =>
      var parts := [toks[0].value] + names;
      if rest[0].kind == LBracket then
        match NestedItems(RBracket, rest, depth)
        case Err(p, at) => Err(p, at)
        case Ok(args, rest') => Ok(Generic(JoinWith("::", parts), args), rest')
      else if |parts| > 1 then Ok(Qualified(parts), rest)
      else Ok(Name(parts[0]), rest)
  }

  /** After the item of a list or an array. */
  function AfterItem(item: Type, toks: Tokens): (r: Result<Type>)
    requires Stream(toks)
    ensures Ends(r, toks)
  {
    if toks[0].kind == Semicolon then
      match Expect(Integer, toks[1..])
      case Err(p, at) => Err(p, at)
      case Ok(size, rest) =>
        match Expect(RBracket, rest)
        case Err(p, at) => Err(p, at)
        case Ok(_, rest') => Ok(FixedArray(item, SizeOf(size)), rest')
    else
      match Expect(RBracket, toks)
      case Err(p, at) => Err(p, at)
      case Ok(_, rest) => Ok(List(item), rest)
  }

  function DictValue(key: Type, toks: Tokens, depth: nat): (r: Result<Type>)
    requires Stream(toks)
    ensures Ends(r, toks)
    decreases |toks|, 4
  {
    match TypeOf(toks, depth)
    case Err(p, at) => Err(p, at)
    case Ok(value, rest) =>
      match Expect(RBrace, rest)
      case Err(p, at) => Err(p, at)
      case Ok(_, rest') => Ok(Dict(key, value), rest')
  }

  /** A function type after its keyword. */
  function FunctionOf(toks: Tokens, depth: nat): (r: Result<Type>)
    requires Stream(toks)
    ensures Ends(r, toks)
    decreases |toks|, 6
  {
    match Expect(LParen, toks)
    case Err(p, at) => Err(p, at)
    case Ok(_, rest) =>
      match ClosedItems(RParen, rest, depth)
      case Err(p, at) => Err(p, at)
      case Ok(params, rest') =>
        match Expect(Arrow, rest')
        case Err(p, at) => Err(p, at)
        case Ok(_, rest'') =>
          match TypeOf(rest'', depth)
          case Err(p, at) => Err(p, at)
          case Ok(ret, rest''') => Ok(Function(params, ret), rest''')
  }
}

/** The type parser as it runs: a cursor over the tokens and a nesting counter, updated in place. */
module TypeParser {
  import opened TypeSyntax
  import opened TypeGrammar
  import opened TypeSpelling

  datatype Parsed<T> = Done(value: T) | Failed(problem: Problem)

  /** What a parser method reports, together with the tokens at which it stops. */
  function Outcome<T>(p: Parsed<T>, rest: Tokens): Result<T>
  {
    match p
    case Done(value) => Ok(value, rest)
    case Failed(problem) => Err(problem, rest)
  }

  function Prepend<T>(items: seq<T>, r: Result<seq<T>>): Result<seq<T>>
  {
    match r
    case Ok(more, rest) => Ok(items + more, rest)
    case Err(problem, at) => Err(problem, at)
  }

  lemma PrependTwice<T>(items: seq<T>, item: T, r: Result<seq<T>>)
    ensures Prepend(items, Prepend([item], r)) == Prepend(items + [item], r)
  {
    if r.Ok? {
      assert items + ([item] + r.value) == items + [item] + r.value;
    }
  }

  lemma PrependNothing<T>(r: Result<seq<T>>)
    ensures Prepend([], r) == r
  {
    if r.Ok? {
      assert [] + r.value == r.value;
    }
  }

  /** One turn of the item loop that ends in a comma. */
  lemma ItemRead(items: seq<Type>, close: Kind, toks: Tokens, item: Type, comma: Tokens, d: nat)
    requires Stream(toks) && toks[0].kind != close && toks[0].kind != Eof
    requires TypeOf(toks, d) == Ok(item, comma) && comma[0].kind == Comma && Stream(comma[1..])
    ensures Prepend(items, ItemsOf(close, toks, d)) == Prepend(items + [item], ItemsOf(close, comma[1..], d))
  {
    PrependTwice(items, item, ItemsOf(close, comma[1..], d));
  }

  /** The last turn of the item loop, without a comma. */
  lemma LastItemRead(items: seq<Type>, close: Kind, toks: Tokens, item: Type, rest: Tokens, d: nat)
    requires Stream(toks) && toks[0].kind != close && toks[0].kind != Eof
    requires TypeOf(toks, d) == Ok(item, rest) && rest[0].kind != Comma
    ensures Prepend(items, ItemsOf(close, toks, d)) == Ok(items + [item], rest)
  {
  }

  /** The item loop at its end. */
  lemma NoItemRead(items: seq<Type>, close: Kind, toks: Tokens, d: nat)
    requires Stream(toks) && (toks[0].kind == close || toks[0].kind == Eof)
    ensures Prepend(items, ItemsOf(close, toks, d)) == Ok(items, toks)
  {
    assert items + [] == items;
  }

  /** The item loop when an item cannot be read. */
  lemma BadItemRead(items: seq<Type>, close: Kind, toks: Tokens, problem: Problem, at: Tokens, d: nat)
    requires Stream(toks) && toks[0].kind != close && toks[0].kind != Eof && TypeOf(toks, d) == Err(problem, at)
    ensures Prepend(items, ItemsOf(close, toks, d)) == Err(problem, at)
  {
  }

  /** One turn of the loop over dotted names. */
  lemma DotRead(names: seq<string>, toks: Tokens, tail: Tokens, name: string, rest: Tokens)
    requires Stream(toks) && toks[0].kind == Dot && tail == toks[1..] && Stream(tail)
    requires Expect(Identifier, tail) == Ok(name, rest)
    ensures Prepend(names, MoreNames(toks)) == Prepend(names + [name], MoreNames(rest))
  {
    PrependTwice(names, name, MoreNames(rest));
  }

  class Parser {
    const tokens: Tokens
    var pos: nat
    var depth: nat

    constructor (tokens: Tokens)
      requires Stream(tokens)
      ensures Valid() && this.tokens == tokens && pos == 0 && depth == 0
    {
      this.tokens := tokens;
      pos, depth := 0, 0;
    }

    ghost predicate InStream()
      reads this`pos
    {
      Stream(tokens) && pos < |tokens|
    }

    ghost predicate Valid()
      reads this`pos, this`depth
    {
      InStream() && depth <= MAX_NESTING_DEPTH
    }

    /** The tokens still to read. */
    function Rest(): (r: Tokens)
      requires InStream()
      reads this`pos
      ensures Stream(r) && |r| == |tokens| - pos && r[0] == tokens[pos]
    {
      tokens[pos..]
    }

    function Peek(): (k: Kind)
      requires InStream()
      reads this`pos
      ensures k == Rest()[0].kind
    {
      tokens[pos].kind
    }

    method Advance() returns (tok: Token)
      requires Valid()
      modifies this`pos
      ensures Valid() && tok == old(Rest())[0]
      ensures Rest() == if tok.kind == Eof then old(Rest()) else old(Rest())[1..]
    {
      tok := tokens[pos];
      if tok.kind != Eof {
        pos := pos + 1;
      }
    }

    method Expect(kind: Kind) returns (r: Parsed<string>)
      requires Valid() && kind != Eof
      modifies this`pos
      ensures Valid() && Outcome(r, Rest()) == TypeGrammar.Expect(kind, old(Rest()))
    {
      var tok := tokens[pos];
      if tok.kind == kind {
        pos := pos + 1;
        r := Done(tok.value);
      } else {
        r := Failed(Expected(kind));
      }
    }

    method ParseTypeExpr() returns (r: Parsed<Type>)
      requires Valid()
      modifies this`pos, this`depth
      ensures Valid() && depth == old(depth)
      ensures Outcome(r, Rest()) == TypeOf(old(Rest()), depth)
      ensures r.Done? ==> Readable(r.value, old(Rest()), Rest(), depth)
      ensures r.Failed? ==> forall t, rest :: !Readable(t, old(Rest()), rest, depth)
      decreases |tokens| - pos, 3
    {
      hide Readable, ReadableSingle;
      AcceptsReadable(Rest(), depth);
      hide SingleOf, ItemsOf, ClosedItems, NestedItems, MoreNames, NamedOf, TupleOf, ListOf, DictOf, FunctionOf, AfterItem, DictValue, Readable, ReadableSingle;
      r := ParseSingleTypeExpr();
      if r.Failed? {
        return;
      }
      var left := r.value;
      while Peek() == Pipe
        invariant Valid() && depth == old(depth) && pos > old(pos)
        invariant UnionTail(left, Rest(), depth) == TypeOf(old(Rest()), depth)
        decreases |tokens| - pos
      {
        var _ := Advance();
        r := ParseSingleTypeExpr();
        if r.Failed? {
          return;
        }
        left := Union(left, r.value);
      }
      r := Done(left);
    }

    /** The loop over arguments, items or parameters, up to the closing token. */
    method ParseItems(close: Kind) returns (r: Parsed<seq<Type>>)
      requires Valid()
      modifies this`pos, this`depth
      ensures Valid() && depth == old(depth)
      ensures Outcome(r, Rest()) == ItemsOf(close, old(Rest()), depth)
      decreases |tokens| - pos, 4
    {
      hide TypeOf, SingleOf, UnionTail, ItemsOf, Readable, ReadableSingle;
      var items: seq<Type> := [];
      PrependNothing(ItemsOf(close, Rest(), depth));
      while Peek() != close && Peek() != Eof
        invariant Valid() && depth == old(depth) && pos >= old(pos)
        invariant Prepend(items, ItemsOf(close, Rest(), depth)) == ItemsOf(close, old(Rest()), depth)
        decreases |tokens| - pos
      {
        ghost var before := Rest();
        var item := ParseTypeExpr();
        if item.Failed? {
          BadItemRead(items, close, before, item.problem, Rest(), depth);
          return Failed(item.problem);
        }
        if Peek() == Comma {
          ghost var comma := Rest();
          var _ := Advance();
          ItemRead(items, close, before, item.value, comma, depth);
          items := items + [item.value];
        } else {
          LastItemRead(items, close, before, item.value, Rest(), depth);
          items := items + [item.value];
          return Done(items);
        }
      }
      NoItemRead(items, close, Rest(), depth);
      r := Done(items);
    }

    /** The items and the closing token, one nesting level down. */
    method ParseClosed(close: Kind) returns (r: Parsed<seq<Type>>)
      requires Valid() && close != Eof
      modifies this`pos, this`depth
      ensures Valid() && depth == old(depth)
      ensures Outcome(r, Rest()) == ClosedItems(close, old(Rest()), depth)
      decreases |tokens| - pos, 5
    {
      hide TypeOf, SingleOf, UnionTail, ItemsOf, NestedItems, MoreNames, NamedOf, TupleOf, ListOf, DictOf, FunctionOf, AfterItem, DictValue, Readable, ReadableSingle;
      r := ParseItems(close);
      if r.Done? {
        var closed := Expect(close);
        if closed.Failed? {
          r := Failed(closed.problem);
        }
      }
    }

    /** `enter_nested` around an opening token, the items and the closing token. */
    method ParseNestedItems(close: Kind) returns (r: Parsed<seq<Type>>)
      requires Valid() && Peek() != Eof && close != Eof
      modifies this`pos, this`depth
      ensures Valid() && depth == old(depth)
      ensures Outcome(r, Rest())
              == NestedItems(close, old(Rest()), depth)
      decreases |tokens| - pos, 0, 0
    {
      hide TypeOf, SingleOf, UnionTail, ItemsOf, ClosedItems, MoreNames, NamedOf, TupleOf, ListOf, DictOf, FunctionOf, AfterItem, DictValue, Readable, ReadableSingle;
      if depth >= MAX_NESTING_DEPTH {
        return Failed(TooDeep);
      }
      depth := depth + 1;
      var _ := Advance();
      r := ParseClosed(close);
      depth := depth - 1;
    }

    method ParseDots() returns (r: Parsed<seq<string>>)
      requires Valid()
      modifies this`pos
      ensures Valid() && pos >= old(pos) && Outcome(r, Rest()) == MoreNames(old(Rest()))
    {
      hide TypeOf, SingleOf, UnionTail, ItemsOf, ClosedItems, NestedItems, NamedOf, TupleOf, ListOf, DictOf, FunctionOf, AfterItem, DictValue, Readable, ReadableSingle;
      var parts: seq<string> := [];
      PrependNothing(MoreNames(Rest()));
      while Peek() == Dot
        invariant Valid() && pos >= old(pos)
        invariant Prepend(parts, MoreNames(Rest())) == MoreNames(old(Rest()))
        decreases |tokens| - pos
      {
        ghost var before := Rest();
        var _ := Advance();
        ghost var tail := Rest();
        var name := Expect(Identifier);
        if name.Failed? {
          return Failed(name.problem);
        }
        DotRead(parts, before, tail, name.value, Rest());
        parts := parts + [name.value];
      }
      assert parts + [] == parts;
      r := Done(parts);
    }

    method ParseNamed() returns (r: Parsed<Type>)
      requires Valid() && Peek() == Identifier
      modifies this`pos, this`depth
      ensures Valid() && depth == old(depth)
      ensures Outcome(r, Rest()) == NamedOf(old(Rest()), depth)
      decreases |tokens| - pos, 0, 1
    {
      hide TypeOf, SingleOf, UnionTail, ItemsOf, ClosedItems, NestedItems, MoreNames, TupleOf, ListOf, DictOf, FunctionOf, AfterItem, DictValue, Readable, ReadableSingle;
      var first := Advance();
      var more := ParseDots();
      if more.Failed? {
        return Failed(more.problem);
      }
      var parts := [first.value] + more.value;
      if Peek() == LBracket {
        var args := ParseNestedItems(RBracket);
        r := if args.Failed? then Failed(args.problem) else Done(Generic(JoinWith("::", parts), args.value));
      } else if |parts| > 1 {
        r := Done(Qualified(parts));
      } else {
        r := Done(Name(parts[0]));
      }
    }

    method ParseBracketed() returns (r: Parsed<Type>)
      requires Valid() && Peek() == LBracket
      modifies this`pos, this`depth
      ensures Valid() && depth == old(depth)
      ensures Outcome(r, Rest()) == ListOf(old(Rest())[1..], depth)
      decreases |tokens| - pos, 0
    {
      hide TypeOf, SingleOf, UnionTail, ItemsOf, ClosedItems, NestedItems, MoreNames, NamedOf, TupleOf, DictOf, FunctionOf, DictValue, SizeOf, Readable, ReadableSingle;
      var _ := Advance();
      r := ParseTypeExpr();
      if r.Failed? {
        return;
      }
      var item := r.value;
      if Peek() == Semicolon {
        var _ := Advance();
        var size := Expect(Integer);
        if size.Failed? {
          return Failed(size.problem);
        }
        var n := SizeOf(size.value);
        var closed := Expect(RBracket);
        r := if closed.Failed? then Failed(closed.problem) else Done(FixedArray(item, n));
      } else {
        var closed := Expect(RBracket);
        r := if closed.Failed? then Failed(closed.problem) else Done(List(item));
      }
    }

    method ParseDict() returns (r: Parsed<Type>)
      requires Valid() && Peek() == LBrace
      modifies this`pos, this`depth
      ensures Valid() && depth == old(depth)
      ensures Outcome(r, Rest()) == DictOf(old(Rest())[1..], depth)
      decreases |tokens| - pos, 0
    {
      hide TypeOf, SingleOf, UnionTail, ItemsOf, ClosedItems, NestedItems, MoreNames, NamedOf, TupleOf, ListOf, FunctionOf, AfterItem, Readable, ReadableSingle;
      var _ := Advance();
      r := ParseTypeExpr();
      if r.Failed? {
        return;
      }
      var key := r.value;
      var colon := Expect(Colon);
      if colon.Failed? {
        return Failed(colon.problem);
      }
      r := ParseTypeExpr();
      if r.Failed? {
        return;
      }
      var closed := Expect(RBrace);
      r := if closed.Failed? then Failed(closed.problem) else Done(Dict(key, r.value));
    }

    lemma ReferenceAt(toks: Tokens, level: nat)
      requires Stream(toks) && toks[0].kind == Ampersand
      ensures Stream(toks[1..]) && (toks[1].kind == Mut ==> Stream(toks[1..][1..]))
      ensures SingleOf(toks, level)
              == if toks[1].kind == Mut then Wrap(toks[0], SingleOf(toks[1..][1..], level), true)
                 else Wrap(toks[0], SingleOf(toks[1..], level), false)
    {
    }

    method ParseReference() returns (r: Parsed<Type>)
      requires Valid() && Peek() == Ampersand
      modifies this`pos, this`depth
      ensures Valid() && depth == old(depth)
      ensures Outcome(r, Rest()) == SingleOf(old(Rest()), depth)
      decreases |tokens| - pos, 0
    {
      hide TypeOf, UnionTail, ItemsOf, ClosedItems, NestedItems, MoreNames, NamedOf, TupleOf, ListOf, DictOf, FunctionOf, AfterItem, DictValue, Readable, ReadableSingle;
      ghost var start := Rest();
      ReferenceAt(start, depth);
      hide SingleOf;
      var _ := Advance();
      assert start[1] == Rest()[0];
      if Peek() == Mut {
        var _ := Advance();
        r := ParseSingleTypeExpr();
        if r.Done? {
          r := Done(MutRef(r.value));
        }
      } else {
        r := ParseSingleTypeExpr();
        if r.Done? {
          r := Done(Ref(r.value));
        }
      }
    }

    /** A function type after its keyword, inside its nesting level. */
    method ParseFunctionBody() returns (r: Parsed<Type>)
      requires Valid()
      modifies this`pos, this`depth
      ensures Valid() && depth == old(depth)
      ensures Outcome(r, Rest()) == FunctionOf(old(Rest()), depth)
      decreases |tokens| - pos, 6
    {
      hide TypeOf, SingleOf, UnionTail, ItemsOf, ClosedItems, NestedItems, MoreNames, NamedOf, TupleOf, ListOf, DictOf, AfterItem, DictValue, Readable, ReadableSingle;
      var open := Expect(LParen);
      if open.Failed? {
        return Failed(open.problem);
      }
      var params := ParseClosed(RParen);
      if params.Failed? {
        return Failed(params.problem);
      }
      var arrow := Expect(Arrow);
      if arrow.Failed? {
        return Failed(arrow.problem);
      }
      r := ParseTypeExpr();
      if r.Done? {
        r := Done(Function(params.value, r.value));
      }
    }

    method ParseFunction() returns (r: Parsed<Type>)
      requires Valid() && Peek() == Fn
      modifies this`pos, this`depth
      ensures Valid() && depth == old(depth)
      ensures Outcome(r, Rest()) == SingleOf(old(Rest()), depth)
      decreases |tokens| - pos, 0
    {
      hide TypeOf, UnionTail, ItemsOf, ClosedItems, NestedItems, MoreNames, NamedOf, TupleOf, ListOf, DictOf, FunctionOf, AfterItem, DictValue, Readable, ReadableSingle;
      if depth >= MAX_NESTING_DEPTH {
        return Failed(TooDeep);
      }
      depth := depth + 1;
      var _ := Advance();
      r := ParseFunctionBody();
      depth := depth - 1;
    }

    method ParseTuple() returns (r: Parsed<Type>)
      requires Valid() && Peek() == LParen
      modifies this`pos, this`depth
      ensures Valid() && depth == old(depth)
      ensures Outcome(r, Rest()) == TupleOf(old(Rest()), depth)
      decreases |tokens| - pos, 0, 1
    {
      hide TypeOf, SingleOf, UnionTail, ItemsOf, ClosedItems, NestedItems, MoreNames, NamedOf, ListOf, DictOf, FunctionOf, AfterItem, DictValue, Readable, ReadableSingle;
      var items := ParseNestedItems(RParen);
      r := if items.Failed? then Failed(items.problem) else Done(Tuple(items.value));
    }

    method ParsePointer() returns (r: Parsed<Type>)
      requires Valid() && Peek() == Star
      modifies this`pos, this`depth
      ensures Valid() && depth == old(depth)
      ensures Outcome(r, Rest()) == SingleOf(old(Rest()), depth)
      decreases |tokens| - pos, 0
    {
      hide TypeOf, UnionTail, ItemsOf, ClosedItems, NestedItems, MoreNames, NamedOf, TupleOf, ListOf, DictOf, FunctionOf, AfterItem, DictValue, Readable, ReadableSingle;
      var _ := Advance();
      r := ParseSingleTypeExpr();
      if r.Done? {
        r := Done(Ptr(r.value));
      }
    }

    method ParseSingleTypeExpr() returns (r: Parsed<Type>)
      requires Valid()
      modifies this`pos, this`depth
      ensures Valid() && depth == old(depth)
      ensures Outcome(r, Rest()) == SingleOf(old(Rest()), depth)
      ensures r.Done? ==> ReadableSingle(r.value, old(Rest()), Rest(), depth)
      ensures r.Failed? ==> forall t, rest :: !ReadableSingle(t, old(Rest()), rest, depth)
      decreases |tokens| - pos, 1
    {
      hide Readable, ReadableSingle;
      AcceptsReadable(Rest(), depth);
      hide TypeOf, UnionTail, ItemsOf, ClosedItems, NestedItems, MoreNames, NamedOf, TupleOf, ListOf, DictOf, FunctionOf, AfterItem, DictValue, Readable, ReadableSingle;
      match Peek() {
        case Null =>
          var _ := Advance();
          r := Done(Name("None"));
        case Identifier => r := ParseNamed();
        case LParen => r := ParseTuple();
        case LBracket => r := ParseBracketed();
        case LBrace => r := ParseDict();
        case Ampersand => r := ParseReference();
        case Star => r := ParsePointer();
        case Fn => r := ParseFunction();
        case _ => r := Failed(ExpectedType);
      }
    }
  }
}

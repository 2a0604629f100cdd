/** What the type parser can return, and the round trip through the printer for all of it. */
module TypeImage {
  import opened TypeSyntax
  import opened TypeGrammar
  import opened TypeRoundTrip

  // ---------------------------------------------------------------- parsed types are printable

  /** Identifier tokens hold identifiers, as the lexer makes them. */
  ghost predicate Lexed(toks: Tokens)
  {
    forall k :: 0 <= k < |toks| && toks[k].kind == Identifier ==> IsIdentifier(toks[k].value)
  }

  /** What is known of a type read up to `rest`, `d` levels deep. */
  ghost predicate Sound(t: Type, rest: Tokens, d: nat)
  {
    Fine(t, d) && Stream(rest) && Lexed(rest) && (EndsOpen(t) ==> rest[0].kind != Pipe)
  }

  ghost predicate SoundItems(items: seq<Type>, rest: Tokens, d: nat)
  {
    FineItems(items, d) && Stream(rest) && Lexed(rest)
  }

  /** A result that reports no type, or a single one that is sound. */
  ghost predicate Single(r: Result<Type>, d: nat)
  {
    r.Ok? ==> Sound(r.value, r.rest, d) && !r.value.Union?
  }

  lemma LexedTail(toks: Tokens)
    requires Stream(toks) && Lexed(toks)
    ensures Lexed(toks[1..])
    ensures toks[0].kind == Identifier ==> IsIdentifier(toks[0].value)
  {
  }

  lemma {:induction false} NamesAreSound(toks: Tokens)
    requires Stream(toks) && Lexed(toks)
    ensures var r := MoreNames(toks); r.Ok? ==> AllIdentifiers(r.value) && Lexed(r.rest)
    decreases |toks|
  {
    if toks[0].kind == Dot && toks[1..][0].kind == Identifier {
      var word := toks[1..];
      LexedTail(toks);
      LexedTail(word);
      hide Lexed, IsIdentifier;
      NamesAreSound(word[1..]);
    }
  }

  lemma ItemSound(items: seq<Type>, item: Type, rest: Tokens, d: nat)
    requires Fine(item, d) && SoundItems(items, rest, d)
    ensures SoundItems([item] + items, rest, d)
  {
    assert ([item] + items)[1..] == items;
  }

  lemma NoItemsSound(toks: Tokens, d: nat)
    requires Stream(toks) && Lexed(toks) && d <= MAX_NESTING_DEPTH
    ensures SoundItems([], toks, d)
  {
  }

  lemma {:induction false} ItemsAreSound(close: Kind, toks: Tokens, d: nat)
    requires Stream(toks) && Lexed(toks) && d <= MAX_NESTING_DEPTH
    ensures var r := ItemsOf(close, toks, d); r.Ok? ==> SoundItems(r.value, r.rest, d)
    decreases |toks|, 4
  {
    if toks[0].kind == close || toks[0].kind == Eof {
      NoItemsSound(toks, d);
    } else {
      TypeIsSound(toks, d);
      var first := TypeOf(toks, d);
      if first.Ok? {
        SoundParts(first.value, first.rest, d);
        hide TypeOf, Lexed, SoundItems, Sound, Fine;
        if first.rest[0].kind == Comma {
          LexedTail(first.rest);
          ItemsAreSound(close, first.rest[1..], d);
          var more := ItemsOf(close, first.rest[1..], d);
          if more.Ok? {
            ItemSound(more.value, first.value, more.rest, d);
          }
        } else {
          NoItemsSound(first.rest, d);
          ItemSound([], first.value, first.rest, d);
          assert [first.value] + [] == [first.value];
        }
      }
    }
  }

  lemma SoundParts(t: Type, rest: Tokens, d: nat)
    requires Sound(t, rest, d)
    ensures Fine(t, d) && Stream(rest) && Lexed(rest)
  {
  }

  lemma NestedIsSound(close: Kind, toks: Tokens, d: nat)
    requires Stream(toks) && Lexed(toks) && toks[0].kind != Eof && close != Eof && d <= MAX_NESTING_DEPTH
    ensures var r := NestedItems(close, toks, d);
      r.Ok? ==> d < MAX_NESTING_DEPTH && SoundItems(r.value, r.rest, d + 1)
    decreases |toks|, 0, 0
  {
    if d < MAX_NESTING_DEPTH {
      LexedTail(toks);
      ClosedIsSound(close, toks[1..], d + 1);
    }
  }

  lemma ClosedIsSound(close: Kind, toks: Tokens, d: nat)
    requires Stream(toks) && Lexed(toks) && close != Eof && d <= MAX_NESTING_DEPTH
    ensures var r := ClosedItems(close, toks, d); r.Ok? ==> SoundItems(r.value, r.rest, d)
    decreases |toks|, 5
  {
    ItemsAreSound(close, toks, d);
    hide ItemsOf;
    var items := ItemsOf(close, toks, d);
    if items.Ok? && items.rest[0].kind == close {
      LexedTail(items.rest);
    }
  }

  lemma {:induction false} TypeIsSound(toks: Tokens, d: nat)
    requires Stream(toks) && Lexed(toks) && d <= MAX_NESTING_DEPTH
    ensures var r := TypeOf(toks, d); r.Ok? ==> Sound(r.value, r.rest, d) && r.rest[0].kind != Pipe
    decreases |toks|, 3
  {
    SingleIsSound(toks, d);
    hide SingleOf, Sound, UnionTail;
    var left := SingleOf(toks, d);
    if left.Ok? {
      UnionIsSound(left.value, left.rest, d);
    }
  }

  lemma UnionSound(left: Type, toks: Tokens, right: Type, rest: Tokens, d: nat)
    requires Sound(left, toks, d) && toks[0].kind == Pipe && Sound(right, rest, d) && !right.Union?
    ensures Sound(Union(left, right), rest, d)
  {
  }

  lemma {:induction false} UnionIsSound(left: Type, toks: Tokens, d: nat)
    requires Stream(toks) && Sound(left, toks, d)
    ensures var r := UnionTail(left, toks, d); r.Ok? ==> Sound(r.value, r.rest, d) && r.rest[0].kind != Pipe
    decreases |toks|, 2
  {
    if toks[0].kind == Pipe {
      LexedTail(toks);
      assert d <= MAX_NESTING_DEPTH;
      hide SingleOf, Sound, Lexed;
      SingleIsSound(toks[1..], d);
      var right := SingleOf(toks[1..], d);
      if right.Ok? {
        UnionSound(left, toks, right.value, right.rest, d);
        UnionIsSound(Union(left, right.value), right.rest, d);
      }
    }
  }

  lemma {:induction false} SingleIsSound(toks: Tokens, d: nat)
    requires Stream(toks) && Lexed(toks) && d <= MAX_NESTING_DEPTH
    ensures Single(SingleOf(toks, d), d)
    decreases |toks|, 1
  {
    LexedTail(toks);
    hide Lexed, NamedOf, TupleOf, ListOf, DictOf, FunctionOf, Sound;
    match toks[0].kind
    case Null => NoneIsSound(toks[1..], d);
    case Identifier => NamedIsSound(toks, d);
    case LParen => TupleIsSound(toks, d);
    case LBracket => ListIsSound(toks[1..], d);
    case LBrace => DictIsSound(toks[1..], d);
    case Ampersand =>
      assert toks[1..][0] == toks[1];
      if toks[1].kind == Mut {
        LexedTail(toks[1..]);
        SignIsSound(toks[0], toks[1..][1..], d, true);
      } else {
        SignIsSound(toks[0], toks[1..], d, false);
      }
    case Star => SignIsSound(toks[0], toks[1..], d, false);
    case Fn =>
      if d < MAX_NESTING_DEPTH {
        FunctionIsSound(toks[1..], d);
      }
    case _ =>
  }

  lemma NoneIsSound(rest: Tokens, d: nat)
    requires Stream(rest) && Lexed(rest) && d <= MAX_NESTING_DEPTH
    ensures Sound(Name("None"), rest, d)
  {
  }

  lemma SignIsSound(sign: Token, toks: Tokens, d: nat, mutable: bool)
    requires Stream(toks) && Lexed(toks) && d <= MAX_NESTING_DEPTH
    ensures Single(Wrap(sign, SingleOf(toks, d), mutable), d)
    decreases |toks|, 2
  {
    SingleIsSound(toks, d);
    hide SingleOf, Lexed;
    var inner := SingleOf(toks, d);
    if inner.Ok? {
      SignSound(inner.value, inner.rest, d);
    }
  }

  lemma SignSound(t: Type, rest: Tokens, d: nat)
    requires Sound(t, rest, d) && !t.Union?
    ensures Sound(Ref(t), rest, d) && Sound(MutRef(t), rest, d) && Sound(Ptr(t), rest, d)
  {
    hide Lexed;
  }

  lemma TupleIsSound(toks: Tokens, d: nat)
    requires Stream(toks) && Lexed(toks) && toks[0].kind == LParen && d <= MAX_NESTING_DEPTH
    ensures Single(TupleOf(toks, d), d)
    decreases |toks|, 0, 1
  {
    NestedIsSound(RParen, toks, d);
    hide NestedItems, Lexed;
    var items := NestedItems(RParen, toks, d);
    if items.Ok? {
      assert Sound(Tuple(items.value), items.rest, d);
    }
  }

  lemma ListIsSound(toks: Tokens, d: nat)
    requires Stream(toks) && Lexed(toks) && d <= MAX_NESTING_DEPTH
    ensures Single(ListOf(toks, d), d)
    decreases |toks|, 4
  {
    TypeIsSound(toks, d);
    hide TypeOf, AfterItem, Lexed, Sound;
    var item := TypeOf(toks, d);
    if item.Ok? {
      ItemEndIsSound(item.value, item.rest, d);
    }
  }

  lemma ItemEndIsSound(item: Type, toks: Tokens, d: nat)
    requires Stream(toks) && Sound(item, toks, d)
    ensures Single(AfterItem(item, toks), d)
  {
    SoundParts(item, toks, d);
    LexedTail(toks);
    hide Lexed, Sound;
    if toks[0].kind == RBracket {
      ClosedItemSound(item, toks[1..], d, 0);
    } else if toks[0].kind == Semicolon && toks[1..][0].kind == Integer && toks[1..][1..][0].kind == RBracket {
      LexedTail(toks[1..]);
      LexedTail(toks[1..][1..]);
      ClosedItemSound(item, toks[1..][1..][1..], d, SizeOf(toks[1..][0].value));
    }
  }

  lemma ClosedItemSound(item: Type, rest: Tokens, d: nat, n: nat)
    requires Fine(item, d) && Stream(rest) && Lexed(rest) && n <= USIZE_MAX
    ensures Sound(List(item), rest, d) && Sound(FixedArray(item, n), rest, d)
  {
    hide Lexed;
  }

  lemma DictIsSound(toks: Tokens, d: nat)
    requires Stream(toks) && Lexed(toks) && d <= MAX_NESTING_DEPTH
    ensures Single(DictOf(toks, d), d)
    decreases |toks|, 4
  {
    TypeIsSound(toks, d);
    hide TypeOf, Lexed, Sound, DictValue;
    var key := TypeOf(toks, d);
    if key.Ok? {
      SoundParts(key.value, key.rest, d);
      if key.rest[0].kind == Colon {
        LexedTail(key.rest);
        DictValueIsSound(key.value, key.rest[1..], d);
      }
    }
  }

  lemma DictValueIsSound(key: Type, toks: Tokens, d: nat)
    requires Fine(key, d) && Stream(toks) && Lexed(toks) && d <= MAX_NESTING_DEPTH
    ensures Single(DictValue(key, toks, d), d)
    decreases |toks|, 4
  {
    TypeIsSound(toks, d);
    hide TypeOf, Lexed, Sound, Fine;
    var value := TypeOf(toks, d);
    if value.Ok? {
      SoundParts(value.value, value.rest, d);
      if value.rest[0].kind == RBrace {
        LexedTail(value.rest);
        DictSound(key, value.value, value.rest[1..], d);
      }
    }
  }

  lemma DictSound(key: Type, value: Type, rest: Tokens, d: nat)
    requires Fine(key, d) && Fine(value, d) && Stream(rest) && Lexed(rest)
    ensures Sound(Dict(key, value), rest, d)
  {
    hide Lexed;
  }

  lemma NamedIsSound(toks: Tokens, d: nat)
    requires Stream(toks) && Lexed(toks) && toks[0].kind == Identifier && d <= MAX_NESTING_DEPTH
    ensures Single(NamedOf(toks, d), d)
    decreases |toks|, 0, 1
  {
    LexedTail(toks);
    NamesAreSound(toks[1..]);
    hide Lexed, MoreNames, Sound, NestedItems, JoinWith, Segments, IsIdentifier, AllIdentifiers, SoundItems;
    var names := MoreNames(toks[1..]);
    if names.Ok? {
      var parts := [toks[0].value] + names.value;
      PartsAreSound(toks[0].value, names.value, parts);
      if names.rest[0].kind == LBracket {
        NestedIsSound(RBracket, names.rest, d);
        var args := NestedItems(RBracket, names.rest, d);
        if args.Ok? {
          GenericSound(parts, args.value, args.rest, d);
        }
      } else {
        PlainNameSound(parts, names.rest, d);
      }
    }
  }

  lemma PartsAreSound(name: string, names: seq<string>, parts: seq<string>)
    requires IsIdentifier(name) && AllIdentifiers(names) && parts == [name] + names
    ensures AllIdentifiers(parts) && Segments(JoinWith("::", parts)) == parts
  {
    forall k | 0 <= k < |parts|
      ensures NoColon(parts[k])
    {
      IdentifierHasNoColon(parts[k]);
    }
    SegmentsOfJoin(parts);
  }

  lemma GenericSound(parts: seq<string>, args: seq<Type>, rest: Tokens, d: nat)
    requires AllIdentifiers(parts) && Segments(JoinWith("::", parts)) == parts && SoundItems(args, rest, d + 1)
    ensures Sound(Generic(JoinWith("::", parts), args), rest, d)
  {
    hide Lexed, Segments, JoinWith, AllIdentifiers;
  }

  lemma PlainNameSound(parts: seq<string>, rest: Tokens, d: nat)
    requires parts != [] && AllIdentifiers(parts) && Stream(rest) && Lexed(rest) && d <= MAX_NESTING_DEPTH
    ensures |parts| == 1 ==> Sound(Name(parts[0]), rest, d)
    ensures |parts| > 1 ==> Sound(Qualified(parts), rest, d)
  {
    hide Lexed;
    assert IsIdentifier(parts[0]);
  }

  lemma FunctionIsSound(toks: Tokens, d: nat)
    requires Stream(toks) && Lexed(toks) && d < MAX_NESTING_DEPTH
    ensures Single(FunctionOf(toks, d + 1), d)
    decreases |toks|, 6
  {
    LexedTail(toks);
    hide Lexed, ClosedItems, TypeOf, SoundItems, Sound, Fine;
    if toks[0].kind == LParen {
      ClosedIsSound(RParen, toks[1..], d + 1);
      var params := ClosedItems(RParen, toks[1..], d + 1);
      if params.Ok? {
        ItemsParts(params.value, params.rest, d + 1);
        if params.rest[0].kind == Arrow {
          LexedTail(params.rest);
          TypeIsSound(params.rest[1..], d + 1);
          var ret := TypeOf(params.rest[1..], d + 1);
          if ret.Ok? {
            FunctionSound(params.value, ret.value, ret.rest, d);
          }
        }
      }
    }
  }

  lemma ItemsParts(items: seq<Type>, rest: Tokens, d: nat)
    requires SoundItems(items, rest, d)
    ensures FineItems(items, d) && Stream(rest) && Lexed(rest)
  {
  }

  lemma FunctionSound(params: seq<Type>, ret: Type, rest: Tokens, d: nat)
    requires FineItems(params, d + 1) && Sound(ret, rest, d + 1) && rest[0].kind != Pipe
    ensures Sound(Function(params, ret), rest, d)
  {
    hide Lexed;
  }

  // ---------------------------------------------------------------- the round trip

  /** Whatever the parser returns prints to tokens that are read back as the same type, at any depth that leaves
      room for its nesting and in front of anything that cannot continue it. */
  lemma ParsedTypesRoundTrip(toks: Tokens, d: nat, d': nat, after: Tokens)
    requires Stream(toks) && Lexed(toks) && d <= MAX_NESTING_DEPTH && TypeOf(toks, d).Ok?
    requires var t := TypeOf(toks, d).value; Nesting(t) + d' <= MAX_NESTING_DEPTH && Follows(t, after)
    requires after[0].kind != Pipe
    ensures var t := TypeOf(toks, d).value;
      Nesting(t) + d <= MAX_NESTING_DEPTH && Stream(Print(t, after)) && TypeOf(Print(t, after), d') == Ok(t, after)
  {
    hide TypeOf, Print, Printable, Nesting;
    TypeIsSound(toks, d);
    WholeRuns(TypeOf(toks, d).value, after, d');
  }

  /** A type survives printing and parsing if and only if it is of the printable shape and its nesting is within
      the limit. */
  lemma SurvivesExactly(t: Type, d: nat)
    requires d <= MAX_NESTING_DEPTH
    requires var toks := Print(t, [Sym(Eof)]); Stream(toks) && Lexed(toks)
    ensures TypeOf(Print(t, [Sym(Eof)]), d) == Ok(t, [Sym(Eof)])
            <==> Printable(t) && Nesting(t) + d <= MAX_NESTING_DEPTH
  {
    hide TypeOf, Print, Printable, Nesting;
    var toks := Print(t, [Sym(Eof)]);
    if TypeOf(toks, d) == Ok(t, [Sym(Eof)]) {
      TypeIsSound(toks, d);
    } else if Printable(t) && Nesting(t) + d <= MAX_NESTING_DEPTH {
      WholeRuns(t, [Sym(Eof)], d);
    }
  }

  lemma FlatUnion(a: Type, b: Type)
    requires a.Name? && b.Name? && Printable(a) && Printable(b)
    ensures Fine(Union(a, b), 0) && Fine(Function([], Union(a, b)), 0) && !EndsOpen(Union(a, b))
  {
    var u := Union(a, b);
    assert Printable(u) && Nesting(u) == 0;
  }

  lemma WideUnion(left: Type, c: Type, rest: Tokens)
    requires Fine(left, 0) && !EndsOpen(left) && c.Name? && Printable(c) && Follows(c, rest)
    ensures Fine(Union(left, c), 0) && Follows(Union(left, c), rest)
  {
    assert Nesting(c) == 0;
  }

  lemma SameTokens(a: Type, b: Type, c: Type, rest: Tokens)
    ensures Print(Union(Union(a, b), c), rest) == Print(Union(a, Union(b, c)), rest)
    ensures Print(Function([], Union(a, b)), rest) == Print(Union(Function([], a), b), rest)
  {
    var bc := Union(b, c);
    var ab := Union(a, b);
    var f := Function([], a);
    assert Print(bc, rest) == Print(b, [Sym(Pipe)] + Print(c, rest));
    assert Print(ab, rest) == Print(a, [Sym(Pipe)] + Print(b, rest));
    assert Print(ab, [Sym(Pipe)] + Print(c, rest)) == Print(a, [Sym(Pipe)] + Print(b, [Sym(Pipe)] + Print(c, rest)));
    assert forall r :: PrintItems([], r) == r;
    assert Print(f, [Sym(Pipe)] + Print(b, rest))
        == [Sym(Fn)] + ([Sym(LParen)] + ([Sym(RParen)] + ([Sym(Arrow)] + Print(a, [Sym(Pipe)] + Print(b, rest)))));
  }

  /** Parentheses are not printed: a union nested to the right comes back nested to the left. */
  lemma RightUnionIsLost(a: Type, b: Type, c: Type, rest: Tokens)
    requires a.Name? && b.Name? && c.Name?
    requires Printable(a) && Printable(b) && Printable(c) && Follows(c, rest) && rest[0].kind != Pipe
    ensures var toks := Print(Union(a, Union(b, c)), rest);
      Stream(toks) && TypeOf(toks, 0) == Ok(Union(Union(a, b), c), rest)
  {
    FlatUnion(a, b);
    SameTokens(a, b, c, rest);
    WideUnion(Union(a, b), c, rest);
    hide TypeOf, Print, Fine;
    WholeRuns(Union(Union(a, b), c), rest, 0);
  }

  /** A union whose left side ends in a function type comes back inside that function's return type. */
  lemma OpenUnionIsLost(a: Type, b: Type, rest: Tokens)
    requires a.Name? && b.Name?
    requires Printable(a) && Printable(b) && Follows(b, rest) && rest[0].kind != Pipe
    ensures var toks := Print(Union(Function([], a), b), rest);
      Stream(toks) && TypeOf(toks, 0) == Ok(Function([], Union(a, b)), rest)
  {
    FlatUnion(a, b);
    SameTokens(a, b, b, rest);
    hide TypeOf, Print;
    WholeRuns(Function([], Union(a, b)), rest, 0);
  }
}

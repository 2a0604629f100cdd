/** Which tokens spell which types, and that the parser accepts exactly those. */
module TypeSpelling {
  import opened TypeSyntax
  import opened TypeGrammar
  import opened TypeRoundTrip

  // ---------------------------------------------------------------- spelling

  /** Further names, each behind a dot, and no dot after them. */
  ghost predicate MoreDotted(names: seq<string>, toks: Tokens, rest: Tokens)
    decreases |names|
  {
    Stream(toks) &&
    if names == [] then toks == rest && toks[0].kind != Dot
    else
      && |toks| > 2 && toks[0].kind == Dot && toks[1].kind == Identifier && toks[1].value == names[0]
      && MoreDotted(names[1..], toks[2..], rest)
  }

  ghost predicate Dotted(parts: seq<string>, toks: Tokens, rest: Tokens)
  {
    && parts != [] && |toks| > 1 && toks[0].kind == Identifier && toks[0].value == parts[0]
    && MoreDotted(parts[1..], toks[1..], rest)
  }

  /** Token `kind` comes first, and something follows. */
  predicate Leads(kind: Kind, toks: Tokens)
  {
    Stream(toks) && |toks| > 1 && toks[0].kind == kind
  }

  /** The tokens spell `t` up to `rest`. A name ends where no dot or bracket follows, a function type where no `|`
      follows; unions take single types on their right, and so do signs. */
  ghost predicate Spells(t: Type, toks: Tokens, rest: Tokens)
    decreases t
  {
    Stream(toks) && Stream(rest) &&
    match t
    case Name(n) =>
      || (Leads(Null, toks) && n == "None" && rest == toks[1..])
      || (Leads(Identifier, toks) && n == toks[0].value && rest == toks[1..] && rest[0].kind != Dot && rest[0].kind != LBracket)
    case Qualified(parts) => |parts| > 1 && Dotted(parts, toks, rest) && rest[0].kind != LBracket
    case Generic(base, args) =>
      exists parts, mid :: IsGeneric(base, parts, toks, mid) && SpellsItems(args, RBracket, mid[1..], rest)
    case Tuple(items) => Leads(LParen, toks) && SpellsItems(items, RParen, toks[1..], rest)
    case List(item) =>
      Leads(LBracket, toks) && exists mid :: Spells(item, toks[1..], mid) && Closes(RBracket, mid, rest)
    case FixedArray(item, n) =>
      Leads(LBracket, toks) && exists mid :: Spells(item, toks[1..], mid) && EndsArray(n, mid, rest)
    case Dict(k, v) =>
      && Leads(LBrace, toks)
      && exists mid, end :: Spells(k, toks[1..], mid) && Leads(Colon, mid) && Spells(v, mid[1..], end) && Closes(RBrace, end, rest)
    case Union(a, b) =>
      !b.Union? && exists mid :: Spells(a, toks, mid) && Leads(Pipe, mid) && Spells(b, mid[1..], rest)
    case Function(params, ret) =>
      && Leads(Fn, toks) && Leads(LParen, toks[1..]) && rest[0].kind != Pipe
      && exists mid :: SpellsItems(params, RParen, toks[2..], mid) && Leads(Arrow, mid) && Spells(ret, mid[1..], rest)
    case Ref(inner) => Leads(Ampersand, toks) && toks[1].kind != Mut && !inner.Union? && Spells(inner, toks[1..], rest)
    case MutRef(inner) => Leads(Ampersand, toks) && Leads(Mut, toks[1..]) && !inner.Union? && Spells(inner, toks[2..], rest)
    case Ptr(inner) => Leads(Star, toks) && !inner.Union? && Spells(inner, toks[1..], rest)
  }

  /** The closing token, and then `rest`. */
  predicate Closes(kind: Kind, toks: Tokens, rest: Tokens)
  {
    Leads(kind, toks) && rest == toks[1..]
  }

  ghost predicate IsGeneric(base: string, parts: seq<string>, toks: Tokens, mid: Tokens)
  {
    base == JoinWith("::", parts) && Dotted(parts, toks, mid) && Leads(LBracket, mid)
  }

  predicate EndsArray(n: nat, mid: Tokens, rest: Tokens)
  {
    && Stream(mid) && |mid| > 3 && mid[0].kind == Semicolon && mid[1].kind == Integer && SizeOf(mid[1].value) == n
    && mid[2].kind == RBracket && rest == mid[3..]
  }

  /** The items, with commas between them and perhaps one behind the last, and their closing token. */
  ghost predicate SpellsItems(items: seq<Type>, close: Kind, toks: Tokens, rest: Tokens)
    decreases items
  {
    Stream(toks) && Stream(rest) &&
    if items == [] then Closes(close, toks, rest)
    else
      exists mid :: Spells(items[0], toks, mid) &&
        ((|items| == 1 && Closes(close, mid, rest)) || (Leads(Comma, mid) && SpellsItems(items[1..], close, mid[1..], rest)))
  }

  // ---------------------------------------------------------------- dotted names

  lemma {:induction false} NamesSpelled(toks: Tokens)
    requires Stream(toks)
    ensures forall names, rest :: MoreNames(toks) == Ok(names, rest) <==> MoreDotted(names, toks, rest)
    decreases |toks|
  {
    forall names, rest ensures MoreNames(toks) == Ok(names, rest) <==> MoreDotted(names, toks, rest) {
      if toks[0].kind == Dot && |toks| > 2 && toks[1].kind == Identifier {
        assert Expect(Identifier, toks[1..]) == Ok(toks[1].value, toks[2..]) by {
          assert toks[1..][0] == toks[1] && toks[1..][1..] == toks[2..];
        }
        NamesSpelled(toks[2..]);
        NamesStep(toks, names, rest);
      } else if toks[0].kind == Dot {
        assert toks[1..][0] == toks[1];
      }
    }
  }

  lemma {:induction false} NamesStep(toks: Tokens, names: seq<string>, rest: Tokens)
    requires Stream(toks) && |toks| > 2 && toks[0].kind == Dot && toks[1].kind == Identifier
    requires Expect(Identifier, toks[1..]) == Ok(toks[1].value, toks[2..])
    requires forall more, end :: MoreNames(toks[2..]) == Ok(more, end) <==> MoreDotted(more, toks[2..], end)
    ensures MoreNames(toks) == Ok(names, rest) <==> MoreDotted(names, toks, rest)
  {
    if names != [] {
      assert names == [names[0]] + names[1..];
    }
    var r := MoreNames(toks[2..]);
    if r.Ok? {
      assert ([toks[1].value] + r.value)[1..] == r.value;
    }
  }

  // ---------------------------------------------------------------- what is accepted is spelled

  /** `t` is spelled up to `rest` and within the nesting limit `d` levels down. */
  ghost predicate Spelled(t: Type, toks: Tokens, rest: Tokens, d: nat)
  {
    Spells(t, toks, rest) && Nesting(t) + d <= MAX_NESTING_DEPTH
  }

  ghost predicate SpelledItems(items: seq<Type>, close: Kind, toks: Tokens, rest: Tokens, d: nat)
  {
    SpellsItems(items, close, toks, rest) && NestingOf(items) + d <= MAX_NESTING_DEPTH
  }

  lemma {:induction false} SpelledIsStream(t: Type, toks: Tokens, rest: Tokens, d: nat)
    requires Spelled(t, toks, rest, d)
    ensures Stream(toks) && Stream(rest)
  {
  }

  lemma {:induction false} TypeSpelled(toks: Tokens, d: nat)
    requires Stream(toks) && d <= MAX_NESTING_DEPTH
    ensures var r := TypeOf(toks, d); r.Ok? ==> Spelled(r.value, toks, r.rest, d) && r.rest[0].kind != Pipe
    decreases |toks|, 3
  {
    var single := SingleOf(toks, d);
    assert single.Ok? ==> TypeOf(toks, d) == UnionTail(single.value, single.rest, d);
    assert !single.Ok? ==> !TypeOf(toks, d).Ok?;
    hide SingleOf, UnionTail, TypeOf, Spelled;
    SingleSpelled(toks, d);
    if single.Ok? {
      UnionSpelled(single.value, toks, single.rest, d);
    }
  }

  lemma {:induction false} UnionSpelled(left: Type, start: Tokens, toks: Tokens, d: nat)
    requires Stream(toks) && d <= MAX_NESTING_DEPTH && Spelled(left, start, toks, d) && |toks| <= |start|
    ensures var r := UnionTail(left, toks, d); r.Ok? ==> Spelled(r.value, start, r.rest, d) && r.rest[0].kind != Pipe
    decreases |toks|, 2
  {
    if toks[0].kind == Pipe {
      var right := SingleOf(toks[1..], d);
      assert right.Ok? ==> UnionTail(left, toks, d) == UnionTail(Union(left, right.value), right.rest, d);
      assert !right.Ok? ==> !UnionTail(left, toks, d).Ok?;
      hide SingleOf, UnionTail, Spelled;
      SingleSpelled(toks[1..], d);
      if right.Ok? {
        UnionIsSpelled(left, right.value, start, toks, right.rest, d);
        UnionSpelled(Union(left, right.value), start, right.rest, d);
      }
    }
  }

  lemma {:induction false} UnionUnfolds(a: Type, b: Type, toks: Tokens, rest: Tokens)
    requires Stream(toks) && Stream(rest) && !b.Union?
    ensures Spells(Union(a, b), toks, rest)
            <==> exists mid :: Spells(a, toks, mid) && Leads(Pipe, mid) && Spells(b, mid[1..], rest)
  {
    hide MoreDotted, Dotted, IsGeneric, EndsArray, SpellsItems, JoinWith, SizeOf, Leads, Closes, Stream;
  }

  lemma {:induction false} SpellsUnion(a: Type, b: Type, toks: Tokens, mid: Tokens, rest: Tokens)
    requires Stream(toks) && Stream(rest) && !b.Union? && Spells(a, toks, mid) && Leads(Pipe, mid) && Spells(b, mid[1..], rest)
    ensures Spells(Union(a, b), toks, rest)
  {
    hide Spells;
    UnionUnfolds(a, b, toks, rest);
  }

  lemma {:induction false} SpellsFirst(items: seq<Type>, close: Kind, toks: Tokens, mid: Tokens, rest: Tokens)
    requires items != [] && Stream(toks) && Stream(rest) && Spells(items[0], toks, mid)
    requires (|items| == 1 && Closes(close, mid, rest)) || (Leads(Comma, mid) && SpellsItems(items[1..], close, mid[1..], rest))
    ensures SpellsItems(items, close, toks, rest)
  {
    hide Spells;
  }

  lemma {:induction false} SpellsList(item: Type, toks: Tokens, mid: Tokens, rest: Tokens)
    requires Leads(LBracket, toks) && Spells(item, toks[1..], mid) && Closes(RBracket, mid, rest)
    ensures Spells(List(item), toks, rest)
  {
    assert Stream(rest);
    hide MoreDotted, Dotted, IsGeneric, EndsArray, SpellsItems, JoinWith, SizeOf;
  }

  lemma {:induction false} SpellsArray(item: Type, n: nat, toks: Tokens, mid: Tokens, rest: Tokens)
    requires Leads(LBracket, toks) && Spells(item, toks[1..], mid) && EndsArray(n, mid, rest)
    ensures Spells(FixedArray(item, n), toks, rest)
  {
    assert Stream(rest);
    hide MoreDotted, Dotted, IsGeneric, EndsArray, SpellsItems, JoinWith, SizeOf;
  }

  lemma {:induction false} DictUnfolds(key: Type, value: Type, toks: Tokens, rest: Tokens)
    requires Stream(toks) && Leads(LBrace, toks) && Stream(rest)
    ensures Spells(Dict(key, value), toks, rest)
            <==> exists mid, end :: Spells(key, toks[1..], mid) && Leads(Colon, mid) && Spells(value, mid[1..], end) && Closes(RBrace, end, rest)
  {
    hide MoreDotted, Dotted, IsGeneric, EndsArray, SpellsItems, JoinWith, SizeOf, Closes, Stream, Leads;
  }

  lemma {:induction false} SpellsDict(key: Type, value: Type, toks: Tokens, mid: Tokens, end: Tokens, rest: Tokens)
    requires Leads(LBrace, toks) && Spells(key, toks[1..], mid) && Leads(Colon, mid)
    requires Spells(value, mid[1..], end) && Closes(RBrace, end, rest)
    ensures Spells(Dict(key, value), toks, rest)
  {
    assert Stream(rest);
    hide Spells;
    DictUnfolds(key, value, toks, rest);
  }

  lemma {:induction false} SpellsFunction(params: seq<Type>, ret: Type, toks: Tokens, mid: Tokens, rest: Tokens)
    requires Leads(Fn, toks) && Leads(LParen, toks[1..]) && SpellsItems(params, RParen, toks[2..], mid)
    requires Leads(Arrow, mid) && Spells(ret, mid[1..], rest) && Stream(rest) && rest[0].kind != Pipe
    ensures Spells(Function(params, ret), toks, rest)
  {
    hide MoreDotted, Dotted, IsGeneric, EndsArray, SpellsItems, JoinWith, SizeOf;
  }

  lemma {:induction false} UnionIsSpelled(a: Type, b: Type, toks: Tokens, mid: Tokens, rest: Tokens, d: nat)
    requires Spelled(a, toks, mid, d) && Leads(Pipe, mid) && Spelled(b, mid[1..], rest, d) && !b.Union?
    ensures Spelled(Union(a, b), toks, rest, d)
  {
    hide Spells;
    SpelledIsStream(a, toks, mid, d);
    SpelledIsStream(b, mid[1..], rest, d);
    SpellsUnion(a, b, toks, mid, rest);
  }

  lemma {:induction false} ItemsSpelled(close: Kind, toks: Tokens, d: nat)
    requires Stream(toks) && d <= MAX_NESTING_DEPTH && close != Eof && close != Comma
    ensures var r := ItemsOf(close, toks, d);
      r.Ok? && r.rest[0].kind == close ==> SpelledItems(r.value, close, toks, r.rest[1..], d)
    decreases |toks|, 4
  {
    hide TypeOf, Spelled, SpelledItems;
    if toks[0].kind == close || toks[0].kind == Eof {
      if toks[0].kind == close {
        NoItemsSpelled(close, toks, d);
      }
    } else {
      TypeSpelled(toks, d);
      var item := TypeOf(toks, d);
      if item.Ok? {
        if item.rest[0].kind == Comma {
          ItemsSpelled(close, item.rest[1..], d);
          var more := ItemsOf(close, item.rest[1..], d);
          if more.Ok? && more.rest[0].kind == close {
            MoreItemsSpelled(item.value, more.value, close, toks, item.rest, more.rest[1..], d);
          }
        } else if item.rest[0].kind == close {
          LastItemSpelled(item.value, close, toks, item.rest, d);
        }
      }
    }
  }

  lemma {:induction false} NoItemsSpelled(close: Kind, toks: Tokens, d: nat)
    requires Leads(close, toks) && d <= MAX_NESTING_DEPTH
    ensures SpelledItems([], close, toks, toks[1..], d)
  {
  }

  lemma {:induction false} LastItemSpelled(item: Type, close: Kind, toks: Tokens, mid: Tokens, d: nat)
    requires Spelled(item, toks, mid, d) && Leads(close, mid)
    ensures SpelledItems([item], close, toks, mid[1..], d)
  {
    hide Spells, SpellsItems;
    SpelledIsStream(item, toks, mid, d);
    assert [item][0] == item && [item][1..] == [] && NestingOf([item][1..]) == 0;
    SpellsFirst([item], close, toks, mid, mid[1..]);
  }

  lemma {:induction false} MoreItemsSpelled(item: Type, items: seq<Type>, close: Kind, toks: Tokens, mid: Tokens, rest: Tokens, d: nat)
    requires Spelled(item, toks, mid, d) && Leads(Comma, mid) && SpelledItems(items, close, mid[1..], rest, d)
    ensures SpelledItems([item] + items, close, toks, rest, d)
  {
    var all := [item] + items;
    assert all[0] == item && all[1..] == items && Stream(rest);
    hide Spells, SpellsItems;
    SpelledIsStream(item, toks, mid, d);
    SpellsFirst(all, close, toks, mid, rest);
  }

  lemma {:induction false} ClosedSpelled(close: Kind, toks: Tokens, d: nat)
    requires Stream(toks) && d <= MAX_NESTING_DEPTH && close != Eof && close != Comma
    ensures var r := ClosedItems(close, toks, d); r.Ok? ==> SpelledItems(r.value, close, toks, r.rest, d)
    decreases |toks|, 5
  {
    hide ItemsOf, SpelledItems;
    ItemsSpelled(close, toks, d);
  }

  lemma {:induction false} SingleSpelled(toks: Tokens, d: nat)
    requires Stream(toks) && d <= MAX_NESTING_DEPTH
    ensures var r := SingleOf(toks, d); r.Ok? ==> Spelled(r.value, toks, r.rest, d) && !r.value.Union?
    decreases |toks|, 1
  {
    hide Spelled, NamedOf, TupleOf, ListOf, DictOf, FunctionOf;
    match toks[0].kind
    case Null => NoneSpelled(toks, d);
    case Identifier => NamedSpelled(toks, d);
    case LParen => TupleSpelled(toks, d);
    case LBracket => ListSpelled(toks, d);
    case LBrace => DictSpelled(toks, d);
    case Ampersand => ReferenceSpelled(toks, d);
    case Star => PointerSpelled(toks, d);
    case Fn =>
      if d < MAX_NESTING_DEPTH {
        FunctionSpelled(toks, d);
      }
    case _ =>
  }

  lemma {:induction false} NoneSpelled(toks: Tokens, d: nat)
    requires Leads(Null, toks) && d <= MAX_NESTING_DEPTH
    ensures Spelled(Name("None"), toks, toks[1..], d)
  {
  }

  lemma {:induction false} NamedSpelled(toks: Tokens, d: nat)
    requires Leads(Identifier, toks) && d <= MAX_NESTING_DEPTH
    ensures var r := NamedOf(toks, d); r.Ok? ==> Spelled(r.value, toks, r.rest, d) && !r.value.Union?
    decreases |toks|, 0, 1
  {
    hide MoreNames, Dotted, Spelled, ClosedItems, JoinWith, SpelledItems;
    NamedParts(toks);
    var names := MoreNames(toks[1..]);
    if names.Ok? {
      var parts, mid := [toks[0].value] + names.value, names.rest;
      if mid[0].kind == LBracket && d < MAX_NESTING_DEPTH {
        ClosedSpelled(RBracket, mid[1..], d + 1);
        GenericIsSpelled(toks, parts, mid, d);
      }
      if mid[0].kind != LBracket {
        PlainIsSpelled(toks, parts, mid, d);
      }
    }
  }

  lemma {:induction false} NamedParts(toks: Tokens)
    requires Leads(Identifier, toks)
    ensures var names := MoreNames(toks[1..]);
      names.Ok? ==> Stream(names.rest) && Dotted([toks[0].value] + names.value, toks, names.rest)
  {
    NamesSpelled(toks[1..]);
    var names := MoreNames(toks[1..]);
    if names.Ok? {
      assert ([toks[0].value] + names.value)[1..] == names.value;
    }
    hide MoreNames, MoreDotted;
  }

  lemma {:induction false} GenericIsSpelled(toks: Tokens, parts: seq<string>, mid: Tokens, d: nat)
    requires Stream(toks) && Dotted(parts, toks, mid) && Leads(LBracket, mid) && d < MAX_NESTING_DEPTH
    requires var r := ClosedItems(RBracket, mid[1..], d + 1); r.Ok? ==> SpelledItems(r.value, RBracket, mid[1..], r.rest, d + 1)
    ensures var r := ClosedItems(RBracket, mid[1..], d + 1);
      r.Ok? ==> Spelled(Generic(JoinWith("::", parts), r.value), toks, r.rest, d)
  {
    hide ClosedItems, Dotted, JoinWith, SpellsItems;
    var r := ClosedItems(RBracket, mid[1..], d + 1);
    if r.Ok? {
      assert IsGeneric(JoinWith("::", parts), parts, toks, mid);
      assert SpellsItems(r.value, RBracket, mid[1..], r.rest);
    }
  }

  lemma {:induction false} NamesEnd(names: seq<string>, toks: Tokens, rest: Tokens)
    requires MoreDotted(names, toks, rest)
    ensures Stream(rest) && rest[0].kind != Dot && |rest| <= |toks|
    decreases |names|
  {
    if names != [] {
      NamesEnd(names[1..], toks[2..], rest);
    }
  }

  lemma {:induction false} PlainIsSpelled(toks: Tokens, parts: seq<string>, rest: Tokens, d: nat)
    requires Stream(toks) && Stream(rest) && Dotted(parts, toks, rest) && rest[0].kind != LBracket && d <= MAX_NESTING_DEPTH
    ensures Spelled(if |parts| > 1 then Qualified(parts) else Name(parts[0]), toks, rest, d)
  {
    NamesEnd(parts[1..], toks[1..], rest);
    if |parts| == 1 {
      assert parts[1..] == [];
    }
  }

  lemma {:induction false} TupleSpelled(toks: Tokens, d: nat)
    requires Leads(LParen, toks) && d <= MAX_NESTING_DEPTH
    ensures var r := TupleOf(toks, d); r.Ok? ==> Spelled(r.value, toks, r.rest, d) && !r.value.Union?
    decreases |toks|, 0, 1
  {
    hide ClosedItems, SpellsItems;
    if d < MAX_NESTING_DEPTH {
      ClosedSpelled(RParen, toks[1..], d + 1);
    }
  }

  lemma {:induction false} ListSpelled(toks: Tokens, d: nat)
    requires Leads(LBracket, toks) && d <= MAX_NESTING_DEPTH
    ensures var r := ListOf(toks[1..], d); r.Ok? ==> Spelled(r.value, toks, r.rest, d) && !r.value.Union?
    decreases |toks|, 0, 1
  {
    hide TypeOf, Spelled, AfterItem;
    TypeSpelled(toks[1..], d);
    var item := TypeOf(toks[1..], d);
    if item.Ok? {
      AfterItemSpelled(item.value, toks, item.rest, d);
    }
  }

  lemma {:induction false} ListIsSpelled(item: Type, toks: Tokens, mid: Tokens, d: nat)
    requires Leads(LBracket, toks) && Spelled(item, toks[1..], mid, d) && Leads(RBracket, mid)
    ensures Spelled(List(item), toks, mid[1..], d)
  {
    hide Spells;
    SpelledIsStream(item, toks[1..], mid, d);
    SpellsList(item, toks, mid, mid[1..]);
  }

  lemma {:induction false} ArrayIsSpelled(item: Type, n: nat, toks: Tokens, mid: Tokens, rest: Tokens, d: nat)
    requires Leads(LBracket, toks) && Spelled(item, toks[1..], mid, d) && EndsArray(n, mid, rest)
    ensures Spelled(FixedArray(item, n), toks, rest, d)
  {
    hide Spells, SizeOf;
    SpellsArray(item, n, toks, mid, rest);
  }

  lemma {:induction false} AfterItemSpelled(item: Type, toks: Tokens, mid: Tokens, d: nat)
    requires Leads(LBracket, toks) && Stream(mid) && Spelled(item, toks[1..], mid, d)
    ensures var r := AfterItem(item, mid); r.Ok? ==> Spelled(r.value, toks, r.rest, d) && !r.value.Union?
  {
    hide Spelled, Spells, SizeOf;
    var r := AfterItem(item, mid);
    if r.Ok? {
      if mid[0].kind == Semicolon {
        assert mid[1..][0] == mid[1] && mid[1..][1..] == mid[2..] && mid[2..][0] == mid[2] && mid[2..][1..] == mid[3..];
        ArrayIsSpelled(item, SizeOf(mid[1].value), toks, mid, r.rest, d);
      } else {
        ListIsSpelled(item, toks, mid, d);
      }
    }
  }

  lemma {:induction false} DictSpelled(toks: Tokens, d: nat)
    requires Leads(LBrace, toks) && d <= MAX_NESTING_DEPTH
    ensures var r := DictOf(toks[1..], d); r.Ok? ==> Spelled(r.value, toks, r.rest, d) && !r.value.Union?
    decreases |toks|, 0, 1
  {
    hide TypeOf, Spelled;
    TypeSpelled(toks[1..], d);
    var key := TypeOf(toks[1..], d);
    if key.Ok? && key.rest[0].kind == Colon {
      TypeSpelled(key.rest[1..], d);
      var value := TypeOf(key.rest[1..], d);
      if value.Ok? && value.rest[0].kind == RBrace {
        DictIsSpelled(key.value, value.value, toks, key.rest, value.rest, d);
      }
    }
  }

  lemma {:induction false} DictIsSpelled(key: Type, value: Type, toks: Tokens, mid: Tokens, end: Tokens, d: nat)
    requires Leads(LBrace, toks) && Spelled(key, toks[1..], mid, d) && Leads(Colon, mid)
    requires Spelled(value, mid[1..], end, d) && Leads(RBrace, end)
    ensures Spelled(Dict(key, value), toks, end[1..], d)
  {
    hide Spells;
    SpellsDict(key, value, toks, mid, end, end[1..]);
  }

  lemma {:induction false} FunctionSpelled(toks: Tokens, d: nat)
    requires Leads(Fn, toks) && d < MAX_NESTING_DEPTH
    ensures var r := FunctionOf(toks[1..], d + 1); r.Ok? ==> Spelled(r.value, toks, r.rest, d) && !r.value.Union?
    decreases |toks|, 0, 1
  {
    hide TypeOf, ClosedItems, Spelled, SpelledItems;
    var paren := toks[1..];
    if paren[0].kind == LParen {
      assert paren[1..] == toks[2..];
      ClosedSpelled(RParen, toks[2..], d + 1);
      var params := ClosedItems(RParen, toks[2..], d + 1);
      if params.Ok? && params.rest[0].kind == Arrow {
        TypeSpelled(params.rest[1..], d + 1);
        var ret := TypeOf(params.rest[1..], d + 1);
        if ret.Ok? {
          FunctionIsSpelled(params.value, ret.value, toks, params.rest, ret.rest, d);
        }
      }
    }
  }

  lemma {:induction false} FunctionIsSpelled(params: seq<Type>, ret: Type, toks: Tokens, mid: Tokens, rest: Tokens, d: nat)
    requires Leads(Fn, toks) && Leads(LParen, toks[1..]) && SpelledItems(params, RParen, toks[2..], mid, d + 1)
    requires Leads(Arrow, mid) && Spelled(ret, mid[1..], rest, d + 1)
    requires Stream(rest) && rest[0].kind != Pipe
    ensures Spelled(Function(params, ret), toks, rest, d)
  {
    hide Spells, SpellsItems;
    SpellsFunction(params, ret, toks, mid, rest);
  }

  lemma {:induction false} ReferenceSpelled(toks: Tokens, d: nat)
    requires Leads(Ampersand, toks) && d <= MAX_NESTING_DEPTH
    ensures var r := SingleOf(toks, d); r.Ok? ==> Spelled(r.value, toks, r.rest, d) && !r.value.Union?
    decreases |toks|, 0, 1
  {
    hide Spelled;
    var mutable := toks[1].kind == Mut;
    var body := if mutable then toks[2..] else toks[1..];
    SingleSpelled(body, d);
    var inner := SingleOf(body, d);
    if mutable {
      assert toks[1..][1..] == body;
      MutEquation(toks, body, d);
    } else {
      SignEquation(toks, body, d);
    }
    hide SingleOf;
    if inner.Ok? {
      SignIsSpelled(if mutable then MutRef(inner.value) else Ref(inner.value), toks, body, inner.rest, d);
    }
  }

  lemma {:induction false} SpellsSign(t: Type, toks: Tokens, body: Tokens, rest: Tokens)
    requires t.Ref? || t.MutRef? || t.Ptr?
    requires Spells(t.inner, body, rest) && !t.inner.Union? && Stream(toks) && Stream(rest)
    requires t.Ptr? ==> Leads(Star, toks) && body == toks[1..]
    requires t.Ref? ==> Leads(Ampersand, toks) && toks[1].kind != Mut && body == toks[1..]
    requires t.MutRef? ==> Leads(Ampersand, toks) && Leads(Mut, toks[1..]) && body == toks[2..]
    ensures Spells(t, toks, rest)
  {
    hide MoreDotted, Dotted, IsGeneric, EndsArray, SpellsItems, JoinWith, SizeOf, Closes;
  }

  /** A reference or a pointer to what is spelled behind its sign. */
  lemma {:induction false} SignIsSpelled(t: Type, toks: Tokens, body: Tokens, rest: Tokens, d: nat)
    requires t.Ref? || t.MutRef? || t.Ptr?
    requires Spelled(t.inner, body, rest, d) && !t.inner.Union? && Stream(toks)
    requires t.Ptr? ==> Leads(Star, toks) && body == toks[1..]
    requires t.Ref? ==> Leads(Ampersand, toks) && toks[1].kind != Mut && body == toks[1..]
    requires t.MutRef? ==> Leads(Ampersand, toks) && Leads(Mut, toks[1..]) && body == toks[2..]
    ensures Spelled(t, toks, rest, d)
  {
    assert Nesting(t) == Nesting(t.inner) by {
      hide Spells, Spelled, Leads;
    }
    hide Spells, Leads, Nesting;
    SpelledIsStream(t.inner, body, rest, d);
    SpellsSign(t, toks, body, rest);
  }

  lemma {:induction false} PointerSpelled(toks: Tokens, d: nat)
    requires Leads(Star, toks) && d <= MAX_NESTING_DEPTH
    ensures var r := SingleOf(toks, d); r.Ok? ==> Spelled(r.value, toks, r.rest, d) && !r.value.Union?
    decreases |toks|, 0, 1
  {
    hide Spelled;
    SignEquation(toks, toks[1..], d);
    SingleSpelled(toks[1..], d);
    var inner := SingleOf(toks[1..], d);
    hide SingleOf;
    if inner.Ok? {
      SignIsSpelled(Ptr(inner.value), toks, toks[1..], inner.rest, d);
    }
  }

  // ---------------------------------------------------------------- what is spelled is accepted

  lemma {:induction false} FirstOfSpelled(t: Type, toks: Tokens, rest: Tokens)
    requires Spells(t, toks, rest)
    ensures Stream(toks) && Stream(rest) && Starts(toks[0].kind)
    decreases t
  {
    if t.Union? {
      var mid :| Spells(t.left, toks, mid) && Leads(Pipe, mid) && Spells(t.right, mid[1..], rest);
      FirstOfSpelled(t.left, toks, mid);
    }
  }

  lemma {:induction false} Unfold(toks: Tokens)
    requires Stream(toks)
    ensures toks == [toks[0]] + toks[1..]
  {
  }

  lemma {:induction false} TypeParses(t: Type, toks: Tokens, rest: Tokens, d: nat)
    requires Spelled(t, toks, rest, d)
    ensures Stream(toks) && Stream(rest) && TypeOf(toks, d) == UnionTail(t, rest, d)
    decreases t, 1
  {
    if t.Union? {
      var a, b := t.left, t.right;
      var mid :| Spells(a, toks, mid) && Leads(Pipe, mid) && Spells(b, mid[1..], rest);
      assert Spelled(a, toks, mid, d) && Spelled(b, mid[1..], rest, d) && Stream(rest) && !b.Union?;
      hide TypeOf, UnionTail, SingleOf, Spells, Spelled;
      TypeParses(a, toks, mid, d);
      SingleParses(b, mid[1..], rest, d);
      Unfold(mid);
      UnionStep(a, mid[0], mid[1..], b, rest, d);
    } else {
      hide UnionTail, SingleOf;
      SingleParses(t, toks, rest, d);
    }
  }

  lemma {:induction false} WholeParses(t: Type, toks: Tokens, rest: Tokens, d: nat)
    requires Spelled(t, toks, rest, d) && Stream(rest) && rest[0].kind != Pipe
    ensures Stream(toks) && TypeOf(toks, d) == Ok(t, rest)
    decreases t, 2
  {
    hide TypeOf, Spelled;
    TypeParses(t, toks, rest, d);
  }

  lemma {:induction false} ItemParts(items: seq<Type>, close: Kind, toks: Tokens, rest: Tokens, d: nat) returns (mid: Tokens)
    requires SpelledItems(items, close, toks, rest, d) && items != [] && (close == RParen || close == RBracket)
    ensures Spelled(items[0], toks, mid, d) && Stream(toks) && Stream(mid) && Starts(toks[0].kind)
    ensures Leads(close, mid) || Leads(Comma, mid)
    ensures if Leads(Comma, mid) then SpelledItems(items[1..], close, mid[1..], rest, d) else |items| == 1 && rest == mid[1..]
  {
    mid :| Spells(items[0], toks, mid) &&
      ((|items| == 1 && Closes(close, mid, rest)) || (Leads(Comma, mid) && SpellsItems(items[1..], close, mid[1..], rest)));
    FirstOfSpelled(items[0], toks, mid);
    hide Spells, SpellsItems;
  }

  lemma {:induction false} NoItemsParse(close: Kind, toks: Tokens, rest: Tokens, d: nat)
    requires SpelledItems([], close, toks, rest, d) && (close == RParen || close == RBracket)
    ensures Stream(toks) && ItemsOf(close, toks, d) == Ok([], toks) && Leads(close, toks) && rest == toks[1..]
  {
  }

  lemma {:induction false} ItemsParse(items: seq<Type>, close: Kind, toks: Tokens, rest: Tokens, d: nat) returns (end: Tokens)
    requires SpelledItems(items, close, toks, rest, d) && (close == RParen || close == RBracket)
    ensures Stream(toks) && ItemsOf(close, toks, d) == Ok(items, end) && Leads(close, end) && rest == end[1..]
    decreases items, 0
  {
    hide TypeOf, ItemsOf, Spelled, SpelledItems;
    if items == [] {
      end := toks;
      NoItemsParse(close, toks, rest, d);
    } else {
      var item, more := items[0], items[1..];
      var mid := ItemParts(items, close, toks, rest, d);
      WholeParses(item, toks, mid, d);
      if Leads(Comma, mid) {
        end := ItemsParse(more, close, mid[1..], rest, d);
        ItemStep(close, toks, item, mid, more, end, d);
        assert [item] + more == items;
      } else {
        end := mid;
        LastItemStep(close, toks, item, mid, d);
        assert items == [item];
      }
    }
  }

  lemma {:induction false} ClosedParses(items: seq<Type>, close: Kind, toks: Tokens, rest: Tokens, d: nat)
    requires SpelledItems(items, close, toks, rest, d) && (close == RParen || close == RBracket)
    ensures Stream(toks) && ClosedItems(close, toks, d) == Ok(items, rest)
    decreases items, 1
  {
    hide ItemsOf, SpelledItems;
    var end := ItemsParse(items, close, toks, rest, d);
  }

  lemma {:induction false} SingleParses(t: Type, toks: Tokens, rest: Tokens, d: nat)
    requires Spelled(t, toks, rest, d) && !t.Union?
    ensures Stream(toks) && Stream(rest) && SingleOf(toks, d) == Ok(t, rest)
    decreases t, 0, 1
  {
    SpelledIsStream(t, toks, rest, d);
    hide SingleOf, Spelled;
    match t
    case Name(_) => NameParses(t, toks, rest, d);
    case Qualified(_) => QualifiedParses(t, toks, rest, d);
    case Generic(_, _) => GenericParses(t, toks, rest, d);
    case Tuple(_) => TupleParses(t, toks, rest, d);
    case List(_) => ListParses(t, toks, rest, d);
    case FixedArray(_, _) => ArrayParses(t, toks, rest, d);
    case Dict(_, _) => DictParses(t, toks, rest, d);
    case Function(_, _) => FunctionParses(t, toks, rest, d);
    case Ref(_) => SignParses(t, toks, rest, d);
    case Ptr(_) => SignParses(t, toks, rest, d);
    case MutRef(_) => MutRefParses(t, toks, rest, d);
  }

  lemma {:induction false} GenericParses(t: Type, toks: Tokens, rest: Tokens, d: nat)
    requires t.Generic? && Spelled(t, toks, rest, d)
    ensures Stream(toks) && SingleOf(toks, d) == Ok(t, rest)
    decreases t, 0, 0
  {
    hide SingleOf, Spelled, SpelledItems, ClosedItems, MoreNames, JoinWith;
    var parts, mid := GenericParts(t, toks, rest, d);
    ClosedParses(t.args, RBracket, mid[1..], rest, d + 1);
    assert [toks[0].value] + parts[1..] == parts;
    GenericStep(toks, parts[1..], mid, t.args, rest, d);
  }

  lemma {:induction false} GenericParts(t: Type, toks: Tokens, rest: Tokens, d: nat) returns (parts: seq<string>, mid: Tokens)
    requires t.Generic? && Spelled(t, toks, rest, d)
    ensures parts != [] && Leads(Identifier, toks) && toks[0].value == parts[0] && t.base == JoinWith("::", parts)
    ensures MoreNames(toks[1..]) == Ok(parts[1..], mid) && Leads(LBracket, mid) && d < MAX_NESTING_DEPTH
    ensures SpelledItems(t.args, RBracket, mid[1..], rest, d + 1)
  {
    parts, mid :| IsGeneric(t.base, parts, toks, mid) && SpellsItems(t.args, RBracket, mid[1..], rest);
    NamesSpelled(toks[1..]);
    assert MoreDotted(parts[1..], toks[1..], mid);
    hide Spells, SpellsItems, MoreDotted, MoreNames, JoinWith;
  }

  lemma {:induction false} TupleParses(t: Type, toks: Tokens, rest: Tokens, d: nat)
    requires t.Tuple? && Spelled(t, toks, rest, d)
    ensures Stream(toks) && SingleOf(toks, d) == Ok(t, rest)
    decreases t, 0, 0
  {
    assert SpelledItems(t.items, RParen, toks[1..], rest, d + 1);
    hide SingleOf, Spells, SpelledItems, ClosedItems;
    ClosedParses(t.items, RParen, toks[1..], rest, d + 1);
    Unfold(toks);
    TupleStep(toks[0], toks[1..], t.items, rest, d);
  }

  lemma {:induction false} ListParses(t: Type, toks: Tokens, rest: Tokens, d: nat)
    requires t.List? && Spelled(t, toks, rest, d)
    ensures Stream(toks) && SingleOf(toks, d) == Ok(t, rest)
    decreases t, 0, 0
  {
    var mid :| Spells(t.item, toks[1..], mid) && Closes(RBracket, mid, rest);
    assert Spelled(t.item, toks[1..], mid, d);
    hide SingleOf, TypeOf, Spells, Spelled;
    WholeParses(t.item, toks[1..], mid, d);
    Unfold(toks);
    ListStep(toks[0], toks[1..], t.item, mid, d);
  }

  lemma {:induction false} ArrayParses(t: Type, toks: Tokens, rest: Tokens, d: nat)
    requires t.FixedArray? && Spelled(t, toks, rest, d)
    ensures Stream(toks) && SingleOf(toks, d) == Ok(t, rest)
    decreases t, 0, 0
  {
    var mid :| Spells(t.item, toks[1..], mid) && EndsArray(t.size, mid, rest);
    assert Spelled(t.item, toks[1..], mid, d);
    hide SingleOf, TypeOf, Spells, Spelled, SizeOf;
    WholeParses(t.item, toks[1..], mid, d);
    Unfold(toks);
    ArrayStep(toks[0], toks[1..], t.item, mid, d);
  }

  lemma {:induction false} DictParses(t: Type, toks: Tokens, rest: Tokens, d: nat)
    requires t.Dict? && Spelled(t, toks, rest, d)
    ensures Stream(toks) && SingleOf(toks, d) == Ok(t, rest)
    decreases t, 0, 0
  {
    var mid, end :| Spells(t.key, toks[1..], mid) && Leads(Colon, mid) && Spells(t.value, mid[1..], end) && Closes(RBrace, end, rest);
    assert Spelled(t.key, toks[1..], mid, d) && Spelled(t.value, mid[1..], end, d);
    hide SingleOf, TypeOf, Spells, Spelled;
    WholeParses(t.key, toks[1..], mid, d);
    WholeParses(t.value, mid[1..], end, d);
    Unfold(toks);
    DictStep(toks[0], toks[1..], t.key, mid, t.value, end, d);
  }

  lemma {:induction false} SignParses(t: Type, toks: Tokens, rest: Tokens, d: nat)
    requires (t.Ref? || t.Ptr?) && Spelled(t, toks, rest, d)
    ensures Stream(toks) && SingleOf(toks, d) == Ok(t, rest)
    decreases t, 0, 0
  {
    assert Spelled(t.inner, toks[1..], rest, d) && !t.inner.Union?;
    assert toks[0].kind == Star || (toks[0].kind == Ampersand && toks[1].kind != Mut);
    assert t.Ptr? <==> toks[0].kind == Star;
    Unfold(toks);
    hide SingleOf, Spells, Spelled;
    SingleParses(t.inner, toks[1..], rest, d);
    SignStep(toks[0], toks[1..], t.inner, rest, d);
  }

  lemma {:induction false} MutRefParses(t: Type, toks: Tokens, rest: Tokens, d: nat)
    requires t.MutRef? && Spelled(t, toks, rest, d)
    ensures Stream(toks) && SingleOf(toks, d) == Ok(t, rest)
    decreases t, 0, 0
  {
    assert Spelled(t.inner, toks[2..], rest, d) && !t.inner.Union?;
    assert toks == [toks[0]] + ([toks[1]] + toks[2..]) && Stream(toks[2..]);
    hide SingleOf, Spells, Spelled;
    SingleParses(t.inner, toks[2..], rest, d);
    MutRefStep(toks[0], toks[1], toks[2..], t.inner, rest, d);
  }

  lemma {:induction false} NameParses(t: Type, toks: Tokens, rest: Tokens, d: nat)
    requires t.Name? && Spelled(t, toks, rest, d)
    ensures SingleOf(toks, d) == Ok(t, rest)
  {
    if toks[0].kind == Identifier {
      assert MoreNames(rest) == Ok([], rest);
      NamedStep(toks, [], rest, d);
    }
  }

  lemma {:induction false} QualifiedParses(t: Type, toks: Tokens, rest: Tokens, d: nat)
    requires t.Qualified? && Spelled(t, toks, rest, d)
    ensures SingleOf(toks, d) == Ok(t, rest)
  {
    NamesSpelled(toks[1..]);
    assert MoreNames(toks[1..]) == Ok(t.parts[1..], rest);
    hide MoreNames, SingleOf, MoreDotted;
    NamedStep(toks, t.parts[1..], rest, d);
    assert [t.parts[0]] + t.parts[1..] == t.parts;
  }

  lemma {:induction false} FunctionParts(t: Type, toks: Tokens, rest: Tokens, d: nat) returns (mid: Tokens)
    requires t.Function? && Spelled(t, toks, rest, d)
    ensures Leads(Fn, toks) && Leads(LParen, toks[1..]) && Stream(rest) && rest[0].kind != Pipe
    ensures SpelledItems(t.params, RParen, toks[2..], mid, d + 1) && Leads(Arrow, mid) && Spelled(t.ret, mid[1..], rest, d + 1)
    ensures d < MAX_NESTING_DEPTH
  {
    mid :| SpellsItems(t.params, RParen, toks[2..], mid) && Leads(Arrow, mid) && Spells(t.ret, mid[1..], rest);
    hide Spells, SpellsItems;
  }

  lemma {:induction false} FunctionParses(t: Type, toks: Tokens, rest: Tokens, d: nat)
    requires t.Function? && Spelled(t, toks, rest, d)
    ensures SingleOf(toks, d) == Ok(t, rest)
    decreases t, 0, 0
  {
    var params, ret := t.params, t.ret;
    var mid := FunctionParts(t, toks, rest, d);
    assert toks[1..][1..] == toks[2..];
    hide SingleOf, TypeOf, Spells, Spelled, SpelledItems, ClosedItems, SpellsItems;
    ClosedParses(params, RParen, toks[2..], mid, d + 1);
    WholeParses(ret, mid[1..], rest, d + 1);
    Unfold(toks);
    FunctionStep(toks[0], toks[1..], params, mid, ret, rest, d);
  }

  // ---------------------------------------------------------------- both ways

  /** The parser reads type `t` and leaves `rest` exactly when the tokens spell `t` up to there, no `|` follows, and
      its nesting is within the limit: a problem is reported exactly when no such type is spelled. */
  lemma {:induction false} AcceptsExactly(toks: Tokens, d: nat, t: Type, rest: Tokens)
    requires Stream(toks) && d <= MAX_NESTING_DEPTH
    ensures TypeOf(toks, d) == Ok(t, rest)
            <==> Spells(t, toks, rest) && Stream(rest) && rest[0].kind != Pipe && Nesting(t) + d <= MAX_NESTING_DEPTH
  {
    TypeSpelled(toks, d);
    if Spells(t, toks, rest) && Stream(rest) && rest[0].kind != Pipe && Nesting(t) + d <= MAX_NESTING_DEPTH {
      WholeParses(t, toks, rest, d);
    }
    hide TypeOf, Spells, Nesting;
  }

  /** The same for a single type, whatever follows it. */
  lemma {:induction false} SingleAcceptsExactly(toks: Tokens, d: nat, t: Type, rest: Tokens)
    requires Stream(toks) && d <= MAX_NESTING_DEPTH
    ensures SingleOf(toks, d) == Ok(t, rest) <==> !t.Union? && Spells(t, toks, rest) && Nesting(t) + d <= MAX_NESTING_DEPTH
  {
    SingleSpelled(toks, d);
    if !t.Union? && Spells(t, toks, rest) && Nesting(t) + d <= MAX_NESTING_DEPTH {
      SingleParses(t, toks, rest, d);
    }
    hide SingleOf, Spells, Nesting;
  }

  /** `t` is all there is to read before `rest`, `d` levels down. */
  ghost predicate Readable(t: Type, toks: Tokens, rest: Tokens, d: nat)
  {
    Spells(t, toks, rest) && Stream(rest) && rest[0].kind != Pipe && Nesting(t) + d <= MAX_NESTING_DEPTH
  }

  ghost predicate ReadableSingle(t: Type, toks: Tokens, rest: Tokens, d: nat)
  {
    !t.Union? && Spells(t, toks, rest) && Nesting(t) + d <= MAX_NESTING_DEPTH
  }

  lemma {:induction false} AcceptsReadable(toks: Tokens, d: nat)
    requires Stream(toks) && d <= MAX_NESTING_DEPTH
    ensures forall t, rest :: TypeOf(toks, d) == Ok(t, rest) <==> Readable(t, toks, rest, d)
    ensures forall t, rest :: SingleOf(toks, d) == Ok(t, rest) <==> ReadableSingle(t, toks, rest, d)
  {
    hide TypeOf, SingleOf, Spells, Nesting;
    forall t, rest ensures TypeOf(toks, d) == Ok(t, rest) <==> Readable(t, toks, rest, d) {
      AcceptsExactly(toks, d, t, rest);
    }
    forall t, rest ensures SingleOf(toks, d) == Ok(t, rest) <==> ReadableSingle(t, toks, rest, d) {
      SingleAcceptsExactly(toks, d, t, rest);
    }
  }
}

/** Printing a type and parsing the tokens gives the type back, for exactly the types the parser can produce. */
module TypeRoundTrip {
  import opened TypeSyntax
  import opened TypeGrammar

  /** Tokens that cannot be taken for more of `t`. */
  predicate Follows(t: Type, rest: Tokens)
  {
    && Stream(rest) && rest[0].kind != Dot && rest[0].kind != LBracket
    && (EndsOpen(t) ==> rest[0].kind != Pipe)
  }

  lemma Front(tok: Token, rest: Tokens)
    requires Stream(rest)
    ensures Stream([tok] + rest) && ([tok] + rest)[0] == tok && ([tok] + rest)[1..] == rest
  {
  }

  // ---------------------------------------------------------------- dotted names

  lemma DotStep(dot: Token, word: Token, tail: Tokens, names: seq<string>, rest: Tokens)
    requires dot.kind == Dot && word.kind == Identifier && Stream(tail) && MoreNames(tail) == Ok(names, rest)
    ensures Stream([dot] + ([word] + tail)) && MoreNames([dot] + ([word] + tail)) == Ok([word.value] + names, rest)
  {
    var toks, words := [dot] + ([word] + tail), [word] + tail;
    Front(word, tail);
    Front(dot, words);
    assert Expect(Identifier, toks[1..]) == Ok(word.value, tail);
  }

  lemma FirstIdentifier(names: seq<string>)
    requires AllIdentifiers(names) && names != []
    ensures Word(names[0]) == Token(Identifier, names[0]) && AllIdentifiers(names[1..])
  {
    assert IsIdentifier(names[0]);
  }

  lemma {:induction false} NamesRun(names: seq<string>, rest: Tokens)
    requires AllIdentifiers(names) && Stream(rest) && rest[0].kind != Dot
    ensures Stream(DotNames(names, rest)) && MoreNames(DotNames(names, rest)) == Ok(names, rest)
    decreases |names|
  {
    if names == [] {
      assert DotNames(names, rest) == rest;
    } else {
      FirstIdentifier(names);
      var tail := DotNames(names[1..], rest);
      assert DotNames(names, rest) == [Sym(Dot)] + ([Word(names[0])] + tail);
      assert [names[0]] + names[1..] == names;
      hide MoreNames, DotNames, AllIdentifiers, IsIdentifier, Word;
      NamesRun(names[1..], rest);
      DotStep(Sym(Dot), Word(names[0]), tail, names[1..], rest);
    }
  }

  /** A dotted name read up to whatever follows it. */
  lemma DottedRuns(parts: seq<string>, rest: Tokens)
    requires parts != [] && AllIdentifiers(parts) && Stream(rest) && rest[0].kind != Dot
    ensures var toks := DottedTokens(parts, rest);
      Stream(toks) && toks[0] == Token(Identifier, parts[0]) && MoreNames(toks[1..]) == Ok(parts[1..], rest)
  {
    FirstIdentifier(parts);
    hide MoreNames, AllIdentifiers;
    NamesRun(parts[1..], rest);
    Front(Word(parts[0]), DotNames(parts[1..], rest));
  }

  lemma {:induction false} JoinSegments(s: string)
    ensures JoinWith("::", Segments(s)) == s
  {
    if |s| >= 2 {
      if s[0] == ':' && s[1] == ':' {
        JoinSegments(s[2..]);
        assert Segments(s)[1..] == Segments(s[2..]);
        assert s == "" + "::" + s[2..];
      } else {
        JoinSegments(s[1..]);
        var rest := Segments(s[1..]);
        assert Segments(s)[1..] == rest[1..];
        assert s == [s[0]] + s[1..];
      }
    }
  }

  lemma BaseParts(s: string, parts: seq<string>)
    requires parts == Segments(s)
    ensures JoinWith("::", [parts[0]] + parts[1..]) == s
  {
    JoinSegments(s);
    assert [parts[0]] + parts[1..] == parts;
  }

  // ---------------------------------------------------------------- one step of the parser

  lemma NamedStep(toks: Tokens, names: seq<string>, rest: Tokens, d: nat)
    requires Stream(toks) && toks[0].kind == Identifier && MoreNames(toks[1..]) == Ok(names, rest)
    requires rest[0].kind != LBracket
    ensures var parts := [toks[0].value] + names;
      SingleOf(toks, d) == Ok(if names == [] then Name(toks[0].value) else Qualified(parts), rest)
  {
    hide MoreNames, NestedItems;
    assert SingleOf(toks, d) == NamedOf(toks, d);
  }

  lemma GenericStep(toks: Tokens, names: seq<string>, open: Tokens, args: seq<Type>, rest: Tokens, d: nat)
    requires Stream(toks) && toks[0].kind == Identifier && MoreNames(toks[1..]) == Ok(names, open)
    requires open[0].kind == LBracket && d < MAX_NESTING_DEPTH
    requires Stream(open[1..]) && ClosedItems(RBracket, open[1..], d + 1) == Ok(args, rest)
    ensures SingleOf(toks, d) == Ok(Generic(JoinWith("::", [toks[0].value] + names), args), rest)
  {
    hide MoreNames, ClosedItems, JoinWith;
    assert NestedItems(RBracket, open, d) == Ok(args, rest);
    assert SingleOf(toks, d) == NamedOf(toks, d);
  }

  lemma TupleStep(tok: Token, closed: Tokens, items: seq<Type>, rest: Tokens, d: nat)
    requires tok.kind == LParen && Stream(closed) && d < MAX_NESTING_DEPTH
    requires ClosedItems(RParen, closed, d + 1) == Ok(items, rest)
    ensures Stream([tok] + closed) && SingleOf([tok] + closed, d) == Ok(Tuple(items), rest)
  {
    hide ClosedItems;
    var toks := [tok] + closed;
    Front(tok, closed);
    assert NestedItems(RParen, toks, d) == Ok(items, rest);
    assert SingleOf(toks, d) == TupleOf(toks, d);
  }

  lemma DictStep(tok: Token, body: Tokens, key: Type, colon: Tokens, value: Type, close: Tokens, d: nat)
    requires tok.kind == LBrace && Stream(body) && TypeOf(body, d) == Ok(key, colon)
    requires colon[0].kind == Colon && Stream(colon[1..]) && TypeOf(colon[1..], d) == Ok(value, close)
    requires close[0].kind == RBrace
    ensures Stream([tok] + body) && SingleOf([tok] + body, d) == Ok(Dict(key, value), close[1..])
  {
    hide TypeOf;
    var toks := [tok] + body;
    Front(tok, body);
    assert DictValue(key, colon[1..], d) == Ok(Dict(key, value), close[1..]);
    assert DictOf(body, d) == DictValue(key, colon[1..], d);
    assert SingleOf(toks, d) == DictOf(body, d);
  }

  lemma FunctionStep(tok: Token, paren: Tokens, params: seq<Type>, arrow: Tokens, ret: Type, rest: Tokens, d: nat)
    requires tok.kind == Fn && Stream(paren) && paren[0].kind == LParen && d < MAX_NESTING_DEPTH
    requires Stream(paren[1..]) && ClosedItems(RParen, paren[1..], d + 1) == Ok(params, arrow)
    requires arrow[0].kind == Arrow && Stream(arrow[1..]) && TypeOf(arrow[1..], d + 1) == Ok(ret, rest)
    ensures Stream([tok] + paren) && SingleOf([tok] + paren, d) == Ok(Function(params, ret), rest)
  {
    hide TypeOf, ClosedItems;
    var toks := [tok] + paren;
    Front(tok, paren);
    assert FunctionOf(paren, d + 1) == Ok(Function(params, ret), rest);
    assert SingleOf(toks, d) == FunctionOf(paren, d + 1);
  }

  lemma ListStep(tok: Token, body: Tokens, item: Type, close: Tokens, d: nat)
    requires tok.kind == LBracket && Stream(body) && TypeOf(body, d) == Ok(item, close) && close[0].kind == RBracket
    ensures Stream([tok] + body) && SingleOf([tok] + body, d) == Ok(List(item), close[1..])
  {
    hide TypeOf;
    var toks := [tok] + body;
    Front(tok, body);
    assert SingleOf(toks, d) == ListOf(body, d);
  }

  lemma ArrayStep(tok: Token, body: Tokens, item: Type, semi: Tokens, d: nat)
    requires tok.kind == LBracket && Stream(body) && TypeOf(body, d) == Ok(item, semi)
    requires Stream(semi) && |semi| > 3 && semi[0].kind == Semicolon && semi[1].kind == Integer
    requires semi[2].kind == RBracket
    ensures Stream([tok] + body)
    ensures SingleOf([tok] + body, d) == Ok(FixedArray(item, SizeOf(semi[1].value)), semi[3..])
  {
    hide TypeOf, SizeOf;
    var toks := [tok] + body;
    Front(tok, body);
    assert semi[1..][1..] == semi[2..] && semi[2..][1..] == semi[3..];
    assert AfterItem(item, semi) == Ok(FixedArray(item, SizeOf(semi[1].value)), semi[3..]);
    assert SingleOf(toks, d) == ListOf(body, d);
  }

  lemma SignStep(tok: Token, body: Tokens, inner: Type, rest: Tokens, d: nat)
    requires Stream(body) && SingleOf(body, d) == Ok(inner, rest)
    requires tok.kind == Star || (tok.kind == Ampersand && body[0].kind != Mut)
    ensures Stream([tok] + body)
    ensures SingleOf([tok] + body, d) == Ok(if tok.kind == Star then Ptr(inner) else Ref(inner), rest)
  {
    var toks := [tok] + body;
    Front(tok, body);
    assert toks[1] == body[0];
    SignEquation(toks, body, d);
  }

  lemma SignEquation(toks: Tokens, body: Tokens, d: nat)
    requires Stream(toks) && Stream(body) && body == toks[1..]
    requires toks[0].kind == Star || (toks[0].kind == Ampersand && toks[1].kind != Mut)
    ensures SingleOf(toks, d) == Wrap(toks[0], SingleOf(body, d), false)
  {
  }

  lemma MutEquation(toks: Tokens, body: Tokens, d: nat)
    requires Stream(toks) && Stream(body) && |toks| > 2 && body == toks[1..][1..]
    requires toks[0].kind == Ampersand && toks[1].kind == Mut
    ensures SingleOf(toks, d) == Wrap(toks[0], SingleOf(body, d), true)
  {
  }

  lemma MutRefStep(tok: Token, mut: Token, body: Tokens, inner: Type, rest: Tokens, d: nat)
    requires tok.kind == Ampersand && mut.kind == Mut && Stream(body) && SingleOf(body, d) == Ok(inner, rest)
    ensures Stream([tok] + ([mut] + body)) && SingleOf([tok] + ([mut] + body), d) == Ok(MutRef(inner), rest)
  {
    hide SingleOf;
    var tail := [mut] + body;
    var toks := [tok] + tail;
    Front(mut, body);
    Front(tok, tail);
    assert toks[1] == mut && toks[1..][1..] == body;
    MutEquation(toks, body, d);
  }

  // ---------------------------------------------------------------- printed types parse

  /** A type of the surface syntax that fits the nesting limit `d` levels down. */
  ghost predicate Fine(t: Type, d: nat)
  {
    Printable(t) && Nesting(t) + d <= MAX_NESTING_DEPTH
  }

  ghost predicate FineItems(items: seq<Type>, d: nat)
  {
    AllPrintable(items) && NestingOf(items) + d <= MAX_NESTING_DEPTH
  }

  lemma FineParts(t: Type, d: nat)
    requires Fine(t, d)
    ensures t.Generic? ==> d < MAX_NESTING_DEPTH && FineItems(t.args, d + 1) && AllIdentifiers(Segments(t.base))
    ensures t.Tuple? ==> d < MAX_NESTING_DEPTH && FineItems(t.items, d + 1)
    ensures t.Function? ==> d < MAX_NESTING_DEPTH && FineItems(t.params, d + 1) && Fine(t.ret, d + 1)
    ensures t.Dict? ==> Fine(t.key, d) && Fine(t.value, d)
    ensures t.List? || t.FixedArray? ==> Fine(t.item, d)
    ensures t.FixedArray? ==> t.size <= USIZE_MAX
    ensures t.Union? ==> Fine(t.left, d) && Fine(t.right, d) && !t.right.Union? && !EndsOpen(t.left)
    ensures t.Ref? || t.MutRef? || t.Ptr? ==> Fine(t.inner, d) && !t.inner.Union?
  {
  }

  lemma OpenParts(t: Type)
    ensures t.Function? ==> EndsOpen(t)
    ensures t.Union? ==> EndsOpen(t) == EndsOpen(t.right)
    ensures t.Ref? || t.MutRef? || t.Ptr? ==> EndsOpen(t) == EndsOpen(t.inner)
  {
  }

  lemma FineFirst(items: seq<Type>, d: nat)
    requires FineItems(items, d) && items != []
    ensures Fine(items[0], d) && FineItems(items[1..], d)
  {
  }

  /** The tokens of `t` are read back as `t`, up to what follows them. */
  predicate Reads(t: Type, rest: Tokens, d: nat)
  {
    Stream(Print(t, rest)) && SingleOf(Print(t, rest), d) == Ok(t, rest)
  }

  lemma GenericRuns(t: Type, rest: Tokens, d: nat)
    requires t.Generic? && Fine(t, d) && Stream(rest)
    ensures Reads(t, rest, d)
    decreases t, 0
  {
    FineParts(t, d);
    hide SingleOf, ClosedItems, MoreNames, Segments, JoinWith, DottedTokens, PrintItems, Fine, FineItems;
    var parts, closed := Segments(t.base), PrintItems(t.args, [Sym(RBracket)] + rest);
    var open := [Sym(LBracket)] + closed;
    ClosedRun(RBracket, t.args, rest, d + 1);
    Front(Sym(LBracket), closed);
    DottedRuns(parts, open);
    BaseParts(t.base, parts);
    GenericStep(DottedTokens(parts, open), parts[1..], open, t.args, rest, d);
  }

  lemma DictRuns(t: Type, rest: Tokens, d: nat)
    requires t.Dict? && Fine(t, d) && Stream(rest)
    ensures Reads(t, rest, d)
    decreases t, 0
  {
    var closed := [Sym(RBrace)] + rest;
    var value := Print(t.value, closed);
    var colon := [Sym(Colon)] + value;
    assert Print(t, rest) == [Sym(LBrace)] + Print(t.key, colon);
    FineParts(t, d);
    hide SingleOf, TypeOf, Print, Fine;
    Front(Sym(RBrace), rest);
    WholeRuns(t.value, closed, d);
    Front(Sym(Colon), value);
    WholeRuns(t.key, colon, d);
    DictStep(Sym(LBrace), Print(t.key, colon), t.key, colon, t.value, closed, d);
  }

  lemma FunctionRuns(t: Type, rest: Tokens, d: nat)
    requires t.Function? && Fine(t, d) && Follows(t, rest)
    ensures Reads(t, rest, d)
    decreases t, 0
  {
    var ret := Print(t.ret, rest);
    var arrow := [Sym(Arrow)] + ret;
    var closed := PrintItems(t.params, [Sym(RParen)] + arrow);
    assert Print(t, rest) == [Sym(Fn)] + ([Sym(LParen)] + closed);
    FineParts(t, d);
    OpenParts(t);
    hide SingleOf, TypeOf, ClosedItems, Print, PrintItems, Fine, FineItems, EndsOpen;
    WholeRuns(t.ret, rest, d + 1);
    Front(Sym(Arrow), ret);
    ClosedRun(RParen, t.params, arrow, d + 1);
    Front(Sym(LParen), closed);
    FunctionStep(Sym(Fn), [Sym(LParen)] + closed, t.params, arrow, t.ret, rest, d);
  }

  lemma ListRuns(t: Type, rest: Tokens, d: nat)
    requires t.List? && Fine(t, d) && Stream(rest)
    ensures Reads(t, rest, d)
    decreases t, 0
  {
    var closed := [Sym(RBracket)] + rest;
    assert Print(t, rest) == [Sym(LBracket)] + Print(t.item, closed);
    FineParts(t, d);
    hide SingleOf, TypeOf, Print, Fine;
    Front(Sym(RBracket), rest);
    WholeRuns(t.item, closed, d);
    ListStep(Sym(LBracket), Print(t.item, closed), t.item, closed, d);
  }

  lemma ArrayRuns(t: Type, rest: Tokens, d: nat)
    requires t.FixedArray? && Fine(t, d) && Stream(rest)
    ensures Reads(t, rest, d)
    decreases t, 0
  {
    var size, close := Token(Integer, Decimal(t.size)), [Sym(RBracket)] + rest;
    var semi := [Sym(Semicolon)] + ([size] + close);
    assert Print(t, rest) == [Sym(LBracket)] + Print(t.item, semi);
    FineParts(t, d);
    SizeRoundTrip(t.size);
    hide SingleOf, TypeOf, Print, Fine, SizeOf, Decimal;
    Front(Sym(RBracket), rest);
    Front(size, close);
    Front(Sym(Semicolon), [size] + close);
    assert semi[1] == size && semi[2] == close[0] && semi[3..] == rest;
    WholeRuns(t.item, semi, d);
    ArrayStep(Sym(LBracket), Print(t.item, semi), t.item, semi, d);
  }

  lemma PrefixRuns(t: Type, rest: Tokens, d: nat)
    requires (t.Ref? || t.MutRef? || t.Ptr?) && Fine(t, d) && Follows(t, rest)
    ensures Reads(t, rest, d)
    decreases t, 0
  {
    var toks := Print(t.inner, rest);
    assert t.Ref? ==> Print(t, rest) == [Sym(Ampersand)] + toks;
    assert t.Ptr? ==> Print(t, rest) == [Sym(Star)] + toks;
    assert t.MutRef? ==> Print(t, rest) == [Sym(Ampersand)] + ([Sym(Mut)] + toks);
    FineParts(t, d);
    OpenParts(t);
    FirstToken(t.inner, rest);
    hide SingleOf, Print, Fine, EndsOpen;
    SingleRuns(t.inner, rest, d);
    if t.MutRef? {
      MutRefStep(Sym(Ampersand), Sym(Mut), toks, t.inner, rest, d);
    } else {
      SignStep(if t.Ref? then Sym(Ampersand) else Sym(Star), toks, t.inner, rest, d);
    }
  }

  lemma TupleRuns(t: Type, rest: Tokens, d: nat)
    requires t.Tuple? && Fine(t, d) && Stream(rest)
    ensures Reads(t, rest, d)
    decreases t, 0
  {
    FineParts(t, d);
    hide SingleOf, ClosedItems, PrintItems, Fine, FineItems;
    ClosedRun(RParen, t.items, rest, d + 1);
    TupleStep(Sym(LParen), PrintItems(t.items, [Sym(RParen)] + rest), t.items, rest, d);
  }

  lemma NameRuns(t: Type, rest: Tokens, d: nat)
    requires t.Name? && Printable(t) && Follows(t, rest)
    ensures Reads(t, rest, d)
  {
    var toks := Print(t, rest);
    Front(Word(t.name), rest);
    assert MoreNames(rest) == Ok([], rest);
    if t.name != "None" {
      NamedStep(toks, [], rest, d);
    }
  }

  lemma QualifiedRuns(t: Type, rest: Tokens, d: nat)
    requires t.Qualified? && Printable(t) && Follows(t, rest)
    ensures Reads(t, rest, d)
  {
    hide SingleOf, MoreNames, DottedTokens;
    DottedRuns(t.parts, rest);
    NamedStep(DottedTokens(t.parts, rest), t.parts[1..], rest, d);
    assert [t.parts[0]] + t.parts[1..] == t.parts;
  }

  /** Kinds a type can start with. */
  predicate Starts(kind: Kind)
  {
    kind.Null? || kind.Identifier? || kind.LParen? || kind.LBracket? || kind.LBrace? || kind.Ampersand?
    || kind.Star? || kind.Fn?
  }

  lemma {:induction false} FirstToken(t: Type, rest: Tokens)
    requires Printable(t)
    ensures Print(t, rest) != [] && Starts(Print(t, rest)[0].kind)
    decreases t
  {
    match t
    case Union(a, b) => FirstToken(a, [Sym(Pipe)] + Print(b, rest));
    case _ =>
  }

  /** A single type, read back from its tokens whatever may follow it. */
  lemma SingleRuns(t: Type, rest: Tokens, d: nat)
    requires Fine(t, d) && !t.Union? && Follows(t, rest)
    ensures Reads(t, rest, d)
    decreases t, 1
  {
    hide Reads;
    match t
    case Name(_) => NameRuns(t, rest, d);
    case Qualified(_) => QualifiedRuns(t, rest, d);
    case Generic(_, _) => GenericRuns(t, rest, d);
    case Tuple(_) => TupleRuns(t, rest, d);
    case Dict(_, _) => DictRuns(t, rest, d);
    case Function(_, _) => FunctionRuns(t, rest, d);
    case List(_) => ListRuns(t, rest, d);
    case FixedArray(_, _) => ArrayRuns(t, rest, d);
    case Ref(_) => PrefixRuns(t, rest, d);
    case MutRef(_) => PrefixRuns(t, rest, d);
    case Ptr(_) => PrefixRuns(t, rest, d);
  }

  lemma UnionStep(left: Type, tok: Token, body: Tokens, right: Type, rest: Tokens, d: nat)
    requires tok.kind == Pipe && Stream(body) && SingleOf(body, d) == Ok(right, rest)
    ensures Stream([tok] + body) && UnionTail(left, [tok] + body, d) == UnionTail(Union(left, right), rest, d)
  {
    hide SingleOf;
    Front(tok, body);
  }

  /** Any printable type: its tokens bring the parser to the point where it looks for a further `|`. */
  lemma TypeRuns(t: Type, rest: Tokens, d: nat)
    requires Fine(t, d) && Follows(t, rest)
    ensures Stream(Print(t, rest)) && TypeOf(Print(t, rest), d) == UnionTail(t, rest, d)
    decreases t, 2
  {
    if t.Union? {
      var right := Print(t.right, rest);
      var tail := [Sym(Pipe)] + right;
      assert Print(t, rest) == Print(t.left, tail);
      FineParts(t, d);
      OpenParts(t);
      hide SingleOf, TypeOf, UnionTail, Print, Fine, EndsOpen;
      SingleRuns(t.right, rest, d);
      UnionStep(t.left, Sym(Pipe), right, t.right, rest, d);
      TypeRuns(t.left, tail, d);
    } else {
      hide SingleOf, UnionTail, Print, Fine;
      SingleRuns(t, rest, d);
    }
  }

  lemma WholeRuns(t: Type, rest: Tokens, d: nat)
    requires Fine(t, d) && Follows(t, rest) && rest[0].kind != Pipe
    ensures Stream(Print(t, rest)) && TypeOf(Print(t, rest), d) == Ok(t, rest)
    decreases t, 3
  {
    hide TypeOf, Print, Fine;
    TypeRuns(t, rest, d);
  }

  lemma LastItemStep(close: Kind, toks: Tokens, item: Type, rest: Tokens, d: nat)
    requires Stream(toks) && TypeOf(toks, d) == Ok(item, rest) && rest[0].kind != Comma
    requires toks[0].kind != close && toks[0].kind != Eof
    ensures ItemsOf(close, toks, d) == Ok([item], rest)
  {
    hide TypeOf;
  }

  lemma ItemStep(close: Kind, toks: Tokens, item: Type, comma: Tokens, items: seq<Type>, rest: Tokens, d: nat)
    requires Stream(toks) && TypeOf(toks, d) == Ok(item, comma) && comma[0].kind == Comma && Stream(comma[1..])
    requires toks[0].kind != close && toks[0].kind != Eof && ItemsOf(close, comma[1..], d) == Ok(items, rest)
    ensures ItemsOf(close, toks, d) == Ok([item] + items, rest)
  {
    hide TypeOf;
  }

  lemma ItemsRun(close: Kind, items: seq<Type>, rest: Tokens, d: nat)
    requires close == RParen || close == RBracket
    requires FineItems(items, d) && Stream(rest) && rest[0].kind == close
    ensures Stream(PrintItems(items, rest)) && ItemsOf(close, PrintItems(items, rest), d) == Ok(items, rest)
    decreases items, 0
  {
    if items != [] {
      FineFirst(items, d);
      FirstToken(items[0], rest);
      hide TypeOf, ItemsOf, Print, Fine, FineItems, Printable;
      if |items| == 1 {
        WholeRuns(items[0], rest, d);
        LastItemStep(close, Print(items[0], rest), items[0], rest, d);
        assert items == [items[0]];
      } else {
        var more := PrintItems(items[1..], rest);
        ItemsRun(close, items[1..], rest, d);
        OneMoreItem(close, items[0], items[1..], more, rest, d);
        assert items == [items[0]] + items[1..];
      }
    }
  }

  lemma OneMoreItem(close: Kind, item: Type, items: seq<Type>, more: Tokens, rest: Tokens, d: nat)
    requires close == RParen || close == RBracket
    requires Fine(item, d) && Stream(more) && ItemsOf(close, more, d) == Ok(items, rest)
    ensures var toks := Print(item, [Sym(Comma)] + more);
      Stream(toks) && ItemsOf(close, toks, d) == Ok([item] + items, rest)
    decreases item, 4
  {
    var comma := [Sym(Comma)] + more;
    FirstToken(item, comma);
    hide TypeOf, ItemsOf, Print, Fine;
    Front(Sym(Comma), more);
    WholeRuns(item, comma, d);
    ItemStep(close, Print(item, comma), item, comma, items, rest, d);
  }

  lemma ClosedStep(close: Kind, toks: Tokens, items: seq<Type>, closed: Tokens, d: nat)
    requires Stream(toks) && close != Eof && ItemsOf(close, toks, d) == Ok(items, closed) && closed[0].kind == close
    ensures ClosedItems(close, toks, d) == Ok(items, closed[1..])
  {
    hide ItemsOf;
  }

  lemma ClosedRun(close: Kind, items: seq<Type>, rest: Tokens, d: nat)
    requires close == RParen || close == RBracket
    requires FineItems(items, d) && Stream(rest)
    ensures var toks := PrintItems(items, [Sym(close)] + rest);
      Stream(toks) && ClosedItems(close, toks, d) == Ok(items, rest)
    decreases items, 1
  {
    hide ItemsOf, ClosedItems, PrintItems, FineItems;
    var closed := [Sym(close)] + rest;
    Front(Sym(close), rest);
    ItemsRun(close, items, closed, d);
    ClosedStep(close, PrintItems(items, closed), items, closed, d);
  }
}

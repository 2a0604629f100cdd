/** The printed text of a type is its tokens written one after the other, blanks aside. */
module TypeDisplay {
  import opened TypeSyntax

  type Tokens = seq<Token>

  /** The text with its blanks left out. */
  function Squeeze(s: string): string
  {
    if s == "" then "" else (if s[0] == ' ' then "" else [s[0]]) + Squeeze(s[1..])
  }

  function TextOf(tok: Token): string
  {
    if tok.value != "" then tok.value else Spelling(tok.kind)
  }

  /** The tokens written one after the other. */
  function Spell(toks: Tokens): string
  {
    if toks == [] then "" else TextOf(toks[0]) + Spell(toks[1..])
  }

  lemma Regroup(a: string, b: string, c: string)
    ensures a + (b + c) == (a + b) + c
  {
  }

  lemma {:induction false} SqueezeConcat(a: string, b: string)
    ensures Squeeze(a + b) == Squeeze(a) + Squeeze(b)
  {
    if a == "" {
      assert a + b == b;
    } else {
      assert (a + b)[1..] == a[1..] + b && (a + b)[0] == a[0];
      SqueezeConcat(a[1..], b);
      Regroup(if a[0] == ' ' then "" else [a[0]], Squeeze(a[1..]), Squeeze(b));
    }
  }

  lemma {:induction false} SqueezePlain(s: string)
    requires ' ' !in s
    ensures Squeeze(s) == s
  {
    if s != "" {
      SqueezePlain(s[1..]);
      assert s == [s[0]] + s[1..];
    }
  }

  lemma SpellFirst(tok: Token, rest: Tokens)
    ensures Spell([tok] + rest) == TextOf(tok) + Spell(rest)
  {
    assert ([tok] + rest)[1..] == rest;
  }

  /** Printing `toks` writes `text`, blanks aside, in front of `rest`. */
  predicate Writes(toks: Tokens, text: string, rest: Tokens)
  {
    Spell(toks) == Squeeze(text) + Spell(rest)
  }

  /** A symbol in front of what is written already. */
  lemma Lead(tok: Token, sign: string, toks: Tokens, text: string, rest: Tokens)
    requires Writes(toks, text, rest) && Squeeze(sign) == TextOf(tok)
    ensures Writes([tok] + toks, sign + text, rest)
  {
    SpellFirst(tok, toks);
    SqueezeConcat(sign, text);
    Regroup(TextOf(tok), Squeeze(text), Spell(rest));
  }

  /** A part written in front of what is written already. */
  lemma Chain(toks: Tokens, text: string, middle: Tokens, text': string, rest: Tokens)
    requires Writes(toks, text, middle) && Writes(middle, text', rest)
    ensures Writes(toks, text + text', rest)
  {
    SqueezeConcat(text, text');
    Regroup(Squeeze(text), Squeeze(text'), Spell(rest));
  }

  lemma Nothing(rest: Tokens)
    ensures Writes(rest, "", rest)
  {
    assert "" + Spell(rest) == Spell(rest);
  }

  /** One symbol. */
  lemma One(tok: Token, sign: string, rest: Tokens)
    requires Squeeze(sign) == TextOf(tok)
    ensures Writes([tok] + rest, sign, rest)
  {
    SpellFirst(tok, rest);
  }

  lemma IdentifierIsPlain(w: string)
    requires IsIdentifier(w) || w == "None"
    ensures Squeeze(w) == w
  {
    assert ' ' !in w;
    SqueezePlain(w);
  }

  lemma {:induction false} DotNamesWrite(names: seq<string>, rest: Tokens)
    requires AllIdentifiers(names)
    ensures Writes(DotNames(names, rest), if names == [] then "" else "." + JoinWith(".", names), rest)
    decreases |names|
  {
    if names == [] {
      Nothing(rest);
    } else {
      var tail := DotNames(names[1..], rest);
      var text := if |names| == 1 then "" else "." + JoinWith(".", names[1..]);
      DotNamesWrite(names[1..], rest);
      IdentifierIsPlain(names[0]);
      Lead(Word(names[0]), names[0], tail, text, rest);
      assert JoinWith(".", names) == names[0] + text;
      assert Squeeze(".") == "." by { SqueezePlain("."); }
      Lead(Sym(Dot), ".", [Word(names[0])] + tail, names[0] + text, rest);
    }
  }

  lemma JoinFirst(parts: seq<string>, text: string)
    requires parts != [] && text == if |parts| == 1 then "" else "." + JoinWith(".", parts[1..])
    ensures JoinWith(".", parts) == parts[0] + text
  {
    if |parts| > 1 {
      Regroup(parts[0], ".", JoinWith(".", parts[1..]));
    }
  }

  lemma DottedWrites(parts: seq<string>, rest: Tokens)
    requires parts != [] && AllIdentifiers(parts)
    ensures Writes(DottedTokens(parts, rest), JoinWith(".", parts), rest)
  {
    var text := if |parts| == 1 then "" else "." + JoinWith(".", parts[1..]);
    JoinFirst(parts, text);
    assert IsIdentifier(parts[0]);
    hide JoinWith, DotNames, Squeeze, Spell, IsIdentifier, Writes;
    DotNamesWrite(parts[1..], rest);
    IdentifierIsPlain(parts[0]);
    Lead(Word(parts[0]), parts[0], DotNames(parts[1..], rest), text, rest);
  }

  /** Replacing double colons by dots joins the segments with dots. */
  lemma {:induction false} DottedJoins(s: string)
    ensures Dotted(s) == JoinWith(".", Segments(s))
  {
    if |s| >= 2 {
      if s[0] == ':' && s[1] == ':' {
        var rest := Segments(s[2..]);
        assert Segments(s) == [""] + rest && Dotted(s) == "." + Dotted(s[2..]);
        DottedJoins(s[2..]);
        hide Segments, Dotted, JoinWith;
        JoinEmpty(rest);
      } else {
        var rest := Segments(s[1..]);
        assert Segments(s) == [[s[0]] + rest[0]] + rest[1..] && Dotted(s) == [s[0]] + Dotted(s[1..]);
        DottedJoins(s[1..]);
        hide Segments, Dotted, JoinWith;
        JoinLonger(s[0], rest);
      }
    }
  }

  lemma JoinEmpty(parts: seq<string>)
    requires parts != []
    ensures JoinWith(".", [""] + parts) == "." + JoinWith(".", parts)
  {
    assert ([""] + parts)[1..] == parts;
    assert "" + "." == ".";
  }

  lemma JoinLonger(c: char, parts: seq<string>)
    requires parts != []
    ensures JoinWith(".", [[c] + parts[0]] + parts[1..]) == [c] + JoinWith(".", parts)
  {
    var longer := [[c] + parts[0]] + parts[1..];
    assert longer[1..] == parts[1..] && longer[0] == [c] + parts[0];
    if |parts| > 1 {
      var tail := JoinWith(".", parts[1..]);
      assert JoinWith(".", parts) == parts[0] + "." + tail;
      assert JoinWith(".", longer) == ([c] + parts[0]) + "." + tail;
      hide JoinWith;
      Regroup([c], parts[0], ".");
      Regroup([c], parts[0] + ".", tail);
    }
  }

  lemma {:induction false} DecimalIsPlain(n: nat)
    ensures ' ' !in Decimal(n)
  {
    if n >= 10 {
      DecimalIsPlain(n / 10);
    }
  }

  lemma Trailing(s: string, text: string)
    requires ' ' !in s && text == s + " "
    ensures Squeeze(text) == s
  {
    SqueezeConcat(s, " ");
    SqueezePlain(s);
  }

  lemma Leading(s: string, text: string)
    requires text == " " + s
    ensures Squeeze(text) == Squeeze(s)
  {
    SqueezeConcat(" ", s);
  }

  /** How a symbol appears in the printed text, with the blanks around it. */
  function Shown(kind: Kind): string
  {
    match kind
    case Comma => ", "
    case Colon => ": "
    case Semicolon => "; "
    case Pipe => " | "
    case Arrow => " -> "
    case Mut => "mut "
    case _ => Spelling(kind)
  }

  lemma ShownSqueezes(kind: Kind)
    ensures Squeeze(Shown(kind)) == Spelling(kind)
  {
    hide Squeeze;
    match kind
    case Comma => Trailing(",", ", ");
    case Colon => Trailing(":", ": ");
    case Semicolon => Trailing(";", "; ");
    case Mut => Trailing("mut", "mut ");
    case Pipe => Surrounded("|", " | ");
    case Arrow => Surrounded("->", " -> ");
    case _ => SqueezePlain(Spelling(kind));
  }

  lemma Surrounded(s: string, text: string)
    requires ' ' !in s && text == " " + s + " "
    ensures Squeeze(text) == s
  {
    assert text == " " + (s + " ");
    hide Squeeze;
    Trailing(s, s + " ");
    Leading(s + " ", text);
  }

  lemma LeadSym(kind: Kind, toks: Tokens, text: string, rest: Tokens)
    requires Writes(toks, text, rest)
    ensures Writes([Sym(kind)] + toks, Shown(kind) + text, rest)
  {
    ShownSqueezes(kind);
    Lead(Sym(kind), Shown(kind), toks, text, rest);
  }

  lemma CloseSym(kind: Kind, toks: Tokens, text: string, rest: Tokens)
    requires Writes(toks, text, [Sym(kind)] + rest)
    ensures Writes(toks, text + Shown(kind), rest)
  {
    ShownSqueezes(kind);
    One(Sym(kind), Shown(kind), rest);
    Chain(toks, text, [Sym(kind)] + rest, Shown(kind), rest);
  }

  /** Text between an opening and a closing symbol. */
  lemma Enclosed(open: Kind, close: Kind, toks: Tokens, text: string, rest: Tokens)
    requires Writes(toks, text, [Sym(close)] + rest)
    ensures Writes([Sym(open)] + toks, Shown(open) + (text + Shown(close)), rest)
  {
    CloseSym(close, toks, text, rest);
    LeadSym(open, toks, text + Shown(close), rest);
  }

  /** A symbol between two parts. */
  lemma Between(kind: Kind, toks: Tokens, text: string, right: Tokens, text': string, rest: Tokens)
    requires Writes(toks, text, [Sym(kind)] + right) && Writes(right, text', rest)
    ensures Writes(toks, text + (Shown(kind) + text'), rest)
  {
    LeadSym(kind, right, text', rest);
    Chain(toks, text, [Sym(kind)] + right, Shown(kind) + text', rest);
  }

  // ---------------------------------------------------------------- every type

  /** The printed text of a type is its tokens, blanks aside. */
  ghost predicate Faithful(t: Type, rest: Tokens)
  {
    Writes(Print(t, rest), Display(t), rest)
  }

  ghost predicate FaithfulItems(items: seq<Type>, rest: Tokens)
  {
    Writes(PrintItems(items, rest), DisplayItems(items), rest)
  }

  lemma GenericShown(t: Type, rest: Tokens)
    requires t.Generic? && Printable(t) && FaithfulItems(t.args, [Sym(RBracket)] + rest)
    ensures Faithful(t, rest)
  {
    var closed, shown := PrintItems(t.args, [Sym(RBracket)] + rest), DisplayItems(t.args);
    var open := [Sym(LBracket)] + closed;
    assert Print(t, rest) == DottedTokens(Segments(t.base), open);
    assert Display(t) == Dotted(t.base) + (Shown(LBracket) + (shown + Shown(RBracket)));
    hide Print, PrintItems, Display, DisplayItems, Writes, Shown, Dotted, Segments, DottedTokens, JoinWith;
    Enclosed(LBracket, RBracket, closed, shown, rest);
    DottedWrites(Segments(t.base), open);
    DottedJoins(t.base);
    Chain(DottedTokens(Segments(t.base), open), Dotted(t.base), open,
          Shown(LBracket) + (shown + Shown(RBracket)), rest);
  }

  lemma TupleShown(t: Type, rest: Tokens)
    requires t.Tuple? && FaithfulItems(t.items, [Sym(RParen)] + rest)
    ensures Faithful(t, rest)
  {
    var toks := PrintItems(t.items, [Sym(RParen)] + rest);
    assert Print(t, rest) == [Sym(LParen)] + toks;
    assert Display(t) == Shown(LParen) + (DisplayItems(t.items) + Shown(RParen));
    hide Print, PrintItems, Display, DisplayItems, Writes, Shown;
    Enclosed(LParen, RParen, toks, DisplayItems(t.items), rest);
  }

  lemma ListShown(t: Type, rest: Tokens)
    requires t.List? && Faithful(t.item, [Sym(RBracket)] + rest)
    ensures Faithful(t, rest)
  {
    var toks := Print(t.item, [Sym(RBracket)] + rest);
    assert Print(t, rest) == [Sym(LBracket)] + toks;
    assert Display(t) == Shown(LBracket) + (Display(t.item) + Shown(RBracket));
    hide Print, Display, Writes, Shown;
    Enclosed(LBracket, RBracket, toks, Display(t.item), rest);
  }

  lemma DictShown(t: Type, rest: Tokens)
    requires t.Dict?
    requires var close := [Sym(RBrace)] + rest;
      Faithful(t.value, close) && Faithful(t.key, [Sym(Colon)] + Print(t.value, close))
    ensures Faithful(t, rest)
  {
    var close := [Sym(RBrace)] + rest;
    var value := Print(t.value, close);
    var key := Print(t.key, [Sym(Colon)] + value);
    var k, v := Display(t.key), Display(t.value);
    assert Print(t, rest) == [Sym(LBrace)] + key;
    assert Display(t) == Shown(LBrace) + (k + (Shown(Colon) + (v + Shown(RBrace))));
    hide Print, Display, Writes, Shown;
    CloseSym(RBrace, value, v, rest);
    Between(Colon, key, k, value, v + Shown(RBrace), rest);
    LeadSym(LBrace, key, k + (Shown(Colon) + (v + Shown(RBrace))), rest);
  }

  lemma UnionShown(t: Type, rest: Tokens)
    requires t.Union? && Faithful(t.right, rest) && Faithful(t.left, [Sym(Pipe)] + Print(t.right, rest))
    ensures Faithful(t, rest)
  {
    var right := Print(t.right, rest);
    var left := Print(t.left, [Sym(Pipe)] + right);
    assert Print(t, rest) == left;
    assert Display(t) == Display(t.left) + (Shown(Pipe) + Display(t.right));
    hide Print, Display, Writes, Shown;
    Between(Pipe, left, Display(t.left), right, Display(t.right), rest);
  }

  lemma FunctionShown(t: Type, rest: Tokens)
    requires t.Function? && Faithful(t.ret, rest)
    requires FaithfulItems(t.params, [Sym(RParen)] + ([Sym(Arrow)] + Print(t.ret, rest)))
    ensures Faithful(t, rest)
  {
    var ret := Print(t.ret, rest);
    var arrow := [Sym(Arrow)] + ret;
    var toks, shown := PrintItems(t.params, [Sym(RParen)] + arrow), DisplayItems(t.params);
    var text := Display(t.ret);
    assert Print(t, rest) == [Sym(Fn)] + ([Sym(LParen)] + toks);
    assert Display(t) == "fn(" + (shown + (") -> " + text));
    FunctionText(shown, text);
    hide Print, PrintItems, Display, DisplayItems, Writes, Shown;
    var inner := shown + (Shown(RParen) + (Shown(Arrow) + text));
    LeadSym(Arrow, ret, text, rest);
    Between(RParen, toks, shown, arrow, Shown(Arrow) + text, rest);
    LeadSym(LParen, toks, inner, rest);
    LeadSym(Fn, [Sym(LParen)] + toks, Shown(LParen) + inner, rest);
  }

  lemma FunctionText(params: string, ret: string)
    ensures Shown(Fn) + (Shown(LParen) + (params + (Shown(RParen) + (Shown(Arrow) + ret))))
            == "fn(" + (params + (") -> " + ret))
  {
    Regroup(Shown(RParen), Shown(Arrow), ret);
    Regroup(Shown(Fn), Shown(LParen), params + (") -> " + ret));
    assert Shown(RParen) + Shown(Arrow) == ") -> ";
    assert Shown(Fn) + Shown(LParen) == "fn(";
  }

  lemma ArrayShown(t: Type, rest: Tokens)
    requires t.FixedArray?
    requires Faithful(t.item, [Sym(Semicolon)] + ([Token(Integer, Decimal(t.size))] + ([Sym(RBracket)] + rest)))
    ensures Faithful(t, rest)
  {
    var digits, shown := Decimal(t.size), Display(t.item);
    var size := [Token(Integer, digits)] + ([Sym(RBracket)] + rest);
    var item := Print(t.item, [Sym(Semicolon)] + size);
    assert Print(t, rest) == [Sym(LBracket)] + item;
    assert Display(t) == Shown(LBracket) + (shown + (Shown(Semicolon) + (digits + Shown(RBracket))));
    DecimalIsPlain(t.size);
    DecimalValue(t.size);
    hide Print, Display, Writes, Shown, Decimal, Squeeze;
    SqueezePlain(digits);
    One(Token(Integer, digits), digits, [Sym(RBracket)] + rest);
    CloseSym(RBracket, size, digits, rest);
    Between(Semicolon, item, shown, size, digits + Shown(RBracket), rest);
    LeadSym(LBracket, item, shown + (Shown(Semicolon) + (digits + Shown(RBracket))), rest);
  }

  lemma SignShown(t: Type, rest: Tokens)
    requires (t.Ref? || t.Ptr?) && Faithful(t.inner, rest)
    ensures Faithful(t, rest)
  {
    var toks, text := Print(t.inner, rest), Display(t.inner);
    var kind := if t.Ref? then Ampersand else Star;
    assert Print(t, rest) == [Sym(kind)] + toks;
    assert Display(t) == Shown(kind) + text;
    hide Print, Display, Writes, Shown;
    LeadSym(kind, toks, text, rest);
  }

  lemma MutRefShown(t: Type, rest: Tokens)
    requires t.MutRef? && Faithful(t.inner, rest)
    ensures Faithful(t, rest)
  {
    var toks, text := Print(t.inner, rest), Display(t.inner);
    assert Print(t, rest) == [Sym(Ampersand)] + ([Sym(Mut)] + toks);
    assert Display(t) == "&mut " + text;
    assert Shown(Ampersand) + Shown(Mut) == "&mut ";
    hide Print, Display, Writes, Shown;
    LeadSym(Mut, toks, text, rest);
    LeadSym(Ampersand, [Sym(Mut)] + toks, Shown(Mut) + text, rest);
    Regroup(Shown(Ampersand), Shown(Mut), text);
  }

  lemma NameShown(t: Type, rest: Tokens)
    requires (t.Name? || t.Qualified?) && Printable(t)
    ensures Faithful(t, rest)
  {
    if t.Name? {
      hide Squeeze, Spell;
      IdentifierIsPlain(t.name);
      One(Word(t.name), t.name, rest);
    } else {
      hide DottedTokens, Writes;
      DottedWrites(t.parts, rest);
    }
  }

  lemma PrintableParts(t: Type)
    requires Printable(t)
    ensures t.Generic? ==> AllPrintable(t.args)
    ensures t.Tuple? ==> AllPrintable(t.items)
    ensures t.List? || t.FixedArray? ==> Printable(t.item)
    ensures t.Dict? ==> Printable(t.key) && Printable(t.value)
    ensures t.Union? ==> Printable(t.left) && Printable(t.right)
    ensures t.Function? ==> AllPrintable(t.params) && Printable(t.ret)
    ensures t.Ref? || t.MutRef? || t.Ptr? ==> Printable(t.inner)
  {
  }

  /** The text of a printed type is its tokens, blanks aside. */
  lemma DisplayIsPrint(t: Type, rest: Tokens)
    requires Printable(t)
    ensures Faithful(t, rest)
    decreases t
  {
    PrintableParts(t);
    hide Faithful, FaithfulItems, Printable, AllPrintable, Print;
    match t
    case Name(_) => NameShown(t, rest);
    case Qualified(_) => NameShown(t, rest);
    case Generic(_, args) =>
      ItemsShown(args, [Sym(RBracket)] + rest);
      GenericShown(t, rest);
    case Tuple(items) =>
      ItemsShown(items, [Sym(RParen)] + rest);
      TupleShown(t, rest);
    case List(item) =>
      DisplayIsPrint(item, [Sym(RBracket)] + rest);
      ListShown(t, rest);
    case Dict(k, v) =>
      DisplayIsPrint(v, [Sym(RBrace)] + rest);
      DisplayIsPrint(k, [Sym(Colon)] + Print(v, [Sym(RBrace)] + rest));
      DictShown(t, rest);
    case Union(a, b) =>
      DisplayIsPrint(b, rest);
      DisplayIsPrint(a, [Sym(Pipe)] + Print(b, rest));
      UnionShown(t, rest);
    case Function(params, ret) =>
      DisplayIsPrint(ret, rest);
      ItemsShown(params, [Sym(RParen)] + ([Sym(Arrow)] + Print(ret, rest)));
      FunctionShown(t, rest);
    case FixedArray(item, n) =>
      DisplayIsPrint(item, [Sym(Semicolon)] + ([Token(Integer, Decimal(n))] + ([Sym(RBracket)] + rest)));
      ArrayShown(t, rest);
    case MutRef(inner) =>
      DisplayIsPrint(inner, rest);
      MutRefShown(t, rest);
    case Ref(inner) =>
      DisplayIsPrint(inner, rest);
      SignShown(t, rest);
    case Ptr(inner) =>
      DisplayIsPrint(inner, rest);
      SignShown(t, rest);
  }

  lemma ItemsShown(items: seq<Type>, rest: Tokens)
    requires AllPrintable(items)
    ensures FaithfulItems(items, rest)
    decreases items
  {
    if items == [] {
      Nothing(rest);
    } else if |items| == 1 {
      DisplayIsPrint(items[0], rest);
    } else {
      var more := PrintItems(items[1..], rest);
      var first := Print(items[0], [Sym(Comma)] + more);
      var shown, others := Display(items[0]), DisplayItems(items[1..]);
      assert PrintItems(items, rest) == first;
      assert DisplayItems(items) == shown + (Shown(Comma) + others);
      assert Printable(items[0]) && AllPrintable(items[1..]);
      hide Print, PrintItems, Display, DisplayItems, Writes, Shown, Printable, AllPrintable;
      ItemsShown(items[1..], rest);
      DisplayIsPrint(items[0], [Sym(Comma)] + more);
      Between(Comma, first, shown, more, others, rest);
    }
  }

  // ---------------------------------------------------------------- in full

  const SIGNS := Tuple([Ref(Name("a")), Ptr(Name("b"))])
  const TABLE := Dict(Name("a"), FixedArray(Name("b"), 4))

  lemma SignsInFull()
    ensures Display(SIGNS) == "(&a, *b)"
  {
    var items := [Ref(Name("a")), Ptr(Name("b"))];
    assert items[1..] == [Ptr(Name("b"))] && DisplayItems(items[1..]) == "*b" && Display(items[0]) == "&a";
    assert DisplayItems(items) == "&a" + (", " + "*b");
  }

  lemma TableInFull()
    ensures Display(TABLE) == "{a: [b; 4]}"
  {
    assert Decimal(4) == "4" && Display(FixedArray(Name("b"), 4)) == "[b; 4]";
  }

  lemma DotsInFull()
    ensures Dotted("a::b") == "a.b"
  {
    var tail := "a::b"[1..];
    assert tail == "::b" && tail[2..] == "b" && |"b"| == 1;
    assert Dotted(tail[2..]) == "b";
    assert Dotted(tail) == "." + "b";
    assert Dotted("a::b") == "a" + ".b";
  }

  lemma NamesInFull()
    ensures Display(Qualified(["a", "b"])) == "a.b" && Display(Generic("a::b", [Name("a"), Name("b")])) == "a.b[a, b]"
  {
    assert ["a", "b"][1..] == ["b"] && JoinWith(".", ["b"]) == "b";
    DotsInFull();
    hide Dotted;
    var items := [Name("a"), Name("b")];
    assert items[1..] == [Name("b")] && DisplayItems(items[1..]) == "b";
    assert DisplayItems(items) == "a" + (", " + "b");
  }

  /** A type of every kind. */
  lemma DisplayInFull()
    ensures Display(Function([MutRef(Name("a")), SIGNS], Union(TABLE, List(Name("a")))))
            == "fn(&mut a, (&a, *b)) -> {a: [b; 4]} | [a]"
  {
    ParamsInFull();
    ReturnInFull();
    hide Display, DisplayItems;
    DisplayFunction([MutRef(Name("a")), SIGNS], Union(TABLE, List(Name("a"))));
  }

  lemma {:induction false} DisplayFunction(params: seq<Type>, ret: Type)
    ensures Display(Function(params, ret)) == "fn(" + (DisplayItems(params) + (") -> " + Display(ret)))
  {
  }

  lemma ReturnInFull()
    ensures Display(Union(TABLE, List(Name("a")))) == "{a: [b; 4]} | [a]"
  {
    TableInFull();
    assert Display(List(Name("a"))) == "[a]";
    assert Display(Union(TABLE, List(Name("a")))) == Display(TABLE) + (" | " + Display(List(Name("a"))));
    hide Display;
  }

  lemma ParamsInFull()
    ensures DisplayItems([MutRef(Name("a")), SIGNS]) == "&mut a, (&a, *b)"
  {
    SignsInFull();
    var params := [MutRef(Name("a")), SIGNS];
    assert Display(params[0]) == "&mut a";
    assert params[1..] == [SIGNS] && DisplayItems(params[1..]) == Display(SIGNS);
    assert DisplayItems(params) == Display(params[0]) + (", " + DisplayItems(params[1..]));
    hide Display, DisplayItems;
  }
}

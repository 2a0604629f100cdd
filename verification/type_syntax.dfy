/** Type expressions, the tokens they are written in, and how they are printed. */
module TypeSyntax {

  const USIZE_MAX: nat := 0xFFFF_FFFF_FFFF_FFFF

  datatype Kind =
    | Identifier | Null | Integer | Fn | Mut
    | LParen | RParen | LBracket | RBracket | LBrace | RBrace
    | Comma | Semicolon | Colon | Dot | Ampersand | Star | Pipe | Arrow
    | Eof | Other

  /** A token with the word or the digits it holds; symbols need none. */
  datatype Token = Token(kind: Kind, value: string)

  datatype Type =
    | Name(name: string)
    | Qualified(parts: seq<string>)
    | Generic(base: string, args: seq<Type>)
    | Tuple(items: seq<Type>)
    | List(item: Type)
    | Dict(key: Type, value: Type)
    | Union(left: Type, right: Type)
    | Function(params: seq<Type>, ret: Type)
    | Ref(inner: Type)
    | MutRef(inner: Type)
    | Ptr(inner: Type)
    | FixedArray(item: Type, size: nat)

  // ---------------------------------------------------------------- words

  predicate Keyword(w: string)
  {
    w in { "fn", "mut", "None", "let", "const", "if", "else", "elif", "while", "for", "in", "return", "True", "False",
           "not", "and", "or", "pass", "break", "continue", "try", "as", "assert", "import", "from", "struct", "impl",
           "trait", "enum", "match", "async", "await", "case", "unsafe", "defer", "with", "lambda", "_" }
  }

  predicate WordChar(c: char)
  {
    c == '_' || 'a' <= c <= 'z' || 'A' <= c <= 'Z' || '0' <= c <= '9' || c as int >= 0x80
  }

  /** A word the lexer makes an identifier of. */
  ghost predicate IsIdentifier(w: string)
  {
    && w != "" && (forall i :: 0 <= i < |w| ==> WordChar(w[i]))
    && w != "None" && (forall k :: Keyword(k) ==> k != w)
  }

  /** The token of a printed name. */
  function Word(w: string): Token
  {
    Token(if w == "None" then Null else Identifier, w)
  }

  function Spelling(kind: Kind): string
  {
    match kind
    case Null => "None"
    case Fn => "fn"
    case Mut => "mut"
    case LParen => "("
    case RParen => ")"
    case LBracket => "["
    case RBracket => "]"
    case LBrace => "{"
    case RBrace => "}"
    case Comma => ","
    case Semicolon => ";"
    case Colon => ":"
    case Dot => "."
    case Ampersand => "&"
    case Star => "*"
    case Pipe => "|"
    case Arrow => "->"
    case _ => ""
  }

  function Sym(kind: Kind): Token
  {
    Token(kind, "")
  }

  // ---------------------------------------------------------------- dotted names

  function JoinWith(sep: string, parts: seq<string>): string
  {
    if parts == [] then ""
    else if |parts| == 1 then parts[0]
    else parts[0] + sep + JoinWith(sep, parts[1..])
  }

  /** A stored name cut at its double colons. */
  function Segments(s: string): (r: seq<string>)
    ensures r != []
  {
    if |s| < 2 then [s]
    else if s[0] == ':' && s[1] == ':' then [""] + Segments(s[2..])
    else
      var rest := Segments(s[1..]);
      [[s[0]] + rest[0]] + rest[1..]
  }

  predicate NoColon(s: string)
  {
    ':' !in s
  }

  lemma {:induction false} SegmentsFirst(p: string, tail: string)
    requires NoColon(p)
    ensures Segments(p) == [p]
    ensures Segments(p + "::" + tail) == [p] + Segments(tail)
  {
    if p == "" {
      assert (p + "::" + tail)[2..] == tail;
    } else {
      SegmentsFirst(p[1..], tail);
      assert (p + "::" + tail)[1..] == p[1..] + "::" + tail;
      assert p == [p[0]] + p[1..];
      if |p| == 1 {
        assert p[1..] == "";
      }
      var whole := p + "::" + tail;
      assert whole[0] == p[0] != ':';
      assert Segments(whole[1..])[1..] == Segments(tail);
    }
  }

  /** Joining with double colons loses nothing: cutting gives the parts back. */
  lemma {:induction false} SegmentsOfJoin(parts: seq<string>)
    requires parts != [] && forall k :: 0 <= k < |parts| ==> NoColon(parts[k])
    ensures Segments(JoinWith("::", parts)) == parts
  {
    SegmentsFirst(parts[0], JoinWith("::", parts[1..]));
    if |parts| > 1 {
      SegmentsOfJoin(parts[1..]);
    }
  }

  lemma IdentifierHasNoColon(w: string)
    requires IsIdentifier(w)
    ensures NoColon(w)
  {
  }

  ghost predicate AllIdentifiers(parts: seq<string>)
  {
    forall k :: 0 <= k < |parts| ==> IsIdentifier(parts[k])
  }

  // ---------------------------------------------------------------- array sizes

  predicate AllDigits(s: string)
  {
    forall i :: 0 <= i < |s| ==> '0' <= s[i] <= '9'
  }

  function Value(s: string): nat
    requires AllDigits(s)
  {
    if s == "" then 0 else Value(s[..|s| - 1]) * 10 + (s[|s| - 1] as int - '0' as int)
  }

  /** What `parse::<usize>().unwrap_or(0)` yields. */
  function SizeOf(s: string): nat
  {
    var digits := if |s| > 1 && s[0] == '+' then s[1..] else s;
    if digits != "" && AllDigits(digits) && Value(digits) <= USIZE_MAX then Value(digits) else 0
  }

  function Digit(n: nat): char
    requires n < 10
  {
    ('0' as int + n) as char
  }

  function Decimal(n: nat): string
  {
    if n < 10 then [Digit(n)] else Decimal(n / 10) + [Digit(n % 10)]
  }

  lemma {:induction false} DecimalValue(n: nat)
    ensures Decimal(n) != "" && AllDigits(Decimal(n)) && Value(Decimal(n)) == n
    ensures Decimal(n)[0] != '+'
  {
    if n < 10 {
      assert Decimal(n)[..0] == "";
    } else {
      var front := Decimal(n / 10);
      DecimalValue(n / 10);
      assert (front + [Digit(n % 10)])[..|front|] == front;
    }
  }

  lemma SizeRoundTrip(n: nat)
    requires n <= USIZE_MAX
    ensures SizeOf(Decimal(n)) == n
  {
    DecimalValue(n);
  }

  // ---------------------------------------------------------------- printing

  /** The tokens of a dotted name, in front of `rest`. */
  function DottedTokens(parts: seq<string>, rest: seq<Token>): seq<Token>
  {
    if parts == [] then rest else [Word(parts[0])] + DotNames(parts[1..], rest)
  }

  /** Further names, each with its dot, in front of `rest`. */
  function DotNames(names: seq<string>, rest: seq<Token>): seq<Token>
  {
    if names == [] then rest else [Sym(Dot)] + ([Word(names[0])] + DotNames(names[1..], rest))
  }

  /** The tokens a printed type is made of, in front of `rest`. */
  function Print(t: Type, rest: seq<Token>): seq<Token>
    decreases t
  {
    match t
    case Name(n) => [Word(n)] + rest
    case Qualified(parts) => DottedTokens(parts, rest)
    case Generic(n, args) => DottedTokens(Segments(n), [Sym(LBracket)] + PrintItems(args, [Sym(RBracket)] + rest))
    case Tuple(items) => [Sym(LParen)] + PrintItems(items, [Sym(RParen)] + rest)
    case List(item) => [Sym(LBracket)] + Print(item, [Sym(RBracket)] + rest)
    case Dict(k, v) => [Sym(LBrace)] + Print(k, [Sym(Colon)] + Print(v, [Sym(RBrace)] + rest))
    case Union(a, b) => Print(a, [Sym(Pipe)] + Print(b, rest))
    case Function(params, ret) =>
      [Sym(Fn)] + ([Sym(LParen)] + PrintItems(params, [Sym(RParen)] + ([Sym(Arrow)] + Print(ret, rest))))
    case Ref(inner) => [Sym(Ampersand)] + Print(inner, rest)
    case MutRef(inner) => [Sym(Ampersand)] + ([Sym(Mut)] + Print(inner, rest))
    case Ptr(inner) => [Sym(Star)] + Print(inner, rest)
    case FixedArray(item, n) =>
      [Sym(LBracket)] + Print(item, [Sym(Semicolon)] + ([Token(Integer, Decimal(n))] + ([Sym(RBracket)] + rest)))
  }

  function PrintItems(items: seq<Type>, rest: seq<Token>): seq<Token>
    decreases items
  {
    if items == [] then rest
    else if |items| == 1 then Print(items[0], rest)
    else Print(items[0], [Sym(Comma)] + PrintItems(items[1..], rest))
  }

  // ---------------------------------------------------------------- the shape of parsed types

  /** Levels of arguments, tuples and function types that are open at once. */
  function Nesting(t: Type): nat
    decreases t
  {
    match t
    case Name(_) => 0
    case Qualified(_) => 0
    case Generic(_, args) => 1 + NestingOf(args)
    case Tuple(items) => 1 + NestingOf(items)
    case List(item) => Nesting(item)
    case Dict(k, v) => Max(Nesting(k), Nesting(v))
    case Union(a, b) => Max(Nesting(a), Nesting(b))
    case Function(params, ret) => 1 + Max(NestingOf(params), Nesting(ret))
    case Ref(inner) => Nesting(inner)
    case MutRef(inner) => Nesting(inner)
    case Ptr(inner) => Nesting(inner)
    case FixedArray(item, _) => Nesting(item)
  }

  function NestingOf(items: seq<Type>): nat
    decreases items
  {
    if items == [] then 0 else Max(Nesting(items[0]), NestingOf(items[1..]))
  }

  function Max(a: nat, b: nat): nat
  {
    if a < b then b else a
  }

  /** Does the type end in a function type, whose return type takes every `|` that follows? */
  predicate EndsOpen(t: Type)
    decreases t
  {
    match t
    case Function(_, _) => true
    case Union(_, b) => EndsOpen(b)
    case Ref(inner) => EndsOpen(inner)
    case MutRef(inner) => EndsOpen(inner)
    case Ptr(inner) => EndsOpen(inner)
    case _ => false
  }

  /** The shape the surface syntax can express: unions nest to the left and never continue a function type,
      references and pointers take a single type, names are made of identifiers, sizes fit the machine. */
  ghost predicate Printable(t: Type)
    decreases t
  {
    match t
    case Name(n) => n == "None" || IsIdentifier(n)
    case Qualified(parts) => |parts| > 1 && AllIdentifiers(parts)
    case Generic(n, args) => AllIdentifiers(Segments(n)) && AllPrintable(args)
    case Tuple(items) => AllPrintable(items)
    case List(item) => Printable(item)
    case Dict(k, v) => Printable(k) && Printable(v)
    case Union(a, b) => Printable(a) && Printable(b) && !b.Union? && !EndsOpen(a)
    case Function(params, ret) => AllPrintable(params) && Printable(ret)
    case Ref(inner) => Printable(inner) && !inner.Union?
    case MutRef(inner) => Printable(inner) && !inner.Union?
    case Ptr(inner) => Printable(inner) && !inner.Union?
    case FixedArray(item, n) => Printable(item) && n <= USIZE_MAX
  }

  ghost predicate AllPrintable(items: seq<Type>)
    decreases items
  {
    items == [] || (Printable(items[0]) && AllPrintable(items[1..]))
  }

  // ---------------------------------------------------------------- display

  /** `replace("::", ".")`. */
  function Dotted(s: string): string
  {
    if |s| < 2 then s
    else if s[0] == ':' && s[1] == ':' then "." + Dotted(s[2..])
    else [s[0]] + Dotted(s[1..])
  }

  /** The printed text. */
  function Display(t: Type): string
    decreases t
  {
    match t
    case Name(n) => n
    case Qualified(parts) => JoinWith(".", parts)
    case Generic(n, args) => Dotted(n) + ("[" + (DisplayItems(args) + "]"))
    case Tuple(items) => "(" + (DisplayItems(items) + ")")
    case List(item) => "[" + (Display(item) + "]")
    case Dict(k, v) => "{" + (Display(k) + (": " + (Display(v) + "}")))
    case Union(a, b) => Display(a) + (" | " + Display(b))
    case Function(params, ret) => "fn(" + (DisplayItems(params) + (") -> " + Display(ret)))
    case Ref(inner) => "&" + Display(inner)
    case MutRef(inner) => "&mut " + Display(inner)
    case Ptr(inner) => "*" + Display(inner)
    case FixedArray(item, n) => "[" + (Display(item) + ("; " + (Decimal(n) + "]")))
  }

  function DisplayItems(items: seq<Type>): string
    decreases items
  {
    if items == [] then ""
    else if |items| == 1 then Display(items[0])
    else Display(items[0]) + (", " + DisplayItems(items[1..]))
  }
}

/** Documents, how they are built, and what printing them should yield as text. */
module DocTree {
  const INDENT: nat := 4

  datatype Doc =
    | Nil
    | Text(s: string)
    | Line
    | SoftLine
    | HardLine
    | Concat(a: Doc, b: Doc)
    | Nest(n: nat, inner: Doc)
    | Group(inner: Doc)
    | IfBreak(broken: Doc, flat: Doc)

  datatype Mode = Flat | Break

  // ---------------------------------------------------------------- constructors

  /** Concatenation that drops empty documents. */
  function Cat(a: Doc, b: Doc): Doc
  {
    if a.Nil? then b else if b.Nil? then a else Concat(a, b)
  }

  function CatAll(docs: seq<Doc>): Doc
  {
    if docs == [] then Nil else Cat(CatAll(docs[..|docs| - 1]), docs[|docs| - 1])
  }

  function Join(sep: Doc, docs: seq<Doc>): Doc
  {
    if docs == [] then Nil
    else
      var init := Join(sep, docs[..|docs| - 1]);
      Cat(if |docs| > 1 then Cat(init, sep) else init, docs[|docs| - 1])
  }

  function Separator(): Doc
  {
    Cat(Text(","), Line)
  }

  /** What a non-empty bracket holds: the opener, the indented items, a break, the closer. */
  function BracketParts(open: string, items: seq<Doc>, close: string): Doc
  {
    var inner := Cat(SoftLine, Join(Separator(), items));
    CatAll([Text(open), Nest(INDENT, Cat(inner, IfBreak(Text(","), Nil))), SoftLine, Text(close)])
  }

  function Bracketed(open: string, items: seq<Doc>, close: string): Doc
  {
    if items == [] then Cat(Text(open), Text(close))
    else Group(BracketParts(open, items, close))
  }

  // ---------------------------------------------------------------- the text a document stands for

  function Blanks(n: nat): string
  {
    if n == 0 then "" else Blanks(n - 1) + " "
  }

  /** The document on one line. */
  function FlatText(d: Doc): string
  {
    match d
    case Text(s) => s
    case Line => " "
    case Concat(a, b) => FlatText(a) + FlatText(b)
    case Nest(_, inner) => FlatText(inner)
    case Group(inner) => FlatText(inner)
    case IfBreak(_, flat) => FlatText(flat)
    case Nil => ""
    case SoftLine => ""
    case HardLine => ""
  }

  /** No hard line stands in the way of one line. */
  predicate FitsOneLine(d: Doc)
  {
    match d
    case HardLine => false
    case Concat(a, b) => FitsOneLine(a) && FitsOneLine(b)
    case Nest(_, inner) => FitsOneLine(inner)
    case Group(inner) => FitsOneLine(inner)
    case IfBreak(_, flat) => FitsOneLine(flat)
    case _ => true
  }

  /** Room needed on a line for what is still to come on it, if it can be finished with every group flat:
      absent when a hard line is met in flat mode. */
  datatype Room = Needs(columns: nat) | Never

  function After(n: nat, r: Room): Room
  {
    if r.Never? then Never else Needs(n + r.columns)
  }

  /** The room needed for `d` and what follows it on its line, which needs `room`. */
  function RoomFrom(mode: Mode, d: Doc, room: Room): Room
  {
    if mode == Flat || d.Group? then
      if FitsOneLine(d) then After(|FlatText(d)|, room) else Never
    else
      match d
      case Text(s) => After(|s|, room)
      case Concat(a, b) => RoomFrom(mode, a, RoomFrom(mode, b, room))
      case Nest(_, inner) => RoomFrom(mode, inner, room)
      case IfBreak(broken, _) => RoomFrom(mode, broken, room)
      case Nil => room
      case Line => Needs(0)
      case SoftLine => Needs(0)
      case HardLine => Needs(0)
  }

  /** A text, and the column it ends at. */
  datatype Printed = Printed(text: string, col: nat)

  function Broken(indent: nat): Printed
  {
    Printed("\n" + Blanks(indent), indent)
  }

  /** The printed document from column `col` on: a group goes on one line exactly when it can and that line has room
      for it and for what follows. */
  function Pretty(width: nat, col: nat, indent: nat, mode: Mode, d: Doc, room: Room): Printed
    decreases d
  {
    match d
    case Nil => Printed("", col)
    case Text(s) => Printed(s, col + |s|)
    case Line => if mode == Flat then Printed(" ", col + 1) else Broken(indent)
    case SoftLine => if mode == Flat then Printed("", col) else Broken(indent)
    case HardLine => Broken(indent)
    case Concat(a, b) =>
      var first := Pretty(width, col, indent, mode, a, RoomFrom(mode, b, room));
      var second := Pretty(width, first.col, indent, mode, b, room);
      Printed(first.text + second.text, second.col)
    case Nest(n, inner) => Pretty(width, col, indent + n, mode, inner, room)
    case Group(inner) =>
      var flat := FitsOneLine(inner) && room.Needs? && col + |FlatText(inner)| + room.columns <= width;
      Pretty(width, col, indent, if flat then Flat else Break, inner, room)
    case IfBreak(broken, flat) => Pretty(width, col, indent, mode, if mode == Break then broken else flat, room)
  }

  /** The whole document. */
  function PrettyText(doc: Doc, width: nat): string
  {
    Pretty(width, 0, 0, Break, doc, Needs(0)).text
  }

  // ---------------------------------------------------------------- what survives printing

  predicate NoIfBreak(d: Doc)
  {
    match d
    case IfBreak(_, _) => false
    case Concat(a, b) => NoIfBreak(a) && NoIfBreak(b)
    case Nest(_, inner) => NoIfBreak(inner)
    case Group(inner) => NoIfBreak(inner)
    case _ => true
  }

  function Texts(d: Doc): seq<string>
  {
    match d
    case Text(s) => [s]
    case Concat(a, b) => Texts(a) + Texts(b)
    case Nest(_, inner) => Texts(inner)
    case Group(inner) => Texts(inner)
    case _ => []
  }

  /** `texts` are those of the document when each alternative is decided one way or the other. */
  ghost predicate Offers(d: Doc, texts: seq<string>)
  {
    match d
    case Text(s) => texts == [s]
    case Concat(a, b) => exists k :: 0 <= k <= |texts| && Offers(a, texts[..k]) && Offers(b, texts[k..])
    case Nest(_, inner) => Offers(inner, texts)
    case Group(inner) => Offers(inner, texts)
    case IfBreak(broken, flat) => Offers(broken, texts) || Offers(flat, texts)
    case Nil => texts == []
    case Line => texts == []
    case SoftLine => texts == []
    case HardLine => texts == []
  }

  predicate IsGap(s: string)
  {
    forall i :: 0 <= i < |s| ==> s[i] == ' ' || s[i] == '\n'
  }

  /** `s` is the texts in order, each unchanged, with nothing but blanks and newlines around them. */
  ghost predicate Interleaves(s: string, texts: seq<string>)
    decreases |texts|
  {
    if texts == [] then IsGap(s)
    else exists k :: Splits(s, texts[0], k) && Interleaves(s[k + |texts[0]|..], texts[1..])
  }

  ghost predicate Splits(s: string, t: string, k: int)
  {
    0 <= k && k + |t| <= |s| && IsGap(s[..k]) && s[k..k + |t|] == t
  }

  lemma {:induction false} StartsWith(s: string, texts: seq<string>, k: int)
    requires texts != [] && Splits(s, texts[0], k) && Interleaves(s[k + |texts[0]|..], texts[1..])
    ensures Interleaves(s, texts)
  {
  }

  lemma {:induction false} GapFirst(gap: string, s: string, texts: seq<string>)
    requires IsGap(gap) && Interleaves(s, texts)
    ensures Interleaves(gap + s, texts)
  {
    if texts != [] {
      var t := texts[0];
      var k :| Splits(s, t, k) && Interleaves(s[k + |t|..], texts[1..]);
      var all, j := gap + s, |gap| + k;
      hide Interleaves;
      GapShifts(gap, s, t, k, all, j);
      StartsWith(all, texts, j);
    }
  }

  lemma GapShifts(gap: string, s: string, t: string, k: int, all: string, j: int)
    requires IsGap(gap) && Splits(s, t, k) && all == gap + s && j == |gap| + k
    ensures Splits(all, t, j) && all[j + |t|..] == s[k + |t|..]
  {
    assert all[..j] == gap + s[..k] && all[j..j + |t|] == s[k..k + |t|];
  }

  lemma {:induction false} InterleavesConcat(s1: string, t1: seq<string>, s2: string, t2: seq<string>)
    requires Interleaves(s1, t1) && Interleaves(s2, t2)
    ensures Interleaves(s1 + s2, t1 + t2)
    decreases |t1|
  {
    if t1 == [] {
      assert t1 + t2 == t2;
      GapFirst(s1, s2, t2);
    } else {
      var t := t1[0];
      var k :| Splits(s1, t, k) && Interleaves(s1[k + |t|..], t1[1..]);
      hide Interleaves;
      InterleavesConcat(s1[k + |t|..], t1[1..], s2, t2);
      assert (t1 + t2)[0] == t && (t1 + t2)[1..] == t1[1..] + t2;
      SplitsLonger(s1, t, k, s2);
      StartsWith(s1 + s2, t1 + t2, k);
    }
  }

  lemma SplitsLonger(s: string, t: string, k: int, more: string)
    requires Splits(s, t, k)
    ensures Splits(s + more, t, k) && (s + more)[k + |t|..] == s[k + |t|..] + more
  {
    var all := s + more;
    assert all[..k] == s[..k] && all[k..k + |t|] == s[k..k + |t|];
  }

  lemma {:induction false} BlanksAreGap(n: nat)
    ensures |Blanks(n)| == n && IsGap(Blanks(n)) && IsGap("\n" + Blanks(n))
    ensures forall i :: 0 <= i < n ==> Blanks(n)[i] == ' '
  {
    if n > 0 {
      var before := Blanks(n - 1);
      BlanksAreGap(n - 1);
      assert Blanks(n) == before + " ";
    }
    assert "\n" + Blanks(n) == ['\n'] + Blanks(n);
  }

  lemma OnlyText(s: string)
    ensures Interleaves(s, [s])
  {
    assert s[..0] == "" && s[0..|s|] == s && s[|s|..] == "" && [s][1..] == [];
    assert Splits(s, [s][0], 0) && Interleaves(s[0 + |[s][0]|..], [s][1..]);
    StartsWith(s, [s], 0);
  }

  /** Printing keeps every text of some choice of alternatives, in order and unchanged, and adds only blanks and
      newlines. */
  lemma {:induction false} TextsArePrinted(width: nat, col: nat, indent: nat, mode: Mode, d: Doc, room: Room) returns (texts: seq<string>)
    ensures Offers(d, texts) && Interleaves(Pretty(width, col, indent, mode, d, room).text, texts)
    decreases d
  {
    BlanksAreGap(indent);
    match d
    case Text(s) =>
      texts := [s];
      OnlyText(s);
    case Concat(a, b) =>
      var first := Pretty(width, col, indent, mode, a, RoomFrom(mode, b, room));
      var ta := TextsArePrinted(width, col, indent, mode, a, RoomFrom(mode, b, room));
      var tb := TextsArePrinted(width, first.col, indent, mode, b, room);
      texts := ta + tb;
      assert texts[..|ta|] == ta && texts[|ta|..] == tb;
      InterleavesConcat(first.text, ta, Pretty(width, first.col, indent, mode, b, room).text, tb);
    case Nest(n, inner) => texts := TextsArePrinted(width, col, indent + n, mode, inner, room);
    case Group(inner) =>
      var flat := FitsOneLine(inner) && room.Needs? && col + |FlatText(inner)| + room.columns <= width;
      texts := TextsArePrinted(width, col, indent, if flat then Flat else Break, inner, room);
    case IfBreak(broken, flat) =>
      texts := TextsArePrinted(width, col, indent, mode, if mode == Break then broken else flat, room);
    case Nil => texts := [];
    case Line => texts := [];
    case SoftLine => texts := [];
    case HardLine => texts := [];
  }

  /** Without alternatives there is one choice. */
  lemma {:induction false} OneOffer(d: Doc, texts: seq<string>)
    requires NoIfBreak(d) && Offers(d, texts)
    ensures texts == Texts(d)
  {
    match d
    case Concat(a, b) =>
      var k :| 0 <= k <= |texts| && Offers(a, texts[..k]) && Offers(b, texts[k..]);
      OneOffer(a, texts[..k]);
      OneOffer(b, texts[k..]);
      assert texts == texts[..k] + texts[k..];
    case Nest(_, inner) => OneOffer(inner, texts);
    case Group(inner) => OneOffer(inner, texts);
    case _ =>
  }

  // ---------------------------------------------------------------- brackets as text

  /** The items on one line, a comma and a space between them. */
  function InlineItems(items: seq<Doc>): string
  {
    if items == [] then ""
    else if |items| == 1 then FlatText(items[0])
    else InlineItems(items[..|items| - 1]) + ", " + FlatText(items[|items| - 1])
  }

  /** Each item on a line of its own, indented and with a comma behind it. */
  function ItemsOnLines(width: nat, indent: nat, items: seq<Doc>): string
  {
    if items == [] then ""
    else
      ItemsOnLines(width, indent, items[..|items| - 1])
      + "\n" + Blanks(indent) + Pretty(width, indent, indent, Break, items[|items| - 1], Needs(1)).text + ","
  }

  predicate AllFitOneLine(items: seq<Doc>)
  {
    forall k :: 0 <= k < |items| ==> FitsOneLine(items[k])
  }
}

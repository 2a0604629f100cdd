/** The pretty-printer: documents, the explicit-stack renderer and its lookahead, and what they guarantee. */
module DocLayout {

  import opened DocTree

  /** A document waiting to be laid out, with its indentation and mode. The top of a stack is its last entry. */
  datatype Entry = Entry(indent: nat, mode: Mode, doc: Doc)

  type Stack = seq<Entry>

  /** What a stack stands for: its top first, then everything below it. */
  datatype Work = Done | Then(top: Entry, below: Work)

  /** The entries of `st` still to do before `w`. */
  function Onto(st: Stack, w: Work): Work
  {
    if st == [] then w else Then(st[|st| - 1], Onto(st[..|st| - 1], w))
  }

  lemma Push(st: Stack, e: Entry, w: Work)
    ensures Onto(st + [e], w) == Then(e, Onto(st, w))
  {
    assert (st + [e])[..|st|] == st;
  }

  // ---------------------------------------------------------------- sizes

  function Size(d: Doc): nat
  {
    match d
    case Concat(a, b) => 1 + Size(a) + Size(b)
    case Nest(_, inner) => 1 + Size(inner)
    case Group(inner) => 1 + Size(inner)
    case IfBreak(broken, flat) => 1 + Size(broken) + Size(flat)
    case _ => 1
  }

  function WorkSize(w: Work): nat
  {
    match w
    case Done => 0
    case Then(e, below) => Size(e.doc) + WorkSize(below)
  }

  function Halves(indent: nat, mode: Mode, a: Doc, b: Doc, w: Work): (r: Work)
    ensures WorkSize(r) < WorkSize(Then(Entry(indent, mode, Concat(a, b)), w))
  {
    var second := Then(Entry(indent, mode, b), w);
    assert WorkSize(second) == Size(b) + WorkSize(w);
    Then(Entry(indent, mode, a), second)
  }

  function Chosen(mode: Mode, d: Doc): (r: Doc)
    requires d.IfBreak?
    ensures Size(r) < Size(d)
  {
    if mode == Break then d.broken else d.flat
  }

  // ---------------------------------------------------------------- the lookahead

  /** Does the pending work fit in `remaining` columns up to the next forced break? */
  function Fits(remaining: int, w: Work): bool
    decreases WorkSize(w)
  {
    if remaining < 0 then false
    else
      match w
      case Done => true
      case Then(Entry(indent, mode, d), below) =>
        match d
        case Nil => Fits(remaining, below)
        case Text(s) => Fits(remaining - |s|, below)
        case Concat(a, b) => Fits(remaining, Halves(indent, mode, a, b, below))
        case Nest(n, inner) => Fits(remaining, Then(Entry(indent + n, mode, inner), below))
        case Group(inner) => Fits(remaining, Then(Entry(indent, Flat, inner), below))
        case Line => if mode == Flat then Fits(remaining - 1, below) else true
        case SoftLine => if mode == Flat then Fits(remaining, below) else true
        case HardLine => mode == Break
        case IfBreak(_, _) => Fits(remaining, Then(Entry(indent, mode, Chosen(mode, d)), below))
  }

  datatype Verdict = Answer(fits: bool) | Continue

  /** What one turn of the lookahead does with `top` and the work below it: an answer, or what is left to ask. */
  datatype Turned = Say(fits: bool) | Ask(remaining: int, work: Work)

  function Turn(remaining: int, top: Entry, below: Work): Turned
  {
    var Entry(indent, mode, d) := top;
    match d
    case Nil => Ask(remaining, below)
    case Text(s) => Ask(remaining - |s|, below)
    case Concat(a, b) => Ask(remaining, Then(Entry(indent, mode, a), Then(Entry(indent, mode, b), below)))
    case Nest(n, inner) => Ask(remaining, Then(Entry(indent + n, mode, inner), below))
    case Group(inner) => Ask(remaining, Then(Entry(indent, Flat, inner), below))
    case Line => if mode == Flat then Ask(remaining - 1, below) else Say(true)
    case SoftLine => if mode == Flat then Ask(remaining, below) else Say(true)
    case HardLine => Say(mode == Break)
    case IfBreak(_, _) => Ask(remaining, Then(Entry(indent, mode, Chosen(mode, d)), below))
  }

  lemma TurnIsFits(remaining: int, top: Entry, below: Work)
    requires remaining >= 0
    ensures var turn := Turn(remaining, top, below);
      if turn.Say? then Fits(remaining, Then(top, below)) == turn.fits
      else
        && Fits(remaining, Then(top, below)) == Fits(turn.remaining, turn.work)
        && WorkSize(turn.work) < WorkSize(Then(top, below))
  {
    if top.doc.Concat? {
      assert Halves(top.indent, top.mode, top.doc.a, top.doc.b, below) == Turn(remaining, top, below).work;
    }
  }

  /** One turn of the lookahead, on the popped entry `top` with `w` below the local stack. */
  method LookAt(remaining0: int, top: Entry, local0: Stack, ghost w: Work)
    returns (v: Verdict, remaining: int, local: Stack)
    ensures Turn(remaining0, top, Onto(local0, w)) == if v.Answer? then Say(v.fits) else Ask(remaining, Onto(local, w))
  {
    v, remaining, local := Continue, remaining0, local0;
    var Entry(indent, mode, d) := top;
    match d {
      case Nil =>
      case Text(s) => remaining := remaining - |s|;
      case Concat(a, b) =>
        local := local + [Entry(indent, mode, b)];
        Push(local0, Entry(indent, mode, b), w);
        Push(local, Entry(indent, mode, a), w);
        local := local + [Entry(indent, mode, a)];
      case Nest(n, inner) =>
        local := local + [Entry(indent + n, mode, inner)];
        Push(local0, Entry(indent + n, mode, inner), w);
      case Group(inner) =>
        local := local + [Entry(indent, Flat, inner)];
        Push(local0, Entry(indent, Flat, inner), w);
      case Line =>
        if mode == Break {
          v := Answer(true);
        }
        remaining := remaining - 1;
      case SoftLine =>
        if mode == Break {
          v := Answer(true);
        }
      case HardLine => v := Answer(mode == Break);
      case IfBreak(broken, flat) =>
        var chosen := if mode == Break then broken else flat;
        local := local + [Entry(indent, mode, chosen)];
        Push(local0, Entry(indent, mode, chosen), w);
    }
  }

  /** The lookahead: a local stack on top of the renderer's, which it reads through an index. */
  method ComputeFits(remaining0: int, first: Entry, rest: Stack) returns (r: bool)
    ensures r == Fits(remaining0, Then(first, Onto(rest, Done)))
  {
    var remaining := remaining0;
    var local: Stack := [first];
    var restIdx := |rest|;
    Push([], first, Onto(rest, Done));
    assert [] + [first] == local && rest[..|rest|] == rest;
    ghost var w := Onto(rest, Done);
    while true
      invariant 0 <= restIdx <= |rest| && w == Onto(rest[..restIdx], Done)
      invariant Fits(remaining, Onto(local, w)) == Fits(remaining0, Then(first, Onto(rest, Done)))
      decreases WorkSize(Onto(local, w))
    {
      if remaining < 0 {
        return false;
      }
      var top: Entry;
      if local != [] {
        top, local := local[|local| - 1], local[..|local| - 1];
      } else {
        if restIdx == 0 {
          return true;
        }
        restIdx := restIdx - 1;
        top := rest[restIdx];
        assert rest[..restIdx + 1][..restIdx] == rest[..restIdx];
        w := Onto(rest[..restIdx], Done);
      }
      var v: Verdict;
      TurnIsFits(remaining, top, Onto(local, w));
      v, remaining, local := LookAt(remaining, top, local, w);
      if v.Answer? {
        return v.fits;
      }
    }
    assert false;
  }

  // ---------------------------------------------------------------- output

  /** What the renderer writes: a text piece, a space for a flat line, or a newline with indentation. */
  datatype Out = Piece(s: string) | Blank | NewLine(indent: nat)

  function Spaces(n: nat): (r: string)
    ensures |r| == n && forall i :: 0 <= i < n ==> r[i] == ' '
  {
    seq(n, _ => ' ')
  }

  function Shown(o: Out): string
  {
    match o
    case Piece(s) => s
    case Blank => " "
    case NewLine(indent) => "\n" + Spaces(indent)
  }

  function Show(outs: seq<Out>): string
  {
    if outs == [] then "" else Shown(outs[0]) + Show(outs[1..])
  }

  function Moved(col: nat, o: Out): nat
  {
    match o
    case Piece(s) => col + |s|
    case Blank => col + 1
    case NewLine(indent) => indent
  }

  function ColAfter(col: nat, outs: seq<Out>): nat
    decreases |outs|
  {
    if outs == [] then col else ColAfter(Moved(col, outs[0]), outs[1..])
  }

  lemma {:induction false} ShowConcat(a: seq<Out>, b: seq<Out>)
    ensures Show(a + b) == Show(a) + Show(b)
  {
    if a == [] {
      assert a + b == b && Show(a) + Show(b) == Show(b);
    } else {
      assert (a + b)[1..] == a[1..] + b && (a + b)[0] == a[0];
      ShowConcat(a[1..], b);
      assert Shown(a[0]) + (Show(a[1..]) + Show(b)) == (Shown(a[0]) + Show(a[1..])) + Show(b);
    }
  }

  lemma {:induction false} ColConcat(col: nat, a: seq<Out>, b: seq<Out>)
    ensures ColAfter(col, a + b) == ColAfter(ColAfter(col, a), b)
    decreases |a|
  {
    if a == [] {
      assert a + b == b;
    } else {
      assert (a + b)[1..] == a[1..] + b && (a + b)[0] == a[0];
      ColConcat(Moved(col, a[0]), a[1..], b);
    }
  }

  lemma Single(col: nat, o: Out)
    ensures Show([o]) == Shown(o) && ColAfter(col, [o]) == Moved(col, o)
  {
    assert [o][1..] == [] && Shown(o) + "" == Shown(o);
  }

  // ---------------------------------------------------------------- the recursive layout

  /** The mode a group gets at column `col` with `w` still to come after it. */
  function GroupMode(width: nat, col: nat, indent: nat, inner: Doc, w: Work): Mode
  {
    if Fits(width - col, Then(Entry(indent, Flat, inner), w)) then Flat else Break
  }

  /** What an entry is laid out as at column `col`, when `w` is still to come after it. */
  function Layout(width: nat, col: nat, e: Entry, w: Work): seq<Out>
    decreases Size(e.doc)
  {
    var Entry(indent, mode, d) := e;
    match d
    case Nil => []
    case Text(s) => [Piece(s)]
    case Line => if mode == Flat then [Blank] else [NewLine(indent)]
    case SoftLine => if mode == Flat then [] else [NewLine(indent)]
    case HardLine => [NewLine(indent)]
    case Concat(a, b) =>
      var first := Layout(width, col, Entry(indent, mode, a), Then(Entry(indent, mode, b), w));
      first + Layout(width, ColAfter(col, first), Entry(indent, mode, b), w)
    case Nest(n, inner) => Layout(width, col, Entry(indent + n, mode, inner), w)
    case Group(inner) => Layout(width, col, Entry(indent, GroupMode(width, col, indent, inner, w), inner), w)
    case IfBreak(_, _) => Layout(width, col, Entry(indent, mode, Chosen(mode, d)), w)
  }

  function LayoutAll(width: nat, col: nat, w: Work): seq<Out>
    decreases w
  {
    match w
    case Done => []
    case Then(e, below) =>
      var first := Layout(width, col, e, below);
      first + LayoutAll(width, ColAfter(col, first), below)
  }

  /** Laying out the halves of a concatenation one after the other lays out the concatenation. */
  lemma LayoutConcat(width: nat, col: nat, indent: nat, mode: Mode, a: Doc, b: Doc, w: Work)
    ensures LayoutAll(width, col, Then(Entry(indent, mode, Concat(a, b)), w))
            == LayoutAll(width, col, Halves(indent, mode, a, b, w))
  {
    var ea, eb := Entry(indent, mode, a), Entry(indent, mode, b);
    var first := Layout(width, col, ea, Then(eb, w));
    var second := Layout(width, ColAfter(col, first), eb, w);
    ColConcat(col, first, second);
    var tail := LayoutAll(width, ColAfter(col, first + second), w);
    assert first + (second + tail) == (first + second) + tail;
  }

  // ---------------------------------------------------------------- the renderer

  method Newline(out0: string, indent: nat) returns (out: string, col: nat)
    ensures out == out0 + Shown(NewLine(indent)) && col == indent
  {
    out := out0 + "\n";
    for i := 0 to indent
      invariant out == out0 + ("\n" + Spaces(i))
    {
      assert Spaces(i + 1) == Spaces(i) + [' '];
      out := out + " ";
    }
    col := indent;
  }

  /** The part of a document the renderer writes at once, or nothing. */
  predicate Writes(d: Doc)
  {
    d.Nil? || d.Text? || d.Line? || d.SoftLine? || d.HardLine?
  }

  method Write(out0: string, col0: nat, top: Entry, ghost width: nat, ghost w: Work) returns (out: string, col: nat)
    requires Writes(top.doc)
    ensures var o := Layout(width, col0, top, w); out == out0 + Show(o) && col == ColAfter(col0, o)
  {
    out, col := out0, col0;
    var Entry(indent, mode, d) := top;
    match d {
      case Nil =>
        assert Layout(width, col0, top, w) == [];
      case Text(s) =>
        out, col := out + s, col + |s|;
        Single(col0, Piece(s));
      case Line =>
        if mode == Flat {
          out, col := out + " ", col + 1;
          Single(col0, Blank);
        } else {
          out, col := Newline(out, indent);
          Single(col0, NewLine(indent));
        }
      case SoftLine =>
        if mode == Break {
          out, col := Newline(out, indent);
          Single(col0, NewLine(indent));
        } else {
          assert Layout(width, col0, top, w) == [];
        }
      case HardLine =>
        out, col := Newline(out, indent);
        Single(col0, NewLine(indent));
    }
  }

  /** The entries the renderer pushes for a compound document. */
  method Expand(width: nat, col: nat, top: Entry, below: Stack) returns (stack: Stack)
    requires !Writes(top.doc)
    ensures LayoutAll(width, col, Onto(stack, Done)) == LayoutAll(width, col, Then(top, Onto(below, Done)))
    ensures WorkSize(Onto(stack, Done)) < WorkSize(Then(top, Onto(below, Done)))
  {
    ghost var w := Onto(below, Done);
    var Entry(indent, mode, d) := top;
    match d {
      case Concat(a, b) =>
        stack := below + [Entry(indent, mode, b)];
        Push(below, Entry(indent, mode, b), Done);
        Push(stack, Entry(indent, mode, a), Done);
        stack := stack + [Entry(indent, mode, a)];
        LayoutConcat(width, col, indent, mode, a, b, w);
      case Nest(n, inner) =>
        stack := below + [Entry(indent + n, mode, inner)];
        Push(below, Entry(indent + n, mode, inner), Done);
      case IfBreak(broken, flat) =>
        var chosen := if mode == Break then broken else flat;
        stack := below + [Entry(indent, mode, chosen)];
        Push(below, Entry(indent, mode, chosen), Done);
      case Group(inner) =>
        var flat := ComputeFits(width - col, Entry(indent, Flat, inner), below);
        var groupMode := if flat then Flat else Break;
        stack := below + [Entry(indent, groupMode, inner)];
        Push(below, Entry(indent, groupMode, inner), Done);
    }
  }

  lemma ShowAfter(out: string, first: seq<Out>, tail: seq<Out>)
    ensures out + Show(first + tail) == (out + Show(first)) + Show(tail)
  {
    ShowConcat(first, tail);
    var a, b := Show(first), Show(tail);
    assert out + (a + b) == (out + a) + b;
  }

  /** Renders a document: the explicit stack yields the text that the document stands for. */
  method Render(doc: Doc, width: nat) returns (out: string)
    ensures out == PrettyText(doc, width)
    ensures exists texts :: Offers(doc, texts) && Interleaves(out, texts)
    ensures NoIfBreak(doc) ==> Interleaves(out, Texts(doc))
    ensures out == Show(Layout(width, 0, Entry(0, Break, doc), Done))
  {
    LayoutIsPretty(width, 0, Entry(0, Break, doc), Done);
    ghost var texts := TextsArePrinted(width, 0, 0, Break, doc, Needs(0));
    if NoIfBreak(doc) {
      OneOffer(doc, texts);
    }
    hide PrettyText, Offers, Interleaves;
    out := "";
    var col: nat := 0;
    var stack: Stack := [Entry(0, Break, doc)];
    ghost var all := Layout(width, 0, Entry(0, Break, doc), Done);
    Push([], Entry(0, Break, doc), Done);
    assert [] + stack == stack && all + [] == all;
    while stack != []
      invariant Show(all) == out + Show(LayoutAll(width, col, Onto(stack, Done)))
      decreases WorkSize(Onto(stack, Done))
    {
      var top, below := stack[|stack| - 1], stack[..|stack| - 1];
      ghost var w := Onto(below, Done);
      assert Onto(stack, Done) == Then(top, w);
      if Writes(top.doc) {
        ghost var first := Layout(width, col, top, w);
        ghost var tail := LayoutAll(width, ColAfter(col, first), w);
        ShowAfter(out, first, tail);
        out, col := Write(out, col, top, width, w);
        stack := below;
      } else {
        stack := Expand(width, col, top, below);
      }
    }
    assert Show(all) == out + "";
  }

  // ---------------------------------------------------------------- the width guarantee

  /** From column `col` on, the current line of `outs` stays within `width` up to its end. */
  predicate Within(width: nat, col: nat, outs: seq<Out>)
    decreases |outs|
  {
    col <= width &&
    (outs == [] || outs[0].NewLine? || Within(width, Moved(col, outs[0]), outs[1..]))
  }

  lemma WithinStep(width: nat, col: nat, o: Out, outs: seq<Out>)
    ensures Within(width, col, [o] + outs)
            <==> col <= width && (o.NewLine? || Within(width, Moved(col, o), outs))
  {
    assert ([o] + outs)[1..] == outs;
  }

  /** Whatever the lookahead accepts, the renderer then lays out without passing the width before the next
      newline, whatever the pending entries still hold: for each group it meets on this line it asks the very
      question that has just been answered. */
  lemma {:induction false} AcceptedStaysWithin(width: nat, col: nat, w: Work)
    requires Fits(width - col, w)
    ensures Within(width, col, LayoutAll(width, col, w))
    decreases WorkSize(w)
  {
    match w
    case Done =>
    case Then(e, below) =>
      var Entry(indent, mode, d) := e;
      var first := Layout(width, col, e, below);
      var tail := LayoutAll(width, ColAfter(col, first), below);
      match d {
        case Nil =>
          assert [] + tail == tail;
          AcceptedStaysWithin(width, col, below);
        case Text(s) =>
          Single(col, Piece(s));
          WithinStep(width, col, Piece(s), tail);
          AcceptedStaysWithin(width, col + |s|, below);
        case Line =>
          Single(col, first[0]);
          WithinStep(width, col, first[0], tail);
          if mode == Flat {
            AcceptedStaysWithin(width, col + 1, below);
          }
        case SoftLine =>
          if mode == Flat {
            assert [] + tail == tail;
            AcceptedStaysWithin(width, col, below);
          } else {
            WithinStep(width, col, first[0], tail);
          }
        case HardLine =>
          WithinStep(width, col, first[0], tail);
        case Concat(a, b) =>
          LayoutConcat(width, col, indent, mode, a, b, below);
          AcceptedStaysWithin(width, col, Halves(indent, mode, a, b, below));
        case Nest(n, inner) =>
          AcceptedStaysWithin(width, col, Then(Entry(indent + n, mode, inner), below));
        case Group(inner) =>
          AcceptedStaysWithin(width, col, Then(Entry(indent, Flat, inner), below));
        case IfBreak(_, _) =>
          AcceptedStaysWithin(width, col, Then(Entry(indent, mode, Chosen(mode, d)), below));
      }
  }

  // ---------------------------------------------------------------- flat layout

  /** Flat layout: every group in the document flat, lines as spaces. */
  function FlatLayout(d: Doc): seq<Out>
  {
    match d
    case Text(s) => [Piece(s)]
    case Line => [Blank]
    case Concat(a, b) => FlatLayout(a) + FlatLayout(b)
    case Nest(_, inner) => FlatLayout(inner)
    case Group(inner) => FlatLayout(inner)
    case IfBreak(_, flat) => FlatLayout(flat)
    case _ => []
  }

  /** No hard line is met when everything is flat. */
  predicate Flattable(d: Doc)
  {
    match d
    case HardLine => false
    case Concat(a, b) => Flattable(a) && Flattable(b)
    case Nest(_, inner) => Flattable(inner)
    case Group(inner) => Flattable(inner)
    case IfBreak(_, flat) => Flattable(flat)
    case _ => true
  }

  function FlatWidth(d: Doc): nat
  {
    ColAfter(0, FlatLayout(d))
  }

  predicate OneLine(outs: seq<Out>)
  {
    forall o :: o in outs ==> !o.NewLine?
  }

  lemma {:induction false} FlatIsOneLine(d: Doc)
    ensures OneLine(FlatLayout(d))
  {
    match d
    case Concat(a, b) => FlatIsOneLine(a); FlatIsOneLine(b);
    case Nest(_, inner) => FlatIsOneLine(inner);
    case Group(inner) => FlatIsOneLine(inner);
    case IfBreak(_, flat) => FlatIsOneLine(flat);
    case _ =>
  }

  lemma {:induction false} OneLineShift(col: nat, outs: seq<Out>)
    requires OneLine(outs)
    ensures ColAfter(col, outs) == col + ColAfter(0, outs)
    decreases |outs|
  {
    if outs != [] {
      var next := Moved(0, outs[0]);
      OneLineShift(col + next, outs[1..]);
      OneLineShift(next, outs[1..]);
    }
  }

  lemma FlatWidthConcat(a: Doc, b: Doc)
    ensures FlatWidth(Concat(a, b)) == FlatWidth(a) + FlatWidth(b)
  {
    ColConcat(0, FlatLayout(a), FlatLayout(b));
    FlatIsOneLine(b);
    OneLineShift(FlatWidth(a), FlatLayout(b));
  }

  /** The lookahead question for a flat document, with what it takes asked of the remaining columns at once. */
  predicate Leaves(remaining: int, d: Doc, w: Work)
  {
    remaining >= 0 && Flattable(d) && Fits(remaining - FlatWidth(d), w)
  }

  lemma FlatHalves(remaining: int, indent: nat, a: Doc, b: Doc, w: Work)
    requires remaining >= 0
    requires var wb := Then(Entry(indent, Flat, b), w);
      && Fits(remaining, Then(Entry(indent, Flat, a), wb)) == Leaves(remaining, a, wb)
      && Fits(remaining - FlatWidth(a), wb) == Leaves(remaining - FlatWidth(a), b, w)
    ensures Fits(remaining, Then(Entry(indent, Flat, Concat(a, b)), w)) == Leaves(remaining, Concat(a, b), w)
  {
    FlatWidthConcat(a, b);
    assert Halves(indent, Flat, a, b, w) == Then(Entry(indent, Flat, a), Then(Entry(indent, Flat, b), w));
    assert remaining - FlatWidth(a) < 0 ==> !Fits(remaining - FlatWidth(a) - FlatWidth(b), w);
  }

  /** The lookahead at a flat document: it asks for the room the document takes when flat, and goes on with
      what follows. */
  lemma {:induction false} FitsFlat(remaining: int, indent: nat, d: Doc, w: Work)
    ensures Fits(remaining, Then(Entry(indent, Flat, d), w)) == Leaves(remaining, d, w)
    decreases d
  {
    if remaining >= 0 {
      match d
      case Concat(a, b) =>
        FitsFlat(remaining, indent, a, Then(Entry(indent, Flat, b), w));
        FitsFlat(remaining - FlatWidth(a), indent, b, w);
        FlatHalves(remaining, indent, a, b, w);
      case Nest(n, inner) => FitsFlat(remaining, indent + n, inner, w);
      case Group(inner) => FitsFlat(remaining, indent, inner, w);
      case IfBreak(_, flat) => FitsFlat(remaining, indent, flat, w);
      case Text(s) => Single(0, Piece(s));
      case Line => Single(0, Blank);
      case _ =>
    }
  }

  /** Every group met while `d` is laid out flat is laid flat in its turn. */
  predicate GroupsFlat(width: nat, col: nat, indent: nat, d: Doc, w: Work)
    decreases d
  {
    match d
    case Concat(a, b) =>
      var eb := Then(Entry(indent, Flat, b), w);
      && GroupsFlat(width, col, indent, a, eb)
      && GroupsFlat(width, ColAfter(col, Layout(width, col, Entry(indent, Flat, a), eb)), indent, b, w)
    case Nest(n, inner) => GroupsFlat(width, col, indent + n, inner, w)
    case Group(inner) => GroupMode(width, col, indent, inner, w) == Flat && GroupsFlat(width, col, indent, inner, w)
    case IfBreak(_, flat) => GroupsFlat(width, col, indent, flat, w)
    case _ => true
  }

  lemma {:induction false} FlatOutput(width: nat, col: nat, indent: nat, d: Doc, w: Work)
    requires Fits(width - col, Then(Entry(indent, Flat, d), w))
    ensures Layout(width, col, Entry(indent, Flat, d), w) == FlatLayout(d)
    decreases d
  {
    FitsFlat(width - col, indent, d, w);
    match d
    case Concat(a, b) =>
      var eb := Entry(indent, Flat, b);
      FlatOutput(width, col, indent, a, Then(eb, w));
      FitsFlat(width - col, indent, a, Then(eb, w));
      FlatIsOneLine(a);
      OneLineShift(col, FlatLayout(a));
      FlatOutput(width, col + FlatWidth(a), indent, b, w);
    case Nest(n, inner) => FlatOutput(width, col, indent + n, inner, w);
    case Group(inner) => FlatOutput(width, col, indent, inner, w);
    case IfBreak(_, flat) => FlatOutput(width, col, indent, flat, w);
    case _ =>
  }

  lemma {:induction false} GroupsStayFlat(width: nat, col: nat, indent: nat, d: Doc, w: Work)
    requires Fits(width - col, Then(Entry(indent, Flat, d), w))
    ensures GroupsFlat(width, col, indent, d, w)
    decreases d
  {
    FitsFlat(width - col, indent, d, w);
    match d
    case Concat(a, b) =>
      var eb := Entry(indent, Flat, b);
      FlatOutput(width, col, indent, a, Then(eb, w));
      FitsFlat(width - col, indent, a, Then(eb, w));
      FlatIsOneLine(a);
      OneLineShift(col, FlatLayout(a));
      hide Layout, FlatLayout;
      GroupsStayFlat(width, col, indent, a, Then(eb, w));
      GroupsStayFlat(width, col + FlatWidth(a), indent, b, w);
    case Nest(n, inner) => GroupsStayFlat(width, col, indent + n, inner, w);
    case Group(inner) => GroupsStayFlat(width, col, indent, inner, w);
    case IfBreak(_, flat) => GroupsStayFlat(width, col, indent, flat, w);
    case _ =>
  }

  /** A group laid flat has every group nested in it laid flat too and writes no newline. */
  lemma {:induction false} FlatThroughout(width: nat, col: nat, indent: nat, d: Doc, w: Work)
    requires Fits(width - col, Then(Entry(indent, Flat, d), w))
    ensures Layout(width, col, Entry(indent, Flat, d), w) == FlatLayout(d) && OneLine(FlatLayout(d))
    ensures GroupsFlat(width, col, indent, d, w)
  {
    FlatOutput(width, col, indent, d, w);
    FitsFlat(width - col, indent, d, w);
    FlatIsOneLine(d);
    GroupsStayFlat(width, col, indent, d, w);
  }

  /** Room needed on this line by the pending work. */
  function LineRoom(w: Work): Room
    decreases WorkSize(w)
  {
    match w
    case Done => Needs(0)
    case Then(Entry(indent, mode, d), below) =>
      if mode == Flat || d.Group? then
        if !Flattable(d) then Never else After(FlatWidth(d), LineRoom(below))
      else
        match d
        case Text(s) => After(|s|, LineRoom(below))
        case Concat(a, b) => LineRoom(Halves(indent, mode, a, b, below))
        case Nest(n, inner) => LineRoom(Then(Entry(indent + n, mode, inner), below))
        case IfBreak(broken, _) => LineRoom(Then(Entry(indent, mode, broken), below))
        case Nil => LineRoom(below)
        case _ => Needs(0)
  }

  /** The lookahead is exact: it accepts precisely when the line can be finished in the columns left. */
  lemma {:induction false} FitsExactly(remaining: int, w: Work)
    ensures Fits(remaining, w) <==> remaining >= 0 && LineRoom(w).Needs? && LineRoom(w).columns <= remaining
    decreases WorkSize(w)
  {
    match w
    case Done =>
    case Then(Entry(indent, mode, d), below) =>
      if mode == Flat || d.Group? {
        FitsFlat(remaining, indent, if mode == Flat then d else d.inner, below);
        FitsExactly(remaining - FlatWidth(d), below);
      } else {
        match d
        case Text(s) => FitsExactly(remaining - |s|, below);
        case Concat(a, b) => FitsExactly(remaining, Halves(indent, mode, a, b, below));
        case Nest(n, inner) => FitsExactly(remaining, Then(Entry(indent + n, mode, inner), below));
        case IfBreak(broken, _) => FitsExactly(remaining, Then(Entry(indent, mode, broken), below));
        case Nil => FitsExactly(remaining, below);
        case _ =>
      }
  }

  /** A group is broken only when it has to be: it is laid flat precisely when it holds no hard line that flat
      layout would meet and there is room for it and for the rest of its line. Once flat, it is one line, all
      its groups flat, and the line stays within the width up to its end, the text after the group included. */
  lemma FlatExactlyWhenRoom(width: nat, col: nat, indent: nat, mode: Mode, inner: Doc, w: Work)
    ensures GroupMode(width, col, indent, inner, w) == Flat
            <==> Flattable(inner) && LineRoom(w).Needs? && col + FlatWidth(inner) + LineRoom(w).columns <= width
    ensures GroupMode(width, col, indent, inner, w) == Flat ==>
              var group := Entry(indent, mode, Group(inner));
              && Layout(width, col, group, w) == FlatLayout(inner) && OneLine(FlatLayout(inner))
              && Within(width, col, LayoutAll(width, col, Then(group, w)))
  {
    var group := Entry(indent, mode, Group(inner));
    FitsExactly(width - col, Then(Entry(indent, Flat, inner), w));
    RoomOfFlat(indent, inner, w);
    if GroupMode(width, col, indent, inner, w) == Flat {
      FlatGroupStays(width, col, indent, mode, inner, w);
    }
  }

  lemma RoomOfFlat(indent: nat, d: Doc, w: Work)
    ensures LineRoom(Then(Entry(indent, Flat, d), w))
            == if Flattable(d) then After(FlatWidth(d), LineRoom(w)) else Never
  {
  }

  lemma FlatGroupStays(width: nat, col: nat, indent: nat, mode: Mode, inner: Doc, w: Work)
    requires Fits(width - col, Then(Entry(indent, Flat, inner), w))
    ensures var group := Entry(indent, mode, Group(inner));
      && Layout(width, col, group, w) == FlatLayout(inner) && OneLine(FlatLayout(inner))
      && Within(width, col, LayoutAll(width, col, Then(group, w)))
  {
    FlatThroughout(width, col, indent, inner, w);
    FlatIsOneLine(inner);
    AcceptedStaysWithin(width, col, Then(Entry(indent, mode, Group(inner)), w));
  }

  // ---------------------------------------------------------------- the layout as text

  lemma {:induction false} FlatIsText(d: Doc)
    ensures Show(FlatLayout(d)) == FlatText(d) && FlatWidth(d) == |FlatText(d)| && (Flattable(d) <==> FitsOneLine(d))
  {
    match d
    case Text(s) => Single(0, Piece(s));
    case Line => Single(0, Blank);
    case Concat(a, b) =>
      FlatIsText(a);
      FlatIsText(b);
      ShowConcat(FlatLayout(a), FlatLayout(b));
      ColConcat(0, FlatLayout(a), FlatLayout(b));
      FlatIsOneLine(b);
      OneLineShift(FlatWidth(a), FlatLayout(b));
    case Nest(_, inner) => FlatIsText(inner);
    case Group(inner) => FlatIsText(inner);
    case IfBreak(_, flat) => FlatIsText(flat);
    case _ =>
  }

  lemma {:induction false} RoomIsRoom(e: Entry, w: Work)
    ensures LineRoom(Then(e, w)) == RoomFrom(e.mode, e.doc, LineRoom(w))
    decreases e.doc
  {
    var Entry(indent, mode, d) := e;
    FlatIsText(d);
    if mode == Flat || d.Group? {
      RoomOfFlat(indent, d, w);
    } else {
      match d
      case Concat(a, b) =>
        var eb := Entry(indent, mode, b);
        RoomIsRoom(eb, w);
        RoomIsRoom(Entry(indent, mode, a), Then(eb, w));
        RoomOfHalves(indent, a, b, w);
      case Nest(n, inner) => RoomIsRoom(Entry(indent + n, mode, inner), w);
      case IfBreak(broken, _) => RoomIsRoom(Entry(indent, mode, broken), w);
      case _ =>
    }
  }

  lemma SpacesAreBlanks(n: nat)
    ensures Spaces(n) == Blanks(n)
  {
    BlanksAreGap(n);
  }

  /** A layout, shown, is the printed text of its document, and its column that of the text. */
  lemma {:induction false} LayoutIsPretty(width: nat, col: nat, e: Entry, w: Work)
    ensures var outs := Layout(width, col, e, w);
      Pretty(width, col, e.indent, e.mode, e.doc, LineRoom(w)) == Printed(Show(outs), ColAfter(col, outs))
    decreases Size(e.doc)
  {
    var Entry(indent, mode, d) := e;
    SpacesAreBlanks(indent);
    match d
    case Nil =>
    case Text(s) => Single(col, Piece(s));
    case Line => Single(col, if mode == Flat then Blank else NewLine(indent));
    case SoftLine => Single(col, NewLine(indent));
    case HardLine => Single(col, NewLine(indent));
    case Concat(a, b) =>
      var ea, eb := Entry(indent, mode, a), Entry(indent, mode, b);
      var first := Layout(width, col, ea, Then(eb, w));
      RoomIsRoom(eb, w);
      LayoutIsPretty(width, col, ea, Then(eb, w));
      LayoutIsPretty(width, ColAfter(col, first), eb, w);
      ShowConcat(first, Layout(width, ColAfter(col, first), eb, w));
      ColConcat(col, first, Layout(width, ColAfter(col, first), eb, w));
    case Nest(n, inner) => LayoutIsPretty(width, col, Entry(indent + n, mode, inner), w);
    case Group(inner) =>
      FlatExactlyWhenRoom(width, col, indent, mode, inner, w);
      FlatIsText(inner);
      LayoutIsPretty(width, col, Entry(indent, GroupMode(width, col, indent, inner, w), inner), w);
    case IfBreak(_, _) => LayoutIsPretty(width, col, Entry(indent, mode, Chosen(mode, d)), w);
  }

  // ---------------------------------------------------------------- texts and columns

  function Pieces(outs: seq<Out>): seq<string>
  {
    if outs == [] then []
    else (if outs[0].Piece? then [outs[0].s] else []) + Pieces(outs[1..])
  }

  lemma {:induction false} PiecesConcat(a: seq<Out>, b: seq<Out>)
    ensures Pieces(a + b) == Pieces(a) + Pieces(b)
  {
    if a == [] {
      assert a + b == b;
    } else {
      assert (a + b)[1..] == a[1..] + b && (a + b)[0] == a[0];
      PiecesConcat(a[1..], b);
    }
  }

  /** Without IfBreak the text pieces come out the same, in the same order, at every width, column and mode. */
  lemma {:induction false} TextsSurvive(width: nat, col: nat, e: Entry, w: Work)
    requires NoIfBreak(e.doc)
    ensures Pieces(Layout(width, col, e, w)) == Texts(e.doc)
    decreases e.doc
  {
    var Entry(indent, mode, d) := e;
    match d
    case Concat(a, b) =>
      var eb := Entry(indent, mode, b);
      var first := Layout(width, col, Entry(indent, mode, a), Then(eb, w));
      TextsSurvive(width, col, Entry(indent, mode, a), Then(eb, w));
      TextsSurvive(width, ColAfter(col, first), eb, w);
      PiecesConcat(first, Layout(width, ColAfter(col, first), eb, w));
    case Nest(n, inner) => TextsSurvive(width, col, Entry(indent + n, mode, inner), w);
    case Group(inner) => TextsSurvive(width, col, Entry(indent, GroupMode(width, col, indent, inner, w), inner), w);
    case _ =>
  }

  /** The part of a string after its last newline. */
  function LastLine(s: string): string
  {
    if s == [] || s[|s| - 1] == '\n' then [] else LastLine(s[..|s| - 1]) + [s[|s| - 1]]
  }

  lemma {:induction false} LastLineConcat(a: string, b: string)
    ensures LastLine(a + b) == if '\n' in b then LastLine(b) else LastLine(a) + b
    decreases |b|
  {
    if b == [] {
      assert a + b == a;
    } else {
      var init := b[..|b| - 1];
      assert (a + b)[..|a + b| - 1] == a + init && b == init + [b[|b| - 1]];
      LastLineConcat(a, init);
    }
  }

  predicate PlainPieces(outs: seq<Out>)
  {
    forall o :: o in outs && o.Piece? ==> '\n' !in o.s
  }

  lemma ShownColumn(before: string, o: Out)
    requires o.Piece? ==> '\n' !in o.s
    ensures |LastLine(before + Shown(o))| == Moved(|LastLine(before)|, o)
  {
    LastLineConcat(before, Shown(o));
    match o
    case Piece(s) =>
    case Blank =>
    case NewLine(indent) =>
      assert Shown(o) == "\n" + Spaces(indent) && Shown(o)[0] == '\n';
      LastLineConcat("\n", Spaces(indent));
  }

  lemma ShowFirst(before: string, outs: seq<Out>)
    requires outs != []
    ensures before + Show(outs) == before + Shown(outs[0]) + Show(outs[1..])
  {
    var a, b := Shown(outs[0]), Show(outs[1..]);
    assert before + (a + b) == before + a + b;
  }

  /** The column the renderer tracks is the length of the last line of its output, starting from `before`. */
  lemma {:induction false} ColumnIsLastLine(before: string, outs: seq<Out>)
    requires PlainPieces(outs)
    ensures ColAfter(|LastLine(before)|, outs) == |LastLine(before + Show(outs))|
    decreases |outs|
  {
    if outs == [] {
      assert before + Show(outs) == before;
    } else {
      ShownColumn(before, outs[0]);
      ColumnIsLastLine(before + Shown(outs[0]), outs[1..]);
      ShowFirst(before, outs);
    }
  }

  predicate PlainTexts(d: Doc)
  {
    match d
    case Text(s) => '\n' !in s
    case Concat(a, b) => PlainTexts(a) && PlainTexts(b)
    case Nest(_, inner) => PlainTexts(inner)
    case Group(inner) => PlainTexts(inner)
    case IfBreak(broken, flat) => PlainTexts(broken) && PlainTexts(flat)
    case _ => true
  }

  lemma {:induction false} PlainLayout(width: nat, col: nat, e: Entry, w: Work)
    requires PlainTexts(e.doc)
    ensures PlainPieces(Layout(width, col, e, w))
    decreases Size(e.doc)
  {
    var Entry(indent, mode, d) := e;
    match d
    case Concat(a, b) =>
      var eb := Entry(indent, mode, b);
      PlainLayout(width, col, Entry(indent, mode, a), Then(eb, w));
      PlainLayout(width, ColAfter(col, Layout(width, col, Entry(indent, mode, a), Then(eb, w))), eb, w);
    case Nest(n, inner) => PlainLayout(width, col, Entry(indent + n, mode, inner), w);
    case Group(inner) => PlainLayout(width, col, Entry(indent, GroupMode(width, col, indent, inner, w), inner), w);
    case IfBreak(_, _) => PlainLayout(width, col, Entry(indent, mode, Chosen(mode, d)), w);
    case _ =>
  }

  /** For documents whose texts hold no newline, a rendered document ends in a last line exactly as long as the
      column the renderer has reached. */
  lemma RenderedColumn(width: nat, doc: Doc)
    requires PlainTexts(doc)
    ensures var outs := Layout(width, 0, Entry(0, Break, doc), Done);
      ColAfter(0, outs) == |LastLine(Show(outs))|
  {
    var outs := Layout(width, 0, Entry(0, Break, doc), Done);
    PlainLayout(width, 0, Entry(0, Break, doc), Done);
    ColumnIsLastLine("", outs);
    assert "" + Show(outs) == Show(outs);
  }

  // ---------------------------------------------------------------- concatenation and brackets

  lemma {:induction false} SameRoom(e: Entry, w1: Work, w2: Work)
    requires LineRoom(w1) == LineRoom(w2)
    ensures LineRoom(Then(e, w1)) == LineRoom(Then(e, w2))
    decreases Size(e.doc)
  {
    var Entry(indent, mode, d) := e;
    if mode == Break {
      match d
      case Concat(a, b) =>
        var eb := Entry(indent, mode, b);
        SameRoom(eb, w1, w2);
        SameRoom(Entry(indent, mode, a), Then(eb, w1), Then(eb, w2));
        RoomOfHalves(indent, a, b, w1);
        RoomOfHalves(indent, a, b, w2);
      case Nest(n, inner) => SameRoom(Entry(indent + n, mode, inner), w1, w2);
      case IfBreak(broken, _) => SameRoom(Entry(indent, mode, broken), w1, w2);
      case _ =>
    }
  }

  lemma RoomOfHalves(indent: nat, a: Doc, b: Doc, w: Work)
    ensures LineRoom(Then(Entry(indent, Break, Concat(a, b)), w))
            == LineRoom(Then(Entry(indent, Break, a), Then(Entry(indent, Break, b), w)))
  {
    assert Halves(indent, Break, a, b, w) == Then(Entry(indent, Break, a), Then(Entry(indent, Break, b), w));
  }

  /** A layout depends on what follows only through the room that the rest of its line needs. */
  lemma {:induction false} LayoutSeesOnlyRoom(width: nat, col: nat, e: Entry, w1: Work, w2: Work)
    requires LineRoom(w1) == LineRoom(w2)
    ensures Layout(width, col, e, w1) == Layout(width, col, e, w2)
    decreases Size(e.doc)
  {
    var Entry(indent, mode, d) := e;
    match d
    case Concat(a, b) =>
      var eb := Entry(indent, mode, b);
      SameRoom(eb, w1, w2);
      LayoutSeesOnlyRoom(width, col, Entry(indent, mode, a), Then(eb, w1), Then(eb, w2));
      LayoutSeesOnlyRoom(width, ColAfter(col, Layout(width, col, Entry(indent, mode, a), Then(eb, w1))), eb, w1, w2);
    case Nest(n, inner) => LayoutSeesOnlyRoom(width, col, Entry(indent + n, mode, inner), w1, w2);
    case Group(inner) =>
      FlatExactlyWhenRoom(width, col, indent, mode, inner, w1);
      FlatExactlyWhenRoom(width, col, indent, mode, inner, w2);
      LayoutSeesOnlyRoom(width, col, Entry(indent, GroupMode(width, col, indent, inner, w1), inner), w1, w2);
    case IfBreak(_, _) => LayoutSeesOnlyRoom(width, col, Entry(indent, mode, Chosen(mode, d)), w1, w2);
    case _ =>
  }

  /** Dropping empty documents while concatenating changes no layout. */
  lemma CatLaysOutBoth(width: nat, col: nat, indent: nat, mode: Mode, a: Doc, b: Doc, w: Work)
    ensures var first := Layout(width, col, Entry(indent, mode, a), Then(Entry(indent, mode, b), w));
      Layout(width, col, Entry(indent, mode, Cat(a, b)), w)
      == first + Layout(width, ColAfter(col, first), Entry(indent, mode, b), w)
  {
    var wb := Then(Entry(indent, mode, b), w);
    var first := Layout(width, col, Entry(indent, mode, a), wb);
    var second := Layout(width, ColAfter(col, first), Entry(indent, mode, b), w);
    if a.Nil? {
      assert first == [] && [] + second == second;
    } else if b.Nil? {
      assert LineRoom(wb) == LineRoom(w) && second == [] && first + [] == first;
      hide LineRoom, Layout, ColAfter;
      LayoutSeesOnlyRoom(width, col, Entry(indent, mode, a), wb, w);
    } else {
      assert Cat(a, b) == Concat(a, b);
    }
  }

  lemma CatFlat(a: Doc, b: Doc)
    ensures FlatLayout(Cat(a, b)) == FlatLayout(a) + FlatLayout(b)
  {
  }

  /** A comma at the end of a broken line. */
  function CommaEnd(indent: nat): Work
  {
    Then(Entry(indent, Break, Text(",")), Then(Entry(indent, Break, Line), Done))
  }

  /** Each item on its own line at `indent`, each followed by a comma. */
  function ItemLines(width: nat, indent: nat, items: seq<Doc>): seq<Out>
  {
    if items == [] then []
    else
      ItemLines(width, indent, items[..|items| - 1])
      + ([NewLine(indent)] + Layout(width, indent, Entry(indent, Break, items[|items| - 1]), CommaEnd(indent))
         + [Piece(",")])
  }

  lemma {:induction false} JoinBroken(width: nat, indent: nat, items: seq<Doc>, w: Work)
    requires items != [] && LineRoom(w) == Needs(1)
    ensures [NewLine(indent)] + Layout(width, indent, Entry(indent, Break, Join(Separator(), items)), w) + [Piece(",")]
            == ItemLines(width, indent, items)
    decreases |items|
  {
    var init, last := items[..|items| - 1], items[|items| - 1];
    var el := Entry(indent, Break, last);
    LayoutSeesOnlyRoom(width, indent, el, w, CommaEnd(indent));
    if |items| == 1 {
      assert Join(Separator(), init) == Nil;
      assert ItemLines(width, indent, init) == [];
    } else {
      var ws := Then(Entry(indent, Break, Separator()), Then(el, w));
      SeparatorBreaks(width, indent, indent, Then(el, w));
      JoinBroken(width, indent, init, ws);
      JoinStep(width, indent, init, last, w, ws);
      var front := Layout(width, indent, Entry(indent, Break, Join(Separator(), init)), ws);
      MoveNewLine(indent, front, Layout(width, indent, el, w));
    }
  }

  lemma MoveNewLine(indent: nat, front: seq<Out>, last: seq<Out>)
    ensures [NewLine(indent)] + (front + [Piece(","), NewLine(indent)] + last) + [Piece(",")]
            == ([NewLine(indent)] + front + [Piece(",")]) + ([NewLine(indent)] + last + [Piece(",")])
  {
  }

  /** The last item of a join follows the others and a separator. */
  lemma JoinStep(width: nat, indent: nat, init: seq<Doc>, last: Doc, w: Work, ws: Work)
    requires init != []
    requires ws == Then(Entry(indent, Break, Separator()), Then(Entry(indent, Break, last), w))
    ensures Layout(width, indent, Entry(indent, Break, Cat(Cat(Join(Separator(), init), Separator()), last)), w)
            == Layout(width, indent, Entry(indent, Break, Join(Separator(), init)), ws)
               + [Piece(","), NewLine(indent)] + Layout(width, indent, Entry(indent, Break, last), w)
  {
    var joined := Join(Separator(), init);
    var front := Layout(width, indent, Entry(indent, Break, joined), ws);
    var wl := Then(Entry(indent, Break, last), w);
    SeparatorBreaks(width, ColAfter(indent, front), indent, wl);
    CatLaysOutBoth(width, indent, indent, Break, joined, Separator(), wl);
    CatLaysOutBoth(width, indent, indent, Break, Cat(joined, Separator()), last, w);
    ColConcat(indent, front, [Piece(","), NewLine(indent)]);
  }

  lemma SeparatorBreaks(width: nat, col: nat, indent: nat, w: Work)
    ensures Layout(width, col, Entry(indent, Break, Separator()), w) == [Piece(","), NewLine(indent)]
    ensures ColAfter(col, [Piece(","), NewLine(indent)]) == indent
    ensures LineRoom(Then(Entry(indent, Break, Separator()), w)) == Needs(1)
  {
    var ec, el := Entry(indent, Break, Text(",")), Entry(indent, Break, Line);
    assert Separator() == Concat(Text(","), Line);
    assert [Piece(","), NewLine(indent)] == [Piece(",")] + [NewLine(indent)];
    ColConcat(col, [Piece(",")], [NewLine(indent)]);
    Single(ColAfter(col, [Piece(",")]), NewLine(indent));
    assert LineRoom(Then(el, w)) == Needs(0);
    assert LineRoom(Then(ec, Then(el, w))) == Needs(1);
  }

  /** Items between separators on one line. */
  function ItemsInline(items: seq<Doc>): seq<Out>
  {
    if items == [] then []
    else
      ItemsInline(items[..|items| - 1]) + (if |items| > 1 then [Piece(","), Blank] else [])
      + FlatLayout(items[|items| - 1])
  }

  lemma {:induction false} JoinFlat(items: seq<Doc>)
    ensures FlatLayout(Join(Separator(), items)) == ItemsInline(items)
  {
    if items != [] {
      var init, last := items[..|items| - 1], items[|items| - 1];
      var front := Join(Separator(), init);
      JoinFlat(init);
      if |items| > 1 {
        CatFlat(front, Separator());
        assert FlatLayout(Separator()) == [Piece(","), Blank];
        CatFlat(Cat(front, Separator()), last);
      } else {
        assert init == [] && [] + ([] + FlatLayout(last)) == FlatLayout(last);
      }
    }
  }

  lemma BracketSpine(a: Doc, b: Doc, c: Doc, d: Doc)
    requires !a.Nil? && !b.Nil? && !c.Nil? && !d.Nil?
    ensures CatAll([a, b, c, d]) == Concat(Concat(Concat(a, b), c), d)
  {
    assert [a, b, c, d][..3] == [a, b, c] && [a, b, c][..2] == [a, b] && [a, b][..1] == [a] && [a][..0] == [];
    assert CatAll([a]) == a;
    assert CatAll([a, b]) == Concat(a, b);
    assert CatAll([a, b, c]) == Concat(Concat(a, b), c);
  }

  /** Flat brackets are one line: opener, items separated by a comma and a space, closer, no trailing comma. */
  lemma FlatBracket(open: string, items: seq<Doc>, close: string)
    ensures FlatLayout(BracketParts(open, items, close)) == [Piece(open)] + ItemsInline(items) + [Piece(close)]
  {
    var inner := Cat(SoftLine, Join(Separator(), items));
    var body := Cat(inner, IfBreak(Text(","), Nil));
    var nested := Nest(INDENT, body);
    BracketSpine(Text(open), nested, SoftLine, Text(close));
    JoinFlat(items);
    CatFlat(SoftLine, Join(Separator(), items));
    CatFlat(inner, IfBreak(Text(","), Nil));
    var line := ItemsInline(items);
    assert [] + line == line && line + [] == line;
    assert FlatLayout(nested) == line;
    hide Join, Cat, ItemsInline;
    assert FlatLayout(Concat(Text(open), nested)) == [Piece(open)] + line;
    assert [Piece(open)] + line + [] == [Piece(open)] + line;
    assert FlatLayout(Concat(Concat(Text(open), nested), SoftLine)) == [Piece(open)] + line;
  }

  /** Broken brackets: the opener, each item on its own line one step further in with a trailing comma, and the
      closer on a line of its own. */
  lemma BrokenBracket(width: nat, col: nat, indent: nat, open: string, items: seq<Doc>, close: string, w: Work)
    requires items != []
    ensures Layout(width, col, Entry(indent, Break, BracketParts(open, items, close)), w)
            == [Piece(open)] + ItemLines(width, indent + INDENT, items) + [NewLine(indent), Piece(close)]
  {
    var inner := Cat(SoftLine, Join(Separator(), items));
    var comma := IfBreak(Text(","), Nil);
    var body := Nest(INDENT, Cat(inner, comma));
    BracketSpine(Text(open), body, SoftLine, Text(close));
    var deep := indent + INDENT;
    var ends := Then(Entry(indent, Break, SoftLine), Then(Entry(indent, Break, Text(close)), w));
    BrokenBody(width, col + |open|, deep, items, ends);
    BracketHalves(width, col, indent, open, body, close, w);
  }

  lemma BrokenBody(width: nat, col: nat, deep: nat, items: seq<Doc>, w: Work)
    requires items != [] && LineRoom(w) == Needs(0)
    ensures Layout(width, col, Entry(deep, Break, Cat(Cat(SoftLine, Join(Separator(), items)), IfBreak(Text(","), Nil))), w)
            == ItemLines(width, deep, items)
  {
    var joined := Join(Separator(), items);
    var inner := Cat(SoftLine, joined);
    var comma := Entry(deep, Break, IfBreak(Text(","), Nil));
    var wc := Then(comma, w);
    assert LineRoom(wc) == Needs(1) by {
      assert LineRoom(Then(Entry(deep, Break, Text(",")), w)) == Needs(1);
    }
    CatLaysOutBoth(width, col, deep, Break, inner, IfBreak(Text(","), Nil), w);
    CatLaysOutBoth(width, col, deep, Break, SoftLine, joined, wc);
    Single(col, NewLine(deep));
    JoinBroken(width, deep, items, wc);
  }

  lemma BracketHalves(width: nat, col: nat, indent: nat, open: string, body: Doc, close: string, w: Work)
    ensures var ends := Then(Entry(indent, Break, SoftLine), Then(Entry(indent, Break, Text(close)), w));
      Layout(width, col, Entry(indent, Break, Concat(Concat(Concat(Text(open), body), SoftLine), Text(close))), w)
      == [Piece(open)] + Layout(width, col + |open|, Entry(indent, Break, body), ends) + [NewLine(indent), Piece(close)]
  {
    var ec := Then(Entry(indent, Break, Text(close)), w);
    var es := Then(Entry(indent, Break, SoftLine), ec);
    Single(col, Piece(open));
    var middle := Layout(width, col + |open|, Entry(indent, Break, body), es);
    var front := [Piece(open)] + middle;
    assert Layout(width, col, Entry(indent, Break, Concat(Text(open), body)), es) == front;
    assert Layout(width, col, Entry(indent, Break, Concat(Concat(Text(open), body), SoftLine)), ec)
        == front + [NewLine(indent)];
    assert front + [NewLine(indent)] + [Piece(close)] == front + [NewLine(indent), Piece(close)];
  }

  // ---------------------------------------------------------------- brackets as text

  lemma Show3(a: seq<Out>, b: seq<Out>, c: seq<Out>)
    ensures Show(a + b + c) == Show(a) + Show(b) + Show(c)
  {
    ShowConcat(a + b, c);
    ShowConcat(a, b);
  }

  lemma {:induction false} InlineShown(items: seq<Doc>)
    ensures Show(ItemsInline(items)) == InlineItems(items)
    decreases |items|
  {
    if items != [] {
      var init, last := items[..|items| - 1], items[|items| - 1];
      FlatIsText(last);
      InlineShown(init);
      if |items| > 1 {
        Show3(ItemsInline(init), [Piece(","), Blank], FlatLayout(last));
        assert Show([Piece(","), Blank]) == ", " by {
          assert [Piece(","), Blank] == [Piece(",")] + [Blank];
          ShowConcat([Piece(",")], [Blank]);
          Single(0, Piece(","));
          Single(0, Blank);
        }
      } else {
        assert ItemsInline(init) == [] && [] + [] + FlatLayout(last) == FlatLayout(last);
      }
    }
  }

  lemma Glue(a: string, b: string, c: string, d: string, e: string)
    ensures a + ((b + c) + d + e) == a + b + c + d + e
  {
  }

  lemma {:induction false} LinesShown(width: nat, indent: nat, items: seq<Doc>)
    ensures Show(ItemLines(width, indent, items)) == ItemsOnLines(width, indent, items)
    decreases |items|
  {
    if items != [] {
      var init, last := items[..|items| - 1], items[|items| - 1];
      var e := Entry(indent, Break, last);
      var outs := Layout(width, indent, e, CommaEnd(indent));
      LinesShown(width, indent, init);
      LayoutIsPretty(width, indent, e, CommaEnd(indent));
      SpacesAreBlanks(indent);
      assert LineRoom(CommaEnd(indent)) == Needs(1);
      Single(0, NewLine(indent));
      Single(0, Piece(","));
      Show3([NewLine(indent)], outs, [Piece(",")]);
      ShowConcat(ItemLines(width, indent, init), [NewLine(indent)] + outs + [Piece(",")]);
      var text := Pretty(width, indent, indent, Break, last, Needs(1)).text;
      assert Show(outs) == text && Shown(NewLine(indent)) == "\n" + Blanks(indent) && Shown(Piece(",")) == ",";
      assert ItemLines(width, indent, items) == ItemLines(width, indent, init) + ([NewLine(indent)] + outs + [Piece(",")]);
      assert ItemsOnLines(width, indent, items) == ItemsOnLines(width, indent, init) + "\n" + Blanks(indent) + text + ",";
      hide Show, Shown, Layout, Pretty, ItemLines, ItemsOnLines, Blanks, Spaces;
      Glue(ItemsOnLines(width, indent, init), "\n", Blanks(indent), text, ",");
    }
  }

  lemma {:induction false} FlatParts(open: string, items: seq<Doc>, close: string)
    ensures FlatText(BracketParts(open, items, close)) == open + InlineItems(items) + close
    ensures FitsOneLine(BracketParts(open, items, close)) <==> AllFitOneLine(items)
  {
    var parts := BracketParts(open, items, close);
    FlatBracket(open, items, close);
    FlatIsText(parts);
    InlineShown(items);
    Show3([Piece(open)], ItemsInline(items), [Piece(close)]);
    Single(0, Piece(open));
    Single(0, Piece(close));
    PartsFit(open, items, close);
  }

  lemma CatFits(a: Doc, b: Doc)
    ensures FitsOneLine(Cat(a, b)) <==> FitsOneLine(a) && FitsOneLine(b)
  {
  }

  lemma {:induction false} JoinFits(items: seq<Doc>)
    ensures FitsOneLine(Join(Separator(), items)) <==> AllFitOneLine(items)
    decreases |items|
  {
    if items != [] {
      var init, last := items[..|items| - 1], items[|items| - 1];
      JoinFits(init);
      CatFits(Join(Separator(), init), Separator());
      CatFits(if |items| > 1 then Cat(Join(Separator(), init), Separator()) else Join(Separator(), init), last);
      assert AllFitOneLine(items) <==> AllFitOneLine(init) && FitsOneLine(last);
    }
  }

  lemma PartsFit(open: string, items: seq<Doc>, close: string)
    ensures FitsOneLine(BracketParts(open, items, close)) <==> AllFitOneLine(items)
  {
    JoinFits(items);
    CatFits(SoftLine, Join(Separator(), items));
    CatFits(Cat(SoftLine, Join(Separator(), items)), IfBreak(Text(","), Nil));
    var body := Nest(INDENT, Cat(Cat(SoftLine, Join(Separator(), items)), IfBreak(Text(","), Nil)));
    BracketSpine(Text(open), body, SoftLine, Text(close));
    assert FitsOneLine(body) <==> AllFitOneLine(items);
    assert FitsOneLine(Concat(Text(open), body)) <==> AllFitOneLine(items);
    assert FitsOneLine(Concat(Concat(Text(open), body), SoftLine)) <==> AllFitOneLine(items);
  }

  /** A bracket as text: on one line, with commas and spaces between the items, exactly when every item can be on one
      line and there is room; otherwise the opener, each item on its own line four columns further in with a comma
      behind it, and the closer on its own line. */
  lemma BracketText(width: nat, col: nat, indent: nat, mode: Mode, open: string, items: seq<Doc>, close: string, w: Work)
    requires items != []
    ensures var line, room := open + InlineItems(items) + close, LineRoom(w);
      Pretty(width, col, indent, mode, Bracketed(open, items, close), room).text
      == if AllFitOneLine(items) && room.Needs? && col + |line| + room.columns <= width then line
         else open + ItemsOnLines(width, indent + 4, items) + ("\n" + Blanks(indent) + close)
  {
    var parts, room := BracketParts(open, items, close), LineRoom(w);
    FlatParts(open, items, close);
    assert Bracketed(open, items, close) == Group(parts);
    var flat := FitsOneLine(parts) && room.Needs? && col + |FlatText(parts)| + room.columns <= width;
    var e := Entry(indent, if flat then Flat else Break, parts);
    FlatExactlyWhenRoom(width, col, indent, mode, parts, w);
    FlatIsText(parts);
    LayoutIsPretty(width, col, e, w);
    if flat {
      FlatOutput(width, col, indent, parts, w);
    } else {
      BrokenBracket(width, col, indent, open, items, close, w);
      BrokenShown(width, indent, open, items, close);
    }
  }

  lemma BrokenShown(width: nat, indent: nat, open: string, items: seq<Doc>, close: string)
    ensures Show([Piece(open)] + ItemLines(width, indent + INDENT, items) + [NewLine(indent), Piece(close)])
            == open + ItemsOnLines(width, indent + 4, items) + ("\n" + Blanks(indent) + close)
  {
    LinesShown(width, indent + 4, items);
    SpacesAreBlanks(indent);
    assert [NewLine(indent), Piece(close)] == [NewLine(indent)] + [Piece(close)];
    ShowConcat([NewLine(indent)], [Piece(close)]);
    Single(0, NewLine(indent));
    Single(0, Piece(open));
    Single(0, Piece(close));
    Show3([Piece(open)], ItemLines(width, indent + 4, items), [NewLine(indent), Piece(close)]);
  }
}

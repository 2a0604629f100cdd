/** Size and alignment of the types a C struct is built from, read off their names. */
module CTypes {
  import opened Options
  import opened TextSearch
  import opened TypeSyntax

  /** Size and alignment in bytes. */
  datatype Shape = Shape(size: int, align: nat)

  // ---------------------------------------------------------------- the layout of a type name

  const I32_MAX: int := 0x7FFF_FFFF

  /** 32-bit two's complement. */
  function Wrap32(x: int): (r: int)
    ensures -I32_MAX - 1 <= r <= I32_MAX
    ensures -I32_MAX - 1 <= x <= I32_MAX ==> r == x
  {
    (x + I32_MAX + 1) % 0x1_0000_0000 - I32_MAX - 1
  }

  /** What `parse::<i32>().unwrap_or(1)` yields. */
  function ParseCount(s: string): int
  {
    var signed := |s| > 1 && (s[0] == '-' || s[0] == '+');
    var digits := if signed then s[1..] else s;
    if digits == "" || !AllDigits(digits) then 1
    else
      var size: int := Value(digits);
      var v: int := if signed && s[0] == '-' then 0 - size else size;
      if -I32_MAX - 1 <= v <= I32_MAX then v else 1
  }

  function ScalarShape(ty: string): (r: Option<Shape>)
    ensures r.Some? ==> r.value.size == r.value.align && r.value.size in {1, 2, 4, 8}
  {
    if ty in {"f64", "i64", "u64", "ptr"} then Some(Shape(8, 8))
    else if ty in {"f32", "i32", "u32"} then Some(Shape(4, 4))
    else if ty in {"i16", "u16"} then Some(Shape(2, 2))
    else if ty in {"i8", "u8", "bool"} then Some(Shape(1, 1))
    else None
  }

  /** Slicing off the count of an array needs its name to end in something else than the semicolon. */
  predicate IsTypeName(ty: string)
  {
    ty == "" || ty[|ty| - 1] != ';'
  }

  function PrimLayout(ty: string): (r: Shape)
    requires IsTypeName(ty)
    ensures r.align in {1, 2, 4, 8}
    decreases |ty|
  {
    if ScalarShape(ty).Some? then ScalarShape(ty).value
    else if ty != "" && ty[0] == '[' && Find(ty, ';') < |ty| then
      var semi := Find(ty, ';');
      var elem := PrimLayout(ElemName(ty, semi));
      Shape(Wrap32(elem.size * ParseCount(ty[semi + 1..|ty| - 1])), elem.align)
    else Shape(8, 8)
  }

  function ElemName(ty: string, semi: nat): (r: string)
    requires ty != "" && ty[0] == '[' && semi == Find(ty, ';') < |ty|
    ensures |r| < |ty| && ';' !in r && IsTypeName(r)
  {
    assert forall k :: 1 <= k < semi ==> ty[k] == ty[..semi][k];
    ty[1..semi]
  }

  function ArrayName(elem: string, n: nat): string
  {
    "[" + elem + ";" + Decimal(n) + "]"
  }

  lemma BracketIsNotScalar(ty: string)
    requires ty != "" && ty[0] == '['
    ensures ScalarShape(ty).None?
  {
  }

  /** The layout of an array name, cut at its first semicolon. */
  lemma ArrayStep(ty: string, elem: string, semi: nat, count: string)
    requires ty != "" && ty[0] == '[' && ty[|ty| - 1] == ']' && semi < |ty| && ty[semi] == ';' && ';' !in ty[..semi]
    requires ty[1..semi] == elem && ty[semi + 1..|ty| - 1] == count && IsTypeName(elem)
    ensures IsTypeName(ty)
    ensures PrimLayout(ty) == Shape(Wrap32(PrimLayout(elem).size * ParseCount(count)), PrimLayout(elem).align)
  {
    FindAt(ty, semi, ';');
    BracketIsNotScalar(ty);
    assert ElemName(ty, semi) == elem;
  }

  function CountRead(n: nat): int
  {
    if n <= I32_MAX then n else 1
  }

  lemma DecimalCount(n: nat)
    ensures ParseCount(Decimal(n)) == CountRead(n)
  {
    DecimalValue(n);
    assert Decimal(n)[0] != '-' by { assert AllDigits(Decimal(n)); }
  }

  /** An array of a named type is laid out as its elements one after the other, in 32-bit arithmetic and with a
      count beyond 32 bits read as one. */
  lemma ArrayLayout(elem: string, n: nat)
    requires ';' !in elem
    ensures IsTypeName(elem) && IsTypeName(ArrayName(elem, n))
    ensures PrimLayout(ArrayName(elem, n)) == Shape(Wrap32(PrimLayout(elem).size * CountRead(n)), PrimLayout(elem).align)
  {
    var ty, semi := ArrayName(elem, n), 1 + |elem|;
    assert ty[..semi] == "[" + elem;
    DecimalCount(n);
    ArrayStep(ty, elem, semi, Decimal(n));
  }

  lemma NotACount(s: string, k: nat)
    requires k < |s| && s[k] == ';'
    ensures ParseCount(s) == 1
  {
    if |s| > 1 && (s[0] == '-' || s[0] == '+') {
      assert s[1..][k - 1] == ';';
    }
  }

  lemma OpenBracket(ty: string)
    requires ty != "" && ty[0] == '[' && ';' !in ty
    ensures IsTypeName(ty) && PrimLayout(ty) == Shape(8, 8)
  {
    assert Find(ty, ';') == |ty|;
    BracketIsNotScalar(ty);
  }

  /** An array of arrays, however deep, collapses: the first semicolon belongs to an inner array, so whatever its
      counts it is laid out as one word. */
  lemma NestedArrayCollapses(elem: string, n: nat)
    requires elem != "" && elem[0] == '[' && ';' in elem
    ensures var ty := ArrayName(elem, n); IsTypeName(ty) && PrimLayout(ty) == Shape(8, 8)
  {
    var ty, at := ArrayName(elem, n), Find(elem, ';');
    var semi, count := 1 + at, elem[at + 1..] + ";" + Decimal(n);
    assert ty[..semi] == "[" + elem[..at];
    assert elem == elem[..at] + ";" + elem[at + 1..];
    assert ty == "[" + elem[..at] + ";" + count + "]";
    NotACount(count, |elem| - at - 1);
    assert ("[" + elem[..at])[1..] == elem[..at] && elem[..at][0] == '[';
    OpenBracket(elem[..at]);
    ArrayStep(ty, elem[..at], semi, count);
  }

  // ---------------------------------------------------------------- type expressions

  /** The name the layout is asked about: references vanish, and what C has no name for is an int. */
  function TypeName(t: Type): string
    decreases t
  {
    match t
    case Name(n) => n
    case Ref(inner) => TypeName(inner)
    case MutRef(inner) => TypeName(inner)
    case Ptr(_) => "ptr"
    case FixedArray(item, n) => ArrayName(TypeName(item), n)
    case Qualified(_) => "int"
    case Generic(_, _) => "int"
    case Tuple(_) => "int"
    case List(_) => "int"
    case Dict(_, _) => "int"
    case Union(_, _) => "int"
    case Function(_, _) => "int"
  }

  predicate IsArray(t: Type)
    decreases t
  {
    match t
    case FixedArray(_, _) => true
    case Ref(inner) => IsArray(inner)
    case MutRef(inner) => IsArray(inner)
    case _ => false
  }

  /** The elements of an array type. */
  function Item(t: Type): (r: Type)
    requires IsArray(t)
    ensures r < t
    decreases t
  {
    match t
    case FixedArray(item, _) => item
    case Ref(inner) => Item(inner)
    case MutRef(inner) => Item(inner)
  }

  function Length(t: Type): nat
    requires IsArray(t)
    decreases t
  {
    match t
    case FixedArray(_, n) => n
    case Ref(inner) => Length(inner)
    case MutRef(inner) => Length(inner)
  }

  lemma {:induction false} ArrayTypeName(t: Type)
    requires IsArray(t)
    ensures TypeName(t) == ArrayName(TypeName(Item(t)), Length(t))
    ensures Printable(t) ==> Printable(Item(t))
    decreases t
  {
    match t
    case FixedArray(item, n) =>
    case Ref(inner) => ArrayTypeName(inner);
    case MutRef(inner) => ArrayTypeName(inner);
  }

  /** Brackets and semicolons tell the names of arrays from all others. */
  lemma {:induction false} ArrayNameShape(t: Type)
    requires Printable(t)
    ensures var s := TypeName(t);
      s != "" && IsTypeName(s) && if IsArray(t) then s[0] == '[' && ';' in s else s[0] != '[' && ';' !in s
    decreases t
  {
    match t
    case Name(n) =>
    case Ref(inner) => ArrayNameShape(inner);
    case MutRef(inner) => ArrayNameShape(inner);
    case Ptr(_) =>
    case FixedArray(item, n) =>
      var s := TypeName(t);
      assert s[|TypeName(item)| + 1] == ';';
    case Qualified(_) =>
    case Generic(_, _) =>
    case Tuple(_) =>
    case List(_) =>
    case Dict(_, _) =>
    case Union(_, _) =>
    case Function(_, _) =>
  }

  /** The name says that the word has `n` bytes: a letter, and the width in bits. */
  ghost predicate NamesWord(ty: string, n: nat)
  {
    || (n in {1, 2, 4, 8} && (ty == "i" + Decimal(8 * n) || ty == "u" + Decimal(8 * n)))
    || (n in {4, 8} && ty == "f" + Decimal(8 * n))
  }

  /** The bytes of a word by its name. A truth value has one, a pointer and whatever else eight. */
  ghost function CWord(ty: string): (n: nat)
    ensures n in {1, 2, 4, 8}
  {
    if ty == "bool" then 1
    else if exists n: nat :: NamesWord(ty, n) then
      var n: nat :| NamesWord(ty, n);
      n
    else 8
  }

  lemma Widths()
    ensures Decimal(8) == "8" && Decimal(16) == "16" && Decimal(32) == "32" && Decimal(64) == "64"
  {
    assert Decimal(1) == "1" && Decimal(3) == "3" && Decimal(6) == "6";
    assert "1" + "6" == "16" && "3" + "2" == "32" && "6" + "4" == "64";
  }

  predicate Listed(ty: string, n: nat)
  {
    || (n == 1 && ty in {"i8", "u8"}) || (n == 2 && ty in {"i16", "u16"})
    || (n == 4 && ty in {"i32", "u32", "f32"}) || (n == 8 && ty in {"i64", "u64", "f64"})
  }

  lemma NamesAreListed(ty: string, n: nat)
    ensures NamesWord(ty, n) <==> Listed(ty, n)
  {
    Widths();
    hide Decimal;
    if n == 1 {
      assert "i" + "8" == "i8" && "u" + "8" == "u8";
    } else if n == 2 {
      assert "i" + "16" == "i16" && "u" + "16" == "u16";
    } else if n == 4 {
      assert "i" + "32" == "i32" && "u" + "32" == "u32" && "f" + "32" == "f32";
    } else if n == 8 {
      assert "i" + "64" == "i64" && "u" + "64" == "u64" && "f" + "64" == "f64";
    }
  }

  lemma ListedShape(ty: string, n: nat)
    requires Listed(ty, n)
    ensures ty != "bool" && ScalarShape(ty) == Some(Shape(n, n))
  {
    if n == 1 {
      assert |ty| == 2;
    }
  }

  lemma UnlistedShape(ty: string)
    requires forall n: nat :: !Listed(ty, n)
    ensures ty != "bool" && ty != "ptr" ==> ScalarShape(ty).None?
    ensures ty == "bool" ==> ScalarShape(ty) == Some(Shape(1, 1))
    ensures ty == "ptr" ==> ScalarShape(ty) == Some(Shape(8, 8))
  {
    assert !Listed(ty, 1) && !Listed(ty, 2) && !Listed(ty, 4) && !Listed(ty, 8);
  }

  lemma CWordIsListed(ty: string)
    ensures CWord(ty) == 1 || Listed(ty, CWord(ty)) || forall n: nat :: !Listed(ty, n)
    ensures ty == "bool" ==> CWord(ty) == 1
    ensures ty != "bool" && (forall n: nat :: !Listed(ty, n)) ==> CWord(ty) == 8
    ensures ty != "bool" && CWord(ty) == 1 ==> Listed(ty, 1)
  {
    forall n: nat ensures NamesWord(ty, n) <==> Listed(ty, n) {
      NamesAreListed(ty, n);
    }
    hide NamesWord, Listed;
  }

  /** Apart from arrays, the layout of a name is what the name says. */
  lemma WordsAreNamed(ty: string)
    requires ty == "" || (ty[0] != '[' && ty[|ty| - 1] != ';')
    ensures IsTypeName(ty) && PrimLayout(ty) == Shape(CWord(ty), CWord(ty))
  {
    hide CWord, ScalarShape, Listed;
    CWordIsListed(ty);
    if n: nat :| Listed(ty, n) {
      ListedShape(ty, n);
      ListedShape(ty, CWord(ty));
    } else {
      UnlistedShape(ty);
    }
  }

  /** The layout of a type expression. */
  function LayoutOf(t: Type): (r: Shape)
    requires IsTypeName(TypeName(t))
  {
    PrimLayout(TypeName(t))
  }

  /** Whatever is not an array is a word: as large as its alignment. */
  lemma NotArrayIsScalar(t: Type)
    requires Printable(t) && !IsArray(t)
    ensures IsTypeName(TypeName(t)) && LayoutOf(t) == Shape(CWord(TypeName(t)), CWord(TypeName(t)))
  {
    ArrayNameShape(t);
    hide CWord;
    WordsAreNamed(TypeName(t));
  }

  /** The alignment, and the size, of what an array type holds in the end. */
  ghost function WordSize(t: Type): (r: nat)
    requires Printable(t)
    ensures r in {1, 2, 4, 8}
    decreases t
  {
    if IsArray(t) then
      ArrayTypeName(t);
      WordSize(Item(t))
    else CWord(TypeName(t))
  }

  /** What an array type holds in the end. */
  function Base(t: Type): (r: Type)
    decreases t
  {
    if IsArray(t) then Base(Item(t)) else t
  }

  /** How many of them an array type holds, over all its levels. */
  function Total(t: Type): nat
    decreases t
  {
    if IsArray(t) then Total(Item(t)) * Length(t) else 1
  }

  /** How C lays out a type: a word as its name says, and an array as its elements one after the other. */
  ghost function CShape(t: Type): Shape
    requires Printable(t)
    decreases t
  {
    if IsArray(t) then
      ArrayTypeName(t);
      var item := CShape(Item(t));
      Shape(item.size * Length(t), item.align)
    else Shape(CWord(TypeName(t)), CWord(TypeName(t)))
  }

  lemma Scaled(item: Shape, w: nat, n: nat, m: nat)
    requires item == Shape(w * n, w)
    ensures Shape(item.size * m, item.align) == Shape(w * (n * m), w)
  {
    assert (w * n) * m == w * (n * m);
  }

  /** What one level of an array adds. */
  lemma ArrayLevel(t: Type)
    requires Printable(t) && IsArray(t)
    ensures Printable(Item(t)) && WordSize(t) == WordSize(Item(t)) && Total(t) == Total(Item(t)) * Length(t)
    ensures CShape(t) == Shape(CShape(Item(t)).size * Length(t), CShape(Item(t)).align)
  {
    ArrayTypeName(t);
  }

  lemma {:induction false} CShapeIsTotal(t: Type)
    requires Printable(t)
    ensures CShape(t) == Shape(WordSize(t) * Total(t), WordSize(t))
    decreases t
  {
    if IsArray(t) {
      ArrayLevel(t);
      CShapeIsTotal(Item(t));
      hide CShape, WordSize, Total;
      Scaled(CShape(Item(t)), WordSize(t), Total(Item(t)), Length(t));
    } else {
      assert CWord(TypeName(t)) * 1 == CWord(TypeName(t));
      hide CWord, TypeName;
    }
  }

  lemma Positive(w: nat, n: nat)
    requires w >= 1 && n > I32_MAX
    ensures w * n > I32_MAX && w * n != w
  {
    assert w * n >= n by { assert (w - 1) * n >= 0; }
    assert w * n - w == w * (n - 1) && w * (n - 1) >= n - 1 by { assert (w - 1) * (n - 1) >= 0; }
  }

  /** Reading a count beyond 32 bits as one, or leaving 32 bits, is always noticed. */
  lemma CountMatters(w: nat, n: nat)
    requires w >= 1
    ensures Wrap32(w * CountRead(n)) == w * n <==> w * n <= I32_MAX
  {
    if n > I32_MAX {
      Positive(w, n);
    }
  }

  lemma FlatArray(t: Type)
    requires Printable(t) && IsArray(t) && Printable(Item(t)) && !IsArray(Item(t))
    ensures IsTypeName(TypeName(t)) && CShape(t) == Shape(WordSize(t) * Length(t), WordSize(t))
    ensures LayoutOf(t) == Shape(Wrap32(WordSize(t) * CountRead(Length(t))), WordSize(t))
  {
    ArrayTypeName(t);
    ArrayNameShape(Item(t));
    ArrayLayout(TypeName(Item(t)), Length(t));
    NotArrayIsScalar(Item(t));
  }

  lemma {:induction false} DeepArray(t: Type)
    requires Printable(t) && IsArray(t) && Printable(Item(t)) && IsArray(Item(t))
    ensures IsTypeName(TypeName(t)) && LayoutOf(t) == Shape(8, 8)
  {
    ArrayTypeName(t);
    ArrayNameShape(Item(t));
    NestedArrayCollapses(TypeName(Item(t)), Length(t));
  }

  /** A type is laid out as C does exactly when it is no array, or an array of something else than arrays whose
      size fits 32 bits, or an array of arrays that holds a single word of eight bytes. */
  lemma LayoutAgreesWithC(t: Type)
    requires Printable(t)
    ensures IsTypeName(TypeName(t))
    ensures LayoutOf(t) == CShape(t)
            <==> (!IsArray(t)
                  || (!IsArray(Item(t)) && WordSize(t) * Total(t) <= I32_MAX)
                  || (IsArray(Item(t)) && WordSize(t) == 8 && Total(t) == 1))
  {
    ArrayNameShape(t);
    CShapeIsTotal(t);
    assert IsArray(t) ==> Total(t) == Total(Item(t)) * Length(t);
    assert IsArray(t) && !IsArray(Item(t)) ==> Total(t) == 1 * Length(t) == Length(t);
    if !IsArray(t) {
      NotArrayIsScalar(t);
    }
    hide CShape, CWord, WordSize, Total, TypeName, PrimLayout, CountRead;
    if IsArray(t) {
      ArrayTypeName(t);
      if IsArray(Item(t)) {
        DeepArray(t);
      } else {
        FlatArray(t);
        CountMatters(WordSize(t), Length(t));
      }
    }
  }

  // ---------------------------------------------------------------- resolved types

  predicate IsFloatName(ty: string)
  {
    ty == "float" || ty == "f32" || ty == "f64" || ty == "double"
  }

  /** Of the names that say how wide they are, those of floats begin with an f. */
  lemma FloatsByName(ty: string, n: nat)
    requires NamesWord(ty, n)
    ensures IsFloatName(ty) <==> ty[0] == 'f'
  {
    NamesAreListed(ty, n);
    hide NamesWord;
  }

  /** A type name with what the layout asks of it. */
  datatype CType = CType(name: string, size: int, align: nat, isFloat: bool)

  function Resolve(ty: string): (r: CType)
    requires IsTypeName(ty)
    ensures r.align in {1, 2, 4, 8}
    ensures r.size == PrimLayout(ty).size && r.align == PrimLayout(ty).align && r.isFloat == IsFloatName(ty)
  {
    var shape := PrimLayout(ty);
    CType(ty, shape.size, shape.align, IsFloatName(ty))
  }
}

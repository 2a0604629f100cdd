/** C struct layout: offsets, bitfields, total size, and the classes of eightbytes passed by value. */
module CAbi {
  import opened CTypes
  import opened Options
  import TypeSyntax

  datatype Field = Field(name: string, ty: CType, bits: Option<nat>)

  /** Bits `from` up to `from + width` of the field's word. */
  datatype BitSpan = BitSpan(from: nat, width: nat)

  datatype Slot = Slot(name: string, offset: int, ty: CType, bits: Option<BitSpan>)

  // ---------------------------------------------------------------- the placing rule

  /** Alignments are powers of two up to a word; bitfields are declared with scalars. */
  predicate IsField(f: Field)
  {
    && f.ty.align in {1, 2, 4, 8} && 0 <= f.ty.size
    && (f.bits.Some? ==> f.ty.size == f.ty.align && f.bits.value < 256)
  }

  /** A field of a resolved type is one the layout can place: with bits when its type is a scalar, and without them
      when an array's size fits 32 bits. */
  lemma ResolvedIsField(name: string, t: TypeSyntax.Type, bits: Option<nat>)
    requires TypeSyntax.Printable(t) && (IsArray(t) && !IsArray(Item(t)) ==> WordSize(t) * Total(t) <= I32_MAX)
    requires bits.Some? ==> !IsArray(t) && bits.value < 256
    ensures IsTypeName(TypeName(t)) && IsField(Field(name, Resolve(TypeName(t)), bits))
    ensures !IsArray(t) ==> Resolve(TypeName(t)).size == Resolve(TypeName(t)).align
  {
    hide PrimLayout, CShape, WordSize, Total, IsArray, Item, Length, TypeName, TypeSyntax.Printable;
    LayoutAgreesWithC(t);
    CShapeIsTotal(t);
    if IsArray(t) {
      ArrayTypeName(t);
      if IsArray(Item(t)) {
        DeepArray(t);
      }
    } else {
      NotArrayIsScalar(t);
    }
  }

  /** The least multiple of `align` at or above `end`. */
  predicate Lands(offset: int, end: int, align: nat)
    requires align > 0
  {
    offset % align == 0 && end <= offset < end + align
  }

  /** Where the storage of a slot ends. */
  function End(slot: Slot): int
  {
    slot.offset + slot.ty.size
  }

  function EndOf(slots: seq<Slot>): int
  {
    if slots == [] then 0 else End(slots[|slots| - 1])
  }

  /** A bitfield continues the word of the bitfield before it when that is in use, of the same size, and has
      room. */
  predicate Continues(prev: seq<Slot>, f: Field)
  {
    prev != [] && f.bits.Some? && prev[|prev| - 1].bits.Some? &&
    var last := prev[|prev| - 1];
    var used := last.bits.value.from + last.bits.value.width;
    0 < used && used + f.bits.value <= last.ty.size * 8 && f.ty.size == last.ty.size
  }

  /** The code's placing rule: a field goes to the first aligned offset after the storage before it, unless it is a
      bitfield that continues a word. */
  predicate Placed(prev: seq<Slot>, f: Field, slot: Slot)
    requires IsField(f)
  {
    && slot.name == f.name && slot.ty == f.ty && slot.bits.Some? == f.bits.Some?
    && (f.bits.Some? ==> slot.bits.value.width == f.bits.value)
    && if Continues(prev, f) then
         var last := prev[|prev| - 1];
         slot.offset == last.offset && slot.bits.value.from == last.bits.value.from + last.bits.value.width
       else
         && Lands(slot.offset, EndOf(prev), f.ty.align)
         && (f.bits.Some? ==> slot.bits.value.from == 0)
  }

  predicate AllFields(fields: seq<Field>)
  {
    forall k :: 0 <= k < |fields| ==> IsField(fields[k])
  }

  /** Every field is placed by the rule after the ones before it. */
  predicate LaidOut(fields: seq<Field>, slots: seq<Slot>)
    requires AllFields(fields)
  {
    |slots| == |fields| && AllPlaced(fields, slots, |fields|)
  }

  predicate AllPlaced(fields: seq<Field>, slots: seq<Slot>, n: nat)
    requires AllFields(fields) && n <= |fields| && n <= |slots|
  {
    forall k :: 0 <= k < n ==> Placed(slots[..k], fields[k], slots[k])
  }

  function MaxAlign(fields: seq<Field>): (r: nat)
    ensures r >= 1
  {
    if fields == [] then 1
    else
      var m, a := MaxAlign(fields[..|fields| - 1]), fields[|fields| - 1].ty.align;
      if m < a then a else m
  }

  // ---------------------------------------------------------------- the layout loop

  function PaddingTo(offset: int, align: nat): (p: int)
    requires align > 0
    ensures 0 <= p < align && (offset + p) % align == 0
  {
    PaddingIsRight(offset, align);
    (align - offset % align) % align
  }

  lemma PaddingIsRight(offset: int, align: nat)
    requires align > 0
    ensures var p := (align - offset % align) % align; 0 <= p < align && (offset + p) % align == 0
  {
    var r := offset % align;
    assert offset == align * (offset / align) + r;
    if r != 0 {
      var p := align - r;
      assert p % align == p by { assert 0 < p < align; }
      assert offset + p == align * (offset / align + 1);
      MultipleMod(offset / align + 1, align);
    } else {
      assert (align - 0) % align == 0 by { MultipleMod(1, align); }
    }
  }

  lemma MultipleMod(k: int, align: nat)
    requires align > 0
    ensures (align * k) % align == 0
  {
    var q, r := (align * k) / align, (align * k) % align;
    assert align * k == align * q + r;
    assert align * (k - q) == r;
    Scaled(align, k - q);
  }

  lemma Scaled(a: int, x: int)
    requires a > 0
    ensures x >= 1 ==> a * x >= a
    ensures x <= -1 ==> a * x <= -a
  {
    if x >= 1 {
      assert a * (x - 1) >= 0;
    } else if x <= -1 {
      assert a * (-x - 1) >= 0;
    }
  }

  /** Places every field of a struct. */
  method PlaceFields(fields: seq<Field>) returns (layout: seq<Slot>, total: int)
    requires AllFields(fields)
    ensures LaidOut(fields, layout) && Lands(total, EndOf(layout), MaxAlign(fields))
  {
    var offset := 0;
    var maxAlign: nat := 1;
    var currentBit: nat := 0;
    var lastBitfieldSize := 0;
    layout := [];
    for k := 0 to |fields|
      invariant |layout| == k && maxAlign == MaxAlign(fields[..k]) && offset == EndOf(layout)
      invariant AllPlaced(fields, layout, k)
      invariant BitState(layout, currentBit, lastBitfieldSize)
    {
      var f := fields[k];
      ghost var before := layout;
      MaxAlignNext(fields, k);
      maxAlign := if maxAlign < f.ty.align then f.ty.align else maxAlign;
      var slot;
      slot, offset, currentBit, lastBitfieldSize := PlaceOne(f, layout, offset, currentBit, lastBitfieldSize);
      layout := layout + [slot];
      OneMore(fields, before, slot, k);
    }
    assert fields[..|fields|] == fields;
    total := offset + PaddingTo(offset, maxAlign);
  }

  lemma OneMore(fields: seq<Field>, slots: seq<Slot>, slot: Slot, k: nat)
    requires AllFields(fields) && |slots| == k < |fields| && AllPlaced(fields, slots, k)
    requires Placed(slots, fields[k], slot)
    ensures AllPlaced(fields, slots + [slot], k + 1) && EndOf(slots + [slot]) == End(slot)
  {
    var more := slots + [slot];
    assert more[..k] == slots;
    forall l | 0 <= l < k + 1
      ensures Placed(more[..l], fields[l], more[l])
    {
      assert more[..l] == slots[..l];
    }
  }

  lemma MaxAlignNext(fields: seq<Field>, k: nat)
    requires k < |fields|
    ensures var m := MaxAlign(fields[..k]); var a := fields[k].ty.align;
      MaxAlign(fields[..k + 1]) == if m < a then a else m
  {
    assert fields[..k + 1][..k] == fields[..k];
  }

  /** What the loop remembers of the last slot: the bits in use when it is a bitfield, nothing otherwise. */
  predicate BitState(slots: seq<Slot>, currentBit: nat, lastBitfieldSize: int)
  {
    if slots == [] || slots[|slots| - 1].bits.None? then currentBit == 0 && lastBitfieldSize == 0
    else
      var last := slots[|slots| - 1];
      && currentBit == last.bits.value.from + last.bits.value.width && lastBitfieldSize == last.ty.size
      && last.ty.size in {1, 2, 4, 8}
  }

  method PlaceOne(f: Field, prev: seq<Slot>, offset0: int, currentBit0: nat, lastSize0: int)
    returns (slot: Slot, offset: int, currentBit: nat, lastSize: int)
    requires IsField(f) && offset0 == EndOf(prev) && BitState(prev, currentBit0, lastSize0)
    ensures Placed(prev, f, slot) && offset == End(slot) && BitState(prev + [slot], currentBit, lastSize)
  {
    offset, currentBit, lastSize := offset0, currentBit0, lastSize0;
    if f.bits.Some? {
      var bits := f.bits.value;
      if currentBit == 0 || currentBit + bits > lastSize * 8 || f.ty.size != lastSize {
        offset := offset + PaddingTo(offset, f.ty.align);
        slot := Slot(f.name, offset, f.ty, Some(BitSpan(0, bits)));
        lastSize := f.ty.size;
        currentBit := bits;
        offset := offset + f.ty.size;
      } else {
        var word := offset - lastSize;
        slot := Slot(f.name, word, f.ty, Some(BitSpan(currentBit % 256, bits)));
        currentBit := currentBit + bits;
      }
    } else {
      currentBit, lastSize := 0, 0;
      offset := offset + PaddingTo(offset, f.ty.align);
      slot := Slot(f.name, offset, f.ty, None);
      offset := offset + f.ty.size;
    }
  }

  /** Places every member of a union. */
  method PlaceUnion(fields: seq<Field>) returns (layout: seq<Slot>, total: int)
    requires AllFields(fields)
    ensures |layout| == |fields|
    ensures forall k :: 0 <= k < |fields| ==> layout[k] == Slot(fields[k].name, 0, fields[k].ty, None)
    ensures forall k :: 0 <= k < |fields| ==> End(layout[k]) <= total
    ensures total % MaxAlign(fields) == 0
    ensures total == 0 || exists k :: 0 <= k < |fields| && Lands(total, End(layout[k]), MaxAlign(fields))
  {
    var maxSize := 0;
    var maxAlign: nat := 1;
    ghost var widest := -1;
    layout := [];
    for k := 0 to |fields|
      invariant |layout| == k && maxAlign == MaxAlign(fields[..k])
      invariant forall l :: 0 <= l < k ==> layout[l] == Slot(fields[l].name, 0, fields[l].ty, None)
      invariant forall l :: 0 <= l < k ==> fields[l].ty.size <= maxSize
      invariant if widest == -1 then maxSize == 0 else 0 <= widest < k && fields[widest].ty.size == maxSize
    {
      var f := fields[k];
      MaxAlignNext(fields, k);
      maxAlign := if maxAlign < f.ty.align then f.ty.align else maxAlign;
      if maxSize < f.ty.size {
        maxSize, widest := f.ty.size, k;
      }
      layout := layout + [Slot(f.name, 0, f.ty, None)];
    }
    assert fields[..|fields|] == fields;
    total := maxSize + PaddingTo(maxSize, maxAlign);
    if widest == -1 {
      assert 0 % maxAlign == 0 by { MultipleMod(0, maxAlign); }
      OnlyPadding(total, maxAlign);
    } else {
      assert Lands(total, End(layout[widest]), MaxAlign(fields));
    }
  }

  lemma OnlyPadding(total: int, align: nat)
    requires 0 <= total < align && total % align == 0
    ensures total == 0
  {
  }

  // ---------------------------------------------------------------- what a layout guarantees

  /** The first bit a slot uses, and the one after its last. */
  function Start(slot: Slot): int
  {
    slot.offset * 8 + if slot.bits.Some? then slot.bits.value.from else 0
  }

  function Stop(slot: Slot): int
  {
    if slot.bits.Some? then Start(slot) + slot.bits.value.width else End(slot) * 8
  }

  /** Every bitfield is at most as wide as its declared word. */
  predicate Fitting(fields: seq<Field>)
  {
    forall k :: 0 <= k < |fields| && fields[k].bits.Some? ==> fields[k].bits.value <= fields[k].ty.size * 8
  }

  lemma {:induction false} EndsRise(fields: seq<Field>, slots: seq<Slot>, i: nat, j: nat)
    requires AllFields(fields) && LaidOut(fields, slots) && i <= j < |slots|
    ensures 0 <= slots[i].offset && End(slots[i]) <= End(slots[j])
    decreases j
  {
    assert Placed(slots[..j], fields[j], slots[j]);
    if j > 0 {
      assert slots[..j][|slots[..j]| - 1] == slots[j - 1];
      EndsRise(fields, slots, if i < j then i else j - 1, j - 1);
    }
  }

  /** Bits stay in the declared words of their fields exactly when every bitfield is at most as wide as its word. */
  lemma BitsStayInWords(fields: seq<Field>, slots: seq<Slot>)
    requires AllFields(fields) && LaidOut(fields, slots)
    ensures Fitting(fields) <==> forall k :: 0 <= k < |slots| ==> Stop(slots[k]) <= End(slots[k]) * 8
  {
    forall k | 0 <= k < |slots|
      ensures Stop(slots[k]) <= End(slots[k]) * 8
              <==> (fields[k].bits.Some? ==> fields[k].bits.value <= fields[k].ty.size * 8)
    {
      assert Placed(slots[..k], fields[k], slots[k]);
    }
  }

  lemma NextAfter(fields: seq<Field>, slots: seq<Slot>, prev: seq<Slot>, k: nat)
    requires AllFields(fields) && LaidOut(fields, slots) && 0 < k < |slots| && prev == slots[..k]
    requires Stop(slots[k - 1]) <= End(slots[k - 1]) * 8
    ensures Stop(slots[k - 1]) <= Start(slots[k])
  {
    assert Placed(prev, fields[k], slots[k]) && prev[|prev| - 1] == slots[k - 1];
  }

  lemma StartsBeforeStop(fields: seq<Field>, slots: seq<Slot>, k: nat)
    requires AllFields(fields) && LaidOut(fields, slots) && k < |slots|
    ensures 0 <= Start(slots[k]) <= Stop(slots[k])
  {
    assert Placed(slots[..k], fields[k], slots[k]);
    EndsRise(fields, slots, k, k);
  }

  /** In a struct whose bitfields fit their words, fields take disjoint stretches of bits in declaration order. */
  lemma {:induction false} FieldsInOrder(fields: seq<Field>, slots: seq<Slot>, i: nat, j: nat)
    requires AllFields(fields) && LaidOut(fields, slots) && Fitting(fields) && i < j < |slots|
    ensures 0 <= Start(slots[i]) <= Stop(slots[i]) <= Start(slots[j])
    decreases j
  {
    BitsStayInWords(fields, slots);
    NextAfter(fields, slots, slots[..j], j);
    StartsBeforeStop(fields, slots, j - 1);
    if i < j - 1 {
      FieldsInOrder(fields, slots, i, j - 1);
    }
  }

  lemma {:induction false} InOrder(slots: seq<Slot>, i: nat, j: nat)
    requires i < j < |slots|
    requires forall k :: 0 <= k < |slots| ==> Start(slots[k]) <= Stop(slots[k])
    requires forall k, l :: 0 <= k < l < |slots| && l == k + 1 ==> Stop(slots[k]) <= Start(slots[l])
    ensures Stop(slots[i]) <= Start(slots[j])
    decreases j
  {
    if i < j - 1 {
      InOrder(slots, i, j - 1);
    }
  }

  // ---------------------------------------------------------------- when fields are disjoint

  /** Where the storage of the fields so far ends, and how much of the last bitfield's word is in use. */
  datatype Storage = Storage(end: int, used: nat, word: int)

  /** The storage of the first `n` fields, read off the fields alone. */
  function StorageOf(fields: seq<Field>, n: nat): Storage
    requires AllFields(fields) && n <= |fields|
  {
    if n == 0 then Storage(0, 0, 0)
    else
      NextStorage(StorageOf(fields, n - 1), fields[n - 1])
  }

  function NextStorage(before: Storage, f: Field): Storage
    requires IsField(f)
  {
    if f.bits.Some? && 0 < before.used && before.used + f.bits.value <= before.word * 8 && f.ty.size == before.word
    then Storage(before.end, before.used + f.bits.value, before.word)
    else
      var end := before.end + PaddingTo(before.end, f.ty.align) + f.ty.size;
      if f.bits.Some? then Storage(end, f.bits.value, f.ty.size) else Storage(end, 0, 0)
  }

  /** Bitfield `n - 1` keeps clear of field `n`: what does not fit its word fits the padding behind it. */
  predicate KeepsClear(fields: seq<Field>, n: nat)
    requires AllFields(fields) && 0 < n < |fields|
  {
    var f := fields[n - 1];
    f.bits.Some? ==> f.bits.value <= 8 * (f.ty.size + PaddingTo(StorageOf(fields, n).end, fields[n].ty.align))
  }

  lemma LandsUnique(x: int, y: int, end: int, align: nat)
    requires align > 0 && Lands(x, end, align) && Lands(y, end, align)
    ensures x == y
  {
    var p, q := x / align, y / align;
    assert x == align * p && y == align * q;
    assert x - y == align * (p - q);
    Scaled(align, p - q);
  }

  lemma OneMoreStored(f: Field, prev: seq<Slot>, slot: Slot, before: Storage, after: Storage)
    requires IsField(f) && Placed(prev, f, slot) && EndOf(prev) == before.end && BitState(prev, before.used, before.word)
    requires after == NextStorage(before, f)
    ensures End(slot) == after.end && BitState(prev + [slot], after.used, after.word)
  {
    if !Continues(prev, f) {
      LandsUnique(slot.offset, before.end + PaddingTo(before.end, f.ty.align), before.end, f.ty.align);
    }
  }

  lemma LastEnd(slots: seq<Slot>, n: nat)
    requires 0 < n <= |slots|
    ensures EndOf(slots[..n]) == End(slots[n - 1])
  {
  }

  /** The storage read off the fields is the storage of the layout. */
  lemma {:induction false} StorageIsEnd(fields: seq<Field>, slots: seq<Slot>, n: nat)
    requires AllFields(fields) && LaidOut(fields, slots) && n <= |slots|
    ensures EndOf(slots[..n]) == StorageOf(fields, n).end
    ensures BitState(slots[..n], StorageOf(fields, n).used, StorageOf(fields, n).word)
    decreases n
  {
    if n > 0 {
      var m := n - 1;
      StorageIsEnd(fields, slots, m);
      assert Placed(slots[..m], fields[m], slots[m]) && slots[..m] + [slots[m]] == slots[..n] && IsField(fields[m]);
      var f, before, after := fields[m], StorageOf(fields, m), StorageOf(fields, n);
      assert after == NextStorage(before, f);
      hide AllFields, LaidOut, Placed, BitState, IsField, StorageOf, NextStorage, EndOf;
      OneMoreStored(f, slots[..m], slots[m], before, after);
      LastEnd(slots, n);
    }
  }

  lemma ClearsFresh(slot: Slot, f: Field, next: Slot)
    requires IsField(f) && Lands(next.offset, End(slot), f.ty.align) && Start(next) == 8 * next.offset
    requires slot.bits.Some? && slot.bits.value.from > 0 ==> Stop(slot) <= 8 * End(slot)
    ensures Stop(slot) <= Start(next)
            <==> (slot.bits.Some? ==> slot.bits.value.width <= 8 * (slot.ty.size + PaddingTo(End(slot), f.ty.align)))
  {
    var end, align := End(slot), f.ty.align;
    LandsUnique(next.offset, end + PaddingTo(end, align), end, align);
  }

  lemma ClearsNext(fields: seq<Field>, slots: seq<Slot>, k: nat, l: nat)
    requires AllFields(fields) && LaidOut(fields, slots) && l == k + 1 < |slots|
    ensures Stop(slots[k]) <= Start(slots[l]) <==> KeepsClear(fields, l)
  {
    var prev := slots[..l];
    assert Placed(slots[..k], fields[k], slots[k]) && Placed(prev, fields[l], slots[l]) && prev[|prev| - 1] == slots[k];
    assert IsField(fields[l]);
    assert slots[k].bits.Some? && slots[k].bits.value.from > 0 ==> Stop(slots[k]) <= 8 * End(slots[k]);
    StorageIsEnd(fields, slots, l);
    assert StorageOf(fields, l).end == End(slots[k]);
    hide AllFields, LaidOut, StorageOf;
    if Continues(prev, fields[l]) {
      assert slots[k].bits.value.width <= 8 * slots[k].ty.size;
    } else {
      ClearsFresh(slots[k], fields[l], slots[l]);
    }
  }

  /** The slots take disjoint stretches of bits in order. */
  ghost predicate Apart(slots: seq<Slot>)
  {
    forall i, j :: 0 <= i < j < |slots| ==> Stop(slots[i]) <= Start(slots[j])
  }

  /** Every bitfield keeps clear of the field after it. */
  predicate AllClear(fields: seq<Field>)
    requires AllFields(fields)
  {
    forall n :: 0 < n < |fields| ==> KeepsClear(fields, n)
  }

  /** Fields take disjoint stretches of bits in declaration order exactly when every bitfield keeps clear of the
      field after it, which can be read off the fields. */
  lemma {:induction false} Disjoint(fields: seq<Field>, slots: seq<Slot>)
    requires AllFields(fields) && LaidOut(fields, slots)
    ensures Apart(slots) <==> AllClear(fields)
  {
    forall n | 0 < n < |fields| ensures Stop(slots[n - 1]) <= Start(slots[n]) <==> KeepsClear(fields, n) {
      ClearsNext(fields, slots, n - 1, n);
    }
    forall k | 0 <= k < |slots| ensures Start(slots[k]) <= Stop(slots[k]) {
      StartsBeforeStop(fields, slots, k);
    }
    hide AllFields, LaidOut, KeepsClear, Start, Stop;
    if AllClear(fields) {
      forall k, l | 0 <= k < l < |slots| && l == k + 1 ensures Stop(slots[k]) <= Start(slots[l]) {
        assert KeepsClear(fields, l);
      }
      forall i, j | 0 <= i < j < |slots| ensures Stop(slots[i]) <= Start(slots[j]) {
        InOrder(slots, i, j);
      }
    }
  }

  /** Twelve bits declared in a byte run into the byte after it. */
  lemma WideBitfieldOverlaps(slots: seq<Slot>)
    requires var byte := Resolve("i8"); var fields := [Field("a", byte, Some(12)), Field("b", byte, None)];
      AllFields(fields) && LaidOut(fields, slots)
    ensures Start(slots[1]) == 8 && Stop(slots[0]) == 12
  {
    var byte := Resolve("i8");
    var fields := [Field("a", byte, Some(12)), Field("b", byte, None)];
    assert Placed(slots[..0], fields[0], slots[0]) && Placed(slots[..1], fields[1], slots[1]);
    assert slots[..1] == [slots[0]];
  }

  lemma {:induction false} IsAligned(fields: seq<Field>, slots: seq<Slot>, k: nat)
    requires AllFields(fields) && LaidOut(fields, slots) && k < |slots|
    ensures slots[k].ty == fields[k].ty && slots[k].offset % fields[k].ty.align == 0
    decreases k
  {
    var prev := slots[..k];
    assert Placed(prev, fields[k], slots[k]);
    if Continues(prev, fields[k]) {
      assert prev[|prev| - 1] == slots[k - 1];
      assert Placed(slots[..k - 1], fields[k - 1], slots[k - 1]);
      IsAligned(fields, slots, k - 1);
    }
  }

  /** Every field is aligned and ends inside the total, which is the least multiple of the largest alignment that
      holds them all. */
  lemma FieldsInside(fields: seq<Field>, slots: seq<Slot>, total: int, k: nat)
    requires AllFields(fields) && LaidOut(fields, slots) && Lands(total, EndOf(slots), MaxAlign(fields))
    requires k < |slots|
    ensures fields[k].ty.align in {1, 2, 4, 8} && slots[k].offset % fields[k].ty.align == 0
    ensures 0 <= slots[k].offset && End(slots[k]) <= total
  {
    IsAligned(fields, slots, k);
    EndsRise(fields, slots, k, |slots| - 1);
  }

  lemma {:induction false} FieldAlignment(fields: seq<Field>, slots: seq<Slot>, total: int, k: nat)
    requires AllFields(fields) && LaidOut(fields, slots) && Lands(total, EndOf(slots), MaxAlign(fields)) && k < |slots|
    ensures k < |fields| && fields[k].ty.align in {1, 2, 4, 8} && MaxAlign(fields) in {1, 2, 4, 8}
    ensures fields[k].ty.align <= MaxAlign(fields)
    ensures slots[k].offset % fields[k].ty.align == 0 && total % MaxAlign(fields) == 0
  {
    IsAligned(fields, slots, k);
    MaxAlignIsMax(fields, k);
  }

  /** From a base address with the alignment of the struct every field is aligned, and so is the base address of
      the next such struct in an array. */
  lemma {:induction false} BaseKeepsAlignment(fields: seq<Field>, slots: seq<Slot>, total: int, k: nat, base: int)
    requires AllFields(fields) && LaidOut(fields, slots) && Lands(total, EndOf(slots), MaxAlign(fields))
    requires k < |slots| && base % MaxAlign(fields) == 0
    ensures fields[k].ty.align > 0 && (base + slots[k].offset) % fields[k].ty.align == 0
    ensures (base + total) % MaxAlign(fields) == 0
  {
    hide MaxAlign, AllFields, LaidOut, Lands, EndOf;
    FieldAlignment(fields, slots, total, k);
    AlignedFrom(MaxAlign(fields), fields[k].ty.align, base, slots[k].offset, total);
  }

  lemma AlignedFrom(m: nat, a: nat, base: int, offset: int, total: int)
    requires m in {1, 2, 4, 8} && a in {1, 2, 4, 8} && a <= m && base % m == 0 && offset % a == 0 && total % m == 0
    ensures (base + offset) % a == 0 && (base + total) % m == 0
  {
    SumAligned(m, a, base, offset);
    SumAligned(m, m, base, total);
  }

  lemma SumAligned(m: nat, a: nat, base: int, offset: int)
    requires m in {1, 2, 4, 8} && a in {1, 2, 4, 8} && a <= m && base % m == 0 && offset % a == 0
    ensures (base + offset) % a == 0
  {
    var p, q, c := base / m, offset / a, m / a;
    assert m == a * c;
    assert base == m * p && offset == a * q;
    Distribute(a, c, p, q);
    MultipleMod(c * p + q, a);
  }

  lemma Distribute(a: int, c: int, p: int, q: int)
    ensures (a * c) * p + a * q == a * (c * p + q)
  {
  }

  lemma {:induction false} MaxAlignIsMax(fields: seq<Field>, k: nat)
    requires AllFields(fields) && k < |fields|
    ensures fields[k].ty.align <= MaxAlign(fields) && MaxAlign(fields) in {1, 2, 4, 8}
    decreases |fields|
  {
    var init := fields[..|fields| - 1];
    if init != [] {
      MaxAlignIsMax(init, if k < |init| then k else 0);
    }
  }

  // ---------------------------------------------------------------- eightbytes

  predicate Overlaps(slot: Slot, index: nat)
  {
    slot.offset < index * 8 + 8 && index * 8 < End(slot)
  }

  predicate Scalar(slot: Slot)
  {
    slot.ty.size == slot.ty.align && slot.ty.align in {1, 2, 4, 8} && 0 <= slot.offset
    && slot.offset % slot.ty.align == 0
  }

  /** An aligned scalar lies in exactly one eightbyte. */
  lemma ScalarInOneEightbyte(slot: Slot, index: nat)
    requires Scalar(slot)
    ensures Overlaps(slot, index) <==> index == slot.offset / 8
    ensures Overlaps(slot, index) ==> index * 8 <= slot.offset && End(slot) <= index * 8 + 8
  {
    var q, r := slot.offset / 8, slot.offset % 8;
    match slot.ty.align
    case 1 =>
    case 2 => assert r % 2 == 0;
    case 4 => assert r % 4 == 0;
    case 8 =>
    case _ =>
  }

  /** The slots of a layout that hold scalars are aligned scalars. */
  lemma ScalarSlot(fields: seq<Field>, slots: seq<Slot>, k: nat)
    requires AllFields(fields) && LaidOut(fields, slots) && k < |slots| && fields[k].ty.size == fields[k].ty.align
    ensures Scalar(slots[k])
  {
    IsAligned(fields, slots, k);
    EndsRise(fields, slots, k, k);
  }

  lemma {:induction false} FirstBeyond(fields: seq<Field>, slots: seq<Slot>, index: nat, n: nat) returns (k: nat)
    requires AllFields(fields) && LaidOut(fields, slots) && 0 < n <= |slots| && End(slots[n - 1]) > index * 8
    ensures k < n && Overlaps(slots[k], index)
    decreases n
  {
    k := n - 1;
    assert Placed(slots[..k], fields[k], slots[k]);
    if k > 0 {
      assert slots[..k][|slots[..k]| - 1] == slots[k - 1];
      if End(slots[k - 1]) > index * 8 {
        k := FirstBeyond(fields, slots, index, k);
      }
    }
  }

  lemma EndIsBelow(total: int, end: int, align: nat, index: nat)
    requires align in {1, 2, 4, 8} && Lands(total, end, align) && end <= 8 * index
    ensures total <= 8 * index
  {
    var p, c := total / align, 8 / align;
    assert total < 8 * index + align;
    assert 8 == align * c && total == align * p;
    hide Lands;
    Distribute(align, c, index, 0 - p);
    Scaled(align, c * index - p);
  }

  /** Padding never fills an eightbyte: every eightbyte of a struct with fields is occupied by one of them. */
  lemma {:induction false} EightbytesOccupied(fields: seq<Field>, slots: seq<Slot>, total: int, index: nat) returns (k: nat)
    requires AllFields(fields) && LaidOut(fields, slots) && Lands(total, EndOf(slots), MaxAlign(fields))
    requires fields != [] && index * 8 < total
    ensures k < |slots| && Overlaps(slots[k], index)
  {
    var n := |slots|;
    assert n == |fields| > 0 && EndOf(slots) == End(slots[n - 1]);
    MaxAlignIsMax(fields, 0);
    hide MaxAlign, AllFields, Overlaps, LaidOut, EndOf, End, Lands;
    if End(slots[n - 1]) <= 8 * index {
      EndIsBelow(total, EndOf(slots), MaxAlign(fields), index);
      assert false;
    }
    k := FirstBeyond(fields, slots, index, n);
  }

  /** In a struct of scalars every field lies in one eightbyte below the total. */
  lemma FieldsInEightbytes(fields: seq<Field>, slots: seq<Slot>, total: int, k: nat, index: nat)
    requires AllFields(fields) && LaidOut(fields, slots) && Lands(total, EndOf(slots), MaxAlign(fields))
    requires k < |slots| && fields[k].ty.size == fields[k].ty.align
    ensures Overlaps(slots[k], index) <==> index == slots[k].offset / 8
    ensures Overlaps(slots[k], index) ==> index * 8 <= slots[k].offset && End(slots[k]) <= index * 8 + 8 && index * 8 < total
  {
    ScalarSlot(fields, slots, k);
    ScalarInOneEightbyte(slots[k], index);
    FieldsInside(fields, slots, total, k);
  }

  /** The code's class of an eightbyte: SSE when it is occupied and every member in it has the name of a float. */
  ghost predicate Sse(layout: seq<Slot>, index: nat)
  {
    && (exists k :: 0 <= k < |layout| && Overlaps(layout[k], index))
    && (forall k :: 0 <= k < |layout| && Overlaps(layout[k], index) ==> layout[k].ty.isFloat)
  }

  method EightbyteIsSse(layout: seq<Slot>, index: nat) returns (sse: bool)
    ensures sse <==> Sse(layout, index)
  {
    var overlapped := false;
    for k := 0 to |layout|
      invariant overlapped <==> exists l :: 0 <= l < k && Overlaps(layout[l], index)
      invariant forall l :: 0 <= l < k && Overlaps(layout[l], index) ==> layout[l].ty.isFloat
    {
      if Overlaps(layout[k], index) {
        overlapped := true;
        if !layout[k].ty.isFloat {
          return false;
        }
      }
    }
    sse := overlapped;
  }

  /** The layout's members have these types. */
  ghost predicate Types(types: seq<TypeSyntax.Type>, layout: seq<Slot>)
  {
    && |types| == |layout|
    && forall k :: 0 <= k < |types| ==>
         && TypeSyntax.Printable(types[k]) && IsTypeName(TypeName(types[k])) && layout[k].ty == Resolve(TypeName(types[k]))
  }

  /** Section 3.2.3 of the System V AMD64 psABI: an eightbyte is SSE exactly when it is occupied and everything in it
      is a float, the elements of arrays one by one. */
  ghost predicate AbiSse(types: seq<TypeSyntax.Type>, layout: seq<Slot>, index: nat)
    requires Types(types, layout)
  {
    && (exists k :: 0 <= k < |layout| && Overlaps(layout[k], index))
    && (forall k :: 0 <= k < |layout| && Overlaps(layout[k], index) ==> IsFloatName(TypeName(Base(types[k]))))
  }

  ghost predicate HoldsArray(types: seq<TypeSyntax.Type>, layout: seq<Slot>, index: nat)
    requires Types(types, layout)
  {
    exists k :: 0 <= k < |layout| && Overlaps(layout[k], index) && IsArray(types[k])
  }

  /** The class is that of the psABI exactly when the eightbyte is not one of floats with a float array among them;
      such an eightbyte is passed as an integer. */
  lemma {:induction false} SseExactly(types: seq<TypeSyntax.Type>, layout: seq<Slot>, index: nat)
    requires Types(types, layout)
    ensures (Sse(layout, index) <==> AbiSse(types, layout, index)) <==> !(AbiSse(types, layout, index) && HoldsArray(types, layout, index))
  {
    forall k | 0 <= k < |layout|
      ensures layout[k].ty.isFloat <==> !IsArray(types[k]) && IsFloatName(TypeName(Base(types[k])))
    {
      ArrayNameShape(types[k]);
    }
  }

  function FloatPair(): TypeSyntax.Type
  {
    TypeSyntax.FixedArray(TypeSyntax.Name("f32"), 2)
  }

  lemma FloatPairShape()
    ensures TypeSyntax.Printable(FloatPair()) && IsArray(FloatPair()) && IsTypeName(TypeName(FloatPair()))
    ensures Resolve(TypeName(FloatPair())).size == 8 && IsFloatName(TypeName(Base(FloatPair())))
  {
    assert TypeSyntax.IsIdentifier("f32");
    assert TypeName(FloatPair()) == ArrayName("f32", 2);
    assert Base(FloatPair()) == Base(TypeSyntax.Name("f32")) == TypeSyntax.Name("f32");
    hide TypeSyntax.IsIdentifier;
    ArrayLayout("f32", 2);
  }

  lemma {:induction false} LoneArray(types: seq<TypeSyntax.Type>, layout: seq<Slot>)
    requires Types(types, layout) && |layout| == 1 && Overlaps(layout[0], 0)
    requires IsArray(types[0]) && IsFloatName(TypeName(Base(types[0])))
    ensures AbiSse(types, layout, 0) && !Sse(layout, 0)
  {
    hide Types, IsArray, IsFloatName, TypeName, Base, Overlaps, Sse;
    SseExactly(types, layout, 0);
  }

  /** Two floats in an array fill an eightbyte that the psABI passes as SSE and the code as an integer. */
  lemma {:induction false} FloatArrayIsInteger(types: seq<TypeSyntax.Type>, layout: seq<Slot>)
    requires types == [FloatPair()] && Types(types, layout) && layout[0].offset == 0
    ensures AbiSse(types, layout, 0) && !Sse(layout, 0)
  {
    FloatPairShape();
    assert types[0] == FloatPair() && layout[0].ty == Resolve(TypeName(types[0]));
    hide FloatPair, Resolve, TypeName, PrimLayout, IsTypeName, TypeSyntax.Printable, Base, IsFloatName, IsArray, Types, Sse, AbiSse;
    LoneArray(types, layout);
  }

  /** The span the members of an eightbyte cover from its start: up to the end of the last of them, and a whole
      eightbyte when there are none. */
  method EightbyteSize(layout: seq<Slot>, index: nat) returns (size: int)
    ensures if exists k :: 0 <= k < |layout| && Overlaps(layout[k], index) then
              && (exists k :: 0 <= k < |layout| && Overlaps(layout[k], index) && size == End(layout[k]) - index * 8)
              && (forall k :: 0 <= k < |layout| && Overlaps(layout[k], index) ==> End(layout[k]) - index * 8 <= size)
            else size == 8
    ensures (forall k :: 0 <= k < |layout| ==> Scalar(layout[k])) ==> 1 <= size <= 8
  {
    size := 0;
    for k := 0 to |layout|
      invariant size >= 0
      invariant size > 0 <==> exists l :: 0 <= l < k && Overlaps(layout[l], index)
      invariant size > 0 ==>
          exists l :: 0 <= l < k && Overlaps(layout[l], index) && size == End(layout[l]) - index * 8
      invariant forall l :: 0 <= l < k && Overlaps(layout[l], index) ==> End(layout[l]) - index * 8 <= size
    {
      if Overlaps(layout[k], index) && size < End(layout[k]) - index * 8 {
        size := End(layout[k]) - index * 8;
      }
    }
    if size == 0 {
      size := 8;
    }
    forall k | 0 <= k < |layout| && Scalar(layout[k])
      ensures Overlaps(layout[k], index) ==> End(layout[k]) <= index * 8 + 8
    {
      ScalarInOneEightbyte(layout[k], index);
    }
  }
}

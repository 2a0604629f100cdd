/** When the layout agrees with the C ABI, bit by bit. */
module CLayout {
  import opened CTypes
  import opened Options
  import opened CAbi

  // ---------------------------------------------------------------- the C rule

  /** The first multiple of `unit` from `p` on. */
  function Up(p: int, unit: nat): (r: int)
    requires unit > 0
    ensures Lands(r, p, unit)
  {
    p + PaddingTo(p, unit)
  }

  /** Section 3.1.2 of the System V AMD64 psABI: a bitfield starts at the next free bit if it then lies in one aligned
      storage unit of its declared type, which it may share with any other member, and in the next such unit
      otherwise; every other member starts at the next bit that is aligned for it. */
  function CStart(p: int, f: Field): int
    requires IsField(f)
  {
    var unit := 8 * f.ty.align;
    if f.bits.Some? && p % unit + f.bits.value <= unit then p else Up(p, unit)
  }

  function BitsOf(f: Field): int
  {
    if f.bits.Some? then f.bits.value else 8 * f.ty.size
  }

  /** The next free bit after the first `k` members. */
  function CCursor(fields: seq<Field>, k: nat): int
    requires AllFields(fields) && k <= |fields|
  {
    if k == 0 then 0 else CStart(CCursor(fields, k - 1), fields[k - 1]) + BitsOf(fields[k - 1])
  }

  function CTotal(fields: seq<Field>): int
    requires AllFields(fields)
  {
    Up(CCursor(fields, |fields|), 8 * MaxAlign(fields))
  }

  /** C allows named bitfields of one bit up to the width of their declared type. */
  predicate ValidC(fields: seq<Field>)
  {
    AllFields(fields) && forall k :: 0 <= k < |fields| && fields[k].bits.Some? ==> 1 <= fields[k].bits.value <= 8 * fields[k].ty.size
  }

  /** The first `n` members start at the bits C gives them. */
  predicate Agrees(fields: seq<Field>, slots: seq<Slot>, n: nat)
    requires AllFields(fields) && n <= |fields| && n <= |slots|
  {
    forall k :: 0 <= k < n ==> Start(slots[k]) == CStart(CCursor(fields, k), fields[k])
  }

  // ---------------------------------------------------------------- where the two rules agree

  /** In C a bitfield at `p` starts on a storage unit of its own. */
  predicate OwnUnit(p: int, f: Field)
    requires IsField(f) && f.bits.Some?
  {
    var unit := 8 * f.ty.align;
    p % unit == 0 || p % unit + f.bits.value > unit
  }

  /** At bit `p`, after `last`, C leaves no room unused that the code leaves unused: `f` continues a run of bitfields
      of one size, or starts a unit of its own that lies beyond the word of a bitfield before it. */
  predicate NoRoomLost(p: int, last: Field, f: Field)
    requires IsField(last) && IsField(f)
  {
    || (last.bits.Some? && f.bits.Some? && last.ty.size == f.ty.size)
    || ((f.bits.Some? ==> OwnUnit(p, f)) && (last.bits.Some? ==> Up(p, 8 * last.ty.align) <= Up(p, 8 * f.ty.align)))
  }

  /** The condition for every member but the first. */
  predicate NoneLost(fields: seq<Field>, n: nat)
    requires AllFields(fields) && n <= |fields|
  {
    forall k :: 0 < k < n ==> NoRoomLost(CCursor(fields, k), fields[k - 1], fields[k])
  }

  lemma {:induction false} InBits(offset: int, end: int, align: nat)
    requires align > 0 && Lands(offset, end, align)
    ensures Lands(8 * offset, 8 * end, 8 * align)
  {
    var q := offset / align;
    assert offset == align * q && 8 * offset == (8 * align) * q;
    MultipleMod(q, 8 * align);
  }

  /** Rounding up twice: the end `w` of the word `p` lies in, then the next unit. */
  lemma {:induction false} RoundTwice(p: int, w: int, word: nat, unit: nat)
    requires word in {8, 16, 32, 64} && unit in {8, 16, 32, 64} && Lands(w, p, word)
    ensures Up(w, unit) == Up(p, unit) <==> w <= Up(p, unit)
    ensures word <= unit ==> w <= Up(p, unit)
  {
    var x, y := Up(p, unit), Up(w, unit);
    if w <= x {
      LandsUnique(x, y, w, unit);
    }
    if word <= unit && x < w {
      FinerMultiple(x, word, unit);
      var i, j := x / word, w / word;
      assert x == word * i && w == word * j && word * (j - i) == w - x;
      CAbi.Scaled(word, j - i);
      assert false;
    }
  }

  lemma FinerMultiple(x: int, word: nat, unit: nat)
    requires word in {8, 16, 32, 64} && unit in {8, 16, 32, 64} && word <= unit && x % unit == 0
    ensures x % word == 0
  {
    var q, c := x / unit, unit / word;
    assert x == unit * q && unit == word * c;
    assert unit * q == word * (c * q);
    MultipleMod(c * q, word);
  }

  /** What the code and C know after member `k`: the next free bit, and the end of its storage. */
  predicate After(last: Field, slot: Slot, p: int)
    requires IsField(last)
  {
    && p == Stop(slot) && slot.ty == last.ty && slot.bits.Some? == last.bits.Some?
    && (last.bits.Some? ==>
          var s := slot.bits.value;
          && s.width == last.bits.value && 1 <= s.from + s.width <= 8 * last.ty.size
          && slot.offset % last.ty.align == 0)
  }

  lemma {:induction false} AfterMember(fields: seq<Field>, slots: seq<Slot>, k: nat)
    requires ValidC(fields) && LaidOut(fields, slots) && k < |fields| && Agrees(fields, slots, k + 1)
    ensures After(fields[k], slots[k], CCursor(fields, k + 1))
  {
    assert Placed(slots[..k], fields[k], slots[k]);
    IsAligned(fields, slots, k);
    BitsStayInWords(fields, slots);
  }

  lemma {:induction false} FreshStart(end: int, p: int, next: Slot, f: Field)
    requires IsField(f) && Lands(next.offset, end, f.ty.align) && (next.bits.Some? ==> next.bits.value.from == 0)
    ensures Start(next) == Up(8 * end, 8 * f.ty.align)
  {
    InBits(next.offset, end, f.ty.align);
    LandsUnique(8 * next.offset, Up(8 * end, 8 * f.ty.align), 8 * end, 8 * f.ty.align);
  }

  /** Going to the next unit is what C does for a bitfield exactly when the bitfield starts its own unit. */
  lemma {:induction false} OwnUnitIsUp(p: int, f: Field)
    requires IsField(f)
    ensures CStart(p, f) == Up(p, 8 * f.ty.align) <==> (f.bits.Some? ==> OwnUnit(p, f))
    ensures CStart(p, f) == p || CStart(p, f) == Up(p, 8 * f.ty.align)
  {
    var unit := 8 * f.ty.align;
    if p % unit == 0 {
      LandsUnique(p, Up(p, unit), p, unit);
    }
  }

  /** After a plain member. */
  lemma {:induction false} AfterPlain(last: Field, slot: Slot, p: int, prev: seq<Slot>, f: Field, next: Slot)
    requires IsField(last) && IsField(f) && After(last, slot, p) && last.bits.None?
    requires prev != [] && prev[|prev| - 1] == slot && Placed(prev, f, next)
    ensures Start(next) == CStart(p, f) <==> NoRoomLost(p, last, f)
  {
    FreshStart(End(slot), p, next, f);
    OwnUnitIsUp(p, f);
  }

  lemma {:induction false} WordEnd(last: Field, slot: Slot, p: int)
    requires IsField(last) && After(last, slot, p) && last.bits.Some?
    ensures Lands(8 * End(slot), p, 8 * last.ty.align) && 8 * End(slot) == Up(p, 8 * last.ty.align)
    ensures (8 * slot.offset) % (8 * last.ty.align) == 0
  {
    var a := last.ty.align;
    var q := slot.offset / a;
    assert slot.offset == a * q && End(slot) == a * (q + 1);
    assert 8 * slot.offset == (8 * a) * q && 8 * End(slot) == (8 * a) * (q + 1);
    MultipleMod(q, 8 * a);
    MultipleMod(q + 1, 8 * a);
    LandsUnique(8 * End(slot), Up(p, 8 * a), p, 8 * a);
  }

  lemma {:induction false} ModOffset(p: int, base: int, used: nat, unit: nat)
    requires unit in {8, 16, 32, 64} && base % unit == 0 && p == base + used && used <= unit
    ensures p % unit == if used < unit then used else 0
  {
  }

  /** A bitfield after one of the same size. */
  lemma {:induction false} AfterSameSize(last: Field, slot: Slot, p: int, prev: seq<Slot>, f: Field, next: Slot)
    requires IsField(last) && IsField(f) && After(last, slot, p) && last.bits.Some?
    requires f.bits.Some? && f.ty.size == last.ty.size && f.bits.value >= 1
    requires prev != [] && prev[|prev| - 1] == slot && Placed(prev, f, next)
    ensures Start(next) == CStart(p, f)
  {
    var unit, used := 8 * f.ty.align, slot.bits.value.from + slot.bits.value.width;
    WordEnd(last, slot, p);
    ModOffset(p, 8 * slot.offset, used, unit);
    if !Continues(prev, f) {
      FreshStart(End(slot), p, next, f);
      RoundTwice(p, 8 * End(slot), unit, unit);
      if used == unit {
        LandsUnique(p, Up(p, unit), p, unit);
      }
    }
  }

  /** Any other member after a bitfield. */
  lemma {:induction false} AfterBitfield(last: Field, slot: Slot, p: int, prev: seq<Slot>, f: Field, next: Slot)
    requires IsField(last) && IsField(f) && After(last, slot, p) && last.bits.Some?
    requires f.bits.Some? ==> f.ty.size != last.ty.size
    requires prev != [] && prev[|prev| - 1] == slot && Placed(prev, f, next)
    ensures Start(next) == CStart(p, f) <==> NoRoomLost(p, last, f)
  {
    var w, unit := 8 * End(slot), 8 * f.ty.align;
    WordEnd(last, slot, p);
    FreshStart(End(slot), p, next, f);
    OwnUnitIsUp(p, f);
    RoundTwice(p, w, 8 * last.ty.align, unit);
    if CStart(p, f) == p && Up(w, unit) == p {
      LandsUnique(p, Up(p, unit), p, unit);
    }
  }

  lemma {:induction false} NextAgrees(fields: seq<Field>, slots: seq<Slot>, k: nat)
    requires ValidC(fields) && LaidOut(fields, slots) && 0 < k < |fields| && Agrees(fields, slots, k)
    ensures Start(slots[k]) == CStart(CCursor(fields, k), fields[k]) <==> NoRoomLost(CCursor(fields, k), fields[k - 1], fields[k])
  {
    var last, f, slot, next, p := fields[k - 1], fields[k], slots[k - 1], slots[k], CCursor(fields, k);
    var prev := slots[..k];
    AfterMember(fields, slots, k - 1);
    assert IsField(last) && IsField(f) && Placed(prev, f, next) && prev[|prev| - 1] == slot;
    assert f.bits.Some? ==> f.bits.value >= 1;
    hide ValidC, LaidOut, Agrees, After, Placed, Start, CStart, IsField, CCursor;
    if last.bits.None? {
      AfterPlain(last, slot, p, prev, f, next);
    } else if f.bits.Some? && f.ty.size == last.ty.size {
      AfterSameSize(last, slot, p, prev, f, next);
    } else {
      AfterBitfield(last, slot, p, prev, f, next);
    }
  }

  lemma {:induction false} FirstAgrees(fields: seq<Field>, slots: seq<Slot>)
    requires ValidC(fields) && LaidOut(fields, slots) && fields != []
    ensures Agrees(fields, slots, 1)
  {
    assert Placed(slots[..0], fields[0], slots[0]);
    var unit := 8 * fields[0].ty.align;
    assert 0 % unit == 0;
    FreshStart(0, 0, slots[0], fields[0]);
    LandsUnique(0, Up(0, unit), 0, unit);
  }

  lemma {:induction false} OneMoreAgrees(fields: seq<Field>, slots: seq<Slot>, m: nat, n: nat)
    requires AllFields(fields) && n == m + 1 <= |fields| && n <= |slots|
    ensures Agrees(fields, slots, n) <==> Agrees(fields, slots, m) && Start(slots[m]) == CStart(CCursor(fields, m), fields[m])
  {
    hide CStart, CCursor, Start;
  }

  lemma {:induction false} OneMoreKept(fields: seq<Field>, m: nat, n: nat)
    requires AllFields(fields) && n == m + 1 <= |fields| && m > 0
    ensures NoneLost(fields, n) <==> NoneLost(fields, m) && NoRoomLost(CCursor(fields, m), fields[m - 1], fields[m])
  {
    hide NoRoomLost, CCursor;
  }

  lemma {:induction false} AgreesExactly(fields: seq<Field>, slots: seq<Slot>, n: nat)
    requires ValidC(fields) && LaidOut(fields, slots) && n <= |fields|
    ensures Agrees(fields, slots, n) <==> NoneLost(fields, n)
    decreases n
  {
    if n == 1 {
      FirstAgrees(fields, slots);
    } else if n > 1 {
      var m := n - 1;
      assert AllFields(fields) && |slots| == |fields| && IsField(fields[m - 1]) && IsField(fields[m]);
      hide ValidC, AllFields, LaidOut, Agrees, NoneLost, NoRoomLost, CStart, CCursor, Start, IsField;
      AgreesExactly(fields, slots, m);
      OneMoreAgrees(fields, slots, m, n);
      OneMoreKept(fields, m, n);
      if Agrees(fields, slots, m) {
        NextAgrees(fields, slots, m);
      }
    }
  }

  /** The layout gives every member the bits the C ABI gives it exactly when no member could share room that the
      code leaves unused; the total is then C's as well. */
  lemma {:induction false} LayoutIsC(fields: seq<Field>, slots: seq<Slot>, total: int)
    requires ValidC(fields) && LaidOut(fields, slots) && Lands(total, EndOf(slots), MaxAlign(fields))
    ensures (forall k :: 0 <= k < |fields| ==> Start(slots[k]) == CStart(CCursor(fields, k), fields[k]))
            <==> NoneLost(fields, |fields|)
    ensures NoneLost(fields, |fields|) ==> 8 * total == CTotal(fields)
  {
    AgreesExactly(fields, slots, |fields|);
    if NoneLost(fields, |fields|) {
      TotalIsC(fields, slots, total);
    }
  }

  lemma {:induction false} TotalIsC(fields: seq<Field>, slots: seq<Slot>, total: int)
    requires ValidC(fields) && LaidOut(fields, slots) && Lands(total, EndOf(slots), MaxAlign(fields))
    requires Agrees(fields, slots, |fields|)
    ensures 8 * total == CTotal(fields)
  {
    var p, unit := CCursor(fields, |fields|), 8 * MaxAlign(fields);
    InBits(total, EndOf(slots), MaxAlign(fields));
    LandsUnique(8 * total, Up(8 * EndOf(slots), unit), 8 * EndOf(slots), unit);
    if fields != [] {
      var k := |fields| - 1;
      MaxAlignIsMax(fields, k);
      AfterMember(fields, slots, k);
      assert EndOf(slots) == End(slots[k]) && IsField(fields[k]);
      hide CCursor, MaxAlign, LaidOut, ValidC, Agrees, After, Start, Stop, AllFields, IsField, Up, EndOf;
      EndRounds(fields[k], slots[k], p, unit);
    }
  }

  lemma EndRounds(last: Field, slot: Slot, p: int, unit: nat)
    requires IsField(last) && After(last, slot, p) && unit in {8, 16, 32, 64} && 8 * last.ty.align <= unit
    ensures Up(8 * End(slot), unit) == Up(p, unit)
  {
    if last.bits.Some? {
      WordEnd(last, slot, p);
      RoundTwice(p, 8 * End(slot), 8 * last.ty.align, unit);
    }
  }

  // ---------------------------------------------------------------- two structs that are not laid out as C does

  lemma {:induction false} SecondStart(a: Field, b: Field, first: Slot, second: Slot, at: int)
    requires IsField(a) && IsField(b) && Placed([], a, first) && Placed([first], b, second)
    requires a.bits.None? || b.bits.None?
    requires Lands(at, a.ty.size, b.ty.align)
    ensures Start(second) == 8 * at && End(second) == at + b.ty.size
  {
    LandsUnique(0, first.offset, 0, a.ty.align);
    assert [first][|[first]| - 1] == first && EndOf([first]) == End(first) == a.ty.size;
    LandsUnique(at, second.offset, a.ty.size, b.ty.align);
  }

  lemma {:induction false} TwoFields(fields: seq<Field>, slots: seq<Slot>)
    requires |fields| == 2 && AllFields(fields) && LaidOut(fields, slots)
    ensures |slots| == 2 && Placed([], fields[0], slots[0]) && Placed([slots[0]], fields[1], slots[1])
    ensures EndOf(slots) == End(slots[1])
  {
    assert Placed(slots[..0], fields[0], slots[0]) && Placed(slots[..1], fields[1], slots[1]);
    assert slots[..0] == [] && slots[..1] == [slots[0]];
  }

  lemma {:induction false} MaxOfTwo(fields: seq<Field>)
    requires |fields| == 2
    ensures var a, b := fields[0].ty.align, fields[1].ty.align;
      MaxAlign(fields) == var m := if 1 < a then a else 1; if m < b then b else m
  {
    assert fields[..1][..0] == [];
    assert MaxAlign(fields[..1]) == if 1 < fields[0].ty.align then fields[0].ty.align else 1;
  }

  /** In C the second field starts at bit 8 and the struct is as large as the larger type. */
  lemma {:induction false} ShareInC(fields: seq<Field>)
    requires |fields| == 2 && AllFields(fields)
    requires CStart(0, fields[0]) == 0 && BitsOf(fields[0]) == 8 && CStart(8, fields[1]) == 8 && BitsOf(fields[1]) == 8
    requires MaxAlign(fields) == 4
    ensures CStart(CCursor(fields, 1), fields[1]) == 8 && CTotal(fields) == 8 * 4
  {
    hide CStart, BitsOf, MaxAlign, CTotal;
    CursorOfTwo(fields);
    TotalOfTwo(fields);
  }

  lemma {:induction false} TotalOfTwo(fields: seq<Field>)
    requires |fields| == 2 && AllFields(fields) && CCursor(fields, 2) == 16 && MaxAlign(fields) == 4
    ensures CTotal(fields) == 32
  {
    hide CCursor, MaxAlign;
    LandsUnique(Up(16, 32), 32, 16, 32);
  }

  lemma {:induction false} StaysPut(p: int, f: Field)
    requires IsField(f) && p in {0, 8}
    requires if f.ty.align == 1 then f.ty.size == 1 && f.bits.None? else f.ty.align == 4 && f.bits == Some(8)
    ensures CStart(p, f) == p && BitsOf(f) == 8
  {
    LandsUnique(p, Up(p, 8), p, 8);
  }

  lemma {:induction false} CursorOfTwo(fields: seq<Field>)
    requires |fields| == 2 && AllFields(fields)
    ensures CCursor(fields, 1) == CStart(0, fields[0]) + BitsOf(fields[0])
    ensures CCursor(fields, 2) == CStart(CCursor(fields, 1), fields[1]) + BitsOf(fields[1])
  {
    hide CStart, BitsOf;
    assert CCursor(fields, 0) == 0;
  }

  lemma {:induction false} SpreadOut(fields: seq<Field>, a: Field, b: Field, slots: seq<Slot>, total: int)
    requires fields == [a, b] && AllFields(fields) && LaidOut(fields, slots) && Lands(total, EndOf(slots), MaxAlign(fields))
    requires (a.ty.align == 1 && a.ty.size == 1 && a.bits.None? && b.ty.align == 4 && b.ty.size == 4)
          || (a.ty.align == 4 && a.ty.size == 4 && b.ty.align == 1 && b.ty.size == 1 && b.bits.None?)
    ensures Start(slots[1]) == 32 && total == 8
  {
    TwoFields(fields, slots);
    MaxOfTwo(fields);
    SecondStart(a, b, slots[0], slots[1], 4);
    LandsUnique(total, 8, End(slots[1]), 4);
  }

  /** A byte and an eight-bit field of an int, in either order. */
  function Pair(bitsFirst: bool): seq<Field>
  {
    var byte, eight := Field("a", Resolve("i8"), None), Field("b", Resolve("i32"), Some(8));
    if bitsFirst then [eight, byte] else [byte, eight]
  }

  /** C packs the pair into one int; the code needs two, whichever comes first. */
  lemma {:induction false} PairNeedsTwoWords(bitsFirst: bool, slots: seq<Slot>, total: int)
    requires var fields := Pair(bitsFirst); ValidC(fields) && LaidOut(fields, slots) && Lands(total, EndOf(slots), MaxAlign(fields))
    ensures Start(slots[1]) == 32 && total == 8
    ensures CStart(CCursor(Pair(bitsFirst), 1), Pair(bitsFirst)[1]) == 8 && CTotal(Pair(bitsFirst)) == 8 * 4
  {
    var fields := Pair(bitsFirst);
    var a, b := fields[0], fields[1];
    assert fields == [a, b];
    assert if bitsFirst then a.ty.align == a.ty.size == 4 && a.bits == Some(8) && b.ty.align == b.ty.size == 1 && b.bits.None?
           else a.ty.align == a.ty.size == 1 && a.bits.None? && b.ty.align == b.ty.size == 4 && b.bits == Some(8);
    assert IsField(a) && IsField(b) && fields[0] == a && fields[1] == b;
    hide Pair, Resolve, PrimLayout, ValidC, AllFields, LaidOut, Lands, MaxAlign, EndOf, Start, CStart, CCursor, CTotal, BitsOf, IsField;
    MaxOfTwo(fields);
    StaysPut(0, a);
    StaysPut(8, b);
    ShareInC(fields);
    SpreadOut(fields, a, b, slots, total);
  }
}

/** UTF-8: how text becomes bytes, and how bytes are read as text. */
module Utf8Text {
  import opened Options

  newtype byte = x: int | 0 <= x < 256

  // ---------------------------------------------------------------- writing

  /** The encoding of one character, after section 3 of RFC 3629. */
  function EncodeChar(c: char): (r: seq<byte>)
    ensures r != []
  {
    var u := c as int;
    if u < 0x80 then [u as byte]
    else if u < 0x800 then [(0xC0 + u / 0x40) as byte, (0x80 + u % 0x40) as byte]
    else if u < 0x10000 then
      [(0xE0 + u / 0x1000) as byte, (0x80 + u / 0x40 % 0x40) as byte, (0x80 + u % 0x40) as byte]
    else
      [(0xF0 + u / 0x40000) as byte, (0x80 + u / 0x1000 % 0x40) as byte, (0x80 + u / 0x40 % 0x40) as byte,
       (0x80 + u % 0x40) as byte]
  }

  function Utf8(s: string): seq<byte>
  {
    if s == [] then [] else Utf8(s[..|s| - 1]) + EncodeChar(s[|s| - 1])
  }

  lemma {:induction false} Utf8Concat(s: string, t: string)
    ensures Utf8(s + t) == Utf8(s) + Utf8(t)
    decreases |t|
  {
    if t == [] {
      assert s + t == s;
    } else {
      assert (s + t)[..|s + t| - 1] == s + t[..|t| - 1];
      Utf8Concat(s, t[..|t| - 1]);
    }
  }

  lemma Utf8Next(s: string, k: nat)
    requires k < |s|
    ensures Utf8(s[..k + 1]) == Utf8(s[..k]) + EncodeChar(s[k])
  {
    assert s[..k + 1][..k] == s[..k];
  }

  // ---------------------------------------------------------------- reading

  /** A byte that continues a character. */
  predicate IsTail(b: byte)
  {
    0x80 <= b <= 0xBF
  }

  /** How many bytes the character at the start of `b` has, after the syntax of section 4 of RFC 3629; 0 when there is
      none. */
  function CharLength(b: seq<byte>): (n: nat)
    ensures n <= |b| && n <= 4
  {
    if |b| >= 1 && b[0] <= 0x7F then 1
    else if |b| >= 2 && 0xC2 <= b[0] <= 0xDF && IsTail(b[1]) then 2
    else if |b| >= 3 && IsTail(b[1]) && IsTail(b[2])
         && ((b[0] == 0xE0 && b[1] >= 0xA0) || 0xE1 <= b[0] <= 0xEC || (b[0] == 0xED && b[1] <= 0x9F) || 0xEE <= b[0] <= 0xEF)
    then 3
    else if |b| >= 4 && IsTail(b[1]) && IsTail(b[2]) && IsTail(b[3])
         && ((b[0] == 0xF0 && b[1] >= 0x90) || 0xF1 <= b[0] <= 0xF3 || (b[0] == 0xF4 && b[1] <= 0x8F))
    then 4
    else 0
  }

  /** The six payload bits of a continuation byte. */
  function Payload(b: byte): int
  {
    b as int - 0x80
  }

  function CharCode(b: seq<byte>): (u: int)
    requires CharLength(b) > 0
    ensures 0 <= u <= 0x10FFFF && !(0xD800 <= u <= 0xDFFF)
  {
    match CharLength(b)
    case 1 => b[0] as int
    case 2 => (b[0] as int - 0xC0) * 64 + Payload(b[1])
    case 3 => ((b[0] as int - 0xE0) * 64 + Payload(b[1])) * 64 + Payload(b[2])
    case 4 => (((b[0] as int - 0xF0) * 64 + Payload(b[1])) * 64 + Payload(b[2])) * 64 + Payload(b[3])
  }

  /** The text that the bytes encode. */
  function Decode(b: seq<byte>): Option<string>
    decreases |b|
  {
    if b == [] then Some("")
    else if CharLength(b) == 0 then None
    else
      match Decode(b[CharLength(b)..])
      case None => None
      case Some(rest) => Some([CharCode(b) as char] + rest)
  }

  /** A character's encoding is read back, whatever follows it. */
  lemma CharReadsBack(c: char, rest: seq<byte>)
    ensures var b := EncodeChar(c) + rest; CharLength(b) == |EncodeChar(c)| && CharCode(b) == c as int
  {
    var u := c as int;
    var e := EncodeChar(c);
    var b := e + rest;
    assert forall i :: 0 <= i < |e| ==> b[i] == e[i];
    if u >= 0x10000 {
      FourParts(u);
    } else if u >= 0x800 {
      ThreeParts(u);
    }
  }

  lemma FourParts(u: int)
    requires 0 <= u
    ensures u == ((u / 0x40000 * 64 + u / 0x1000 % 0x40) * 64 + u / 0x40 % 0x40) * 64 + u % 0x40
  {
    ThreeParts(u);
    var t := u / 0x1000;
    assert t / 0x40 == u / 0x40000;
  }

  lemma ThreeParts(u: int)
    requires 0 <= u
    ensures u == (u / 0x1000 * 64 + u / 0x40 % 0x40) * 64 + u % 0x40
  {
    var t := u / 0x40;
    assert t / 0x40 == u / 0x1000;
  }

  lemma {:induction false} Utf8First(s: string)
    requires s != []
    ensures Utf8(s) == EncodeChar(s[0]) + Utf8(s[1..])
  {
    assert s == [s[0]] + s[1..];
    Utf8Concat([s[0]], s[1..]);
    assert [s[0]][..0] == [];
    assert Utf8([s[0]]) == [] + EncodeChar(s[0]) == EncodeChar(s[0]);
  }

  /** Every text is read back from its encoding. */
  lemma {:induction false} DecodesBack(s: string)
    ensures Decode(Utf8(s)) == Some(s)
    decreases |s|
  {
    if s != [] {
      var first, rest := EncodeChar(s[0]), Utf8(s[1..]);
      Utf8First(s);
      CharReadsBack(s[0], rest);
      DecodesBack(s[1..]);
      assert (first + rest)[|first|..] == rest;
      assert [s[0]] + s[1..] == s;
    }
  }

  // ---------------------------------------------------------------- where characters start

  lemma OneLead(c: char, i: nat)
    requires i < |EncodeChar(c)|
    ensures IsTail(EncodeChar(c)[i]) <==> i > 0
  {
  }

  /** The offsets of the characters are exactly the places of bytes that do not continue one. */
  lemma {:induction false} LeadsAreOffsets(s: string, offsets: seq<nat>)
    requires |offsets| == |s| && forall k :: 0 <= k < |s| ==> offsets[k] == |Utf8(s[..k])|
    ensures forall i :: 0 <= i < |Utf8(s)| ==> (i in offsets <==> !IsTail(Utf8(s)[i]))
    decreases |s|
  {
    if s != [] {
      var n := |s| - 1;
      var init, last := s[..n], EncodeChar(s[n]);
      var before := |Utf8(init)|;
      assert Utf8(s) == Utf8(init) + last;
      forall k | 0 <= k < n ensures init[..k] == s[..k] {
      }
      LeadsAreOffsets(init, offsets[..n]);
      forall k | 0 <= k < n ensures offsets[k] < before {
        PrefixShorter(init, k);
      }
      forall i | 0 <= i < |Utf8(s)| ensures i in offsets <==> !IsTail(Utf8(s)[i]) {
        assert i in offsets <==> i in offsets[..n] || i == offsets[n];
        if i >= before {
          OneLead(s[n], i - before);
        }
      }
    }
  }

  lemma {:induction false} PrefixShorter(s: string, k: nat)
    requires k < |s|
    ensures |Utf8(s[..k])| < |Utf8(s)|
  {
    assert s == s[..k] + s[k..];
    Utf8Concat(s[..k], s[k..]);
    Utf8First(s[k..]);
  }
}

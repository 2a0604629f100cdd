/** Applying edits to a file: sorted, overlaps dropped, spliced from the end through a character-to-byte table. */
module Autofix {
  import opened Options
  import opened Utf8Text

  const USIZE_MAX: int := 0xFFFF_FFFF_FFFF_FFFF

  type Usize = x: int | 0 <= x <= USIZE_MAX

  /** Replace the characters from `start` up to `end`. */
  datatype Edit = Edit(start: Usize, end: Usize, replacement: string, code: Option<string>)

  // ---------------------------------------------------------------- byte offsets

  /** The byte offset of every character, and of the end. */
  method ByteTable(s: string) returns (byteAt: seq<nat>)
    ensures |byteAt| == |s| + 1
    ensures forall k :: 0 <= k <= |s| ==> byteAt[k] == |Utf8(s[..k])|
    ensures forall i :: 0 <= i < |Utf8(s)| ==> (i in byteAt[..|s|] <==> !IsTail(Utf8(s)[i]))
  {
    byteAt := [];
    var offset := 0;
    for k := 0 to |s|
      invariant OffsetsBelow(byteAt, s, k) && offset == |Utf8(s[..k])|
    {
      OffsetsNext(byteAt, s, k, offset);
      byteAt := byteAt + [offset];
      offset := offset + |EncodeChar(s[k])|;
    }
    byteAt := byteAt + [offset];
    LeadsAreOffsets(s, byteAt[..|s|]);
  }

  predicate OffsetsBelow(byteAt: seq<nat>, s: string, k: nat)
  {
    k <= |s| && |byteAt| == k && forall l :: 0 <= l < k ==> byteAt[l] == |Utf8(s[..l])|
  }

  lemma OffsetsNext(byteAt: seq<nat>, s: string, k: nat, offset: nat)
    requires k < |s| && OffsetsBelow(byteAt, s, k) && offset == |Utf8(s[..k])|
    ensures OffsetsBelow(byteAt + [offset], s, k + 1)
    ensures |Utf8(s[..k + 1])| == offset + |EncodeChar(s[k])|
  {
    hide EncodeChar;
    Utf8Next(s, k);
  }

  // ---------------------------------------------------------------- order

  /** `a` is handled before `b`: the later start first, then the later end. */
  predicate Before(a: Edit, b: Edit)
  {
    a.start > b.start || (a.start == b.start && a.end > b.end)
  }

  function Place(edits: seq<Edit>, e: Edit): (r: seq<Edit>)
    ensures multiset(r) == multiset(edits) + multiset{e}
  {
    if edits == [] || !Before(e, edits[|edits| - 1]) then edits + [e]
    else
      var init := edits[..|edits| - 1];
      assert edits == init + [edits[|edits| - 1]];
      Place(init, e) + [edits[|edits| - 1]]
  }

  /** The stable sort by position, last first. */
  function SortEdits(edits: seq<Edit>): (r: seq<Edit>)
    ensures multiset(r) == multiset(edits)
  {
    if edits == [] then []
    else
      assert edits == edits[..|edits| - 1] + [edits[|edits| - 1]];
      Place(SortEdits(edits[..|edits| - 1]), edits[|edits| - 1])
  }

  predicate Descending(edits: seq<Edit>)
  {
    forall i, j :: 0 <= i < j < |edits| ==> !Before(edits[j], edits[i])
  }

  lemma PlacedFrom(edits: seq<Edit>, e: Edit, k: nat)
    requires k < |Place(edits, e)|
    ensures Place(edits, e)[k] in edits || Place(edits, e)[k] == e
  {
    assert Place(edits, e)[k] in multiset(Place(edits, e));
  }

  lemma {:induction false} PlaceKeepsOrder(edits: seq<Edit>, e: Edit)
    requires Descending(edits)
    ensures Descending(Place(edits, e))
  {
    if edits != [] && Before(e, edits[|edits| - 1]) {
      var init, last := edits[..|edits| - 1], edits[|edits| - 1];
      PlaceKeepsOrder(init, e);
      var placed := Place(init, e);
      forall k | 0 <= k < |placed|
        ensures !Before(last, placed[k])
      {
        PlacedFrom(init, e, k);
      }
    }
  }

  lemma {:induction false} Sorted(edits: seq<Edit>)
    ensures var sorted := SortEdits(edits);
      && Descending(sorted)
      && forall i, j :: 0 <= i < j < |sorted|
           ==> sorted[i].start > sorted[j].start || (sorted[i].start == sorted[j].start && sorted[i].end >= sorted[j].end)
  {
    if edits != [] {
      Sorted(edits[..|edits| - 1]);
      PlaceKeepsOrder(SortEdits(edits[..|edits| - 1]), edits[|edits| - 1]);
    }
  }

  /** The edits of one range, in order. */
  function At(edits: seq<Edit>, start: Usize, end: Usize): seq<Edit>
  {
    if edits == [] then []
    else At(edits[..|edits| - 1], start, end) + Own(edits[|edits| - 1], start, end)
  }

  function Own(e: Edit, start: Usize, end: Usize): seq<Edit>
  {
    if e.start == start && e.end == end then [e] else []
  }

  lemma AtLast(edits: seq<Edit>, e: Edit, start: Usize, end: Usize)
    ensures At(edits + [e], start, end) == At(edits, start, end) + Own(e, start, end)
  {
    assert (edits + [e])[..|edits|] == edits;
  }

  lemma {:induction false} PlaceIsStable(edits: seq<Edit>, e: Edit, start: Usize, end: Usize)
    ensures At(Place(edits, e), start, end) == At(edits, start, end) + Own(e, start, end)
  {
    if edits != [] && Before(e, edits[|edits| - 1]) {
      var init, last := edits[..|edits| - 1], edits[|edits| - 1];
      PlaceIsStable(init, e, start, end);
      AtLast(Place(init, e), last, start, end);
      Swap(At(init, start, end), Own(e, start, end), Own(last, start, end));
    } else {
      AtLast(edits, e, start, end);
    }
  }

  lemma Swap(front: seq<Edit>, a: seq<Edit>, b: seq<Edit>)
    requires a == [] || b == []
    ensures front + a + b == front + b + a
  {
  }

  /** Edits of the same range stay in the order in which they were reported. */
  lemma {:induction false} SortIsStable(edits: seq<Edit>, start: Usize, end: Usize)
    ensures At(SortEdits(edits), start, end) == At(edits, start, end)
  {
    if edits != [] {
      var init, last := edits[..|edits| - 1], edits[|edits| - 1];
      SortIsStable(init, start, end);
      PlaceIsStable(SortEdits(init), last, start, end);
    }
  }

  // ---------------------------------------------------------------- overlap

  predicate Apart(e: Edit, f: Edit)
  {
    e.end <= f.start || f.end <= e.start
  }

  /** Edits of a text of `n` characters that do not overlap one another. */
  predicate Compatible(edits: seq<Edit>, n: nat)
  {
    && (forall k :: 0 <= k < |edits| ==> edits[k].start <= edits[k].end <= n)
    && (forall k, l :: 0 <= k < l < |edits| ==> Apart(edits[k], edits[l]))
  }

  /** The edits stand one after the other in the characters from `from` up to `n`. */
  predicate Rising(edits: seq<Edit>, from: nat, n: nat): (r: bool)
    ensures r ==> from <= n && (edits != [] ==> edits[0].end <= n)
  {
    if edits == [] then from <= n
    else from <= edits[0].start <= edits[0].end && Rising(edits[1..], edits[0].end, n)
  }

  function Leftmost(edits: seq<Edit>): int
  {
    if edits == [] then USIZE_MAX else edits[0].start
  }

  /** Every choice of edits from `seen` has at most as many as `chosen`, and a choice of as many has one that
      starts no later than all of `chosen`. */
  ghost predicate Ahead(chosen: seq<Edit>, seen: seq<Edit>, n: nat)
  {
    forall other :: FromSeen(other, seen, n) ==> Behind(other, chosen)
  }

  predicate FromSeen(other: seq<Edit>, seen: seq<Edit>, n: nat)
  {
    multiset(other) <= multiset(seen) && Compatible(other, n)
  }

  predicate Behind(other: seq<Edit>, chosen: seq<Edit>)
  {
    |other| < |chosen| || (|other| == |chosen| && StartsBy(other, Leftmost(chosen)))
  }

  /** When `other` is not empty, some edit in it starts at or before `limit`. */
  predicate StartsBy(other: seq<Edit>, limit: int)
  {
    other == [] || exists k :: 0 <= k < |other| && other[k].start <= limit
  }

  /** The loop's test: a proper range inside the text, left of everything chosen so far. */
  predicate Takes(chosen: seq<Edit>, e: Edit, n: nat)
  {
    e.start <= e.end <= n && e.end <= Leftmost(chosen)
  }

  /** The edits kept out of a list in handling order: each one that is left of all kept before it. */
  function Chosen(edits: seq<Edit>, n: nat): seq<Edit>
  {
    if edits == [] then []
    else
      var before, e := Chosen(edits[..|edits| - 1], n), edits[|edits| - 1];
      if Takes(before, e, n) then [e] + before else before
  }

  lemma ChosenNext(edits: seq<Edit>, e: Edit, n: nat)
    ensures Chosen(edits + [e], n) == if Takes(Chosen(edits, n), e, n) then [e] + Chosen(edits, n) else Chosen(edits, n)
  {
    assert (edits + [e])[..|edits|] == edits;
  }

  lemma {:induction false} ChosenStays(edits: seq<Edit>, k: nat, n: nat, c: Edit)
    requires k <= |edits| && c in Chosen(edits[..k], n)
    ensures c in Chosen(edits, n)
  {
    if k == |edits| {
      assert edits[..k] == edits;
    } else {
      assert edits[..|edits| - 1][..k] == edits[..k];
      ChosenStays(edits[..|edits| - 1], k, n, c);
    }
  }

  lemma {:induction false} ChosenAmong(edits: seq<Edit>, n: nat, c: Edit)
    requires c in Chosen(edits, n)
    ensures c in edits
  {
    var before, e := Chosen(edits[..|edits| - 1], n), edits[|edits| - 1];
    if c in before {
      ChosenAmong(edits[..|edits| - 1], n, c);
    }
  }

  /** An edit inside the text is dropped only for one that is kept, starts no earlier, and starts inside it: of
      two that overlap the rightmost survives. */
  lemma DroppedForRightmost(edits: seq<Edit>, k: nat, n: nat)
    requires Descending(edits) && k < |edits| && edits[k].start <= edits[k].end <= n <= USIZE_MAX
    requires edits[k] !in Chosen(edits, n)
    ensures exists c :: c in Chosen(edits, n) && edits[k].start <= c.start < edits[k].end
  {
    var before, e := Chosen(edits[..k], n), edits[k];
    assert edits[..k + 1] == edits[..k] + [e];
    ChosenNext(edits[..k], e, n);
    if Takes(before, e, n) {
      ChosenStays(edits, k + 1, n, e);
    } else {
      ChosenAmong(edits[..k], n, before[0]);
      ChosenStays(edits, k, n, before[0]);
    }
  }

  lemma LeavesRoom(e: Edit, y: Edit)
    requires Apart(e, y) && !Before(e, y) && y.start <= y.end
    ensures e.end <= y.start
  {
  }

  /** The greedy choice stays ahead of every other choice. */
  lemma StaysAhead(chosen: seq<Edit>, seen: seq<Edit>, e: Edit, n: nat, chosen': seq<Edit>)
    requires Ahead(chosen, seen, n) && multiset(chosen) <= multiset(seen)
    requires forall k :: 0 <= k < |seen| ==> !Before(e, seen[k])
    requires chosen' == if Takes(chosen, e, n) then [e] + chosen else chosen
    ensures Ahead(chosen', seen + [e], n)
  {
    forall other | FromSeen(other, seen + [e], n)
      ensures Behind(other, chosen')
    {
      OneBehind(chosen, seen, e, n, chosen', other);
    }
  }

  lemma OneBehind(chosen: seq<Edit>, seen: seq<Edit>, e: Edit, n: nat, chosen': seq<Edit>, other: seq<Edit>)
    requires Ahead(chosen, seen, n) && multiset(chosen) <= multiset(seen)
    requires forall k :: 0 <= k < |seen| ==> !Before(e, seen[k])
    requires chosen' == if Takes(chosen, e, n) then [e] + chosen else chosen
    requires FromSeen(other, seen + [e], n)
    ensures Behind(other, chosen')
  {
    if multiset(other) <= multiset(seen) {
      assert FromSeen(other, seen, n);
    } else {
      var p, rest := Shed(other, seen, e, n);
      assert Behind(rest, chosen);
      RestIsRight(other, p, rest, seen, e, n);
      StartsFirst(chosen, seen, e);
      Extended(chosen, e, n, chosen', other, p, rest);
    }
  }

  /** A choice that uses `e` once more than `seen` offers it, without that use. */
  lemma Shed(other: seq<Edit>, seen: seq<Edit>, e: Edit, n: nat) returns (p: nat, rest: seq<Edit>)
    requires FromSeen(other, seen + [e], n) && !(multiset(other) <= multiset(seen))
    ensures p < |other| && other[p] == e && |rest| == |other| - 1 && FromSeen(rest, seen, n)
    ensures e.start <= e.end <= n && forall k :: 0 <= k < |rest| ==> Apart(e, rest[k])
  {
    p := FindExtra(other, seen, e);
    rest := other[..p] + other[p + 1..];
    WithoutCount(other, p, rest);
    WithoutCompatible(other, p, rest, n);
  }

  lemma StartsFirst(chosen: seq<Edit>, seen: seq<Edit>, e: Edit)
    requires multiset(chosen) <= multiset(seen)
    requires forall k :: 0 <= k < |seen| ==> !Before(e, seen[k])
    ensures e.start <= Leftmost(chosen)
  {
    if chosen != [] {
      assert chosen[0] in multiset(chosen);
      assert chosen[0] in seen;
    }
  }

  /** What the choice without `e` owes to the greedy one, `e` settles. */
  lemma Extended(chosen: seq<Edit>, e: Edit, n: nat, chosen': seq<Edit>, other: seq<Edit>, p: nat, rest: seq<Edit>)
    requires chosen' == if Takes(chosen, e, n) then [e] + chosen else chosen
    requires p < |other| && other[p] == e && e.start <= e.end <= n && |rest| == |other| - 1
    requires forall k :: 0 <= k < |rest| ==> e.end <= rest[k].start
    requires e.start <= Leftmost(chosen) && Behind(rest, chosen)
    ensures Behind(other, chosen')
  {
    if |rest| == |chosen| {
      assert e.end <= Leftmost(chosen);
    }
    assert other[p].start <= e.start;
  }

  lemma FindExtra(other: seq<Edit>, seen: seq<Edit>, e: Edit) returns (p: nat)
    requires multiset(other) <= multiset(seen + [e]) && !(multiset(other) <= multiset(seen))
    ensures p < |other| && other[p] == e && multiset(other) - multiset{e} <= multiset(seen)
  {
    assert multiset(seen + [e]) == multiset(seen) + multiset{e};
    assert e in multiset(other);
    p :| 0 <= p < |other| && other[p] == e;
  }

  lemma WithoutCount(other: seq<Edit>, p: nat, rest: seq<Edit>)
    requires p < |other| && rest == other[..p] + other[p + 1..]
    ensures multiset(rest) == multiset(other) - multiset{other[p]}
  {
    var a, b := other[..p], other[p + 1..];
    assert other == a + [other[p]] + b;
    assert multiset(other) == multiset(a) + multiset{other[p]} + multiset(b);
  }

  lemma WithoutCompatible(other: seq<Edit>, p: nat, rest: seq<Edit>, n: nat)
    requires p < |other| && rest == other[..p] + other[p + 1..] && Compatible(other, n)
    ensures Compatible(rest, n)
    ensures forall k :: 0 <= k < |rest| ==> Apart(other[p], rest[k])
  {
    forall k | 0 <= k < |rest|
      ensures rest[k].start <= rest[k].end <= n && Apart(other[p], rest[k])
    {
      var k' := if k < p then k else k + 1;
      assert rest[k] == other[k'];
    }
    forall k, l | 0 <= k < l < |rest|
      ensures Apart(rest[k], rest[l])
    {
      var k', l' := if k < p then k else k + 1, if l < p then l else l + 1;
      assert rest[k] == other[k'] && rest[l] == other[l'];
    }
  }

  lemma RestIsRight(other: seq<Edit>, p: nat, rest: seq<Edit>, seen: seq<Edit>, e: Edit, n: nat)
    requires p < |other| && other[p] == e && FromSeen(rest, seen, n)
    requires forall k :: 0 <= k < |rest| ==> Apart(e, rest[k])
    requires forall k :: 0 <= k < |seen| ==> !Before(e, seen[k])
    ensures forall k :: 0 <= k < |rest| ==> e.end <= rest[k].start
  {
    forall k | 0 <= k < |rest|
      ensures e.end <= rest[k].start
    {
      assert rest[k] in multiset(rest);
      assert rest[k] in seen;
      LeavesRoom(e, rest[k]);
    }
  }

  lemma {:induction false} RisingIsCompatible(edits: seq<Edit>, from: nat, n: nat)
    requires Rising(edits, from, n)
    ensures Compatible(edits, n) && from <= n
    ensures forall k :: 0 <= k < |edits| ==> from <= edits[k].start
  {
    if edits != [] {
      RisingIsCompatible(edits[1..], edits[0].end, n);
      assert forall k :: 1 <= k < |edits| ==> edits[k] == edits[1..][k - 1];
    }
  }

  // ---------------------------------------------------------------- splicing

  /** All edits replaced at once, from character `from` on: the text between them is copied. */
  function ReplaceAll(text: string, edits: seq<Edit>, from: nat): string
    requires Rising(edits, from, |text|)
    decreases |edits|
  {
    if edits == [] then text[from..]
    else text[from..edits[0].start] + edits[0].replacement + ReplaceAll(text, edits[1..], edits[0].end)
  }

  /** Edits that put back what they replace change nothing. */
  lemma {:induction false} SameAgain(text: string, edits: seq<Edit>, from: nat)
    requires Rising(edits, from, |text|)
    requires forall k :: 0 <= k < |edits| ==> edits[k].start <= edits[k].end <= |text|
    requires forall k :: 0 <= k < |edits| ==> edits[k].replacement == text[edits[k].start..edits[k].end]
    ensures ReplaceAll(text, edits, from) == text[from..]
    decreases |edits|
  {
    if edits != [] {
      SameAgain(text, edits[1..], edits[0].end);
    }
  }

  /** Text in front of the edits is kept. */
  lemma PrefixKept(text: string, edits: seq<Edit>, to: nat)
    requires Rising(edits, 0, |text|) && to <= |text| && to <= Leftmost(edits)
    ensures Rising(edits, to, |text|)
    ensures ReplaceAll(text, edits, 0) == text[..to] + ReplaceAll(text, edits, to)
  {
    if edits == [] {
      assert text[0..] == text[..to] + text[to..];
    } else {
      var s, new_ := edits[0].start, edits[0].replacement;
      var tail := ReplaceAll(text, edits[1..], edits[0].end);
      assert text[0..s] == text[..to] + text[to..s];
      Regroup(text[..to], text[to..s], new_, tail);
    }
  }

  lemma Regroup(a: string, b: string, c: string, d: string)
    ensures (a + b) + c + d == a + (b + c + d)
  {
  }

  /** One splice: replacing the bytes of an edit left of all others is replacing it along with them. */
  lemma Splice(text: string, edits: seq<Edit>, e: Edit, start: nat, end: nat, bytes: seq<byte>)
    requires Rising(edits, 0, |text|) && Takes(edits, e, |text|)
    requires bytes == Utf8(ReplaceAll(text, edits, 0))
    requires start == |Utf8(text[..e.start])| && end == |Utf8(text[..e.end])|
    ensures Rising([e] + edits, 0, |text|) && start <= end <= |bytes|
    ensures bytes[..start] + Utf8(e.replacement) + bytes[end..] == Utf8(ReplaceAll(text, [e] + edits, 0))
  {
    PrefixKept(text, edits, e.end);
    ReplaceFirst(text, edits, e);
    TakeInTwo(text, e.start, e.end);
    SpliceParts(text[..e.start], text[e.start..e.end], e.replacement, ReplaceAll(text, edits, e.end), bytes);
  }

  lemma TakeInTwo(text: string, i: nat, j: nat)
    requires i <= j <= |text|
    ensures text[..j] == text[..i] + text[i..j]
  {
  }

  lemma SpliceParts(front: string, old_: string, new_: string, tail: string, bytes: seq<byte>)
    requires bytes == Utf8(front + old_ + tail)
    ensures |Utf8(front)| <= |Utf8(front + old_)| <= |bytes|
    ensures bytes[..|Utf8(front)|] + Utf8(new_) + bytes[|Utf8(front + old_)|..] == Utf8(front + new_ + tail)
  {
    Utf8Concat(front + old_, tail);
    Utf8Concat(front, old_);
    SpliceBytes(bytes, Utf8(front), Utf8(old_), Utf8(tail), Utf8(new_));
    Utf8Concat(front, new_);
    Utf8Concat(front + new_, tail);
  }

  lemma SpliceBytes(bytes: seq<byte>, front: seq<byte>, old_: seq<byte>, tail: seq<byte>, new_: seq<byte>)
    requires bytes == front + old_ + tail
    ensures bytes[..|front|] + new_ + bytes[|front + old_|..] == front + new_ + tail
  {
    assert bytes[..|front|] == front && bytes[|front + old_|..] == tail;
  }

  lemma ReplaceFirst(text: string, edits: seq<Edit>, e: Edit)
    requires Rising(edits, e.end, |text|) && e.start <= e.end
    ensures Rising([e] + edits, 0, |text|)
    ensures ReplaceAll(text, [e] + edits, 0) == text[..e.start] + e.replacement + ReplaceAll(text, edits, e.end)
  {
    assert ([e] + edits)[1..] == edits;
  }

  predicate NoRepeats(codes: seq<string>)
  {
    forall k, l :: 0 <= k < l < |codes| ==> codes[k] != codes[l]
  }

  ghost predicate CodesOf(codes: seq<string>, before: seq<string>, chosen: seq<Edit>)
  {
    forall c :: c in codes <==> c in before || exists k :: 0 <= k < |chosen| && chosen[k].code == Some(c)
  }

  method AddCode(codes: seq<string>, e: Edit, ghost before: seq<string>, ghost chosen: seq<Edit>)
    returns (codes': seq<string>)
    requires NoRepeats(codes) && CodesOf(codes, before, chosen)
    ensures NoRepeats(codes') && CodesOf(codes', before, [e] + chosen)
  {
    codes' := codes;
    if e.code.Some? && e.code.value !in codes {
      codes' := codes + [e.code.value];
    }
    forall c
      ensures c in codes' <==> c in before || exists k :: 0 <= k < |[e] + chosen| && ([e] + chosen)[k].code == Some(c)
    {
      if k :| 0 <= k < |chosen| && chosen[k].code == Some(c) {
        assert ([e] + chosen)[k + 1].code == Some(c);
      }
      if e.code == Some(c) {
        assert ([e] + chosen)[0].code == Some(c);
      }
    }
  }

  /** What holds once the edits `seen` have been handled. */
  ghost predicate Spliced(original: string, seen: seq<Edit>, chosen: seq<Edit>, text: seq<byte>)
  {
    && Rising(chosen, 0, |original|) && text == Utf8(ReplaceAll(original, chosen, 0))
    && multiset(chosen) <= multiset(seen) && Ahead(chosen, seen, |original|)
    && chosen == Chosen(seen, |original|)
  }

  predicate IsByteTable(byteAt: seq<nat>, s: string)
  {
    |byteAt| == |s| + 1 && forall k :: 0 <= k <= |s| ==> byteAt[k] == |Utf8(s[..k])|
  }

  /** One edit: spliced in when the test admits it, skipped otherwise. */
  method ApplyOne(original: string, byteAt: seq<nat>, e: Edit, text0: seq<byte>, lastStart0: Usize,
                  ghost seen: seq<Edit>, ghost chosen: seq<Edit>, ghost next: seq<Edit>)
    returns (text: seq<byte>, lastStart: Usize, taken: bool)
    requires IsByteTable(byteAt, original) && next == seen + [e]
    requires Spliced(original, seen, chosen, text0) && lastStart0 == Leftmost(chosen)
    requires forall k :: 0 <= k < |seen| ==> !Before(e, seen[k])
    ensures var chosen' := if taken then [e] + chosen else chosen;
      Spliced(original, next, chosen', text) && lastStart == Leftmost(chosen')
  {
    ChosenNext(seen, e, |original|);
    text, lastStart, taken := text0, lastStart0, false;
    if e.start > e.end || e.end > lastStart || e.start >= |byteAt| || e.end >= |byteAt| {
      StaysAhead(chosen, seen, e, |original|, chosen);
      return;
    }
    var start, end := byteAt[e.start], byteAt[e.end];
    StaysAhead(chosen, seen, e, |original|, [e] + chosen);
    Splice(original, chosen, e, start, end, text);
    text := text[..start] + Utf8(e.replacement) + text[end..];
    lastStart, taken := e.start, true;
  }

  /** The result for one file: the encoding of the text with all chosen edits replaced at once. The chosen edits
      come from the reported ones, lie in the text without overlapping, and no larger set of such edits exists. */
  method ApplyEdits(original: string, reported: seq<Edit>, codes0: seq<string>)
    returns (text: seq<byte>, applied: nat, codes: seq<string>, ghost chosen: seq<Edit>)
    requires NoRepeats(codes0) && |original| <= USIZE_MAX
    ensures chosen == Chosen(SortEdits(reported), |original|)
    ensures applied == |chosen| && multiset(chosen) <= multiset(reported)
    ensures Rising(chosen, 0, |original|) && Compatible(chosen, |original|)
    ensures text == Utf8(ReplaceAll(original, chosen, 0)) && Decode(text) == Some(ReplaceAll(original, chosen, 0))
    ensures forall other :: FromSeen(other, reported, |original|) ==> |other| <= |chosen|
    ensures NoRepeats(codes) && CodesOf(codes, codes0, chosen)
  {
    var byteAt := ByteTable(original);
    var edits := SortEdits(reported);
    Sorted(reported);
    text, applied, codes, chosen := Utf8(original), 0, codes0, [];
    var lastStart: Usize := USIZE_MAX;
    ghost var seen: seq<Edit> := [];
    assert original[0..] == original;
    for k := 0 to |edits|
      invariant applied == |chosen| && lastStart == Leftmost(chosen)
      invariant seen == edits[..k] && Spliced(original, seen, chosen, text)
      invariant NoRepeats(codes) && CodesOf(codes, codes0, chosen)
    {
      var e := edits[k];
      var taken: bool;
      ghost var next := seen + [e];
      PrefixGrows(edits, k);
      NoneBefore(edits, k, seen);
      text, lastStart, taken := ApplyOne(original, byteAt, e, text, lastStart, seen, chosen, next);
      seen := next;
      if taken {
        codes := AddCode(codes, e, codes0, chosen);
        chosen := [e] + chosen;
        applied := applied + 1;
      }
    }
    AllHandled(original, edits, seen, reported, chosen, text);
    DecodesBack(ReplaceAll(original, chosen, 0));
  }

  lemma NoneBefore(edits: seq<Edit>, k: nat, seen: seq<Edit>)
    requires Descending(edits) && k < |edits| && seen == edits[..k]
    ensures forall l :: 0 <= l < |seen| ==> !Before(edits[k], seen[l])
  {
  }

  lemma PrefixGrows(edits: seq<Edit>, k: nat)
    requires k < |edits|
    ensures edits[..k + 1] == edits[..k] + [edits[k]]
  {
  }

  lemma AllHandled(original: string, edits: seq<Edit>, seen: seq<Edit>, reported: seq<Edit>, chosen: seq<Edit>,
                   text: seq<byte>)
    requires multiset(edits) == multiset(reported) && Spliced(original, seen, chosen, text)
    requires |seen| == |edits| && seen == edits[..|edits|]
    ensures multiset(chosen) <= multiset(reported) && Compatible(chosen, |original|)
    ensures chosen == Chosen(edits, |original|)
    ensures forall other :: FromSeen(other, reported, |original|) ==> |other| <= |chosen|
  {
    var n := |original|;
    assert seen == edits;
    RisingIsCompatible(chosen, 0, n);
    forall other | FromSeen(other, reported, n)
      ensures |other| <= |chosen|
    {
      assert FromSeen(other, edits, n);
    }
  }
}

/** The line diff: a longest-common-subsequence table, the edit script read off it, and the unified text. */
module Diff {
  import opened TextSearch

  type Lines = seq<string>

  datatype Op = Keep(i: nat) | Del(i: nat) | Ins(j: nat)

  // ---------------------------------------------------------------- the table

  /** What the table holds at (i, j). */
  function Best(a: Lines, b: Lines, i: nat, j: nat): nat
    requires i <= |a| && j <= |b|
    decreases |a| - i + |b| - j
  {
    if i == |a| || j == |b| then 0
    else if a[i] == b[j] then Best(a, b, i + 1, j + 1) + 1
    else Max(Best(a, b, i + 1, j), Best(a, b, i, j + 1))
  }

  function Max(x: nat, y: nat): nat
  {
    if x < y then y else x
  }

  method FillTable(a: Lines, b: Lines) returns (table: array2<nat>)
    ensures fresh(table) && table.Length0 == |a| + 1 && table.Length1 == |b| + 1
    ensures forall i, j :: 0 <= i <= |a| && 0 <= j <= |b| ==> table[i, j] == Best(a, b, i, j)
  {
    var n, m := |a|, |b|;
    table := new nat[n + 1, m + 1]((_, _) => 0);
    var i := n;
    while i > 0
      invariant 0 <= i <= n
      invariant forall p, q :: i <= p <= n && 0 <= q <= m ==> table[p, q] == Best(a, b, p, q)
      invariant forall p :: 0 <= p < i ==> table[p, m] == 0
    {
      i := i - 1;
      FillRow(table, a, b, i, i + 1);
    }
  }

  /** The inner loop: row `i` from right to left, given the row below it. */
  method FillRow(table: array2<nat>, a: Lines, b: Lines, i: nat, ghost below: nat)
    requires below == i + 1 <= |a| && table.Length0 == |a| + 1 && table.Length1 == |b| + 1
    requires forall q :: 0 <= q <= |b| ==> table[below, q] == Best(a, b, below, q)
    requires table[i, |b|] == 0
    modifies table
    ensures forall p, q :: 0 <= p <= |a| && 0 <= q <= |b| && p != i ==> table[p, q] == old(table[p, q])
    ensures forall q :: 0 <= q <= |b| ==> table[i, q] == Best(a, b, i, q)
  {
    var j := |b|;
    while j > 0
      invariant 0 <= j <= |b|
      invariant forall p, q :: 0 <= p <= |a| && 0 <= q <= |b| && p != i ==> table[p, q] == old(table[p, q])
      invariant forall q :: j <= q <= |b| ==> table[i, q] == Best(a, b, i, q)
    {
      j := j - 1;
      table[i, j] := if a[i] == b[j] then table[i + 1, j + 1] + 1 else Max(table[i + 1, j], table[i, j + 1]);
    }
  }

  // ---------------------------------------------------------------- common subsequences

  predicate Increasing(p: seq<nat>, from: nat, to: nat)
  {
    && (forall k :: 0 <= k < |p| ==> from <= p[k] < to)
    && (forall k, l :: 0 <= k < l < |p| ==> p[k] < p[l])
  }

  /** `p` and `q` pick equal lines, in order, from the two texts at or after (i, j). */
  predicate Common(a: Lines, b: Lines, i: nat, j: nat, p: seq<nat>, q: seq<nat>)
  {
    && |p| == |q|
    && Increasing(p, i, |a|) && Increasing(q, j, |b|)
    && (forall k :: 0 <= k < |p| ==> a[p[k]] == b[q[k]])
  }

  /** No common subsequence is longer than the table says. */
  lemma {:induction false} BestIsBound(a: Lines, b: Lines, i: nat, j: nat, p: seq<nat>, q: seq<nat>)
    requires i <= |a| && j <= |b| && Common(a, b, i, j, p, q)
    ensures |p| <= Best(a, b, i, j)
    decreases |a| - i + |b| - j
  {
    if p != [] {
      assert i <= p[0] < |a| && j <= q[0] < |b|;
      if a[i] == b[j] {
        assert Common(a, b, i + 1, j + 1, p[1..], q[1..]);
        BestIsBound(a, b, i + 1, j + 1, p[1..], q[1..]);
      } else if p[0] > i {
        BestIsBound(a, b, i + 1, j, p, q);
      } else {
        BestIsBound(a, b, i, j + 1, p, q);
      }
    }
  }

  /** One of that length exists. */
  lemma {:induction false} BestIsReached(a: Lines, b: Lines, i: nat, j: nat) returns (p: seq<nat>, q: seq<nat>)
    requires i <= |a| && j <= |b|
    ensures Common(a, b, i, j, p, q) && |p| == Best(a, b, i, j)
    decreases |a| - i + |b| - j
  {
    if i == |a| || j == |b| {
      p, q := [], [];
    } else if a[i] == b[j] {
      var p', q' := BestIsReached(a, b, i + 1, j + 1);
      p, q := [i] + p', [j] + q';
    } else if Best(a, b, i + 1, j) < Best(a, b, i, j + 1) {
      p, q := BestIsReached(a, b, i, j + 1);
    } else {
      p, q := BestIsReached(a, b, i + 1, j);
    }
  }

  lemma BestShrinks(a: Lines, b: Lines, i: nat, j: nat, i': nat, j': nat)
    requires i <= i' <= |a| && j <= j' <= |b|
    ensures Best(a, b, i', j') <= Best(a, b, i, j)
  {
    var p, q := BestIsReached(a, b, i', j');
    BestIsBound(a, b, i, j, p, q);
  }

  // ---------------------------------------------------------------- edit scripts

  /** Lines of the old text the script goes through, kept or deleted. */
  function OldSide(ops: seq<Op>): seq<nat>
  {
    if ops == [] then [] else (if ops[0].Ins? then [] else [ops[0].i]) + OldSide(ops[1..])
  }

  predicate InText(op: Op, a: Lines, b: Lines)
  {
    if op.Ins? then op.j < |b| else op.i < |a|
  }

  predicate Indexed(ops: seq<Op>, a: Lines, b: Lines)
  {
    forall k :: 0 <= k < |ops| ==> InText(ops[k], a, b)
  }

  /** The text the script produces. */
  function Replay(ops: seq<Op>, a: Lines, b: Lines): Lines
    requires Indexed(ops, a, b)
  {
    if ops == [] then []
    else
      (match ops[0] case Keep(i) => [a[i]] case Ins(j) => [b[j]] case Del(_) => []) + Replay(ops[1..], a, b)
  }

  function Range(from: nat, to: nat): (r: seq<nat>)
    requires from <= to
    ensures |r| == to - from && forall k :: 0 <= k < |r| ==> r[k] == from + k
  {
    seq(to - from, k requires 0 <= k => from + k)
  }

  /** The script goes through the old text from line `i`, each line once and in order, and what it produces is
      the new text from line `j`. */
  predicate Turns(ops: seq<Op>, a: Lines, b: Lines, i: nat, j: nat)
    requires i <= |a| && j <= |b|
  {
    Indexed(ops, a, b) && OldSide(ops) == Range(i, |a|) && Replay(ops, a, b) == b[j..]
  }

  function Keeps(ops: seq<Op>): nat
  {
    if ops == [] then 0 else (if ops[0].Keep? then 1 else 0) + Keeps(ops[1..])
  }

  /** Deletions and insertions. */
  function Changes(ops: seq<Op>): nat
  {
    if ops == [] then 0 else (if ops[0].Keep? then 0 else 1) + Changes(ops[1..])
  }

  /** The lines inserted are new lines in order, at the place where they stand in the new text. */
  predicate InsertsInPlace(ops: seq<Op>, j: nat)
  {
    ops == [] ||
    match ops[0]
    case Keep(_) => InsertsInPlace(ops[1..], j + 1)
    case Del(_) => InsertsInPlace(ops[1..], j)
    case Ins(k) => k == j && InsertsInPlace(ops[1..], j + 1)
  }

  lemma TurnsRest(ops: seq<Op>, a: Lines, b: Lines, i: nat, j: nat)
    requires i <= |a| && j <= |b| && ops != [] && Turns(ops, a, b, i, j)
    ensures ops[0].Keep? ==> ops[0].i == i < |a| && j < |b| && a[i] == b[j] && Turns(ops[1..], a, b, i + 1, j + 1)
    ensures ops[0].Del? ==> ops[0].i == i < |a| && Turns(ops[1..], a, b, i + 1, j)
    ensures ops[0].Ins? ==> j < |b| && b[ops[0].j] == b[j] && Turns(ops[1..], a, b, i, j + 1)
  {
    var rest := ops[1..];
    assert Indexed(rest, a, b);
    var front: Lines := match ops[0] case Keep(k) => [a[k]] case Ins(k) => [b[k]] case Del(_) => [];
    assert front + Replay(rest, a, b) == b[j..];
    if !ops[0].Ins? {
      assert ([ops[0].i] + OldSide(rest))[0] == ops[0].i;
      assert OldSide(rest) == ([ops[0].i] + OldSide(rest))[1..] == Range(i + 1, |a|);
    }
    if !ops[0].Del? {
      assert Replay(rest, a, b) == (front + Replay(rest, a, b))[1..];
      assert b[j..][0] == front[0] && b[j..][1..] == b[j + 1..];
    } else {
      assert front + Replay(rest, a, b) == Replay(rest, a, b);
    }
  }

  /** Any script that turns the one text into the other keeps no more lines than the table says, and every line
      it does not keep costs a change. */
  lemma {:induction false} ScriptsAreBounded(ops: seq<Op>, a: Lines, b: Lines, i: nat, j: nat)
    requires i <= |a| && j <= |b| && Turns(ops, a, b, i, j)
    ensures Keeps(ops) <= Best(a, b, i, j)
    ensures Changes(ops) + 2 * Keeps(ops) == |a| - i + |b| - j
  {
    if ops == [] {
      assert |OldSide(ops)| == 0 && |Replay(ops, a, b)| == 0;
    } else {
      TurnsRest(ops, a, b, i, j);
      match ops[0]
      case Keep(_) =>
        ScriptsAreBounded(ops[1..], a, b, i + 1, j + 1);
      case Del(_) =>
        ScriptsAreBounded(ops[1..], a, b, i + 1, j);
        BestShrinks(a, b, i, j, i + 1, j);
      case Ins(_) =>
        ScriptsAreBounded(ops[1..], a, b, i, j + 1);
        BestShrinks(a, b, i, j, i, j + 1);
    }
  }

  // ---------------------------------------------------------------- reading the script off the table

  /** The script the walk still has to write from (i, j). */
  function Walk(a: Lines, b: Lines, i: nat, j: nat): seq<Op>
    requires i <= |a| && j <= |b|
    decreases |a| - i + |b| - j
  {
    if i < |a| && j < |b| then
      if a[i] == b[j] then [Keep(i)] + Walk(a, b, i + 1, j + 1)
      else if Best(a, b, i + 1, j) >= Best(a, b, i, j + 1) then [Del(i)] + Walk(a, b, i + 1, j)
      else [Ins(j)] + Walk(a, b, i, j + 1)
    else if i < |a| then [Del(i)] + Walk(a, b, i + 1, j)
    else if j < |b| then [Ins(j)] + Walk(a, b, i, j + 1)
    else []
  }

  lemma TurnsFirst(op: Op, rest: seq<Op>, a: Lines, b: Lines, i: nat, j: nat)
    requires i <= |a| && j <= |b|
    requires match op
      case Keep(k) => k == i < |a| && j < |b| && a[i] == b[j] && Turns(rest, a, b, i + 1, j + 1)
      case Del(k) => k == i < |a| && Turns(rest, a, b, i + 1, j)
      case Ins(k) => k == j < |b| && Turns(rest, a, b, i, j + 1)
    ensures Turns([op] + rest, a, b, i, j)
    ensures Keeps([op] + rest) == Keeps(rest) + if op.Keep? then 1 else 0
    ensures InsertsInPlace([op] + rest, j) == InsertsInPlace(rest, if op.Del? then j else j + 1)
  {
    var ops := [op] + rest;
    assert ops[1..] == rest;
    if j < |b| {
      assert b[j..] == [b[j]] + b[j + 1..];
    }
    if op.Del? {
      assert [] + Replay(rest, a, b) == Replay(rest, a, b);
    }
    if i < |a| {
      assert Range(i, |a|) == [i] + Range(i + 1, |a|);
    }
    if op.Ins? {
      assert [] + OldSide(rest) == OldSide(rest);
    }
  }

  /** The walk is a script from the one text to the other that keeps a longest common subsequence. */
  lemma {:induction false} WalkIsBest(a: Lines, b: Lines, i: nat, j: nat)
    requires i <= |a| && j <= |b|
    ensures var ops := Walk(a, b, i, j);
      Turns(ops, a, b, i, j) && Keeps(ops) == Best(a, b, i, j) && InsertsInPlace(ops, j)
    decreases |a| - i + |b| - j
  {
    if i == |a| && j == |b| {
      assert Range(i, |a|) == [] && b[j..] == [];
    } else {
      var op := Walk(a, b, i, j)[0];
      var i' := if op.Ins? then i else i + 1;
      var j' := if op.Del? then j else j + 1;
      var rest := Walk(a, b, i', j');
      WalkIsBest(a, b, i', j');
      assert Walk(a, b, i, j) == [op] + rest;
      assert Best(a, b, i, j) == Best(a, b, i', j') + if op.Keep? then 1 else 0;
      assert match op
        case Keep(k) => k == i < |a| && j < |b| && a[i] == b[j]
        case Del(k) => k == i < |a|
        case Ins(k) => k == j < |b|;
      hide Walk, Best, Turns, Keeps, InsertsInPlace;
      TurnsFirst(op, rest, a, b, i, j);
    }
  }

  lemma Written(ops: seq<Op>, op: Op, rest: seq<Op>)
    ensures ops + ([op] + rest) == (ops + [op]) + rest
  {
  }

  /** The walk through the table while both texts have lines left. */
  method WalkBoth(a: Lines, b: Lines, table: array2<nat>) returns (ops: seq<Op>, i: nat, j: nat)
    requires table.Length0 == |a| + 1 && table.Length1 == |b| + 1
    requires forall i, j :: 0 <= i <= |a| && 0 <= j <= |b| ==> table[i, j] == Best(a, b, i, j)
    ensures i <= |a| && j <= |b| && (i == |a| || j == |b|)
    ensures ops + Walk(a, b, i, j) == Walk(a, b, 0, 0)
  {
    ops, i, j := [], 0, 0;
    while i < |a| && j < |b|
      invariant i <= |a| && j <= |b|
      invariant ops + Walk(a, b, i, j) == Walk(a, b, 0, 0)
      decreases |a| - i + |b| - j
    {
      if a[i] == b[j] {
        Written(ops, Keep(i), Walk(a, b, i + 1, j + 1));
        ops := ops + [Keep(i)];
        i, j := i + 1, j + 1;
      } else if table[i + 1, j] >= table[i, j + 1] {
        Written(ops, Del(i), Walk(a, b, i + 1, j));
        ops := ops + [Del(i)];
        i := i + 1;
      } else {
        Written(ops, Ins(j), Walk(a, b, i, j + 1));
        ops := ops + [Ins(j)];
        j := j + 1;
      }
    }
  }

  /** What is left of one text is deleted or inserted line by line. */
  method WalkRest(a: Lines, b: Lines, ops0: seq<Op>, i0: nat, j0: nat) returns (ops: seq<Op>)
    requires i0 <= |a| && j0 <= |b| && (i0 == |a| || j0 == |b|)
    ensures ops == ops0 + Walk(a, b, i0, j0)
  {
    var i, j := i0, j0;
    ops := ops0;
    while i < |a|
      invariant i <= |a| && (i < |a| ==> j == |b|)
      invariant ops + Walk(a, b, i, j) == ops0 + Walk(a, b, i0, j0)
    {
      Written(ops, Del(i), Walk(a, b, i + 1, j));
      ops := ops + [Del(i)];
      i := i + 1;
    }
    while j < |b|
      invariant j <= |b|
      invariant ops + Walk(a, b, i, j) == ops0 + Walk(a, b, i0, j0)
    {
      Written(ops, Ins(j), Walk(a, b, i, j + 1));
      ops := ops + [Ins(j)];
      j := j + 1;
    }
    assert ops + Walk(a, b, i, j) == ops;
  }

  /** The edit script: it lists the old text in order, inserts new lines in place, produces the new text, keeps
      a longest common subsequence, and no script that does the same job has fewer deletions and insertions. */
  method LcsOps(a: Lines, b: Lines) returns (ops: seq<Op>)
    ensures Turns(ops, a, b, 0, 0) && InsertsInPlace(ops, 0)
    ensures forall p, q :: Common(a, b, 0, 0, p, q) ==> |p| <= Keeps(ops)
    ensures forall other :: Turns(other, a, b, 0, 0) ==> Changes(ops) <= Changes(other)
  {
    var table := FillTable(a, b);
    var i, j;
    ops, i, j := WalkBoth(a, b, table);
    ops := WalkRest(a, b, ops, i, j);
    WalkIsShortest(a, b);
  }

  lemma WalkIsShortest(a: Lines, b: Lines)
    ensures var ops := Walk(a, b, 0, 0);
      && Turns(ops, a, b, 0, 0) && InsertsInPlace(ops, 0)
      && (forall p, q :: Common(a, b, 0, 0, p, q) ==> |p| <= Keeps(ops))
      && (forall other :: Turns(other, a, b, 0, 0) ==> Changes(ops) <= Changes(other))
  {
    var ops := Walk(a, b, 0, 0);
    WalkIsBest(a, b, 0, 0);
    ScriptsAreBounded(ops, a, b, 0, 0);
    forall p, q | Common(a, b, 0, 0, p, q)
      ensures |p| <= Keeps(ops)
    {
      BestIsBound(a, b, 0, 0, p, q);
    }
    forall other | Turns(other, a, b, 0, 0)
      ensures Changes(ops) <= Changes(other)
    {
      ScriptsAreBounded(other, a, b, 0, 0);
    }
  }

  // ---------------------------------------------------------------- the unified text

  /** The lines of a text: a newline ends a line, with a carriage return before it dropped, and the last line
      need not be ended. */
  function LinesOf(s: string): Lines
    decreases |s|
  {
    if s == "" then []
    else
      var k := Find(s, '\n');
      if k == |s| then [s] else [DropReturn(s[..k])] + LinesOf(s[k + 1..])
  }

  function DropReturn(s: string): string
  {
    if s != "" && s[|s| - 1] == '\r' then s[..|s| - 1] else s
  }

  /** The lines, each with its ending. */
  function Put(lines: Lines, ends: seq<string>): string
    requires |ends| == |lines|
  {
    if lines == [] then "" else lines[0] + (ends[0] + Put(lines[1..], ends[1..]))
  }

  /** A line ends in a newline, in a carriage return and a newline, or with the text. */
  predicate IsEnd(line: string, end: string, last: bool)
  {
    && '\n' !in line
    && (end == "\r\n" || (end == "\n" && (line == "" || line[|line| - 1] != '\r')) || (end == "" && line != "" && last))
  }

  ghost predicate IsText(s: string, lines: Lines, ends: seq<string>)
  {
    && |ends| == |lines| && s == Put(lines, ends)
    && forall k :: 0 <= k < |lines| ==> IsEnd(lines[k], ends[k], k == |lines| - 1)
  }

  lemma {:induction false} CutAtEnd(line: string, end: string, tail: string, s: string)
    requires s == line + (end + tail) && IsEnd(line, end, tail == "")
    ensures s != "" && var k := Find(s, '\n');
      if end == "" then k == |s| && s == line else k < |s| && DropReturn(s[..k]) == line && s[k + 1..] == tail
  {
    if end == "" {
      assert s == line;
    } else {
      var k := |line| + |end| - 1;
      assert s[k] == '\n' && s[..k] == line + end[..|end| - 1] && s[k + 1..] == tail;
      FindAt(s, k, '\n');
    }
  }

  lemma {:induction false} FirstEnd(s: string, k: nat) returns (end: string)
    requires k < |s| && s[k] == '\n' && '\n' !in s[..k]
    ensures s == DropReturn(s[..k]) + (end + s[k + 1..])
    ensures IsEnd(DropReturn(s[..k]), end, true) && IsEnd(DropReturn(s[..k]), end, false)
  {
    var line := DropReturn(s[..k]);
    if |line| == k {
      end := "\n";
      assert s[..k + 1] == line + end;
    } else {
      end := "\r\n";
      assert s[..k + 1] == line + end;
    }
    assert s == s[..k + 1] + s[k + 1..];
  }

  /** How the lines of a text are ended. */
  lemma {:induction false} LinesEnd(s: string) returns (ends: seq<string>)
    ensures IsText(s, LinesOf(s), ends)
    decreases |s|
  {
    ends := [];
    if s != "" {
      var k := Find(s, '\n');
      if k == |s| {
        ends := [""];
        assert s[..k] == s && s == s + ("" + Put([], []));
        PutFirst(s, "", [], []);
        assert [s] + [] == [s] && [""] + [] == [""];
      } else {
        var line, tail := DropReturn(s[..k]), s[k + 1..];
        var more := LinesEnd(tail);
        var end := FirstEnd(s, k);
        ends := [end] + more;
        PutFirst(line, end, LinesOf(tail), more);
        assert LinesOf(s) == [line] + LinesOf(tail);
        hide LinesOf, IsEnd, DropReturn, Find;
      }
    }
  }

  lemma PutFirst(line: string, end: string, lines: Lines, ends: seq<string>)
    requires |ends| == |lines|
    ensures Put([line] + lines, [end] + ends) == line + (end + Put(lines, ends))
    ensures IsEnd(line, end, lines == []) && IsText(Put(lines, ends), lines, ends)
            ==> IsText(Put([line] + lines, [end] + ends), [line] + lines, [end] + ends)
  {
    assert ([line] + lines)[1..] == lines && ([end] + ends)[1..] == ends;
  }

  lemma {:induction false} TailIsText(s: string, lines: Lines, ends: seq<string>, tail: string)
    requires IsText(s, lines, ends) && lines != [] && tail == Put(lines[1..], ends[1..])
    ensures s == lines[0] + (ends[0] + tail) && IsText(tail, lines[1..], ends[1..]) && IsEnd(lines[0], ends[0], tail == "")
  {
    var more, rest := lines[1..], ends[1..];
    forall k | 0 <= k < |more| ensures IsEnd(more[k], rest[k], k == |more| - 1) {
      assert IsEnd(lines[k + 1], ends[k + 1], k + 1 == |lines| - 1);
    }
    assert IsEnd(lines[0], ends[0], |lines| == 1);
    if more != [] {
      assert IsEnd(more[0], rest[0], |more| == 1) && more[0] + rest[0] != "";
      hide IsEnd;
      assert tail == more[0] + (rest[0] + Put(more[1..], rest[1..]));
    }
  }

  lemma {:induction false} FirstLine(s: string, line: string, end: string, tail: string)
    requires s == line + (end + tail) && IsEnd(line, end, tail == "")
    ensures LinesOf(s) == [line] + LinesOf(tail)
  {
    CutAtEnd(line, end, tail, s);
  }

  lemma {:induction false} TextHasLines(s: string, lines: Lines, ends: seq<string>)
    requires IsText(s, lines, ends)
    ensures LinesOf(s) == lines
    decreases |lines|
  {
    if lines != [] {
      var tail := Put(lines[1..], ends[1..]);
      TailIsText(s, lines, ends, tail);
      hide Put, IsText, IsEnd, LinesOf;
      FirstLine(s, lines[0], ends[0], tail);
      TextHasLines(tail, lines[1..], ends[1..]);
    }
  }

  /** The lines of a text are the one way to cut it at its line ends. */
  lemma LinesExactly(s: string, lines: Lines)
    ensures lines == LinesOf(s) <==> exists ends :: IsText(s, lines, ends)
  {
    var ends := LinesEnd(s);
    forall ends | IsText(s, lines, ends) ensures LinesOf(s) == lines {
      TextHasLines(s, lines, ends);
    }
  }

  function HunkLine(op: Op, a: Lines, b: Lines): (r: string)
    requires InText(op, a, b)
    ensures r != "" && r[0] in {' ', '-', '+'}
  {
    match op
    case Keep(i) => " " + a[i]
    case Del(i) => "-" + a[i]
    case Ins(j) => "+" + b[j]
  }

  /** What a reader gets back from the hunk: the lines without a plus are the old text, those without a minus
      are the new text. */
  function Side(hunk: Lines, other: char): Lines
    requires forall k :: 0 <= k < |hunk| ==> hunk[k] != ""
  {
    if hunk == [] then [] else (if hunk[0][0] == other then [] else [hunk[0][1..]]) + Side(hunk[1..], other)
  }

  predicate IsHunk(hunk: Lines, ops: seq<Op>, a: Lines, b: Lines)
    requires Indexed(ops, a, b)
  {
    |hunk| == |ops| && forall k :: 0 <= k < |ops| ==> hunk[k] == HunkLine(ops[k], a, b)
  }

  method RenderHunks(ops: seq<Op>, a: Lines, b: Lines) returns (lines: Lines)
    requires Indexed(ops, a, b)
    ensures IsHunk(lines, ops, a, b)
  {
    lines := [];
    for k := 0 to |ops|
      invariant |lines| == k && forall l :: 0 <= l < k ==> lines[l] == HunkLine(ops[l], a, b)
    {
      match ops[k] {
        case Keep(i) => lines := lines + [" " + a[i]];
        case Del(i) => lines := lines + ["-" + a[i]];
        case Ins(j) => lines := lines + ["+" + b[j]];
      }
    }
  }

  /** A hunk holds both texts. */
  lemma {:induction false} HunkHoldsBoth(ops: seq<Op>, hunk: Lines, a: Lines, b: Lines, i: nat, j: nat)
    requires i <= |a| && j <= |b| && Turns(ops, a, b, i, j)
    requires IsHunk(hunk, ops, a, b)
    ensures Side(hunk, '+') == a[i..]
    ensures Side(hunk, '-') == b[j..]
    decreases |ops|
  {
    if ops == [] {
      assert |OldSide(ops)| == 0 && a[i..] == [];
    } else {
      TurnsRest(ops, a, b, i, j);
      assert hunk[0] == HunkLine(ops[0], a, b);
      match ops[0]
      case Keep(_) =>
        HunkHoldsBoth(ops[1..], hunk[1..], a, b, i + 1, j + 1);
        Suffix(a, i);
        Suffix(b, j);
      case Del(_) =>
        HunkHoldsBoth(ops[1..], hunk[1..], a, b, i + 1, j);
        Suffix(a, i);
      case Ins(_) =>
        HunkHoldsBoth(ops[1..], hunk[1..], a, b, i, j + 1);
        Suffix(b, j);
    }
  }

  lemma Suffix(a: Lines, i: nat)
    requires i < |a|
    ensures a[i..] == [a[i]] + a[i + 1..]
  {
  }

  function Join(lines: Lines): string
  {
    if lines == [] then "" else Join(lines[..|lines| - 1]) + lines[|lines| - 1] + "\n"
  }

  function Newlines(n: nat): (r: seq<string>)
    ensures |r| == n && forall k :: 0 <= k < n ==> r[k] == "\n"
  {
    seq(n, _ => "\n")
  }

  lemma AfterBoth(a: string, b: string, tail: string, c: string, d: string)
    ensures a + (b + (tail + c + d)) == a + (b + tail) + c + d
  {
  }

  lemma {:induction false} PutLast(lines: Lines, ends: seq<string>, line: string, end: string)
    requires |ends| == |lines|
    ensures Put(lines + [line], ends + [end]) == Put(lines, ends) + line + end
  {
    if lines == [] {
      assert lines + [line] == [line] && ends + [end] == [end] && [line][1..] == [] && [end][1..] == [];
    } else {
      assert (lines + [line])[1..] == lines[1..] + [line] && (ends + [end])[1..] == ends[1..] + [end];
      var tail := Put(lines[1..], ends[1..]);
      assert Put(lines + [line], ends + [end]) == lines[0] + (ends[0] + Put(lines[1..] + [line], ends[1..] + [end]));
      assert Put(lines, ends) == lines[0] + (ends[0] + tail);
      hide Put;
      PutLast(lines[1..], ends[1..], line, end);
      AfterBoth(lines[0], ends[0], tail, line, end);
    }
  }

  /** Every line written ends in a newline. */
  lemma {:induction false} JoinEndsLines(lines: Lines)
    ensures Join(lines) == Put(lines, Newlines(|lines|))
  {
    if lines != [] {
      var n := |lines| - 1;
      JoinEndsLines(lines[..n]);
      assert lines[..n] + [lines[n]] == lines && Newlines(n) + ["\n"] == Newlines(|lines|);
      PutLast(lines[..n], Newlines(n), lines[n], "\n");
    }
  }

  predicate AllKept(ops: seq<Op>)
  {
    forall k :: 0 <= k < |ops| ==> ops[k].Keep?
  }

  lemma {:induction false} KeptMeansNoChange(ops: seq<Op>)
    ensures AllKept(ops) <==> Changes(ops) == 0
  {
    if ops != [] {
      KeptMeansNoChange(ops[1..]);
      assert AllKept(ops) <==> ops[0].Keep? && AllKept(ops[1..]);
    }
  }

  /** A shortest script changes nothing exactly when the texts have the same lines. */
  lemma NoChangeMeansSameLines(ops: seq<Op>, a: Lines, b: Lines)
    requires Turns(ops, a, b, 0, 0)
    requires forall p, q :: Common(a, b, 0, 0, p, q) ==> |p| <= Keeps(ops)
    ensures Changes(ops) == 0 <==> a == b
  {
    ScriptsAreBounded(ops, a, b, 0, 0);
    if a == b {
      assert Common(a, b, 0, 0, Range(0, |a|), Range(0, |a|));
    } else if Changes(ops) == 0 {
      KeptMeansNoChange(ops);
      KeptCopies(ops, a, b, 0, 0);
    }
  }

  lemma {:induction false} KeptCopies(ops: seq<Op>, a: Lines, b: Lines, i: nat, j: nat)
    requires i <= |a| && j <= |b| && Turns(ops, a, b, i, j) && AllKept(ops)
    ensures a[i..] == b[j..]
    decreases |ops|
  {
    if ops == [] {
      assert |OldSide(ops)| == 0 && a[i..] == [] && b[j..] == [];
    } else {
      TurnsRest(ops, a, b, i, j);
      KeptCopies(ops[1..], a, b, i + 1, j + 1);
      assert a[i..] == [a[i]] + a[i + 1..] && b[j..] == [b[j]] + b[j + 1..];
    }
  }

  lemma {:induction false} SizeOfScript(ops: seq<Op>)
    ensures |ops| == Keeps(ops) + Changes(ops)
  {
    if ops != [] {
      SizeOfScript(ops[1..]);
    }
  }

  /** A line for every line of the two texts, but only one for each pair in any common subsequence. */
  ghost predicate AsShort(hunk: Lines, a: Lines, b: Lines)
  {
    forall p, q :: Common(a, b, 0, 0, p, q) ==> |hunk| + |p| <= |a| + |b|
  }

  /** No hunk that holds both texts can be shorter. */
  lemma HunkIsShort(ops: seq<Op>, a: Lines, b: Lines)
    requires Turns(ops, a, b, 0, 0)
    requires forall p, q :: Common(a, b, 0, 0, p, q) ==> |p| <= Keeps(ops)
    ensures forall p, q :: Common(a, b, 0, 0, p, q) ==> |ops| + |p| <= |a| + |b|
  {
    ScriptsAreBounded(ops, a, b, 0, 0);
    SizeOfScript(ops);
  }

  /** The unified diff: empty exactly when the two texts have the same lines, and otherwise a header and a hunk
      from which both can be read back, as short as any. */
  method Unified(old_: string, new_: string, path: string) returns (out: string, ghost hunk: Lines)
    ensures out == "" <==> LinesOf(old_) == LinesOf(new_)
    ensures out != "" ==>
              && out == "--- " + path + "\n+++ " + path + " (formatted)\n" + Put(hunk, Newlines(|hunk|))
              && (forall k :: 0 <= k < |hunk| ==> hunk[k] != "" && hunk[k][0] in {' ', '-', '+'})
              && Side(hunk, '+') == LinesOf(old_) && Side(hunk, '-') == LinesOf(new_)
              && AsShort(hunk, LinesOf(old_), LinesOf(new_))
  {
    var a, b := LinesOf(old_), LinesOf(new_);
    var ops := LcsOps(a, b);
    KeptMeansNoChange(ops);
    NoChangeMeansSameLines(ops, a, b);
    if AllKept(ops) {
      return "", [];
    }
    var header := "--- " + path + "\n+++ " + path + " (formatted)\n";
    var lines := RenderHunks(ops, a, b);
    hunk := lines;
    HunkHoldsBoth(ops, lines, a, b, 0, 0);
    HunkIsShort(ops, a, b);
    JoinEndsLines(hunk);
    assert a[0..] == a && b[0..] == b;
    out := Append(header, lines);
  }

  method Append(header: string, lines: Lines) returns (out: string)
    ensures out == header + Join(lines)
  {
    out := header;
    assert lines[..0] == [] && header + "" == header;
    for k := 0 to |lines|
      invariant out == header + Join(lines[..k])
    {
      assert lines[..k + 1][..k] == lines[..k];
      assert header + Join(lines[..k]) + lines[k] + "\n" == header + Join(lines[..k + 1]);
      out := out + lines[k] + "\n";
    }
    assert lines[..|lines|] == lines;
  }

  /** The result is empty for texts that differ: only their lines count, not how the last one ends. */
  lemma EmptyForDifferentTexts()
    ensures LinesOf("a") == LinesOf("a\n") == LinesOf("a\r\n")
  {
    assert Find("a", '\n') == 1 && Find("a\n", '\n') == 1;
    assert "a\n"[..1] == "a" && "a\n"[2..] == "";
    assert "a\r\n"[1..] == "\r\n" && "\r\n"[1..] == "\n";
    assert Find("\n", '\n') == 0 && Find("\r\n", '\n') == 1 && Find("a\r\n", '\n') == 2;
    assert "a\r\n"[..2] == "a\r" && "a\r\n"[3..] == "" && "a\r"[..1] == "a";
  }
}

/** How the tokens relate to the text they are read from. */
module LexerText {
  import opened Options
  import opened TextSearch
  import opened TokenNesting
  import opened LexerLayout

  // ---------------------------------------------------------------- code survives layout

  predicate IsCode(tok: Kind)
  {
    tok.Plain? || tok.Open? || tok.Close?
  }

  /** The tokens that are not layout. */
  function CodeIn(toks: seq<Kind>): seq<Kind>
  {
    if toks == [] then [] else (if IsCode(toks[0]) then [toks[0]] else []) + CodeIn(toks[1..])
  }

  /** The token of a bracket character. */
  function BracketAt(c: char): Option<Kind>
  {
    if c == '(' then Some(Open(Paren))
    else if c == ')' then Some(Close(Paren))
    else if c == '[' then Some(Open(Square))
    else if c == ']' then Some(Close(Square))
    else if c == '{' then Some(Open(Brace))
    else if c == '}' then Some(Close(Brace))
    else None
  }

  /** The code in a text: every bracket character and every word outside blanks and comments, whatever the lines. */
  function CodeFrom(source: string, scan: Scanner, p: nat): seq<Kind>
    requires Sane(scan, source) && p <= |source|
    decreases |source| - p
  {
    var q := AfterBlanks(source, p);
    if q == |source| then []
    else if source[q] == '\n' || source[q] == '\\' then CodeFrom(source, scan, q + 1)
    else if BracketAt(source[q]).Some? then [BracketAt(source[q]).value] + CodeFrom(source, scan, q + 1)
    else
      match scan(source, q)
      case Bad => []
      case Word(end) => [Plain] + CodeFrom(source, scan, end)
  }

  lemma {:induction false} CodeInConcat(a: seq<Kind>, b: seq<Kind>)
    ensures CodeIn(a + b) == CodeIn(a) + CodeIn(b)
    decreases |a|
  {
    if a == [] {
      assert a + b == b;
    } else {
      var first := if IsCode(a[0]) then [a[0]] else [];
      assert (a + b)[0] == a[0] && (a + b)[1..] == a[1..] + b;
      assert CodeIn(a + b) == first + CodeIn(a[1..] + b) && CodeIn(a) == first + CodeIn(a[1..]);
      hide CodeIn;
      CodeInConcat(a[1..], b);
    }
  }

  lemma {:induction false} LayoutIsNoCode(toks: seq<Kind>)
    requires forall k :: 0 <= k < |toks| ==> !IsCode(toks[k])
    ensures CodeIn(toks) == []
    decreases |toks|
  {
    if toks != [] {
      LayoutIsNoCode(toks[1..]);
    }
  }

  lemma SameCode(source: string, scan: Scanner, p: nat, q: nat)
    requires Sane(scan, source) && p <= |source| && q <= |source| && AfterBlanks(source, p) == AfterBlanks(source, q)
    ensures CodeFrom(source, scan, p) == CodeFrom(source, scan, q)
  {
    hide AfterBlanks;
  }

  lemma {:induction false} BlanksAreBlank(source: string, p: nat)
    requires p <= |source|
    ensures AfterBlanks(source, BlankEnd(source, p)) == AfterBlanks(source, p)
    decreases |source| - p
  {
    if p < |source| && (source[p] == ' ' || source[p] == '\t') {
      BlanksAreBlank(source, p + 1);
    }
  }

  /** The start of a line passes over blanks and comments only. */
  lemma LineStartPassesBlanks(source: string, p: nat, indents: seq<nat>)
    requires p <= |source| && Rising(indents) && LineStart(source, p, indents).Ok?
    ensures AfterBlanks(source, LineStart(source, p, indents).value.end) == AfterBlanks(source, p)
  {
    var e := BlankEnd(source, p);
    BlanksAreBlank(source, p);
    if LineComment(source, e) {
      var end := EndOfLine(source, e);
      assert AfterBlanks(source, e) == end;
      assert AfterBlanks(source, end) == end;
    }
  }

  /** One code token, then the rest. */
  lemma CodeFirst(tok: Kind, rest: Result<seq<Kind>>, code: seq<Kind>)
    requires IsCode(tok) && (rest.Ok? ==> CodeIn(rest.value) == code)
    ensures Then([tok], rest).Ok? ==> CodeIn(Then([tok], rest).value) == [tok] + code
  {
    if rest.Ok? {
      assert ([tok] + rest.value)[1..] == rest.value;
    }
  }

  /** Layout tokens, then the rest. */
  lemma LayoutFirst(toks: seq<Kind>, rest: Result<seq<Kind>>, code: seq<Kind>)
    requires (forall k :: 0 <= k < |toks| ==> !IsCode(toks[k])) && (rest.Ok? ==> CodeIn(rest.value) == code)
    ensures Then(toks, rest).Ok? ==> CodeIn(Then(toks, rest).value) == code
  {
    if rest.Ok? {
      LayoutIsNoCode(toks);
      CodeInConcat(toks, rest.value);
      assert [] + code == code;
    }
  }

  lemma {:induction false} EndIsNoCode(indents: seq<nat>, delimiters: seq<Bracket>)
    requires indents != []
    ensures var r := TokensAtEnd(indents, delimiters); r.Ok? ==> CodeIn(r.value) == []
  {
    var r := TokensAtEnd(indents, delimiters);
    if r.Ok? {
      LayoutIsNoCode(r.value);
    }
  }

  /** The tokens `r` of a text have the code of the text from `p` on. */
  predicate HasCode(r: Result<seq<Kind>>, source: string, scan: Scanner, p: nat)
    requires Sane(scan, source) && p <= |source|
  {
    r.Ok? ==> CodeIn(r.value) == CodeFrom(source, scan, p)
  }

  lemma {:induction false} NewlineHasCode(source: string, scan: Scanner, q: nat, indents: seq<nat>)
    requires Sane(scan, source) && q < |source| && Rising(indents) && source[q] == '\n'
    requires forall p: nat, inner: seq<nat> :: q < p <= |source| && Rising(inner) ==>
               HasCode(TokensOf(source, scan, p, inner, []), source, scan, p)
    ensures HasCode(TokensAt(source, scan, q, indents, []), source, scan, q + 1)
  {
    var next := q + 1;
    var line := LineStart(source, next, indents);
    AtNewline(source, scan, q, next, indents, []);
    if line.Ok? {
      var end := line.value.end;
      LineStartPassesBlanks(source, next, indents);
      SameCode(source, scan, end, next);
      if line.value.Makes? {
        var inner, queued := line.value.indents, line.value.queued;
        var rest := TokensOf(source, scan, end, inner, []);
        assert HasCode(rest, source, scan, end);
        LayoutFirst(queued, rest, CodeFrom(source, scan, end));
        LayoutFirst([Newline], Then(queued, rest), CodeFrom(source, scan, end));
      } else {
        assert HasCode(TokensOf(source, scan, end, indents, []), source, scan, end);
      }
    }
  }
  lemma {:induction false} BackslashHasCode(source: string, scan: Scanner, q: nat, indents: seq<nat>, delimiters: seq<Bracket>)
    requires Sane(scan, source) && q < |source| && Rising(indents) && source[q] == '\\'
    requires IsAt(source, q + 1, '\n') ==> HasCode(TokensOf(source, scan, q + 2, indents, delimiters), source, scan, q + 2)
    ensures HasCode(TokensAt(source, scan, q, indents, delimiters), source, scan, q)
  {
    var next := q + 1;
    AtBackslash(source, scan, q, next, indents, delimiters);
    assert AfterBlanks(source, q) == q && CodeFrom(source, scan, q) == CodeFrom(source, scan, next);
    if IsAt(source, next, '\n') {
      assert AfterBlanks(source, next) == next && CodeFrom(source, scan, next) == CodeFrom(source, scan, next + 1);
    }
  }

  lemma {:induction false} BracketHasCode(source: string, scan: Scanner, q: nat, indents: seq<nat>, delimiters: seq<Bracket>)
    requires Sane(scan, source) && q < |source| && Rising(indents) && AfterBlanks(source, q) == q
    requires Opener(source[q]).Some? || Closer(source[q]).Some?
    requires Opener(source[q]).Some? ==>
               HasCode(TokensOf(source, scan, q + 1, indents, delimiters + [Opener(source[q]).value]), source, scan, q + 1)
    requires Closer(source[q]).Some? && delimiters != [] && delimiters[|delimiters| - 1] == Closer(source[q]).value ==>
               HasCode(TokensOf(source, scan, q + 1, indents, delimiters[..|delimiters| - 1]), source, scan, q + 1)
    ensures HasCode(TokensAt(source, scan, q, indents, delimiters), source, scan, q)
  {
    var ch := source[q];
    hide TokensOf, AfterBlanks, LineStart;
    if Opener(ch).Some? {
      var b := Opener(ch).value;
      CodeFirst(Open(b), TokensOf(source, scan, q + 1, indents, delimiters + [b]), CodeFrom(source, scan, q + 1));
    } else if delimiters != [] && delimiters[|delimiters| - 1] == Closer(ch).value {
      CodeFirst(Close(Closer(ch).value), TokensOf(source, scan, q + 1, indents, delimiters[..|delimiters| - 1]),
                CodeFrom(source, scan, q + 1));
    }
  }

  lemma {:induction false} CodeAt(source: string, scan: Scanner, q: nat, indents: seq<nat>, delimiters: seq<Bracket>)
    requires Sane(scan, source) && q < |source| && Rising(indents) && AfterBlanks(source, q) == q
    ensures HasCode(TokensAt(source, scan, q, indents, delimiters), source, scan, q)
    decreases |source| - q, 0
  {
    var ch := source[q];
    if ch == '\n' {
      if delimiters == [] {
        forall p: nat, inner: seq<nat> | q < p <= |source| && Rising(inner)
          ensures HasCode(TokensOf(source, scan, p, inner, []), source, scan, p)
        {
          CodeSurvives(source, scan, p, inner, []);
        }
        NewlineHasCode(source, scan, q, indents);
      } else {
        CodeSurvives(source, scan, q + 1, indents, delimiters);
      }
    } else if ch == '\\' {
      if IsAt(source, q + 1, '\n') {
        CodeSurvives(source, scan, q + 2, indents, delimiters);
      }
      BackslashHasCode(source, scan, q, indents, delimiters);
    } else if Opener(ch).Some? {
      CodeSurvives(source, scan, q + 1, indents, delimiters + [Opener(ch).value]);
      BracketHasCode(source, scan, q, indents, delimiters);
    } else if Closer(ch).Some? {
      if delimiters != [] && delimiters[|delimiters| - 1] == Closer(ch).value {
        CodeSurvives(source, scan, q + 1, indents, delimiters[..|delimiters| - 1]);
      }
      BracketHasCode(source, scan, q, indents, delimiters);
    } else if scan(source, q).Word? {
      var end := scan(source, q).end;
      CodeSurvives(source, scan, end, indents, delimiters);
      CodeFirst(Plain, TokensOf(source, scan, end, indents, delimiters), CodeFrom(source, scan, end));
    }
  }

  /** However the lines of a text are indented and broken, its tokens are its code with layout in between: nothing
      is lost, added or exchanged. */
  lemma {:induction false} CodeSurvives(source: string, scan: Scanner, p: nat, indents: seq<nat>, delimiters: seq<Bracket>)
    requires Sane(scan, source) && p <= |source| && Rising(indents)
    ensures HasCode(TokensOf(source, scan, p, indents, delimiters), source, scan, p)
    decreases |source| - p, 1
  {
    var q := AfterBlanks(source, p);
    assert AfterBlanks(source, q) == q;
    SkipsBlanks(source, scan, p, q, indents, delimiters);
    SameCode(source, scan, p, q);
    if q == |source| {
      EndIsNoCode(indents, delimiters);
    } else {
      CodeAt(source, scan, q, indents, delimiters);
    }
  }

  // ---------------------------------------------------------------- what is no code

  predicate NoneCloses(s: string)
  {
    forall k :: 0 <= k < |s| - 1 ==> !(s[k] == '*' && s[k + 1] == '/')
  }

  /** Block comment `s`: up to the first end of a comment, or to the end of the text when there is none. */
  predicate IsBlock(s: string, last: bool)
  {
    && |s| >= 2 && s[0] == '/' && s[1] == '*'
    && ((|s| >= 4 && s[|s| - 2] == '*' && s[|s| - 1] == '/' && NoneCloses(s[2..|s| - 1])) || (last && NoneCloses(s[2..])))
  }

  /** `s` is blanks, block comments and perhaps a line comment behind them. `last` says that the text ends there. */
  ghost predicate OnlyBlanks(s: string, last: bool)
    decreases |s|
  {
    || s == ""
    || (s[0] in {' ', '\t', '\r'} && OnlyBlanks(s[1..], last))
    || (|s| >= 2 && s[0] == '/' && s[1] == '/' && '\n' !in s)
    || exists k :: 0 < k <= |s| && IsBlock(s[..k], last && k == |s|) && OnlyBlanks(s[k..], last)
  }

  lemma {:induction false} BlockIsCut(source: string, p: nat, start: nat)
    requires start <= p <= |source| && NoneCloses(source[start..p])
    requires start < p && source[p - 1] == '*' ==> !IsAt(source, p, '/')
    ensures var e := EndOfBlock(source, p);
      || (p + 2 <= e && source[e - 2] == '*' && source[e - 1] == '/' && NoneCloses(source[start..e - 1]))
      || (e == |source| && NoneCloses(source[start..]))
    decreases |source| - p
  {
    if p == |source| {
      assert source[start..p] == source[start..];
    } else if source[p] == '*' && IsAt(source, p + 1, '/') {
      LongerBlock(source, p, start);
    } else {
      LongerBlock(source, p, start);
      BlockIsCut(source, p + 1, start);
    }
  }

  lemma LongerBlock(source: string, p: nat, start: nat)
    requires start <= p < |source| && NoneCloses(source[start..p])
    requires start < p && source[p - 1] == '*' ==> !IsAt(source, p, '/')
    ensures NoneCloses(source[start..p + 1])
  {
    var s, t := source[start..p + 1], source[start..p];
    assert forall k :: 0 <= k < |t| ==> s[k] == t[k];
  }

  lemma BlockIsSkipped(source: string, p: nat)
    requires p < |source| && BlockComment(source, p)
    ensures var e := EndOfBlock(source, p + 2);
      e >= p + 2 && IsBlock(source[p..e], e == |source|)
  {
    var e := EndOfBlock(source, p + 2);
    assert NoneCloses(source[p + 2..p + 2]);
    BlockIsCut(source, p + 2, p + 2);
    var s := source[p..e];
    assert s[2..] == source[p + 2..e];
    if e < |source| || !NoneCloses(source[p + 2..]) {
      assert s[2..|s| - 1] == source[p + 2..e - 1];
    }
  }

  /** Between a place and the next code there is nothing but blanks and comments. */
  lemma {:induction false} OnlyBlanksPassed(source: string, p: nat)
    requires p <= |source|
    ensures var q := AfterBlanks(source, p); OnlyBlanks(source[p..q], q == |source|)
    decreases |source| - p
  {
    var q := AfterBlanks(source, p);
    var s := source[p..q];
    if p < |source| && source[p] in {' ', '\t', '\r'} {
      OnlyBlanksPassed(source, p + 1);
      assert s[0] == source[p] && s[1..] == source[p + 1..q];
    } else if LineComment(source, p) {
      LineIsSkipped(source, p);
    } else if BlockComment(source, p) {
      var e := EndOfBlock(source, p + 2);
      BlockIsSkipped(source, p);
      OnlyBlanksPassed(source, e);
      var k := e - p;
      assert s[..k] == source[p..e] && s[k..] == source[e..q];
      hide AfterBlanks, EndOfBlock, IsBlock;
      assert e == |source| ==> k == |s|;
      BlockThenBlanks(s, k, e == |source|, q == |source|);
    }
  }

  lemma {:induction false} BlockThenBlanks(s: string, k: nat, ends: bool, last: bool)
    requires 0 < k <= |s| && IsBlock(s[..k], ends) && (ends ==> last && k == |s|) && OnlyBlanks(s[k..], last)
    ensures OnlyBlanks(s, last)
  {
    assert IsBlock(s[..k], last && k == |s|);
  }

  lemma LineIsSkipped(source: string, p: nat)
    requires LineComment(source, p)
    ensures var s := source[p..AfterBlanks(source, p)]; |s| >= 2 && s[0] == '/' && s[1] == '/' && '\n' !in s
  {
    var rest := source[p..];
    var k := Find(rest, '\n');
    assert rest[0] == '/' && rest[1] == '/' && '\n' !in rest[..k];
    assert AfterBlanks(source, p) == p + k && source[p..p + k] == rest[..k];
  }

  // ---------------------------------------------------------------- how wide blanks are

  /** A tab is four blanks wide. */
  lemma {:induction false} WidthCounts(blanks: string)
    ensures Width(blanks) == |blanks| + 3 * multiset(blanks)['\t']
  {
    if blanks != "" {
      var n := |blanks| - 1;
      assert blanks == blanks[..n] + [blanks[n]];
      WidthCounts(blanks[..n]);
    }
  }

  // ---------------------------------------------------------------- which lines make a newline

  /** Code follows on the line that starts at `p`, after its blanks and comments. */
  predicate HoldsCode(source: string, p: nat)
    requires p <= |source|
  {
    var q := AfterBlanks(source, p);
    q < |source| && source[q] != '\n'
  }

  /** A line may be this wide: deeper than the innermost block, or as wide as an enclosing one. */
  predicate Fits(depth: nat, indents: seq<nat>)
  {
    indents != [] && (depth > indents[|indents| - 1] || depth in indents)
  }

  /** A line makes a newline token exactly when its blanks are unmixed and of a width that fits, and it holds code
      without beginning with a block comment or has a carriage return right behind its blanks. */
  lemma LineMakes(source: string, p: nat, indents: seq<nat>)
    requires p <= |source| && Rising(indents)
    ensures var r, e := LineStart(source, p, indents), BlankEnd(source, p);
      r.Ok? && r.value.Makes?
      <==> (!Mixed(source[p..e]) && Fits(Width(source[p..e]), indents)
            && ((HoldsCode(source, p) && !BlockComment(source, e)) || IsAt(source, e, '\r')))
  {
    var e := BlankEnd(source, p);
    BlanksAreBlank(source, p);
    BlankEndStops(source, p);
    if LineComment(source, e) {
      assert AfterBlanks(source, e) == EndOfLine(source, e);
    }
  }

  lemma {:induction false} BlankEndStops(source: string, p: nat)
    requires p <= |source|
    ensures var e := BlankEnd(source, p); e < |source| ==> source[e] != ' ' && source[e] != '\t'
    decreases |source| - p
  {
    if p < |source| && (source[p] == ' ' || source[p] == '\t') {
      BlankEndStops(source, p + 1);
    }
  }

  /** One character, one word. */
  function ByChar(source: string, p: nat): Scan
  {
    Word(p + 1)
  }

  const COMMENTED := "a\n/**/b"
  const UNCOMMENTED := "a\nb"

  lemma LastWord(source: string, p: nat)
    requires Sane(ByChar, source) && p + 1 == |source|
    requires source[p] !in {' ', '\t', '\r', '\n', '\\', '/'} && Opener(source[p]).None? && Closer(source[p]).None?
    ensures TokensOf(source, ByChar, p, [0], []) == Ok([Plain, Eof])
  {
    var end := |source|;
    assert AfterBlanks(source, end) == end && TokensOf(source, ByChar, end, [0], []) == Ok([Eof]);
    assert AfterBlanks(source, p) == p && ByChar(source, p) == Word(end);
    assert TokensOf(source, ByChar, p, [0], []) == Then([Plain], Ok([Eof]));
    assert [Plain] + [Eof] == [Plain, Eof];
  }

  lemma FirstWord(source: string)
    requires Sane(ByChar, source) && |source| > 1 && source[0] == 'a' && source[1] == '\n'
    ensures TokensOf(source, ByChar, 0, [0], []) == Then([Plain], TokensAt(source, ByChar, 1, [0], []))
  {
    assert AfterBlanks(source, 0) == 0 && AfterBlanks(source, 1) == 1;
    hide AfterBlanks, TokensOf, TokensAtEnd, LineStart;
    SkipsBlanks(source, ByChar, 0, 0, [0], []);
    SkipsBlanks(source, ByChar, 1, 1, [0], []);
    assert ByChar(source, 0) == Word(1);
    assert TokensAt(source, ByChar, 0, [0], []) == Then([Plain], TokensOf(source, ByChar, 1, [0], []));
  }

  lemma BareLine(source: string, p: nat)
    requires p < |source| && source[p] != ' ' && source[p] != '\t'
    ensures BlankEnd(source, p) == p && source[p..p] == "" && Width(source[p..p]) == 0 && !Mixed(source[p..p])
  {
    assert source[p..p] == "";
  }

  /** A block comment at the start of a line joins it to the line before. */
  lemma CommentJoinsLines()
    ensures Sane(ByChar, UNCOMMENTED) && Sane(ByChar, COMMENTED)
    ensures TokensOf(UNCOMMENTED, ByChar, 0, [0], []) == Ok([Plain, Newline, Plain, Eof])
    ensures TokensOf(COMMENTED, ByChar, 0, [0], []) == Ok([Plain, Plain, Eof])
  {
    var one, two := UNCOMMENTED, COMMENTED;
    assert one[0] == 'a' && one[1] == '\n' && one[2] == 'b' && |one| == 3;
    assert two[0] == 'a' && two[1] == '\n' && two[2] == '/' && two[3] == '*' && two[4] == '*' && two[5] == '/' && two[6] == 'b';
    assert |two| == 7;
    WholeLines(one, two);
  }

  lemma WholeLines(one: string, two: string)
    requires Sane(ByChar, one) && |one| == 3 && one[0] == 'a' && one[1] == '\n' && one[2] == 'b'
    requires Sane(ByChar, two) && |two| == 7 && two[0] == 'a' && two[1] == '\n' && two[2] == '/' && two[3] == '*' && two[4] == '*'
          && two[5] == '/' && two[6] == 'b'
    ensures TokensOf(one, ByChar, 0, [0], []) == Ok([Plain, Newline, Plain, Eof])
    ensures TokensOf(two, ByChar, 0, [0], []) == Ok([Plain, Plain, Eof])
  {
    BareLine(one, 2);
    BareLine(two, 2);
    LastWord(one, 2);
    LastWord(two, 6);
    assert [0][..1] == [0] && Deeper([0], 0) == 0 && Dedents(0) == [];
    assert LineStart(one, 2, [0]) == Ok(Makes(2, [0], []));
    assert EndOfBlock(two, 4) == 6 && LineStart(two, 2, [0]) == Ok(Quiet(6));
    hide LineStart, TokensOf, TokensAt, AfterBlanks, EndOfBlock, Deeper, Dedents, Sane, BlankEnd, ByChar;
    FirstWord(one);
    FirstWord(two);
    AtNewline(one, ByChar, 1, 2, [0], []);
    AtNewline(two, ByChar, 1, 2, [0], []);
    assert [] + [Plain, Eof] == [Plain, Eof];
    assert [Newline] + [Plain, Eof] == [Newline, Plain, Eof] && [Plain] + [Newline, Plain, Eof] == [Plain, Newline, Plain, Eof];
    assert [Plain] + [Plain, Eof] == [Plain, Plain, Eof];
  }
}

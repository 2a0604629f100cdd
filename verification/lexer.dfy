/** The layout and bracket machine of the lexer; how other tokens are read is a parameter. */
module LexerLayout {
  import opened Options
  import opened TextSearch
  import opened TokenNesting

  datatype Scan = Word(end: nat) | Bad

  type Scanner = (string, nat) -> Scan

  ghost predicate Sane(scan: Scanner, source: string)
  {
    forall p: nat :: p < |source| && scan(source, p).Word? ==> p < scan(source, p).end <= |source|
  }

  datatype Problem = MixedIndent | BadDedent | StrayBackslash | Unmatched | Unclosed | BadToken

  datatype Result<T> = Ok(value: T) | Err(problem: Problem)

  predicate Rising(stack: seq<nat>)
  {
    stack != [] && stack[0] == 0 && forall i, j :: 0 <= i < j < |stack| ==> stack[i] < stack[j]
  }

  function Brackets(delimiters: seq<Bracket>): (r: Levels)
    ensures |r| == |delimiters| && forall k :: 0 <= k < |r| ==> r[k] == In(delimiters[k])
  {
    seq(|delimiters|, k requires 0 <= k < |delimiters| => In(delimiters[k]))
  }

  function Width(blanks: string): nat
  {
    if blanks == "" then 0
    else Width(blanks[..|blanks| - 1]) + if blanks[|blanks| - 1] == '\t' then 4 else 1
  }

  /** Where the blanks that start at `p` end. */
  function BlankEnd(source: string, p: nat): (e: nat)
    requires p <= |source|
    ensures p <= e <= |source|
    decreases |source| - p
  {
    if p < |source| && (source[p] == ' ' || source[p] == '\t') then BlankEnd(source, p + 1) else p
  }

  predicate Mixed(blanks: string)
  {
    ' ' in blanks && '\t' in blanks
  }

  predicate IsAt(source: string, p: nat, c: char)
  {
    p < |source| && source[p] == c
  }

  /** The line is blank from `e` on or starts with a comment there. */
  predicate NoToken(source: string, e: nat)
  {
    e >= |source| || source[e] == '\n' || (source[e] == '/' && (IsAt(source, e + 1, '/') || IsAt(source, e + 1, '*')))
  }

  function Opener(c: char): Option<Bracket>
  {
    match c
    case '(' => Some(Paren)
    case '[' => Some(Square)
    case '{' => Some(Brace)
    case _ => None
  }

  function Closer(c: char): Option<Bracket>
  {
    match c
    case ')' => Some(Paren)
    case ']' => Some(Square)
    case '}' => Some(Brace)
    case _ => None
  }

  /** How many blocks of `stack` are deeper than `depth`. */
  function Deeper(stack: seq<nat>, depth: nat): (n: nat)
    ensures n <= |stack|
  {
    if stack == [] || stack[|stack| - 1] <= depth then 0 else 1 + Deeper(stack[..|stack| - 1], depth)
  }

  lemma {:induction false} DeeperAre(stack: seq<nat>, depth: nat)
    requires Rising(stack)
    ensures var n := |stack| - Deeper(stack, depth);
      n > 0 && stack[n - 1] <= depth && forall k :: n <= k < |stack| ==> stack[k] > depth
  {
    if stack[|stack| - 1] > depth {
      DeeperAre(stack[..|stack| - 1], depth);
    }
  }

  lemma DeeperIsCut(stack: seq<nat>, depth: nat, kept: seq<nat>)
    requires Rising(stack) && kept == stack[..|stack| - Deeper(stack, depth)]
    ensures Rising(kept) && kept[|kept| - 1] <= depth
    ensures depth in stack <==> kept[|kept| - 1] == depth
  {
    DeeperAre(stack, depth);
    if k :| 0 <= k < |stack| && stack[k] == depth {
      assert k == |kept| - 1;
    }
  }

  // ---------------------------------------------------------------- what the tokens of a text are

  /** The end of the line that `p` lies on. */
  function EndOfLine(source: string, p: nat): (e: nat)
    requires p <= |source|
    ensures p <= e <= |source|
  {
    p + Find(source[p..], '\n')
  }

  /** Just after the end of a block comment whose inside starts at `p`; the end of the source if it is not closed. */
  function EndOfBlock(source: string, p: nat): (e: nat)
    requires p <= |source|
    ensures p <= e <= |source|
    decreases |source| - p
  {
    if p == |source| then p
    else if source[p] == '*' && IsAt(source, p + 1, '/') then p + 2
    else EndOfBlock(source, p + 1)
  }

  predicate LineComment(source: string, p: nat)
  {
    IsAt(source, p, '/') && IsAt(source, p + 1, '/')
  }

  predicate BlockComment(source: string, p: nat)
  {
    IsAt(source, p, '/') && IsAt(source, p + 1, '*')
  }

  /** The first place from `p` on that is neither blank nor inside a comment. */
  function AfterBlanks(source: string, p: nat): (q: nat)
    requires p <= |source|
    ensures p <= q <= |source|
    ensures q < |source| ==> source[q] !in {' ', '\t', '\r'}
    ensures !LineComment(source, q) && !BlockComment(source, q)
    decreases |source| - p
  {
    if p < |source| && source[p] in {' ', '\t', '\r'} then AfterBlanks(source, p + 1)
    else if LineComment(source, p) then AfterLine(source, p)
    else if BlockComment(source, p) then AfterBlanks(source, EndOfBlock(source, p + 2))
    else p
  }

  function AfterLine(source: string, p: nat): (q: nat)
    requires LineComment(source, p)
    ensures p <= q <= |source| && (q < |source| ==> source[q] == '\n')
  {
    assert source[p..][0] == '/';
    EndOfLine(source, p)
  }

  /** What the start of a line amounts to: nothing, up to `end`, or a newline token and what is queued behind it. */
  datatype Line = Quiet(end: nat) | Makes(end: nat, indents: seq<nat>, queued: seq<Kind>)

  function LineStart(source: string, p: nat, indents: seq<nat>): (r: Result<Line>)
    requires p <= |source| && Rising(indents)
    ensures r.Ok? ==> p <= r.value.end <= |source|
    ensures r.Ok? && r.value.Makes? ==> Rising(r.value.indents) && Eof !in r.value.queued
  {
    var e := BlankEnd(source, p);
    var depth := Width(source[p..e]);
    if Mixed(source[p..e]) then Err(MixedIndent)
    else if LineComment(source, e) then Ok(Quiet(EndOfLine(source, e)))
    else if BlockComment(source, e) then Ok(Quiet(EndOfBlock(source, e + 2)))
    else if e == |source| || source[e] == '\n' then Ok(Quiet(e))
    else if depth > indents[|indents| - 1] then Ok(Makes(e, indents + [depth], [Indent]))
    else if depth in indents then
      var n := Deeper(indents, depth);
      DeeperIsCut(indents, depth, indents[..|indents| - n]);
      Ok(Makes(e, indents[..|indents| - n], Dedents(n)))
    else Err(BadDedent)
  }

  /** The tokens still to come when `first` comes before the ones in `rest`. */
  function Then(first: seq<Kind>, rest: Result<seq<Kind>>): Result<seq<Kind>>
  {
    match rest
    case Ok(toks) => Ok(first + toks)
    case Err(problem) => Err(problem)
  }

  function TokensAtEnd(indents: seq<nat>, delimiters: seq<Bracket>): Result<seq<Kind>>
    requires indents != []
  {
    if delimiters != [] then Err(Unclosed)
    else if |indents| > 1 then Ok([Newline] + (Dedents(|indents| - 1) + [Eof]))
    else Ok([Eof])
  }

  /** All tokens of the source from `p` on, inside the blocks and brackets given. */
  function TokensOf(source: string, scan: Scanner, p: nat, indents: seq<nat>, delimiters: seq<Bracket>): Result<seq<Kind>>
    requires Sane(scan, source) && p <= |source| && Rising(indents)
    decreases |source| - p
  {
    var q := AfterBlanks(source, p);
    if q == |source| then TokensAtEnd(indents, delimiters)
    else TokensAt(source, scan, q, indents, delimiters)
  }

  /** The tokens from a place on that is neither blank nor inside a comment. */
  function TokensAt(source: string, scan: Scanner, q: nat, indents: seq<nat>, delimiters: seq<Bracket>): Result<seq<Kind>>
    requires Sane(scan, source) && q < |source| && Rising(indents)
    decreases |source| - q, 0
  {
    var ch := source[q];
    if ch == '\n' then
      if delimiters != [] then TokensOf(source, scan, q + 1, indents, delimiters)
      else
        match LineStart(source, q + 1, indents)
        case Err(problem) => Err(problem)
        case Ok(Quiet(end)) => TokensOf(source, scan, end, indents, delimiters)
        case Ok(Makes(end, inner, queued)) => Then([Newline] + queued, TokensOf(source, scan, end, inner, delimiters))
    else if ch == '\\' then
      if IsAt(source, q + 1, '\n') then TokensOf(source, scan, q + 2, indents, delimiters) else Err(StrayBackslash)
    else if Opener(ch).Some? then
      var b := Opener(ch).value;
      Then([Open(b)], TokensOf(source, scan, q + 1, indents, delimiters + [b]))
    else if Closer(ch).Some? then
      var b := Closer(ch).value;
      if delimiters != [] && delimiters[|delimiters| - 1] == b
      then Then([Close(b)], TokensOf(source, scan, q + 1, indents, delimiters[..|delimiters| - 1]))
      else Err(Unmatched)
    else
      match scan(source, q)
      case Bad => Err(BadToken)
      case Word(end) => Then([Plain], TokensOf(source, scan, end, indents, delimiters))
  }

  predicate EofLast(toks: seq<Kind>)
  {
    forall k :: 0 <= k < |toks| - 1 ==> toks[k] != Eof
  }

  lemma NothingFirst(rest: Result<seq<Kind>>)
    ensures Then([], rest) == rest
  {
    match rest
    case Ok(toks) => assert [] + toks == toks;
    case Err(_) =>
  }

  lemma NothingAfter(first: seq<Kind>, rest: Result<seq<Kind>>)
    ensures Then(first, rest) == if rest.Ok? then Ok(first + rest.value) else rest
  {
  }

  lemma ThenThen(a: seq<Kind>, b: seq<Kind>, rest: Result<seq<Kind>>)
    ensures Then(a, Then(b, rest)) == Then(a + b, rest)
  {
    match rest
    case Ok(toks) => assert a + (b + toks) == (a + b) + toks;
    case Err(_) =>
  }

  lemma LineEndsAt(source: string, p: nat, e: nat)
    requires p <= e <= |source| && (e < |source| ==> source[e] == '\n')
    requires forall k :: p <= k < e ==> source[k] != '\n'
    ensures EndOfLine(source, p) == e
  {
    var rest := source[p..];
    if e < |source| {
      FindAt(rest, e - p, '\n');
    } else {
      assert '\n' !in rest;
    }
  }

  lemma SkipsBlanks(source: string, scan: Scanner, p: nat, q: nat, indents: seq<nat>, delimiters: seq<Bracket>)
    requires Sane(scan, source) && p <= |source| && Rising(indents) && q == AfterBlanks(source, p)
    ensures TokensOf(source, scan, p, indents, delimiters) == TokensOf(source, scan, q, indents, delimiters)
    ensures q < |source| ==> TokensOf(source, scan, q, indents, delimiters) == TokensAt(source, scan, q, indents, delimiters)
  {
    assert AfterBlanks(source, q) == q;
  }

  lemma AtNewline(source: string, scan: Scanner, q: nat, next: nat, indents: seq<nat>, delimiters: seq<Bracket>)
    requires Sane(scan, source) && q < |source| && Rising(indents) && source[q] == '\n' && next == q + 1
    ensures var all := TokensAt(source, scan, q, indents, delimiters);
      if delimiters != [] then all == TokensOf(source, scan, next, indents, delimiters)
      else
        match LineStart(source, next, indents)
        case Err(problem) => all == Err(problem)
        case Ok(Quiet(end)) => all == TokensOf(source, scan, end, indents, delimiters)
        case Ok(Makes(end, inner, queued)) => all == Then([Newline], Then(queued, TokensOf(source, scan, end, inner, delimiters)))
  {
    match LineStart(source, next, indents)
    case Ok(Makes(end, inner, queued)) => ThenThen([Newline], queued, TokensOf(source, scan, end, inner, delimiters));
    case Ok(Quiet(_)) =>
    case Err(_) =>
  }

  lemma AtBackslash(source: string, scan: Scanner, q: nat, next: nat, indents: seq<nat>, delimiters: seq<Bracket>)
    requires Sane(scan, source) && q < |source| && Rising(indents) && source[q] == '\\' && next == q + 1
    ensures TokensAt(source, scan, q, indents, delimiters)
            == if IsAt(source, next, '\n') then TokensOf(source, scan, next + 1, indents, delimiters) else Err(StrayBackslash)
  {
  }

  class Lexer {
    const source: string
    const scan: Scanner
    var pos: nat
    var indents: seq<nat>
    var pending: seq<Kind>
    var delimiters: seq<Bracket>
    /** The levels open after the tokens handed out so far. */
    ghost var open: Levels

    constructor (source: string, scan: Scanner)
      requires Sane(scan, source)
      ensures Valid() && this.source == source && this.scan == scan
      ensures pos == 0 && indents == [0] && pending == [] && delimiters == [] && open == []
      ensures Remaining() == TokensOf(source, scan, 0, [0], [])
    {
      this.source, this.scan := source, scan;
      pos, indents, pending, delimiters, open := 0, [0], [], [], [];
      new;
      assert Tracked() == [] && Run(open, pending) == Some([]);
      NothingFirst(TokensOf(source, scan, 0, [0], []));
    }

    /** The levels the lexer itself keeps track of. */
    ghost function Tracked(): Levels
      requires indents != []
      reads this`indents, this`delimiters
    {
      Blocks(|indents| - 1) + Brackets(delimiters)
    }

    /** The indent stack rises strictly from 0, and the tokens still queued lead from what has been handed out to
        what the lexer tracks. */
    ghost predicate Valid()
      reads this
    {
      && Sane(scan, source) && pos <= |source|
      && Rising(indents) && Run(open, pending) == Some(Tracked())
      && (Eof in pending ==> pos == |source|) && EofLast(pending)
    }

    /** All tokens still to come. */
    ghost function Remaining(): Result<seq<Kind>>
      requires Valid()
      reads this
    {
      if Eof in pending then Ok(pending) else Then(pending, TokensOf(source, scan, pos, indents, delimiters))
    }

    method SkipLine(p0: nat) returns (p: nat)
      requires p0 <= |source|
      ensures p0 <= p <= |source| && (p < |source| ==> source[p] == '\n')
      ensures forall k :: p0 <= k < p ==> source[k] != '\n'
      ensures p == EndOfLine(source, p0)
    {
      p := p0;
      while p < |source| && source[p] != '\n'
        invariant p0 <= p <= |source| && forall k :: p0 <= k < p ==> source[k] != '\n'
      {
        p := p + 1;
      }
      LineEndsAt(source, p0, p);
    }

    /** From the opening of a block comment to just after its end, or the end of the source. */
    method SkipBlock(p0: nat) returns (p: nat)
      requires p0 + 2 <= |source|
      ensures p0 + 2 <= p <= |source| && p == EndOfBlock(source, p0 + 2)
    {
      p := p0 + 2;
      while p < |source|
        invariant p0 + 2 <= p <= |source| && EndOfBlock(source, p) == EndOfBlock(source, p0 + 2)
      {
        if source[p] == '*' && IsAt(source, p + 1, '/') {
          p := p + 2;
          return;
        }
        p := p + 1;
      }
    }

    method SkipInlineWhitespace()
      requires pos <= |source|
      modifies this`pos
      ensures old(pos) <= pos <= |source|
      ensures pos < |source| ==> source[pos] !in {' ', '\t', '\r'}
      ensures IsAt(source, pos, '/') ==> !IsAt(source, pos + 1, '/') && !IsAt(source, pos + 1, '*')
      ensures pos == AfterBlanks(source, old(pos))
    {
      while true
        invariant old(pos) <= pos <= |source| && AfterBlanks(source, pos) == AfterBlanks(source, old(pos))
        decreases |source| - pos
      {
        var before := pos;
        while pos < |source| && source[pos] in {' ', '\t', '\r'}
          invariant before <= pos <= |source| && AfterBlanks(source, pos) == AfterBlanks(source, before)
          decreases |source| - pos
        {
          pos := pos + 1;
        }
        if IsAt(source, pos, '/') && IsAt(source, pos + 1, '/') {
          assert AfterBlanks(source, pos) == EndOfLine(source, pos);
          pos := SkipLine(pos);
        }
        if IsAt(source, pos, '/') && IsAt(source, pos + 1, '*') {
          pos := SkipBlock(pos);
        }
        if pos == before {
          return;
        }
      }
    }

    /** The width of the blanks at the start of a line, tabs counting four. */
    method MeasureIndent() returns (depth: nat, mixed: bool)
      requires pos <= |source|
      modifies this`pos
      ensures pos == BlankEnd(source, old(pos))
      ensures depth == Width(source[old(pos)..pos]) && mixed == Mixed(source[old(pos)..pos])
    {
      depth := 0;
      var hasTab, hasSpace := false, false;
      ghost var start := pos;
      assert source[start..pos] == "";
      while pos < |source| && (source[pos] == ' ' || source[pos] == '\t')
        invariant start <= pos <= |source| && BlankEnd(source, pos) == BlankEnd(source, start)
        invariant depth == Width(source[start..pos])
        invariant hasTab == ('\t' in source[start..pos]) && hasSpace == (' ' in source[start..pos])
      {
        assert source[start..pos + 1] == source[start..pos] + [source[pos]];
        if source[pos] == '\t' {
          hasTab, depth := true, depth + 4;
        } else {
          hasSpace, depth := true, depth + 1;
        }
        pos := pos + 1;
      }
      mixed := hasTab && hasSpace;
    }

    /** Leaves the blocks deeper than `depth`, one dedent for each. */
    method PopBlocks(depth: nat)
      requires Rising(indents) && pending == []
      modifies this`indents, this`pending
      ensures var n := Deeper(old(indents), depth);
        indents == old(indents)[..|old(indents)| - n] && pending == Dedents(n) && Rising(indents)
      ensures depth in old(indents) <==> indents[|indents| - 1] == depth
    {
      ghost var start := indents;
      DeeperAre(start, depth);
      DeeperIsCut(start, depth, start[..|start| - Deeper(start, depth)]);
      while indents[|indents| - 1] > depth
        invariant Rising(indents) && |indents| <= |start| && indents == start[..|indents|]
        invariant pending == Dedents(|start| - |indents|)
        invariant |indents| - Deeper(indents, depth) == |start| - Deeper(start, depth)
        decreases |indents|
      {
        assert |indents| > 1;
        ghost var k := |indents|;
        assert indents[..k - 1] == start[..k - 1];
        indents := indents[..|indents| - 1];
        assert Dedents(|start| - k) + [Dedent] == Dedents(|start| - k + 1);
        pending := pending + [Dedent];
      }
    }

    /** Opens a block for a deeper line, and for a shallower one leaves the blocks that end here, unless no block
        has its width. */
    method SetBlocks(depth: nat) returns (ok: bool)
      requires Valid() && pending == [] && delimiters == []
      modifies this`indents, this`pending
      ensures ok ==> Valid() && Eof !in pending && NewBlocks(old(indents), depth, indents, pending)
      ensures ok <==> depth > old(indents)[|old(indents)| - 1] || depth in old(indents)
    {
      var current := indents[|indents| - 1];
      ghost var before := indents;
      NoBrackets();
      if depth > current {
        indents := indents + [depth];
        pending := [Indent];
        assert Blocks(|before| - 1) + [Block] == Blocks(|before|);
        NoBrackets();
      } else if depth < current {
        PopBlocks(depth);
        if indents[|indents| - 1] != depth {
          return false;
        }
        RunDedents(|before| - 1, |before| - |indents|);
        NoBrackets();
      } else {
        assert before[..|before|] == before && Dedents(0) == [];
      }
      ok := true;
    }

    /** After a newline outside brackets: measures the next line and opens or closes blocks. A line that is blank or
        starts with a comment makes no token. */
    method HandleIndent() returns (r: Result<bool>)
      requires Valid() && pending == [] && delimiters == []
      modifies this`pos, this`indents, this`pending
      ensures old(pos) <= pos <= |source| && (r.Ok? ==> Valid() && Eof !in pending)
      ensures r == Ok(false) ==> indents == old(indents) && pending == []
      ensures var e := BlankEnd(source, old(pos));
        var blanks := source[old(pos)..e];
        var depth := Width(blanks);
        if Mixed(blanks) then r == Err(MixedIndent)
        else if NoToken(source, e) then r == Ok(false)
        else if depth > old(indents)[|old(indents)| - 1] || depth in old(indents) then
          r == Ok(true) && NewBlocks(old(indents), depth, indents, pending)
        else r == Err(BadDedent)
      ensures match LineStart(source, old(pos), old(indents))
        case Err(problem) => r == Err(problem)
        case Ok(Quiet(end)) => r == Ok(false) && pos == end
        case Ok(Makes(end, inner, queued)) => r == Ok(true) && pos == end && indents == inner && pending == queued
    {
      var depth, mixed := MeasureIndent();
      if mixed {
        return Err(MixedIndent);
      }
      if IsAt(source, pos, '/') && IsAt(source, pos + 1, '/') {
        pos := SkipLine(pos);
        return Ok(false);
      }
      if IsAt(source, pos, '/') && IsAt(source, pos + 1, '*') {
        pos := SkipBlock(pos);
        return Ok(false);
      }
      if pos == |source| || source[pos] == '\n' {
        return Ok(false);
      }
      var ok := SetBlocks(depth);
      r := if ok then Ok(true) else Err(BadDedent);
    }

    /** Outside brackets what is tracked is blocks only. */
    lemma NoBrackets()
      requires indents != [] && delimiters == []
      ensures Tracked() == Blocks(|indents| - 1) && NoBracket(Tracked())
    {
    }

    /** `r` is the first of the tokens that were to come, and the others still are. */
    ghost predicate Handed(before: Result<seq<Kind>>, r: Result<Kind>)
      reads this
    {
      match r
      case Err(problem) => before == Err(problem)
      case Ok(tok) => if tok == Eof then before == Ok([Eof]) else Valid() && before == Then([tok], Remaining())
    }

    /** With nothing queued, what comes is what the text from here on holds. */
    lemma NothingQueued()
      requires Valid() && pending == []
      ensures Remaining() == TokensOf(source, scan, pos, indents, delimiters) && open == Tracked()
    {
      NothingFirst(TokensOf(source, scan, pos, indents, delimiters));
    }

    method AtEnd() returns (r: Result<Kind>)
      requires Valid() && pending == [] && pos == |source|
      modifies this`indents, this`pending, this`open
      ensures r.Ok? ==> Valid() && Step(old(open), r.value) == Some(open)
      ensures r.Ok? && r.value != Eof ==> |indents| < |old(indents)|
      ensures r.Ok? <==> delimiters == []
      ensures r.Ok? ==>
                if |old(indents)| > 1 then r.value == Newline && pending == Dedents(|old(indents)| - 1) + [Eof] && indents == [0]
                else r.value == Eof && pending == [] && indents == old(indents)
      ensures Handed(old(Remaining()), r)
    {
      NothingQueued();
      if delimiters != [] {
        return Err(Unclosed);
      }
      NoBrackets();
      if |indents| > 1 {
        var n := |indents| - 1;
        indents := [0];
        pending := Dedents(n) + [Eof];
        RunDedents(n, n);
        RunConcat(Blocks(n), Dedents(n), [Eof], Blocks(0));
        assert Blocks(0) == [];
        NoBrackets();
        assert pending[n] == Eof && Remaining() == Ok(pending);
        return Ok(Newline);
      }
      r := Ok(Eof);
    }

    method Push(b: Bracket)
      requires Valid() && pending == []
      modifies this`delimiters, this`open
      ensures Valid() && Step(old(open), Open(b)) == Some(open) && delimiters == old(delimiters) + [b]
    {
      ghost var before := Tracked();
      assert Brackets(delimiters + [b]) == Brackets(delimiters) + [In(b)];
      delimiters := delimiters + [b];
      open := open + [In(b)];
      assert Tracked() == before + [In(b)];
    }

    method Pop(b: Bracket) returns (ok: bool)
      requires Valid() && pending == []
      modifies this`delimiters, this`open
      ensures ok ==> Valid() && Step(old(open), Close(b)) == Some(open)
      ensures ok <==> old(delimiters) != [] && old(delimiters)[|old(delimiters)| - 1] == b
      ensures ok ==> delimiters == old(delimiters)[..|old(delimiters)| - 1]
    {
      if delimiters == [] || delimiters[|delimiters| - 1] != b {
        return false;
      }
      ghost var n := |delimiters| - 1;
      assert Brackets(delimiters) == Brackets(delimiters[..n]) + [In(b)];
      assert Tracked() == (Blocks(|indents| - 1) + Brackets(delimiters[..n])) + [In(b)];
      delimiters := delimiters[..|delimiters| - 1];
      open := open[..|open| - 1];
      assert open == Tracked();
      ok := true;
    }

    method TakePending() returns (tok: Kind)
      requires Valid() && pending != []
      modifies this`pending, this`open
      ensures Valid() && Step(old(open), tok) == Some(open)
      ensures tok == old(pending)[0] && pending == old(pending)[1..]
      ensures Handed(old(Remaining()), Ok(tok))
    {
      tok := pending[0];
      ghost var rest := TokensOf(source, scan, pos, indents, delimiters);
      assert pending == [tok] + pending[1..];
      ThenThen([tok], pending[1..], rest);
      assert forall k :: 0 <= k < |pending| - 1 ==> pending[1..][k] == pending[k + 1];
      assert tok == Eof ==> pending == [Eof];
      assert tok != Eof ==> (Eof in pending <==> Eof in pending[1..]);
      open := Step(open, tok).value;
      pending := pending[1..];
    }

    method NextToken() returns (r: Result<Kind>)
      requires Valid()
      modifies this
      ensures old(pending) != [] ==> r == Ok(old(pending)[0]) && pos == old(pos)
      ensures r == Ok(Eof) ==> pos == |source|
      ensures r.Ok? ==> Valid() && Step(old(open), r.value) == Some(open)
      ensures Handed(old(Remaining()), r)
      ensures r.Ok? && r.value != Eof ==>
                old(pos) < pos || (old(pos) == pos && |indents| < |old(indents)|)
                || (old(pos) == pos && |indents| == |old(indents)| && |pending| < |old(pending)|)
    {
      hide TokensOf, TokensAt, AfterBlanks, Run, Step, Then;
      ghost var rest := Remaining();
      while true
        invariant Valid() && open == old(open) && old(pos) <= pos && Remaining() == rest
        invariant old(pos) < pos || (indents == old(indents) && pending == old(pending))
        invariant old(pending) != [] ==> pos == old(pos)
        decreases |source| - pos
      {
        if pending != [] {
          var tok := TakePending();
          return Ok(tok);
        }
        NothingQueued();
        SkipsBlanks(source, scan, pos, AfterBlanks(source, pos), indents, delimiters);
        SkipInlineWhitespace();
        NothingQueued();
        if pos == |source| {
          r := AtEnd();
          return;
        }
        var tok := ReadAt();
        if tok.Some? {
          return tok.value;
        }
      }
      assert false;
    }

    /** Reads what starts at the current character; nothing when that makes no token. */
    method ReadAt() returns (r: Option<Result<Kind>>)
      requires Valid() && pending == [] && pos < |source|
      modifies this
      ensures r.None? || r.value.Ok? ==> old(pos) < pos <= |source|
      ensures match r
        case None => Valid() && open == old(open) && Remaining() == old(TokensAt(source, scan, pos, indents, delimiters))
        case Some(tok) =>
          && Handed(old(TokensAt(source, scan, pos, indents, delimiters)), tok)
          && (tok.Ok? ==> Valid() && Step(old(open), tok.value) == Some(open) && tok.value != Eof)
    {
      assert NoBracket(open) ==> Step(open, Newline) == Some(open);
      hide TokensOf, TokensAt, LineStart, Run, Step, NewBlocks, Then, BlankEnd, NoToken, Mixed, Width, Deeper;
      NothingQueued();
      var start := pos;
      var ch := source[pos];
      pos := pos + 1;
      if ch == '\n' {
        AtNewline(source, scan, start, pos, indents, delimiters);
        if delimiters == [] {
          NoBrackets();
          var made := HandleIndent();
          if made.Err? {
            return Some(Err(made.problem));
          }
          if made.value {
            assert Remaining() == Then(pending, TokensOf(source, scan, pos, indents, delimiters));
            return Some(Ok(Newline));
          }
        }
      } else if ch == '\\' {
        AtBackslash(source, scan, start, pos, indents, delimiters);
        if !IsAt(source, pos, '\n') {
          return Some(Err(StrayBackslash));
        }
        pos := pos + 1;
      } else {
        var tok := Bracketed(ch, start);
        return Some(tok);
      }
      NothingQueued();
      r := None;
    }

    /** Everything that is not layout: brackets here, other tokens through the scanner. */
    method Bracketed(ch: char, start: nat) returns (r: Result<Kind>)
      requires Valid() && pending == [] && start < |source| && pos == start + 1
      requires ch == source[start] && ch != '\n' && ch != '\\'
      modifies this`pos, this`delimiters, this`open
      ensures r.Ok? ==> Valid() && Step(old(open), r.value) == Some(open) && pos > start && r.value != Eof
      ensures Handed(old(TokensAt(source, scan, start, indents, delimiters)), r)
      ensures match Opener(ch)
        case Some(b) => r == Ok(Open(b))
        case None =>
          match Closer(ch)
          case Some(b) =>
            r == if old(delimiters) != [] && old(delimiters)[|old(delimiters)| - 1] == b then Ok(Close(b))
                 else Err(Unmatched)
          case None =>
            match scan(source, start)
            case Bad => r == Err(BadToken)
            case Word(end) => r == Ok(Plain) && pos == end
    {
      match ch {
        case '(' =>
          Push(Paren);
          NothingQueued();
          return Ok(Open(Paren));
        case '[' =>
          Push(Square);
          NothingQueued();
          return Ok(Open(Square));
        case '{' =>
          Push(Brace);
          NothingQueued();
          return Ok(Open(Brace));
        case ')' =>
          var ok := Pop(Paren);
          if !ok {
            return Err(Unmatched);
          }
          NothingQueued();
          return Ok(Close(Paren));
        case ']' =>
          var ok := Pop(Square);
          if !ok {
            return Err(Unmatched);
          }
          NothingQueued();
          return Ok(Close(Square));
        case '}' =>
          var ok := Pop(Brace);
          if !ok {
            return Err(Unmatched);
          }
          NothingQueued();
          return Ok(Close(Brace));
        case _ =>
          match scan(source, start) {
            case Bad => return Err(BadToken);
            case Word(end) =>
              pos := end;
              NothingQueued();
              return Ok(Plain);
          }
      }
    }

    /** All tokens of the source: on success they run from nothing open to nothing open and end in the only
        end-of-file token. */
    method Tokenise() returns (r: Result<seq<Kind>>)
      requires Valid() && open == []
      modifies this
      ensures r.Ok? ==> Run([], r.value) == Some([])
      ensures r.Ok? ==> r.value != [] && r.value[|r.value| - 1] == Eof && pos == |source|
      ensures r.Ok? ==> forall k :: 0 <= k < |r.value| - 1 ==> r.value[k] != Eof
      ensures r == old(Remaining())
    {
      hide Then;
      NothingFirst(Remaining());
      var tokens: seq<Kind> := [];
      while true
        invariant Valid() && Run([], tokens) == Some(open) && old(Remaining()) == Then(tokens, Remaining())
        invariant forall k :: 0 <= k < |tokens| ==> tokens[k] != Eof
        decreases |source| - pos, |indents|, |pending|
      {
        ghost var before := open;
        var tok := NextToken();
        if tok.Err? {
          NothingAfter(tokens, Err(tok.problem));
          return Err(tok.problem);
        }
        if tok.value == Eof {
          NothingAfter(tokens, Ok([Eof]));
        } else {
          ThenThen(tokens, [tok.value], Remaining());
        }
        RunConcat([], tokens, [tok.value], before);
        assert Run(before, [tok.value]) == Some(open);
        tokens := tokens + [tok.value];
        if tok.value == Eof {
          return Ok(tokens);
        }
      }
      assert false;
    }
  }

  /** The blocks after a line of width `depth`: one more when it is deeper, and otherwise exactly the enclosing
      blocks down to the one of that width. */
  predicate NewBlocks(before: seq<nat>, depth: nat, after: seq<nat>, queued: seq<Kind>)
  {
    before != [] &&
    if depth > before[|before| - 1] then after == before + [depth] && queued == [Indent]
    else
      var n := Deeper(before, depth);
      && depth in before && after == before[..|before| - n] && queued == Dedents(n)
      && after != [] && after[|after| - 1] == depth
  }
}

/** What it means for brackets and blocks to be well nested in a token stream. */
module TokenNesting {
  import opened Options

  datatype Bracket = Paren | Square | Brace

  /** Tokens by what they do to the nesting; everything else is `Plain`. */
  datatype Kind = Newline | Indent | Dedent | Open(b: Bracket) | Close(b: Bracket) | Plain | Eof

  /** What is open: an indented block or a bracket. */
  datatype Level = Block | In(b: Bracket)

  type Levels = seq<Level>

  predicate NoBracket(open: Levels)
  {
    forall k :: 0 <= k < |open| ==> open[k].Block?
  }

  /** The levels open after one more token, if the token may stand here: line structure only outside brackets, a
      closer only for the level opened last, and the end only when nothing is open. */
  function Step(open: Levels, tok: Kind): Option<Levels>
  {
    match tok
    case Plain => Some(open)
    case Newline => if NoBracket(open) then Some(open) else None
    case Indent => if NoBracket(open) then Some(open + [Block]) else None
    case Dedent => if open != [] && NoBracket(open) then Some(open[..|open| - 1]) else None
    case Open(b) => Some(open + [In(b)])
    case Close(b) => if open != [] && open[|open| - 1] == In(b) then Some(open[..|open| - 1]) else None
    case Eof => if open == [] then Some([]) else None
  }

  function Run(open: Levels, toks: seq<Kind>): Option<Levels>
    decreases |toks|
  {
    if toks == [] then Some(open)
    else
      match Step(open, toks[0])
      case None => None
      case Some(next) => Run(next, toks[1..])
  }

  lemma {:induction false} RunConcat(open: Levels, a: seq<Kind>, b: seq<Kind>, middle: Levels)
    requires Run(open, a) == Some(middle)
    ensures Run(open, a + b) == Run(middle, b)
    decreases |a|
  {
    if a == [] {
      assert a + b == b;
    } else {
      assert (a + b)[0] == a[0] && (a + b)[1..] == a[1..] + b;
      RunConcat(Step(open, a[0]).value, a[1..], b, middle);
    }
  }

  function Blocks(n: nat): (r: Levels)
    ensures |r| == n && NoBracket(r)
  {
    seq(n, _ => Block)
  }

  function Dedents(n: nat): (r: seq<Kind>)
    ensures |r| == n && forall k :: 0 <= k < n ==> r[k] == Dedent
  {
    seq(n, _ => Dedent)
  }

  lemma {:induction false} RunDedents(n: nat, k: nat)
    requires k <= n
    ensures Run(Blocks(n), Dedents(k)) == Some(Blocks(n - k))
  {
    if k > 0 {
      assert Dedents(k)[1..] == Dedents(k - 1);
      assert Blocks(n)[..n - 1] == Blocks(n - 1);
      RunDedents(n - 1, k - 1);
    }
  }

  predicate Closes(tok: Kind, level: Level)
  {
    match level
    case Block => tok == Dedent
    case In(b) => tok == Close(b)
  }

  /** Whatever is opened is closed by its own closer, with a well-nested stretch in between. */
  ghost predicate ClosedAt(base: Levels, level: Level, open: Levels, toks: seq<Kind>, j: nat)
  {
    j < |toks| && Closes(toks[j], level) && Run(open, toks[..j]) == Some(base + [level])
  }

  lemma {:induction false} ClosesSomewhere(base: Levels, level: Level, above: Levels, toks: seq<Kind>) returns (j: nat)
    requires var end := Run(base + [level] + above, toks); end.Some? && |end.value| <= |base|
    ensures ClosedAt(base, level, base + [level] + above, toks, j)
    decreases |toks|
  {
    var open := base + [level] + above;
    if above == [] && Closes(toks[0], level) {
      assert open == base + [level] && toks[..0] == [];
      j := 0;
    } else {
      var next := Step(open, toks[0]).value;
      StepKeepsBase(base, level, above, toks[0], next);
      var above' := next[|base| + 1..];
      assert next == base + [level] + above';
      var i := ClosesSomewhere(base, level, above', toks[1..]);
      j := i + 1;
      assert toks[..j] == [toks[0]] + toks[1..][..i];
    }
  }

  lemma StepKeepsBase(base: Levels, level: Level, above: Levels, tok: Kind, next: Levels)
    requires Step(base + [level] + above, tok) == Some(next)
    requires above == [] ==> !Closes(tok, level)
    ensures |next| > |base| && next[..|base| + 1] == base + [level]
  {
    var open := base + [level] + above;
    if above == [] {
      assert open[|open| - 1] == level;
    }
  }

  /** In a stream that runs from nothing open to nothing open, every opening token has its closing token, and what
      stands between them leaves exactly that level open. */
  lemma OpenersAreClosed(toks: seq<Kind>, i: nat, before: Levels, level: Level) returns (j: nat)
    requires Run([], toks) == Some([]) && i < |toks|
    requires Run([], toks[..i]) == Some(before) && Step(before, toks[i]) == Some(before + [level])
    ensures i < j < |toks| && Closes(toks[j], level) && Run([], toks[..j]) == Some(before + [level])
  {
    var rest := toks[i + 1..];
    var open := before + [level];
    assert toks == toks[..i] + toks[i..] && toks[i..][1..] == rest;
    RunConcat([], toks[..i], toks[i..], before);
    assert open == before + [level] + [];
    var k := ClosesSomewhere(before, level, [], rest);
    j := i + 1 + k;
    RunConcat([], toks[..i], toks[i..j], before);
    assert toks[..j] == toks[..i] + toks[i..j];
    assert toks[i..j][1..] == rest[..k];
  }
}

/** The tokens of strings: contents end where their own string's terminator is, and strings close
    with the quotes they opened with. */
module LexerStrings {
  import opened Wrappers
  import opened Tokens
  import opened Scanning
  import opened LexerMachine
  import opened LexerStops

  // ---- The open strings ----

  /** Whether each open string is triple-quoted, the innermost last. */
  type Quotes = seq<bool>

  function NextQuotes(quotes: Quotes, t: Lexeme): Quotes {
    match t.kind
    case StringStart => quotes + [t.from + 3 == t.to]
    case StringEnd => if quotes == [] then [] else quotes[..|quotes| - 1]
    case _ => quotes
  }

  predicate HasAt(s: string, k: nat, text: string) {
    k + |text| <= |s| && s[k..k + |text|] == text
  }

  /** An interpolation opens here, or the string closes with the quotes it opened with. */
  predicate Terminates(s: string, k: nat, triple: bool) {
    HasAt(s, k, "${") || HasAt(s, k, "#{") || HasAt(s, k, if triple then "\"\"\"" else "\"")
  }

  lemma TerminatesHere(s: string, k: nat, triple: bool)
    requires k < |s|
    ensures Terminates(s, k, triple) <==> AtTerminator(s, k, triple)
  {
    TwoAt(s, k, '$', '{');
    TwoAt(s, k, '#', '{');
    ThreeQuotes(s, k);
    assert s[k..k + 1] == [s[k]];
  }

  lemma TwoAt(s: string, k: nat, c: char, d: char)
    requires k < |s|
    ensures HasAt(s, k, [c, d]) <==> s[k] == c && Peek(s, k + 1) == Some(d)
  {
    if k + 2 <= |s| {
      assert s[k..k + 2] == [s[k], s[k + 1]];
    }
  }

  lemma ThreeQuotes(s: string, k: nat)
    requires k < |s|
    ensures HasAt(s, k, "\"\"\"") <==> s[k] == '"' && Peek(s, k + 1) == Some('"') && Peek(s, k + 2) == Some('"')
  {
    if k + 3 <= |s| {
      assert s[k..k + 3] == [s[k], s[k + 1], s[k + 2]];
    }
  }

  /** String content from `i` ends at the first terminator of its string that no backslash escapes,
      or with the text if there is none. */
  ghost predicate ContentEnds(s: string, i: nat, end: nat, triple: bool) {
    && i < end <= |s|
    && (end < |s| ==> Terminates(s, end, triple) && !Escaped(s, i, end))
    && (forall k | i <= k < end && Terminates(s, k, triple) :: Escaped(s, i, k))
  }

  /** A string opens with three quotes exactly where three quotes stand; its other parts belong to the
      innermost open string. */
  ghost predicate PartFits(s: string, quotes: Quotes, t: Lexeme) {
    match t.kind
    case StringStart => t.to == t.from + if HasAt(s, t.from, "\"\"\"") then 3 else 1
    case StringContent => quotes != [] && ContentEnds(s, t.from, t.to, quotes[|quotes| - 1])
    case StringEnd => quotes != [] && t.to == t.from + if quotes[|quotes| - 1] then 3 else 1
    case _ => true
  }

  ghost predicate InStrings(s: string, quotes: Quotes, ts: seq<Lexeme>)
    decreases |ts|
  {
    ts == [] || (PartFits(s, quotes, ts[0]) && InStrings(s, NextQuotes(quotes, ts[0]), ts[1..]))
  }

  function AllQuotes(quotes: Quotes, ts: seq<Lexeme>): Quotes
    decreases |ts|
  {
    if ts == [] then quotes else AllQuotes(NextQuotes(quotes, ts[0]), ts[1..])
  }

  lemma {:induction false} InStringsConcat(s: string, quotes: Quotes, a: seq<Lexeme>, b: seq<Lexeme>)
    requires InStrings(s, quotes, a) && InStrings(s, AllQuotes(quotes, a), b)
    ensures InStrings(s, quotes, a + b)
    decreases |a|
  {
    if a == [] {
      assert a + b == b;
    } else {
      assert (a + b)[1..] == a[1..] + b;
      InStringsConcat(s, NextQuotes(quotes, a[0]), a[1..], b);
    }
  }

  // ---- The open strings of a stack ----

  function StackQuotes(stack: StateStack): Quotes {
    if stack == [] then [] else
      var below := StackQuotes(stack[..|stack| - 1]);
      match stack[|stack| - 1]
      case InString(triple) => below + [triple]
      case _ => below
  }

  lemma PushQuotes(stack: StateStack, state: LexerState)
    ensures StackQuotes(stack + [state]) == StackQuotes(stack) + if state.InString? then [state.triple] else []
  {
    assert (stack + [state])[..|stack|] == stack;
  }

  lemma TopQuotes(stack: StateStack)
    requires |stack| > 0
    ensures StackQuotes(stack) == StackQuotes(Pop(stack)) + if Top(stack).InString? then [Top(stack).triple] else []
  {
  }

  // ---- A step and a stream ----

  /** What a step emits fits the open strings, and keeps them those of the stack until the text
      ends. */
  ghost predicate StepInStrings(s: string, stack: StateStack, step: Step) {
    && InStrings(s, StackQuotes(stack), step.tokens)
    && (step.pos < |s| ==> AllQuotes(StackQuotes(stack), step.tokens) == StackQuotes(step.stack))
  }

  lemma OneTokenInStrings(s: string, quotes: Quotes, t: Lexeme)
    ensures InStrings(s, quotes, [t]) <==> PartFits(s, quotes, t)
    ensures AllQuotes(quotes, [t]) == NextQuotes(quotes, t)
  {
    assert [t][1..] == [];
  }

  /** A token outside strings that opens none keeps the open strings. */
  lemma PlainInStrings(s: string, stack: StateStack, t: Lexeme, pos: nat, after: StateStack)
    requires !t.kind.StringStart? && !t.kind.StringEnd? && !t.kind.StringContent?
    requires StackQuotes(after) == StackQuotes(stack)
    ensures StepInStrings(s, stack, Step([t], pos, after))
  {
    hide StackQuotes;
    OneTokenInStrings(s, StackQuotes(stack), t);
  }

  lemma OpeningInStrings(s: string, i: nat, stack: StateStack)
    requires i < |s| && s[i] == '"'
    ensures StepInStrings(s, stack, OpenString(s, i, stack))
  {
    hide StackQuotes, HasAt;
    ThreeQuotes(s, i);
    var triple := Peek(s, i + 1) == Some('"') && Peek(s, i + 2) == Some('"');
    PushQuotes(stack, InString(triple));
    OneTokenInStrings(s, StackQuotes(stack), Lexeme(StringStart, i, if triple then i + 3 else i + 1));
  }

  lemma CodeInStrings(u: Alphabet, s: string, i: nat, stack: StateStack)
    requires i <= |s| && WellStacked(stack) && !Top(stack).InString?
    ensures StepInStrings(s, stack, Produce(u, s, i, stack))
  {
    hide ScanToken, EatWhile, ScanTilde, StackQuotes, StepInStrings, OpenString;
    var step := Produce(u, s, i, stack);
    var j := SkipBlanks(s, i);
    TopQuotes(stack);
    if j < |s| && s[j] == '"' {
      OpeningInStrings(s, j, stack);
    } else {
      if j < |s| {
        ScanTokenIsPlain(u, s, j);
        TildeIsPlain(s, j);
      }
      if Top(stack).InInterpolation? {
        BracesKeepQuotes(stack, Top(stack).braceDepth);
      }
      PlainInStrings(s, stack, step.tokens[0], step.pos, step.stack);
    }
  }

  lemma BracesKeepQuotes(stack: StateStack, depth: nat)
    requires |stack| > 0 && Top(stack) == InInterpolation(depth)
    ensures StackQuotes(Pop(stack)) == StackQuotes(stack)
    ensures forall d: nat :: StackQuotes(Pop(stack) + [InInterpolation(d)]) == StackQuotes(stack)
  {
    hide StackQuotes;
    TopQuotes(stack);
    forall d: nat ensures StackQuotes(Pop(stack) + [InInterpolation(d)]) == StackQuotes(stack) {
      PushQuotes(Pop(stack), InInterpolation(d));
    }
  }

  lemma TildeIsPlain(s: string, j: nat)
    requires j < |s|
    ensures s[j] == '~' ==> !Structural(ScanTilde(s, j).kind)
  {
  }

  lemma TwoTokensInStrings(s: string, quotes: Quotes, a: Lexeme, b: Lexeme)
    requires a.kind.StringContent? && PartFits(s, quotes, a) && PartFits(s, quotes, b)
    ensures InStrings(s, quotes, [a, b]) && AllQuotes(quotes, [a, b]) == NextQuotes(quotes, b)
  {
    assert [a, b][1..] == [b];
    OneTokenInStrings(s, quotes, b);
  }

  lemma ContentEndsHere(s: string, i: nat, triple: bool)
    requires i <= |s|
    ensures var e := ContentStop(s, i, triple);
      && (i < e ==> ContentEnds(s, i, e, triple))
      && (e < |s| ==> AtTerminator(s, e, triple))
  {
    hide ContentStop, Terminates, AtTerminator, Escaped;
    ContentStopIsFirst(s, i, triple);
    forall k | i <= k < |s| ensures Terminates(s, k, triple) <==> AtTerminator(s, k, triple) {
      TerminatesHere(s, k, triple);
    }
  }

  lemma StringInStrings(s: string, i: nat, stack: StateStack, triple: bool)
    requires i <= |s| && WellStacked(stack) && Top(stack) == InString(triple)
    ensures StepInStrings(s, stack, LexStringContent(s, i, stack, triple))
  {
    hide ContentStop, StackQuotes, InStrings, AllQuotes, AtTerminator, Escaped;
    var step := LexStringContent(s, i, stack, triple);
    var e := ContentStop(s, i, triple);
    var quotes := StackQuotes(stack);
    ContentEndsHere(s, i, triple);
    TopQuotes(stack);
    PushQuotes(stack, InInterpolation(0));
    var last := step.tokens[|step.tokens| - 1];
    if e > i {
      assert step.tokens == [Lexeme(StringContent, i, e), last];
      TwoTokensInStrings(s, quotes, Lexeme(StringContent, i, e), last);
    } else {
      assert step.tokens == [last];
      OneTokenInStrings(s, quotes, last);
    }
  }

  lemma {:induction false} StreamInStrings(u: Alphabet, s: string, i: nat, stack: StateStack, quotes: Quotes)
    requires i <= |s| && WellStacked(stack) && (i < |s| ==> quotes == StackQuotes(stack))
    ensures InStrings(s, quotes, Stream(u, s, i, stack))
    decreases Work(s, i, stack)
  {
    hide Produce, InStrings, StackQuotes, AllQuotes;
    StepProgress(u, s, i, stack);
    var step := Produce(u, s, i, stack);
    if i == |s| {
      EndInStrings(u, s, stack, quotes);
    } else if Top(stack).InString? {
      StringInStrings(s, i, stack, Top(stack).triple);
      ProduceContent(u, s, i, stack);
    } else {
      CodeInStrings(u, s, i, stack);
    }
    if !IsFinal(step) {
      var after := AllQuotes(quotes, step.tokens);
      StreamInStrings(u, s, step.pos, step.stack, after);
      InStringsConcat(s, quotes, step.tokens, Stream(u, s, step.pos, step.stack));
    }
  }

  lemma ProduceContent(u: Alphabet, s: string, i: nat, stack: StateStack)
    requires i <= |s| && |stack| > 0 && Top(stack).InString?
    ensures Produce(u, s, i, stack) == LexStringContent(s, i, stack, Top(stack).triple)
  {
  }

  /** At the end of the text only errors and the end of file are left. */
  lemma EndInStrings(u: Alphabet, s: string, stack: StateStack, quotes: Quotes)
    requires WellStacked(stack)
    ensures InStrings(s, quotes, Produce(u, s, |s|, stack).tokens)
  {
    var t := Produce(u, s, |s|, stack).tokens[0];
    assert Produce(u, s, |s|, stack).tokens == [t];
    OneTokenInStrings(s, quotes, t);
  }

  /** For every source: each string opens with three quotes exactly where three stand, each content ends
      at the first unescaped terminator of the string it belongs to, and each string closes with as
      many quotes as it opened with. */
  lemma StringsAreWhole(u: Alphabet, s: string)
    ensures InStrings(s, [], Lex(u, s))
  {
    assert StackQuotes([Normal]) == [];
    StreamInStrings(u, s, 0, [Normal], []);
  }

  // ---- The tilde ----

  /** At file level `~` starts a regex literal or an error; in the code of an interpolation it is an
      error of one character, whatever follows. */
  lemma TildeByPlace(u: Alphabet, s: string, i: nat, stack: StateStack)
    requires i <= |s| && WellStacked(stack) && SkipBlanks(s, i) < |s| && s[SkipBlanks(s, i)] == '~'
    ensures var j := SkipBlanks(s, i);
      && (Top(stack).Normal? ==> Produce(u, s, i, stack) == OneToken(j, ScanTilde(s, j), stack))
      && (Top(stack).InInterpolation? ==> Produce(u, s, i, stack) == OneToken(j, Scan(Error, j + 1), stack))
  {
    IsNoLetter(u, '~');
  }

  lemma IsNoLetter(u: Alphabet, c: char)
    requires c == '~'
    ensures !IsIdentStart(u, c)
  {
  }

  /** A literal that is a regex at file level is not one inside an interpolation. */
  lemma RegexNotInInterpolation(u: Alphabet, s: string, i: nat, stack: StateStack)
    requires i < |s| && s[i] == '~' && ScanTilde(s, i).kind.RegexLiteral?
    requires WellStacked(stack) && Top(stack).InInterpolation?
    ensures Produce(u, s, i, [Normal]).tokens[0].kind.RegexLiteral?
    ensures Produce(u, s, i, stack).tokens == [Lexeme(Error, i, i + 1)]
  {
    assert SkipBlanks(s, i) == i;
    TildeByPlace(u, s, i, [Normal]);
    TildeByPlace(u, s, i, stack);
  }
}

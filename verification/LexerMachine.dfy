/** The lexer as a transition function: one step per call of `produce_token`, with the queued
    token, if any, beside the returned one. */
module LexerMachine {
  import opened Wrappers
  import opened Tokens
  import opened Scanning

  datatype LexerState =
    | Normal
    | InString(triple: bool)
    | InInterpolation(braceDepth: nat)

  type StateStack = seq<LexerState>

  /** A string opens in code; an interpolation opens in a string. */
  predicate MayOpen(outer: LexerState, inner: LexerState) {
    if outer.InString? then inner.InInterpolation? else inner.InString?
  }

  /** `Normal` at the bottom, then strings and interpolations in turn. */
  ghost predicate WellStacked(stack: StateStack) {
    && |stack| > 0
    && stack[0] == Normal
    && (forall k | 0 < k < |stack| :: MayOpen(stack[k - 1], stack[k]))
  }

  /** The tokens of one step, in order, with the position and stack after it. */
  datatype Step = Step(tokens: seq<Lexeme>, pos: nat, stack: StateStack)

  function Top(stack: StateStack): LexerState
    requires |stack| > 0
  {
    stack[|stack| - 1]
  }

  function Pop(stack: StateStack): StateStack
    requires |stack| > 0
  {
    stack[..|stack| - 1]
  }

  function OneToken(i: nat, scan: Scan, stack: StateStack): Step {
    Step([Lexeme(scan.kind, i, scan.end)], scan.end, stack)
  }

  function SkipBlanks(s: string, i: nat): (j: nat)
    requires i <= |s|
    ensures i <= j <= |s|
  {
    EatWhile(s, i, IsBlank)
  }

  function OpenString(s: string, i: nat, stack: StateStack): Step
    requires i < |s| && s[i] == '"'
  {
    var triple := Peek(s, i + 1) == Some('"') && Peek(s, i + 2) == Some('"');
    OneToken(i, Scan(StringStart, if triple then i + 3 else i + 1), stack + [InString(triple)])
  }

  function LexNormal(u: Alphabet, s: string, i: nat, stack: StateStack): Step
    requires i <= |s|
  {
    var j := SkipBlanks(s, i);
    if j == |s| then OneToken(j, Scan(Eof, j), stack)
    else if s[j] == '{' then OneToken(j, Scan(LBrace, j + 1), stack)
    else if s[j] == '}' then OneToken(j, Scan(RBrace, j + 1), stack)
    else if s[j] == '~' then OneToken(j, ScanTilde(s, j), stack)
    else if s[j] == '"' then OpenString(s, j, stack)
    else OneToken(j, ScanToken(u, s, j), stack)
  }

  function LexInterpolation(u: Alphabet, s: string, i: nat, stack: StateStack): Step
    requires i <= |s| && |stack| > 0 && Top(stack).InInterpolation?
  {
    var j := SkipBlanks(s, i);
    var depth := Top(stack).braceDepth;
    if j == |s| then OneToken(j, Scan(Error, j), Pop(stack))
    else if s[j] == '{' then OneToken(j, Scan(LBrace, j + 1), Pop(stack) + [InInterpolation(depth + 1)])
    else if s[j] == '}' then
      if depth == 0 then OneToken(j, Scan(InterpolationEnd, j + 1), Pop(stack))
      else OneToken(j, Scan(RBrace, j + 1), Pop(stack) + [InInterpolation(depth - 1)])
    else if s[j] == '"' then OpenString(s, j, stack)
    else OneToken(j, ScanToken(u, s, j), stack)
  }

  function LexStringContent(s: string, i: nat, stack: StateStack, triple: bool): Step
    requires i <= |s| && |stack| > 0
  {
    var e := ContentStop(s, i, triple);
    var content := if e > i then [Lexeme(StringContent, i, e)] else [];
    if e == |s| then
      Step(content + [Lexeme(Error, e, e)], e, Pop(stack))
    else if AtInterpolation(s, e) then
      Step(content + [Lexeme(InterpolationStart, e, e + 2)], e + 2, stack + [InInterpolation(0)])
    else
      var close := if triple then e + 3 else e + 1;
      Step(content + [Lexeme(StringEnd, e, close)], close, Pop(stack))
  }

  function Produce(u: Alphabet, s: string, i: nat, stack: StateStack): Step
    requires i <= |s| && |stack| > 0
  {
    match Top(stack)
    case Normal => LexNormal(u, s, i, stack)
    case InString(triple) => LexStringContent(s, i, stack, triple)
    case InInterpolation(_) => LexInterpolation(u, s, i, stack)
  }

  predicate IsFinal(step: Step) {
    |step.tokens| == 1 && step.tokens[0].kind == Eof
  }

  /** Work left in a configuration: two tokens a character, one token a stack frame. */
  function Work(s: string, i: nat, stack: StateStack): nat
    requires i <= |s|
  {
    2 * (|s| - i) + |stack|
  }

  /** A step moves forward on a well-formed stack and pays for the tokens it emits; only a bare
      `Normal` stack at the end of the text reaches `Eof`. */
  ghost predicate Progress(s: string, i: nat, stack: StateStack, step: Step)
    requires i <= |s|
  {
    && i <= step.pos <= |s|
    && WellStacked(step.stack)
    && 1 <= |step.tokens| <= 2
    && if IsFinal(step) then stack == [Normal] && step == Step([Lexeme(Eof, |s|, |s|)], |s|, stack)
       else
         && |step.tokens| + Work(s, step.pos, step.stack) <= Work(s, i, stack)
         && (forall k | 0 <= k < |step.tokens| :: step.tokens[k].kind != Eof)
  }

  lemma NormalProgress(u: Alphabet, s: string, i: nat)
    requires i <= |s|
    ensures Progress(s, i, [Normal], LexNormal(u, s, i, [Normal]))
  {
    var j := SkipBlanks(s, i);
    if j < |s| && s[j] !in {'{', '}', '~', '"'} {
      ScanTokenIsPlain(u, s, j);
    }
  }

  lemma InterpolationProgress(u: Alphabet, s: string, i: nat, stack: StateStack)
    requires i <= |s| && WellStacked(stack) && Top(stack).InInterpolation?
    ensures Progress(s, i, stack, LexInterpolation(u, s, i, stack))
  {
    var j := SkipBlanks(s, i);
    if j < |s| && s[j] !in {'{', '}', '"'} {
      ScanTokenIsPlain(u, s, j);
    }
  }

  lemma StringProgress(s: string, i: nat, stack: StateStack, triple: bool)
    requires i <= |s| && WellStacked(stack) && Top(stack) == InString(triple)
    ensures Progress(s, i, stack, LexStringContent(s, i, stack, triple))
  {
  }

  lemma StepProgress(u: Alphabet, s: string, i: nat, stack: StateStack)
    requires i <= |s| && WellStacked(stack)
    ensures Progress(s, i, stack, Produce(u, s, i, stack))
  {
    match Top(stack)
    case Normal =>
      assert |stack| > 1 ==> MayOpen(stack[|stack| - 2], Top(stack));
      assert stack == [Normal];
      NormalProgress(u, s, i);
    case InString(triple) => StringProgress(s, i, stack, triple);
    case InInterpolation(_) => InterpolationProgress(u, s, i, stack);
  }

  /** Kinds that mark the structure of strings and interpolations, or the end. */
  predicate Structural(kind: TokenKind) {
    kind.StringStart? || kind.StringEnd? || kind.StringContent? || kind.InterpolationStart?
    || kind.InterpolationEnd? || kind.Eof?
  }

  /** The table shared by both code states never yields a structural kind or a brace. */
  lemma ScanTokenIsPlain(u: Alphabet, s: string, i: nat)
    requires i < |s|
    ensures var kind := ScanToken(u, s, i).kind;
      !Structural(kind) && kind != LBrace && kind != RBrace
  {
    hide EatWhile, ScanBlockComment, ScanDecimal;
    if s[i] == '#' {
      if Peek(s, i + 1) == Some('=') {
        BlockCommentKinds(s, i + 2, 1);
      }
    } else if IsDigit(s[i]) {
      DecimalKinds(s, i);
    }
  }

  lemma DecimalKinds(s: string, i: nat)
    requires i < |s|
    ensures ScanDecimal(s, i).kind in {IntLiteral, FloatLiteral}
  {
  }

  lemma {:induction false} BlockCommentKinds(s: string, i: nat, depth: nat)
    requires i <= |s| && depth > 0
    ensures ScanBlockComment(s, i, depth).kind in {Comment, Error}
    decreases |s| - i
  {
    if i == |s| {
    } else if s[i] == '#' && Peek(s, i + 1) == Some('=') {
      BlockCommentKinds(s, i + 2, depth + 1);
    } else if s[i] == '=' && Peek(s, i + 1) == Some('#') {
      if depth > 1 {
        BlockCommentKinds(s, i + 2, depth - 1);
      }
    } else {
      BlockCommentKinds(s, i + 1, depth);
    }
  }

  /** Everything the iterator yields from a configuration on, up to and including `Eof`. */
  function Stream(u: Alphabet, s: string, i: nat, stack: StateStack): seq<Lexeme>
    requires i <= |s| && WellStacked(stack)
    decreases Work(s, i, stack)
  {
    StepProgress(u, s, i, stack);
    var step := Produce(u, s, i, stack);
    if IsFinal(step) then step.tokens
    else step.tokens + Stream(u, s, step.pos, step.stack)
  }

  /** The token stream of a source text. */
  function Lex(u: Alphabet, s: string): seq<Lexeme> {
    Stream(u, s, 0, [Normal])
  }
}

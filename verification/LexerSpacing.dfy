/** Every scan depends on the text of its token and on a bounded look past its end that cannot
    tell one blank from another. Hence the amount of white space between tokens is irrelevant. */
module LexerSpacing {
  import opened Wrappers
  import opened Tokens
  import opened Scanning
  import opened LexerMachine
  import opened LexerTiling

  // ---- Two texts that agree around a token ----

  predicate SameLook(s: string, i: nat, t: string, j: nat) {
    Peek(s, i) == Peek(t, j) || (PeekIs(s, i, IsBlank) && PeekIs(t, j, IsBlank))
  }

  /** `t` carries the characters `i..e` of `s` at distance `d`, and what follows looks alike for
      two characters, as far as the first blank. */
  ghost predicate Near(s: string, t: string, d: int, i: nat, e: nat) {
    && i <= e <= |s|
    && 0 <= i + d && e + d <= |t|
    && (forall k {:trigger s[k]} | i <= k < e :: t[k + d] == s[k])
    && SameLook(s, e, t, e + d)
    && (e < |s| && !IsBlank(s[e]) ==> SameLook(s, e + 1, t, e + d + 1))
  }

  lemma NearFrom(s: string, t: string, d: int, i: nat, e: nat, m: nat)
    requires Near(s, t, d, i, e) && i <= m <= e
    ensures Near(s, t, d, m, e)
  {
  }

  lemma NearTo(s: string, t: string, d: int, i: nat, e: nat, m: nat)
    requires Near(s, t, d, i, e) && i <= m <= e
    ensures Near(s, t, d, i, m)
  {
    if m < e {
      assert t[m + d] == s[m];
      if m + 1 < e {
        assert t[m + 1 + d] == s[m + 1];
      }
    }
  }

  /** A look at a character that is not blank gives the same answer in both texts. */
  lemma NearPeek(s: string, t: string, d: int, i: nat, e: nat, m: nat, c: char)
    requires Near(s, t, d, i, e) && i <= m <= e && !IsBlank(c)
    ensures Peek(s, m) == Some(c) <==> Peek(t, m + d) == Some(c)
  {
    NearTo(s, t, d, i, e, m);
  }

  lemma NearPeekIs(s: string, t: string, d: int, i: nat, e: nat, m: nat, p: char -> bool)
    requires Near(s, t, d, i, e) && i <= m <= e && !p(' ') && !p('\t')
    ensures PeekIs(s, m, p) <==> PeekIs(t, m + d, p)
  {
    NearTo(s, t, d, i, e, m);
  }

  /** The same one character further on, past a character that is not blank. */
  lemma NearPeekNextIs(s: string, t: string, d: int, i: nat, e: nat, m: nat, p: char -> bool)
    requires Near(s, t, d, i, e) && i <= m <= e && !p(' ') && !p('\t') && m < |s| && !IsBlank(s[m])
    ensures PeekIs(s, m + 1, p) <==> PeekIs(t, m + 1 + d, p)
  {
    NearTo(s, t, d, i, e, m);
  }

  lemma NearBounds(s: string, t: string, d: int, i: nat, e: nat)
    requires Near(s, t, d, i, e)
    ensures 0 <= i + d <= e + d <= |t|
  {
  }

  lemma NearEnd(s: string, t: string, d: int, i: nat, e: nat)
    requires Near(s, t, d, i, e)
    ensures e == |s| <==> e + d == |t|
  {
  }

  lemma NearSlice(s: string, t: string, d: int, i: nat, e: nat, a: nat, b: nat)
    requires Near(s, t, d, i, e) && i <= a <= b <= e
    ensures s[a..b] == t[a + d..b + d]
  {
    assert forall k | 0 <= k < b - a :: s[a..b][k] == s[a + k];
  }

  lemma {:induction false} EatLocal(s: string, t: string, d: int, i: nat, e: nat, p: char -> bool)
    requires Near(s, t, d, i, e) && p(' ') == p('\t') && EatWhile(s, i, p) == e
    ensures EatWhile(t, i + d, p) == e + d
    decreases e - i
  {
    if i < e {
      NearFrom(s, t, d, i, e, i + 1);
      assert t[i + d] == s[i];
      EatLocal(s, t, d, i + 1, e, p);
    }
  }

  /** As above, when the run ends before the end of the agreement. */
  lemma EatInside(s: string, t: string, d: int, i: nat, e: nat, p: char -> bool)
    requires Near(s, t, d, i, e) && p(' ') == p('\t') && EatWhile(s, i, p) <= e
    ensures EatWhile(t, i + d, p) == EatWhile(s, i, p) + d
  {
    NearTo(s, t, d, i, e, EatWhile(s, i, p));
    EatLocal(s, t, d, i, EatWhile(s, i, p), p);
  }

  // ---- Each scan is local ----

  lemma IdentContinueBlank(u: Alphabet)
    ensures !IdentContinue(u)(' ') && !IdentContinue(u)('\t')
    ensures !IsIdentStart(u, ' ') && !IsIdentStart(u, '\t')
  {
    assert !u.alphabetic(' ') && !u.numeric(' ') && !u.alphabetic('\t') && !u.numeric('\t');
  }

  lemma SlotPipeLocal(s: string, t: string, d: int, i: nat, e: nat)
    requires Near(s, t, d, i, e) && i + 1 < e && IsDigit(s[i + 1]) && ScanSlotPipe(s, i).end == e
    ensures i + d + 1 < |t| && IsDigit(t[i + d + 1])
    ensures ScanSlotPipe(t, i + d) == ScanSlotPipe(s, i).(end := e + d)
  {
    assert t[i + 1 + d] == s[i + 1];
    NearFrom(s, t, d, i, e, i + 1);
    EatInside(s, t, d, i + 1, e, IsDigit);
    var q := EatWhile(s, i + 1, IsDigit);
    NearPeek(s, t, d, i, e, q, '>');
    NearSlice(s, t, d, i, e, i + 1, q);
  }

  lemma OperatorLocal(u: Alphabet, s: string, t: string, d: int, i: nat, e: nat)
    requires Near(s, t, d, i, e) && i < e && OneCharOperator(s[i]).Some? && ScanOperator(u, s, i).end == e
    ensures t[i + d] == s[i] && ScanOperator(u, t, i + d) == ScanOperator(u, s, i).(end := e + d)
  {
    NearFrom(s, t, d, i, e, i + 1);
    NearTo(s, t, d, i, e, i + 1);
    var two := i + 1 < |s| && TwoCharOperator(s[i], s[i + 1]).Some?;
    var atomStart := (c: char) => IsAsciiLower(c) || c == '_';
    NearPeekIs(s, t, d, i, e, i + 1, atomStart);
    NearPeekIs(s, t, d, i, e, i + 1, IsDigit);
    if two {
      assert t[i + 1 + d] == s[i + 1];
    } else {
      assert !(i + 1 + d < |t| && TwoCharOperator(t[i + d], t[i + d + 1]).Some?);
      if s[i] == ':' && PeekIs(s, i + 1, atomStart) {
        IdentContinueBlank(u);
        EatInside(s, t, d, i + 1, e, IdentContinue(u));
      } else if s[i] == '|' && PeekIs(s, i + 1, IsDigit) {
        SlotPipeLocal(s, t, d, i, e);
      }
    }
  }

  lemma {:induction false} RegexCloseLocal(s: string, t: string, d: int, i: nat, e: nat, escaped: bool)
    requires Near(s, t, d, i, e)
    requires var close := RegexClose(s, i, escaped); close < e || (close == e && e == |s|)
    ensures RegexClose(t, i + d, escaped) == RegexClose(s, i, escaped) + d
    decreases e - i
  {
    if i == |s| {
      assert Peek(t, i + d) == None;
    } else {
      assert t[i + d] == s[i];
      if !(s[i] == '/' && !escaped) {
        NearFrom(s, t, d, i, e, i + 1);
        RegexCloseLocal(s, t, d, i + 1, e, s[i] == '\\' && !escaped);
      }
    }
  }

  lemma RegexBodyLocal(s: string, t: string, d: int, i: nat, e: nat)
    requires Near(s, t, d, i, e) && ScanRegexBody(s, i).end == e
    ensures ScanRegexBody(t, i + d) == ScanRegexBody(s, i).(end := e + d)
  {
    hide Near, EatWhile, RegexClose;
    NearEnd(s, t, d, i, e);
    RegexCloseLocal(s, t, d, i, e, false);
    var close := RegexClose(s, i, false);
    if close < |s| {
      NearFrom(s, t, d, i, e, close + 1);
      EatInside(s, t, d, close + 1, e, IsRegexFlag);
      var q := EatWhile(s, close + 1, IsRegexFlag);
      NearPeekIs(s, t, d, i, e, q, IsAsciiLetter);
      NearSlice(s, t, d, i, e, i, close);
      NearSlice(s, t, d, i, e, close + 1, q);
    }
  }

  lemma TildeLocal(s: string, t: string, d: int, i: nat, e: nat)
    requires Near(s, t, d, i, e) && i < e && s[i] == '~' && ScanTilde(s, i).end == e
    ensures t[i + d] == '~' && ScanTilde(t, i + d) == ScanTilde(s, i).(end := e + d)
  {
    hide ScanRegexBody;
    NearPeek(s, t, d, i, e, i + 1, 'r');
    if Peek(s, i + 1) == Some('r') {
      NearPeek(s, t, d, i, e, i + 2, '/');
      if Peek(s, i + 2) == Some('/') {
        NearFrom(s, t, d, i, e, i + 3);
        RegexBodyLocal(s, t, d, i + 3, e);
      }
    }
  }

  lemma {:induction false} BlockCommentLocal(s: string, t: string, d: int, i: nat, e: nat, depth: nat)
    requires Near(s, t, d, i, e) && depth > 0 && ScanBlockComment(s, i, depth).end == e
    ensures ScanBlockComment(t, i + d, depth) == ScanBlockComment(s, i, depth).(end := e + d)
    decreases e - i
  {
    if i == |s| {
      assert Peek(t, i + d) == None;
    } else {
      BlockCommentMoves(s, i, depth);
      assert t[i + d] == s[i];
      NearPeek(s, t, d, i, e, i + 1, '=');
      NearPeek(s, t, d, i, e, i + 1, '#');
      NearFrom(s, t, d, i, e, i + 1);
      if s[i] == '#' && Peek(s, i + 1) == Some('=') {
        NearFrom(s, t, d, i, e, i + 2);
        BlockCommentLocal(s, t, d, i + 2, e, depth + 1);
      } else if s[i] == '=' && Peek(s, i + 1) == Some('#') {
        if depth > 1 {
          NearFrom(s, t, d, i, e, i + 2);
          BlockCommentLocal(s, t, d, i + 2, e, depth - 1);
        }
      } else {
        BlockCommentLocal(s, t, d, i + 1, e, depth);
      }
    }
  }

  lemma BlockCommentMoves(s: string, i: nat, depth: nat)
    requires i < |s| && depth > 0
    ensures i < ScanBlockComment(s, i, depth).end
  {
  }

  lemma CommentLocal(s: string, t: string, d: int, i: nat, e: nat)
    requires Near(s, t, d, i, e) && i < e && s[i] == '#' && ScanComment(s, i).end == e
    ensures t[i + d] == '#' && ScanComment(t, i + d) == ScanComment(s, i).(end := e + d)
  {
    NearPeek(s, t, d, i, e, i + 1, '#');
    NearPeek(s, t, d, i, e, i + 1, '=');
    NearFrom(s, t, d, i, e, i + 1);
    if Peek(s, i + 1) == Some('#') {
      NearPeek(s, t, d, i, e, i + 2, '!');
      NearFrom(s, t, d, i, e, i + 2);
      if Peek(s, i + 2) == Some('!') {
        NearFrom(s, t, d, i, e, i + 3);
        EatLocal(s, t, d, i + 3, e, IsLineText);
      } else {
        EatLocal(s, t, d, i + 2, e, IsLineText);
      }
    } else if Peek(s, i + 1) == Some('=') {
      NearFrom(s, t, d, i, e, i + 2);
      BlockCommentLocal(s, t, d, i + 2, e, 1);
    } else {
      EatLocal(s, t, d, i + 1, e, IsLineText);
    }
  }

  lemma ExponentLocal(s: string, t: string, d: int, i: nat, e: nat)
    requires Near(s, t, d, i, e) && i < e && IsExponentMark(s[i]) && ExponentEnd(s, i) == e
    ensures IsExponentMark(t[i + d]) && ExponentEnd(t, i + d) == e + d
  {
    NearPeekIs(s, t, d, i, e, i + 1, IsSign);
    var from := if PeekIs(s, i + 1, IsSign) then i + 2 else i + 1;
    NearFrom(s, t, d, i, e, from);
    EatLocal(s, t, d, from, e, DigitOrUnderscore);
  }

  lemma RadixLocal(s: string, t: string, d: int, i: nat, e: nat, p: char -> bool)
    requires Near(s, t, d, i, e) && i + 2 <= e && !p(' ') && !p('\t') && EatWhile(s, i + 2, p) == e
    ensures EatWhile(t, i + 2 + d, p) == e + d
  {
    NearFrom(s, t, d, i, e, i + 2);
    EatLocal(s, t, d, i + 2, e, p);
  }

  lemma NumberLocal(s: string, t: string, d: int, i: nat, e: nat)
    requires Near(s, t, d, i, e) && i < e && IsDigit(s[i]) && ScanNumber(s, i).end == e
    ensures IsDigit(t[i + d]) && ScanNumber(t, i + d) == ScanNumber(s, i).(end := e + d)
  {
    hide EatWhile, ScanDecimal;
    assert t[i + d] == s[i];
    NearPeek(s, t, d, i, e, i + 1, 'x');
    NearPeek(s, t, d, i, e, i + 1, 'X');
    NearPeek(s, t, d, i, e, i + 1, 'b');
    NearPeek(s, t, d, i, e, i + 1, 'B');
    NearPeek(s, t, d, i, e, i + 1, 'o');
    NearPeek(s, t, d, i, e, i + 1, 'O');
    var radix := if s[i] == '0' then Peek(s, i + 1) else None;
    if radix == Some('x') || radix == Some('X') {
      RadixLocal(s, t, d, i, e, HexOrUnderscore);
    } else if radix == Some('b') || radix == Some('B') {
      RadixLocal(s, t, d, i, e, BinaryOrUnderscore);
    } else if radix == Some('o') || radix == Some('O') {
      RadixLocal(s, t, d, i, e, OctalOrUnderscore);
    } else {
      DecimalLocal(s, t, d, i, e);
    }
  }

  /** The optional exponent at `q`, with the kind and end of a number that reaches `q`. */
  lemma OptionalExponentLocal(s: string, t: string, d: int, q: nat, e: nat)
    requires Near(s, t, d, q, e) && (if PeekIs(s, q, IsExponentMark) then ExponentEnd(s, q) else q) == e
    ensures PeekIs(s, q, IsExponentMark) == PeekIs(t, q + d, IsExponentMark)
    ensures (if PeekIs(t, q + d, IsExponentMark) then ExponentEnd(t, q + d) else q + d) == e + d
  {
    NearPeekIs(s, t, d, q, e, q, IsExponentMark);
    if PeekIs(s, q, IsExponentMark) {
      ExponentLocal(s, t, d, q, e);
    }
  }

  /** Whether a fraction follows the digits that end at `q`. */
  predicate AtFraction(s: string, q: nat) {
    Peek(s, q) == Some('.') && PeekIs(s, q + 1, IsDigit)
  }

  lemma AtFractionLocal(s: string, t: string, d: int, q: nat, e: nat)
    requires Near(s, t, d, q, e)
    ensures AtFraction(s, q) == AtFraction(t, q + d)
  {
    NearPeek(s, t, d, q, e, q, '.');
    if Peek(s, q) == Some('.') {
      NearPeekNextIs(s, t, d, q, e, q, IsDigit);
    }
  }

  lemma DecimalLocal(s: string, t: string, d: int, i: nat, e: nat)
    requires Near(s, t, d, i, e) && i < e && ScanDecimal(s, i).end == e
    ensures ScanDecimal(t, i + d) == ScanDecimal(s, i).(end := e + d)
  {
    hide Near, EatWhile, ExponentEnd, PeekIs;
    NearFrom(s, t, d, i, e, i + 1);
    EatInside(s, t, d, i + 1, e, DigitOrUnderscore);
    var q := EatWhile(s, i + 1, DigitOrUnderscore);
    NearFrom(s, t, d, i, e, q);
    AtFractionLocal(s, t, d, q, e);
    if AtFraction(s, q) {
      NearFrom(s, t, d, q, e, q + 1);
      EatInside(s, t, d, q + 1, e, DigitOrUnderscore);
      var f := EatWhile(s, q + 1, DigitOrUnderscore);
      NearFrom(s, t, d, q, e, f);
      OptionalExponentLocal(s, t, d, f, e);
    } else {
      OptionalExponentLocal(s, t, d, q, e);
    }
  }

  lemma IdentLocal(u: Alphabet, s: string, t: string, d: int, i: nat, e: nat)
    requires Near(s, t, d, i, e) && i < e && IsIdentStart(u, s[i]) && ScanIdent(u, s, i).end == e
    ensures IsIdentStart(u, t[i + d]) && ScanIdent(u, t, i + d) == ScanIdent(u, s, i).(end := e + d)
  {
    hide EatWhile, KeywordFromStr, Near, IdentContinue;
    IdentContinueBlank(u);
    NearPeekIs(s, t, d, i, e, i, c => IsIdentStart(u, c));
    NearFrom(s, t, d, i, e, i + 1);
    NearBounds(s, t, d, i, e);
    EatLocal(s, t, d, i + 1, e, IdentContinue(u));
    NearSlice(s, t, d, i, e, i, e);
  }

  lemma TokenLocal(u: Alphabet, s: string, t: string, d: int, i: nat, e: nat)
    requires Near(s, t, d, i, e) && i < e && ScanToken(u, s, i).end == e
    ensures t[i + d] == s[i] && ScanToken(u, t, i + d) == ScanToken(u, s, i).(end := e + d)
  {
    hide ScanOperator, ScanComment, ScanNumber, ScanIdent;
    assert t[i + d] == s[i];
    if !IsLineText(s[i]) {
      NearPeek(s, t, d, i, e, i + 1, '\n');
    } else if OneCharOperator(s[i]).Some? {
      OperatorLocal(u, s, t, d, i, e);
    } else if s[i] == '#' {
      CommentLocal(s, t, d, i, e);
    } else if IsDigit(s[i]) {
      NumberLocal(s, t, d, i, e);
    } else if IsIdentStart(u, s[i]) {
      IdentLocal(u, s, t, d, i, e);
    }
  }

  // ---- String content ----

  lemma TerminatorLocal(s: string, t: string, d: int, i: nat, e: nat, triple: bool)
    requires Near(s, t, d, i, e) && i < e
    ensures t[i + d] == s[i]
    ensures AtInterpolation(s, i) == AtInterpolation(t, i + d)
    ensures AtClosingQuote(s, i, triple) == AtClosingQuote(t, i + d, triple)
  {
    NearPeek(s, t, d, i, e, i + 1, '{');
    NearPeek(s, t, d, i, e, i + 1, '"');
    if Peek(s, i + 1) == Some('"') {
      NearPeekNextIs(s, t, d, i, e, i + 1, c => c == '"');
    }
  }

  lemma ContentNextLocal(s: string, t: string, d: int, i: nat, e: nat)
    requires Near(s, t, d, i, e) && i < e && ContentNext(s, i) <= e
    ensures ContentNext(t, i + d) == ContentNext(s, i) + d
  {
    NearEnd(s, t, d, i, e);
    NearPeek(s, t, d, i, e, i + 1, '"');
    NearTo(s, t, d, i, e, i + 1);
  }

  lemma {:induction false} ContentLocal(s: string, t: string, d: int, i: nat, e: nat, triple: bool)
    requires Near(s, t, d, i, e)
    requires var stop := ContentStop(s, i, triple); stop < e || (stop == e && e == |s|)
    ensures ContentStop(t, i + d, triple) == ContentStop(s, i, triple) + d
    decreases e - i
  {
    hide AtInterpolation, AtClosingQuote, SameLook, ContentNext;
    NearEnd(s, t, d, i, e);
    if i < e {
      TerminatorLocal(s, t, d, i, e, triple);
      if !AtTerminator(s, i, triple) {
        ContentNextLocal(s, t, d, i, e);
        NearFrom(s, t, d, i, e, ContentNext(s, i));
        ContentLocal(s, t, d, ContentNext(s, i), e, triple);
      }
    }
  }

  // ---- Each step is local ----

  /** `b` is `a` moved by `d` characters. */
  ghost predicate Moved(a: Step, b: Step, d: int) {
    && b.pos == a.pos + d
    && b.stack == a.stack
    && |b.tokens| == |a.tokens|
    && forall k | 0 <= k < |a.tokens| ::
         b.tokens[k].kind == a.tokens[k].kind
         && b.tokens[k].from == a.tokens[k].from + d && b.tokens[k].to == a.tokens[k].to + d
  }

  lemma OpenStringLocal(s: string, t: string, d: int, i: nat, stack: StateStack)
    requires i < |s| && s[i] == '"' && Near(s, t, d, i, OpenString(s, i, stack).pos)
    ensures t[i + d] == '"' && Moved(OpenString(s, i, stack), OpenString(t, i + d, stack), d)
  {
    var e := OpenString(s, i, stack).pos;
    NearPeek(s, t, d, i, e, i + 1, '"');
    if Peek(s, i + 1) == Some('"') {
      NearPeekNextIs(s, t, d, i, e, i + 1, c => c == '"');
    }
    assert t[i + d] == s[i];
  }

  lemma CodeLocal(u: Alphabet, s: string, i: nat, t: string, j: nat, stack: StateStack, d: int)
    requires i <= |s| && j <= |t| && WellStacked(stack) && !Top(stack).InString?
    requires SkipBlanks(t, j) == SkipBlanks(s, i) + d
    requires Near(s, t, d, SkipBlanks(s, i), Produce(u, s, i, stack).pos)
    ensures Moved(Produce(u, s, i, stack), Produce(u, t, j, stack), d)
  {
    hide ScanToken, OpenString, ScanTilde;
    var f := SkipBlanks(s, i);
    var e := Produce(u, s, i, stack).pos;
    NearEnd(s, t, d, f, e);
    if f < |s| {
      if s[f] == '"' {
        OpenStringLocal(s, t, d, f, stack);
      } else if Top(stack).Normal? && s[f] == '~' {
        TildeLocal(s, t, d, f, e);
      } else if s[f] == '{' || s[f] == '}' {
        assert t[f + d] == s[f];
      } else {
        TokenLocal(u, s, t, d, f, e);
      }
    }
  }

  lemma StringLocal(s: string, t: string, i: nat, d: int, stack: StateStack, triple: bool)
    requires i <= |s| && WellStacked(stack) && Top(stack) == InString(triple)
    requires Near(s, t, d, i, LexStringContent(s, i, stack, triple).pos)
    ensures Moved(LexStringContent(s, i, stack, triple), LexStringContent(t, i + d, stack, triple), d)
  {
    var e := LexStringContent(s, i, stack, triple).pos;
    var stop := ContentStop(s, i, triple);
    NearEnd(s, t, d, i, e);
    ContentLocal(s, t, d, i, e, triple);
    if stop < |s| {
      NearFrom(s, t, d, i, e, stop);
      TerminatorLocal(s, t, d, stop, e, triple);
    }
  }

  // ---- Respacing a text ----

  ghost predicate AllBlank(g: string) {
    forall k | 0 <= k < |g| :: IsBlank(g[k])
  }

  /** One replacement for each gap before a token: blank, and empty exactly where the gap is. */
  ghost predicate FitsGaps(i: nat, ts: seq<Lexeme>, gaps: seq<string>)
    decreases |ts|
  {
    if ts == [] then gaps == []
    else
      && |gaps| == |ts|
      && AllBlank(gaps[0])
      && (gaps[0] == "" <==> ts[0].from == i)
      && FitsGaps(ts[0].to, ts[1..], gaps[1..])
  }

  /** The text with its gaps replaced. */
  function Respaced(s: string, ts: seq<Lexeme>, gaps: seq<string>): string
    requires InText(s, ts) && |gaps| == |ts|
    decreases |ts|
  {
    if ts == [] then ""
    else gaps[0] + s[ts[0].from..ts[0].to] + Respaced(s, ts[1..], gaps[1..])
  }

  /** The same kinds with the same texts. */
  ghost predicate SameTokens(s: string, a: seq<Lexeme>, t: string, b: seq<Lexeme>)
    requires InText(s, a)
  {
    && |a| == |b|
    && forall k | 0 <= k < |a| ::
         && a[k].kind == b[k].kind
         && b[k].from <= b[k].to <= |t|
         && s[a[k].from..a[k].to] == t[b[k].from..b[k].to]
  }

  lemma {:induction false} RespacedAtEnd(s: string, ts: seq<Lexeme>, gaps: seq<string>)
    requires Tiles(s, |s|, ts, |s|) && FitsGaps(|s|, ts, gaps)
    ensures InText(s, ts) && |gaps| == |ts| && Respaced(s, ts, gaps) == ""
    decreases |ts|
  {
    TilesInText(s, |s|, ts, |s|);
    if ts != [] {
      RespacedAtEnd(s, ts[1..], gaps[1..]);
    }
  }

  lemma Look1(s: string, i: nat, ts: seq<Lexeme>, gaps: seq<string>, t: string, j: nat)
    requires i <= |s| && Tiles(s, i, ts, |s|) && FitsGaps(i, ts, gaps) && InText(s, ts) && |gaps| == |ts|
    requires j <= |t| && t[j..] == Respaced(s, ts, gaps)
    ensures SameLook(s, i, t, j)
  {
    if i == |s| {
      RespacedAtEnd(s, ts, gaps);
    } else {
      var first := if gaps[0] == "" then s[i] else gaps[0][0];
      assert first == t[j..][0] == t[j];
    }
  }

  /** The second character of a text that starts with a token. */
  lemma LookPastFirst(s: string, i: nat, ts: seq<Lexeme>, gaps: seq<string>, t: string, j: nat)
    requires i < |s| && ts != [] && Tiles(s, i, ts, |s|) && FitsGaps(i, ts, gaps) && InText(s, ts) && |gaps| == |ts|
    requires j < |t| && t[j..] == Respaced(s, ts, gaps) && ts[0].from == i < ts[0].to
    ensures SameLook(s, i + 1, t, j + 1)
  {
    var to, tail := ts[0].to, Respaced(s, ts[1..], gaps[1..]);
    assert t[j..] == s[i..to] + tail;
    SecondOf(t, j, s[i..to], tail);
    if to == i + 1 {
      assert forall k | 0 <= k < |ts[1..]| :: ts[1..][k] == ts[k + 1];
      Look1(s, i + 1, ts[1..], gaps[1..], t, j + 1);
    }
  }

  lemma SecondOf(t: string, j: nat, head: string, tail: string)
    requires j <= |t| && t[j..] == head + tail && head != ""
    ensures j < |t| && (if |head| == 1 then t[j + 1..] == tail else Peek(t, j + 1) == Some(head[1]))
  {
    assert t[j + 1..] == t[j..][1..];
    if |head| > 1 {
      assert t[j + 1] == t[j..][1] == head[1];
    }
  }

  lemma Look2(s: string, i: nat, ts: seq<Lexeme>, gaps: seq<string>, t: string, j: nat)
    requires i <= |s| && Tiles(s, i, ts, |s|) && FitsGaps(i, ts, gaps) && InText(s, ts) && |gaps| == |ts|
    requires j <= |t| && t[j..] == Respaced(s, ts, gaps)
    ensures SameLook(s, i, t, j)
    ensures i < |s| && !IsBlank(s[i]) ==> SameLook(s, i + 1, t, j + 1)
  {
    hide Respaced;
    Look1(s, i, ts, gaps, t, j);
    if i < |s| && !IsBlank(s[i]) {
      LookPastFirst(s, i, ts, gaps, t, j);
    }
  }

  // ---- The theorem ----

  /** The first token of a step takes its gap; a second one follows without any. */
  ghost predicate OneGap(s: string, i: nat, step: Step) {
    && 1 <= |step.tokens| <= 2
    && i <= step.tokens[0].from <= step.tokens[0].to <= step.pos <= |s|
    && (if |step.tokens| == 1 then step.tokens[0].to == step.pos
        else step.tokens[0].to == step.tokens[1].from <= step.tokens[1].to == step.pos)
  }

  lemma CodeHasOneGap(u: Alphabet, s: string, i: nat, stack: StateStack)
    requires i <= |s| && WellStacked(stack) && !Top(stack).InString?
    ensures var step := Produce(u, s, i, stack);
      OneGap(s, i, step) && step.tokens[0].from == SkipBlanks(s, i)
  {
    hide ScanToken, ScanTilde, WellStacked;
  }

  lemma StringHasOneGap(s: string, i: nat, stack: StateStack, triple: bool)
    requires i <= |s| && |stack| > 0
    ensures var step := LexStringContent(s, i, stack, triple);
      OneGap(s, i, step) && step.tokens[0].from == i
  {
  }

  lemma StepHasOneGap(u: Alphabet, s: string, i: nat, stack: StateStack)
    requires i <= |s| && WellStacked(stack)
    ensures var step := Produce(u, s, i, stack);
      && OneGap(s, i, step)
      && (if Top(stack).InString? then step.tokens[0].from == i else step.tokens[0].from == SkipBlanks(s, i))
  {
    hide LexNormal, LexInterpolation, LexStringContent, OneGap;
    if Top(stack).InString? {
      StringHasOneGap(s, i, stack, Top(stack).triple);
    } else {
      CodeHasOneGap(u, s, i, stack);
    }
  }

  lemma RespacedOne(s: string, i: nat, a: Lexeme, rest: seq<Lexeme>, gaps: seq<string>)
    requires InText(s, [a] + rest) && FitsGaps(i, [a] + rest, gaps) && a.from <= a.to <= |s|
    ensures |gaps| == 1 + |rest| && InText(s, rest) && FitsGaps(a.to, rest, gaps[1..])
    ensures gaps[0] == "" <==> a.from == i
    ensures Respaced(s, [a] + rest, gaps) == gaps[0] + s[a.from..a.to] + Respaced(s, rest, gaps[1..])
  {
    var ts := [a] + rest;
    assert ts[0] == a && ts[1..] == rest;
    assert forall k | 0 <= k < |rest| :: rest[k] == ts[1 + k];
  }

  lemma RespacedPair(s: string, i: nat, a: Lexeme, b: Lexeme, rest: seq<Lexeme>, gaps: seq<string>)
    requires InText(s, [a, b] + rest) && FitsGaps(i, [a, b] + rest, gaps)
    requires a.from <= a.to == b.from <= b.to <= |s|
    ensures |gaps| == 2 + |rest| && InText(s, rest) && FitsGaps(b.to, rest, gaps[2..])
    ensures Respaced(s, [a, b] + rest, gaps) == gaps[0] + s[a.from..b.to] + Respaced(s, rest, gaps[2..])
  {
    hide InText, FitsGaps, Respaced;
    assert [a, b] + rest == [a] + ([b] + rest);
    RespacedOne(s, i, a, [b] + rest, gaps);
    RespacedOne(s, a.to, b, rest, gaps[1..]);
    assert gaps[1..][1..] == gaps[2..];
    assert s[a.from..a.to] + s[b.from..b.to] == s[a.from..b.to];
  }

  /** Splitting off the tokens of one step. */
  lemma RespacedStep(s: string, i: nat, step: Step, rest: seq<Lexeme>, gaps: seq<string>)
    requires OneGap(s, i, step) && InText(s, step.tokens + rest) && FitsGaps(i, step.tokens + rest, gaps)
    ensures var n := |step.tokens|;
      && |gaps| == n + |rest| && InText(s, rest)
      && FitsGaps(step.pos, rest, gaps[n..])
      && Respaced(s, step.tokens + rest, gaps)
        == gaps[0] + s[step.tokens[0].from..step.pos] + Respaced(s, rest, gaps[n..])
  {
    hide InText, FitsGaps, Respaced;
    if |step.tokens| == 1 {
      assert step.tokens == [step.tokens[0]];
      RespacedOne(s, i, step.tokens[0], rest, gaps);
    } else {
      assert step.tokens == [step.tokens[0], step.tokens[1]];
      RespacedPair(s, i, step.tokens[0], step.tokens[1], rest, gaps);
    }
  }

  /** After the replaced gap, `t` carries the characters of the step. */
  lemma RespacedNear(s: string, i: nat, step: Step, rest: seq<Lexeme>, gaps: seq<string>, t: string, j: nat)
      returns (d: int)
    requires OneGap(s, i, step) && Tiles(s, i, step.tokens + rest, |s|) && Tiles(s, step.pos, rest, |s|)
    requires InText(s, step.tokens + rest) && FitsGaps(i, step.tokens + rest, gaps) && |gaps| == |step.tokens + rest|
    requires j <= |t| && t[j..] == Respaced(s, step.tokens + rest, gaps)
    ensures var f := step.tokens[0].from;
      && f + d == j + |gaps[0]|
      && Near(s, t, d, f, step.pos)
      && (forall k | j <= k < f + d :: IsBlank(t[k]))
      && InText(s, rest) && |gaps[|step.tokens|..]| == |rest|
      && FitsGaps(step.pos, rest, gaps[|step.tokens|..])
      && (f == i ==> f + d == j)
      && t[step.pos + d..] == Respaced(s, rest, gaps[|step.tokens|..])
  {
    RespacedStep(s, i, step, rest, gaps);
    var f, e, g, n := step.tokens[0].from, step.pos, gaps[0], |step.tokens|;
    d := j + |g| - f;
    var tail := Respaced(s, rest, gaps[n..]);
    assert t[j..] == g + s[f..e] + tail;
    assert |t| == j + |g| + (e - f) + |tail|;
    assert t[e + d..] == tail by {
      assert t[e + d..] == t[j..][e + d - j..];
    }
    forall k | j <= k < f + d
      ensures IsBlank(t[k])
    {
      assert t[k] == t[j..][k - j] == g[k - j];
    }
    forall k | f <= k < e
      ensures t[k + d] == s[k]
    {
      assert t[k + d] == t[j..][k + d - j] == s[f..e][k - f];
    }
    Look2(s, e, rest, gaps[n..], t, e + d);
  }

  lemma {:induction false} SkipAllBlanks(t: string, j: nat, m: nat)
    requires j <= m <= |t| && (forall k | j <= k < m :: IsBlank(t[k])) && !PeekIs(t, m, IsBlank)
    ensures SkipBlanks(t, j) == m
    decreases m - j
  {
    if j < m {
      SkipAllBlanks(t, j + 1, m);
    }
  }

  lemma StepRespaced(u: Alphabet, s: string, i: nat, stack: StateStack, t: string, j: nat, d: int)
    requires i <= |s| && WellStacked(stack) && j <= |t|
    requires var step := Produce(u, s, i, stack);
      var f := step.tokens[0].from;
      && OneGap(s, i, step)
      && Near(s, t, d, f, step.pos)
      && j <= f + d <= |t| && (forall k | j <= k < f + d :: IsBlank(t[k]))
      && (f == i ==> f + d == j)
      && (f == step.pos ==> f == |s|)
    ensures Moved(Produce(u, s, i, stack), Produce(u, t, j, stack), d)
  {
    StepHasOneGap(u, s, i, stack);
    var step := Produce(u, s, i, stack);
    var f := step.tokens[0].from;
    if Top(stack).InString? {
      StringLocal(s, t, i, d, stack, Top(stack).triple);
    } else {
      NearEnd(s, t, d, f, step.pos);
      if f < |s| {
        assert t[f + d] == s[f];
      }
      SkipAllBlanks(t, j, f + d);
      CodeLocal(u, s, i, t, j, stack, d);
    }
  }

  lemma MovedSameTokens(s: string, t: string, a: Step, b: Step, d: int, i: nat)
    requires Moved(a, b, d) && OneGap(s, i, a) && Near(s, t, d, a.tokens[0].from, a.pos)
    ensures InText(s, a.tokens) && SameTokens(s, a.tokens, t, b.tokens)
  {
    var f := a.tokens[0].from;
    forall k | 0 <= k < |a.tokens|
      ensures s[a.tokens[k].from..a.tokens[k].to] == t[b.tokens[k].from..b.tokens[k].to]
    {
      NearSlice(s, t, d, f, a.pos, a.tokens[k].from, a.tokens[k].to);
    }
  }

  lemma SameTokensConcat(s: string, a: seq<Lexeme>, b: seq<Lexeme>, t: string, c: seq<Lexeme>, d: seq<Lexeme>)
    requires InText(s, a) && InText(s, b) && SameTokens(s, a, t, c) && SameTokens(s, b, t, d)
    ensures InText(s, a + b) && SameTokens(s, a + b, t, c + d)
  {
  }

  lemma StepNotEmpty(s: string, i: nat, step: Step)
    requires i <= |s| && OneGap(s, i, step) && Tiles(s, i, step.tokens, step.pos)
    ensures step.tokens[0].from == step.pos ==> step.pos == |s|
  {
  }

  /** `t` from `j` on is the tokens `ts` of `s`, respaced. */
  ghost predicate IsRespacing(s: string, i: nat, ts: seq<Lexeme>, gaps: seq<string>, t: string, j: nat) {
    && InText(s, ts) && FitsGaps(i, ts, gaps) && |gaps| == |ts|
    && j <= |t| && t[j..] == Respaced(s, ts, gaps)
  }

  /** One step over a respaced text: the same step, moved, and the rest still respaced. */
  lemma StepUnderRespacing(u: Alphabet, s: string, i: nat, stack: StateStack, rest: seq<Lexeme>,
                           gaps: seq<string>, t: string, j: nat) returns (d: int)
    requires i <= |s| && WellStacked(stack) && j <= |t|
    requires var step := Produce(u, s, i, stack);
      && step.pos <= |s| && Tiles(s, i, step.tokens + rest, |s|) && Tiles(s, step.pos, rest, |s|)
      && IsRespacing(s, i, step.tokens + rest, gaps, t, j)
    ensures var step, moved := Produce(u, s, i, stack), Produce(u, t, j, stack);
      && Moved(step, moved, d)
      && InText(s, step.tokens) && SameTokens(s, step.tokens, t, moved.tokens)
      && |step.tokens| <= |gaps| && moved.pos <= |t|
      && IsRespacing(s, step.pos, rest, gaps[|step.tokens|..], t, moved.pos)
      && (moved.pos == |t| <==> step.pos == |s|)
  {
    hide Produce, Near, Respaced, FitsGaps, SameTokens, InText, Tiles;
    var step := Produce(u, s, i, stack);
    StepHasOneGap(u, s, i, stack);
    StepTiles(u, s, i, stack);
    StepNotEmpty(s, i, step);
    d := RespacedNear(s, i, step, rest, gaps, t, j);
    NearEnd(s, t, d, step.tokens[0].from, step.pos);
    NearBounds(s, t, d, step.tokens[0].from, step.pos);
    StepRespaced(u, s, i, stack, t, j, d);
    MovedSameTokens(s, t, step, Produce(u, t, j, stack), d, i);
  }

  lemma {:induction false} StreamRespaced(u: Alphabet, s: string, i: nat, stack: StateStack, gaps: seq<string>,
      t: string, j: nat)
    requires i <= |s| && WellStacked(stack) && j <= |t|
    requires IsRespacing(s, i, Stream(u, s, i, stack), gaps, t, j)
    ensures InText(s, Stream(u, s, i, stack))
    ensures SameTokens(s, Stream(u, s, i, stack), t, Stream(u, t, j, stack))
    decreases Work(s, i, stack)
  {
    hide Produce, SameTokens, InText, Tiles, IsRespacing;
    var step := Produce(u, s, i, stack);
    StepProgress(u, s, i, stack);
    StepProgress(u, t, j, stack);
    StreamTiles(u, s, i, stack);
    TilesInText(s, i, Stream(u, s, i, stack), |s|);
    if IsFinal(step) {
      EmptyTiles(s);
      assert step.tokens + [] == step.tokens;
      var d := StepUnderRespacing(u, s, i, stack, [], gaps, t, j);
    } else {
      var rest := Stream(u, s, step.pos, step.stack);
      StreamTiles(u, s, step.pos, step.stack);
      var d := StepUnderRespacing(u, s, i, stack, rest, gaps, t, j);
      var moved := Produce(u, t, j, stack);
      StreamRespaced(u, s, step.pos, step.stack, gaps[|step.tokens|..], t, moved.pos);
      SameTokensConcat(s, step.tokens, rest, t, moved.tokens, Stream(u, t, moved.pos, moved.stack));
    }
  }

  lemma EmptyTiles(s: string)
    ensures Tiles(s, |s|, [], |s|)
  {
  }

  /** White space between tokens does not matter: replacing every gap by any blanks, none only
      where there were none, gives a text with the same kinds and texts of tokens. */
  lemma SpacingIsIrrelevant(u: Alphabet, s: string, gaps: seq<string>)
    requires FitsGaps(0, Lex(u, s), gaps)
    ensures InText(s, Lex(u, s)) && |gaps| == |Lex(u, s)|
    ensures var t := Respaced(s, Lex(u, s), gaps);
      SameTokens(s, Lex(u, s), t, Lex(u, t))
  {
    Lossless(u, s);
    var t := Respaced(s, Lex(u, s), gaps);
    assert t[0..] == t;
    StreamRespaced(u, s, 0, [Normal], gaps, t, 0);
  }

  /** One space for every non-empty gap. */
  function SingleSpaces(i: nat, ts: seq<Lexeme>): (gaps: seq<string>)
    ensures FitsGaps(i, ts, gaps)
    decreases |ts|
  {
    if ts == [] then []
    else [if ts[0].from == i then "" else " "] + SingleSpaces(ts[0].to, ts[1..])
  }

  /** In particular, squeezing every gap to a single space keeps the tokens. */
  lemma SqueezingKeepsTokens(u: Alphabet, s: string)
    ensures InText(s, Lex(u, s)) && |SingleSpaces(0, Lex(u, s))| == |Lex(u, s)|
    ensures var t := Respaced(s, Lex(u, s), SingleSpaces(0, Lex(u, s)));
      SameTokens(s, Lex(u, s), t, Lex(u, t))
  {
    SpacingIsIrrelevant(u, s, SingleSpaces(0, Lex(u, s)));
  }
}

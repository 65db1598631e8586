/** The kind of every token fits its text, and no word, operator, number, comment, line end, regex
    literal or string content ends too soon or too late. */
module LexerSpelling {
  import opened Wrappers
  import opened Tokens
  import opened Scanning
  import opened LexerMachine
  import opened LexerTiling
  import opened LexerStops
  import BlockComments

  // ---- What a text of each kind looks like ----

  ghost predicate SlotPipeText(n: nat, text: string) {
    && 2 <= n <= U32_MAX && |text| >= 3
    && text[0] == '|' && text[|text| - 1] == '>'
    && (forall k | 0 < k < |text| - 1 :: IsDigit(text[k]))
    && DecimalValue(text[1..|text| - 1]) == n
  }

  ghost predicate Word(u: Alphabet, text: string) {
    text != "" && IsIdentStart(u, text[0]) && forall k | 0 < k < |text| :: IdentContinue(u)(text[k])
  }

  ghost predicate AtomText(u: Alphabet, text: string) {
    && |text| >= 2 && text[0] == ':' && (IsAsciiLower(text[1]) || text[1] == '_')
    && forall k | 1 < k < |text| :: IdentContinue(u)(text[k])
  }

  predicate Run(t: string, a: nat, b: nat, p: char -> bool) {
    b <= |t| && forall k | a <= k < b :: p(t[k])
  }

  /** A digit, then digits and underscores. */
  predicate DigitsText(t: string, a: nat, b: nat) {
    a < b <= |t| && IsDigit(t[a]) && Run(t, a + 1, b, DigitOrUnderscore)
  }

  /** An exponent mark, perhaps a sign, then digits and underscores, perhaps none. */
  predicate ExponentText(t: string, a: nat, b: nat) {
    && a < b <= |t| && IsExponentMark(t[a])
    && (Run(t, a + 1, b, DigitOrUnderscore) || (a + 1 < b && IsSign(t[a + 1]) && Run(t, a + 2, b, DigitOrUnderscore)))
  }

  predicate RadixText(t: string, lower: char, upper: char, p: char -> bool) {
    |t| >= 2 && t[0] == '0' && (t[1] == lower || t[1] == upper) && Run(t, 2, |t|, p)
  }

  predicate IntText(t: string) {
    || DigitsText(t, 0, |t|)
    || RadixText(t, 'x', 'X', HexOrUnderscore)
    || RadixText(t, 'b', 'B', BinaryOrUnderscore)
    || RadixText(t, 'o', 'O', OctalOrUnderscore)
  }

  /** A point with digits behind it, from `d` to `f`. */
  predicate FractionText(t: string, d: nat, f: nat) {
    d < |t| && t[d] == '.' && DigitsText(t, d + 1, f)
  }

  /** Digits with a fraction, an exponent or both. */
  ghost predicate FloatText(t: string) {
    exists d: nat :: DigitsText(t, 0, d) && AfterDigits(t, d)
  }

  ghost predicate AfterDigits(t: string, d: nat) {
    || ExponentText(t, d, |t|)
    || FractionText(t, d, |t|)
    || exists f: nat :: FractionText(t, d, f) && ExponentText(t, f, |t|)
  }

  predicate LineText(t: string) {
    forall k | 0 <= k < |t| :: IsLineText(t[k])
  }

  /** The spelling of an operator or delimiter that has just one. */
  function FixedSpelling(kind: TokenKind): Option<string> {
    match kind
    case Plus => Some("+")
    case Minus => Some("-")
    case Star => Some("*")
    case Slash => Some("/")
    case Percent => Some("%")
    case EqEq => Some("==")
    case NotEq => Some("!=")
    case Lt => Some("<")
    case Gt => Some(">")
    case LtEq => Some("<=")
    case GtEq => Some(">=")
    case AmpAmp => Some("&&")
    case PipePipe => Some("||")
    case Bang => Some("!")
    case Pipe => Some("|>")
    case DotDot => Some("..")
    case Diamond => Some("<>")
    case PlusPlus => Some("++")
    case Eq => Some("=")
    case Arrow => Some("->")
    case FatArrow => Some("=>")
    case ColonColon => Some("::")
    case Question => Some("?")
    case Bar => Some("|")
    case LParen => Some("(")
    case RParen => Some(")")
    case LBracket => Some("[")
    case RBracket => Some("]")
    case LBrace => Some("{")
    case RBrace => Some("}")
    case Comma => Some(",")
    case Dot => Some(".")
    case Colon => Some(":")
    case Semicolon => Some(";")
    case At => Some("@")
    case InterpolationEnd => Some("}")
    case _ => None
  }

  /** A text of the given kind, read off the vocabulary rather than off the lexer. */
  ghost predicate Spelled(u: Alphabet, kind: TokenKind, text: string) {
    match kind
    case Keyword(word) => text == word && Word(u, text) && text in KEYWORDS
    case Ident => Word(u, text) && text !in KEYWORDS
    case Atom => AtomText(u, text)
    case SlotPipe(n) => SlotPipeText(n, text)
    case Newline => text == "\n" || text == "\r" || text == "\r\n"
    case IntLiteral => IntText(text)
    case FloatLiteral => FloatText(text)
    case StringStart => text == "\"" || text == "\"\"\""
    case StringEnd => text == "\"" || text == "\"\"\""
    case StringContent => text != ""
    case InterpolationStart => text == "${" || text == "#{"
    case RegexLiteral(pattern, flags) =>
      text == "~r/" + pattern + "/" + flags && forall c | c in flags :: IsRegexFlag(c)
    case Comment => "#=" <= text || ("#" <= text && !("##" <= text) && LineText(text))
    case DocComment => "##" <= text && !("##!" <= text) && LineText(text)
    case ModuleDocComment => "##!" <= text && LineText(text)
    case Eof => text == ""
    case Error => true
    case _ => Some(text) == FixedSpelling(kind)
  }

  predicate Operator(kind: TokenKind) {
    kind != InterpolationEnd && (FixedSpelling(kind).Some? || kind.SlotPipe? || kind.Atom?)
  }

  /** No longer token of the vocabulary starts where this one does: no operator or atom is cut
      short, words and numbers end where the word or the number does, comments at the end of their
      line or where a recursive recogniser of nested comments ends them. */
  ghost predicate Longest(u: Alphabet, s: string, i: nat, kind: TokenKind, end: nat)
    requires i <= end <= |s|
  {
    && (kind.Ident? || kind.Keyword? || kind.Atom? ==> !PeekIs(s, end, IdentContinue(u)))
    && (Operator(kind) ==> NoLongerOperator(u, s, i, end))
    && (kind.IntLiteral? || kind.FloatLiteral? ==> NoLongerNumber(s, i, end))
    && (kind.Comment? || kind.DocComment? || kind.ModuleDocComment? ==> CommentEnds(s, i, end))
    && (kind.RegexLiteral? ==> RegexEnds(s, i, |kind.pattern|, end))
    && (kind.Newline? ==> !(s[i..end] == "\r" && Peek(s, end) == Some('\n')))
  }

  ghost predicate NoLongerOperator(u: Alphabet, s: string, i: nat, end: nat)
    requires i <= end <= |s|
  {
    forall longer, e {:trigger Spelled(u, longer, s[i..e])} |
      end < e <= |s| && Operator(longer) :: !Spelled(u, longer, s[i..e])
  }

  ghost predicate NoLongerNumber(s: string, i: nat, end: nat)
    requires i <= end <= |s|
  {
    forall e | end < e <= |s| :: !IntText(s[i..e]) && !FloatText(s[i..e])
  }

  /** The pattern ends at the first unescaped slash, the flags at the first character that is none. */
  ghost predicate RegexEnds(s: string, i: nat, n: nat, end: nat)
    requires i <= end <= |s|
  {
    var close := i + 3 + n;
    && close < end && s[close] == '/' && !Escaped(s, i + 3, close)
    && (forall k | i + 3 <= k < close && s[k] == '/' :: Escaped(s, i + 3, k))
    && !PeekIs(s, end, IsAsciiLetter)
  }

  ghost predicate CommentEnds(s: string, i: nat, end: nat)
    requires i <= end <= |s|
  {
    if i + 1 < |s| && s[i + 1] == '=' then BlockComments.Body(s, i + 2) == Some(end)
    else !PeekIs(s, end, IsLineText)
  }

  // ---- One token ----

  lemma TwoCharSpelling(c: char, d: char)
    requires TwoCharOperator(c, d).Some?
    ensures FixedSpelling(TwoCharOperator(c, d).value) == Some([c, d])
  {
  }

  lemma OneCharSpelling(c: char)
    requires OneCharOperator(c).Some?
    ensures OneCharOperator(c) == Some(Error) || FixedSpelling(OneCharOperator(c).value) == Some([c])
  {
  }

  /** A two-character spelling is the spelling of the two-character operator. */
  lemma OnlyTwoChar(kind: TokenKind, c: char, d: char)
    requires FixedSpelling(kind) == Some([c, d])
    ensures TwoCharOperator(c, d) == Some(kind)
  {
    assert [c, d][0] == c && [c, d][1] == d;
  }

  lemma ShortSpelling(kind: TokenKind)
    ensures FixedSpelling(kind).Some? ==> 1 <= |FixedSpelling(kind).value| <= 2
  {
  }

  lemma SlotPipeSpelled(u: Alphabet, s: string, i: nat)
    requires i + 1 < |s| && s[i] == '|' && IsDigit(s[i + 1])
    ensures var scan := ScanSlotPipe(s, i);
      Spelled(u, scan.kind, s[i..scan.end])
  {
    var e := EatWhile(s, i + 1, IsDigit);
    var scan := ScanSlotPipe(s, i);
    if scan.kind.SlotPipe? {
      var text := s[i..e + 1];
      assert text[1..|text| - 1] == s[i + 1..e];
      assert e > i + 1;
    }
  }

  lemma AtomSpelled(u: Alphabet, s: string, i: nat)
    requires i + 1 < |s| && s[i] == ':' && (IsAsciiLower(s[i + 1]) || s[i + 1] == '_') && IdentContinue(u)(s[i + 1])
    ensures AtomText(u, s[i..EatWhile(s, i + 1, IdentContinue(u))])
  {
  }

  lemma OperatorSpelled(u: Alphabet, s: string, i: nat)
    requires i < |s| && OneCharOperator(s[i]).Some?
    ensures var scan := ScanOperator(u, s, i);
      Spelled(u, scan.kind, s[i..scan.end])
  {
    hide EatWhile, ScanSlotPipe, KEYWORDS;
    if i + 1 < |s| && TwoCharOperator(s[i], s[i + 1]).Some? {
      TwoCharSpelling(s[i], s[i + 1]);
      assert s[i..i + 2] == [s[i], s[i + 1]];
    } else if s[i] == ':' && PeekIs(s, i + 1, c => IsAsciiLower(c) || c == '_') {
      AtomSpelled(u, s, i);
    } else if s[i] == '|' && PeekIs(s, i + 1, IsDigit) {
      SlotPipeSpelled(u, s, i);
    } else {
      OneCharSpelling(s[i]);
      assert s[i..i + 1] == [s[i]];
    }
  }

  lemma NewlineSpelled(u: Alphabet, s: string, i: nat)
    requires i < |s| && !IsLineText(s[i])
    ensures var scan := ScanNewline(s, i);
      Spelled(u, scan.kind, s[i..scan.end]) && Longest(u, s, i, scan.kind, scan.end)
  {
    var end := ScanNewline(s, i).end;
    assert s[i..end] == if end == i + 1 then [s[i]] else [s[i], s[i + 1]];
  }

  predicate Uncut(kind: TokenKind) {
    kind.Error? || kind.Eof?
  }

  lemma NoOperators(kind: TokenKind)
    requires
      || Uncut(kind) || kind.RegexLiteral? || kind.Comment? || kind.DocComment? || kind.ModuleDocComment?
      || kind.IntLiteral? || kind.FloatLiteral?
    ensures !Operator(kind)
  {
  }

  lemma OthersAreLongest(u: Alphabet, s: string, i: nat, kind: TokenKind, end: nat)
    requires i <= end <= |s| && Uncut(kind)
    ensures Longest(u, s, i, kind, end)
  {
    hide Spelled, Operator, NoLongerOperator, NoLongerNumber, CommentEnds;
    NoOperators(kind);
  }

  // ---- Comments ----

  lemma CommentSpelled(u: Alphabet, s: string, i: nat)
    requires i < |s| && s[i] == '#'
    ensures var scan := ScanComment(s, i);
      Spelled(u, scan.kind, s[i..scan.end]) && Longest(u, s, i, scan.kind, scan.end)
  {
    hide EatWhile, ScanBlockComment, Operator, NoLongerOperator, NoLongerNumber, FixedSpelling, BlockComments.Body;
    var scan := ScanComment(s, i);
    if Peek(s, i + 1) == Some('=') {
      BlockCommentKinds(s, i + 2, 1);
      BlockComments.BlockCommentScan(s, i);
      assert scan.kind.Comment? ==> s[i..scan.end][..2] == "#=";
    } else if scan.kind.DocComment? {
      assert s[i..scan.end][..2] == "##";
    } else if scan.kind.ModuleDocComment? {
      assert s[i..scan.end][..3] == "##!";
    } else {
      assert s[i..scan.end][..1] == "#";
    }
    NoOperators(scan.kind);
  }

  // ---- Numbers ----

  lemma {:induction false} EatsRun(s: string, i: nat, e: nat, p: char -> bool)
    requires i <= e <= |s| && forall k | i <= k < e :: p(s[k])
    ensures e <= EatWhile(s, i, p)
    ensures !PeekIs(s, e, p) ==> EatWhile(s, i, p) == e
    decreases e - i
  {
    if i < e {
      EatsRun(s, i + 1, e, p);
    }
  }

  lemma EatenIsRun(s: string, i: nat, start: nat, p: char -> bool)
    requires i <= start <= |s|
    ensures Run(s[i..EatWhile(s, start, p)], start - i, EatWhile(s, start, p) - i, p)
  {
  }

  lemma ExponentSpelled(s: string, i: nat, a: nat)
    requires i <= a < |s| && IsExponentMark(s[a])
    ensures var e := ExponentEnd(s, a);
      ExponentText(s[i..e], a - i, e - i)
  {
    hide EatWhile;
    var b := if PeekIs(s, a + 1, IsSign) then a + 2 else a + 1;
    EatenIsRun(s, i, b, DigitOrUnderscore);
  }

  lemma DecimalSpelled(s: string, i: nat)
    requires i < |s| && IsDigit(s[i])
    ensures var scan := ScanDecimal(s, i);
      && (scan.kind.IntLiteral? || scan.kind.FloatLiteral?)
      && (scan.kind.IntLiteral? ==> IntText(s[i..scan.end]))
      && (scan.kind.FloatLiteral? ==> FloatText(s[i..scan.end]))
  {
    hide EatWhile, ExponentEnd;
    var d := EatWhile(s, i + 1, DigitOrUnderscore);
    var scan := ScanDecimal(s, i);
    var t := s[i..scan.end];
    assert d <= scan.end;
    assert DigitsText(t, 0, d - i);
    if Peek(s, d) == Some('.') && PeekIs(s, d + 1, IsDigit) {
      var f := EatWhile(s, d + 1, DigitOrUnderscore);
      assert f <= scan.end;
      assert FractionText(t, d - i, f - i);
      if PeekIs(s, f, IsExponentMark) {
        ExponentSpelled(s, i, f);
      }
      assert AfterDigits(t, d - i);
    } else if PeekIs(s, d, IsExponentMark) {
      ExponentSpelled(s, i, d);
      assert AfterDigits(t, d - i);
    }
  }

  lemma ExponentLongest(s: string, i: nat, a: nat, e: nat)
    requires i <= a < e <= |s| && ExponentText(s[i..e], a - i, e - i)
    ensures IsExponentMark(s[a]) && e <= ExponentEnd(s, a)
  {
    var t := s[i..e];
    assert forall k | i <= k < e :: s[k] == t[k - i];
    if PeekIs(s, a + 1, IsSign) && a + 1 < e {
      EatsRun(s, a + 2, e, DigitOrUnderscore);
    } else {
      EatsRun(s, a + 1, e, DigitOrUnderscore);
    }
  }

  lemma DigitsRun(s: string, i: nat, a: nat, b: nat, e: nat)
    requires i <= a <= b <= e <= |s| && DigitsText(s[i..e], a - i, b - i)
    ensures a < b && IsDigit(s[a]) && b <= EatWhile(s, a + 1, DigitOrUnderscore)
    ensures !PeekIs(s, b, DigitOrUnderscore) ==> EatWhile(s, a + 1, DigitOrUnderscore) == b
  {
    var t := s[i..e];
    assert forall k | i <= k < e :: s[k] == t[k - i];
    EatsRun(s, a + 1, b, DigitOrUnderscore);
  }

  lemma IntLongest(s: string, i: nat, e: nat)
    requires i < e <= |s| && IntText(s[i..e])
    ensures IsDigit(s[i]) && e <= ScanNumber(s, i).end
  {
    var t := s[i..e];
    assert forall k | i <= k < e :: s[k] == t[k - i];
    if DigitsText(t, 0, |t|) {
      DigitsRun(s, i, i, e, e);
      assert i + 1 < e ==> DigitOrUnderscore(s[i + 1]);
    } else if RadixText(t, 'x', 'X', HexOrUnderscore) {
      EatsRun(s, i + 2, e, HexOrUnderscore);
    } else if RadixText(t, 'b', 'B', BinaryOrUnderscore) {
      EatsRun(s, i + 2, e, BinaryOrUnderscore);
    } else {
      EatsRun(s, i + 2, e, OctalOrUnderscore);
    }
  }

  /** Where the digits of a float end, the scan leaves its first run of digits too. */
  lemma FloatDigits(s: string, i: nat, d: nat, e: nat)
    requires i + d < e <= |s| && DigitsText(s[i..e], 0, d) && (s[i + d] == '.' || IsExponentMark(s[i + d]))
    ensures IsDigit(s[i]) && ScanNumber(s, i) == ScanDecimal(s, i) && EatWhile(s, i + 1, DigitOrUnderscore) == i + d
  {
    hide ScanDecimal;
    var t := s[i..e];
    assert forall k | i <= k < e :: s[k] == t[k - i];
    DigitsRun(s, i, i, i + d, e);
    assert d > 1 ==> DigitOrUnderscore(s[i + 1]);
  }

  lemma FractionLongest(s: string, i: nat, d: nat, f: nat, e: nat)
    requires i + d < e <= |s| && FractionText(s[i..e], d, f)
    requires EatWhile(s, i + 1, DigitOrUnderscore) == i + d
    requires f == e - i || ExponentText(s[i..e], f, e - i)
    ensures e <= ScanDecimal(s, i).end
  {
    hide EatWhile, ExponentEnd;
    var t := s[i..e];
    assert s[i + d] == t[d];
    DigitsRun(s, i, i + d + 1, i + f, e);
    if f < e - i {
      assert s[i + f] == t[f];
      ExponentLongest(s, i, i + f, e);
    }
  }

  lemma FloatLongest(s: string, i: nat, e: nat)
    requires i < e <= |s| && FloatText(s[i..e])
    ensures IsDigit(s[i]) && e <= ScanNumber(s, i).end
  {
    hide EatWhile, ExponentEnd, DigitsText, Run, ScanNumber;
    var t := s[i..e];
    var d: nat :| DigitsText(t, 0, d) && AfterDigits(t, d);
    assert s[i + d] == t[d];
    FloatDigits(s, i, d, e);
    if ExponentText(t, d, |t|) {
      ExponentLongest(s, i, i + d, e);
    } else {
      var f: nat :| FractionText(t, d, f) && (f == |t| || ExponentText(t, f, |t|));
      FractionLongest(s, i, d, f, e);
    }
  }

  /** A number is a text of the number grammar, and no longer text of it starts there. */
  lemma NumberSpelled(u: Alphabet, s: string, i: nat)
    requires i < |s| && IsDigit(s[i])
    ensures var scan := ScanNumber(s, i);
      Spelled(u, scan.kind, s[i..scan.end]) && Longest(u, s, i, scan.kind, scan.end)
  {
    hide ScanNumber, FloatText, IntText, Operator, NoLongerOperator;
    NumberText(s, i);
    var scan := ScanNumber(s, i);
    forall e | scan.end < e <= |s| ensures !IntText(s[i..e]) && !FloatText(s[i..e]) {
      if IntText(s[i..e]) {
        IntLongest(s, i, e);
      } else if FloatText(s[i..e]) {
        FloatLongest(s, i, e);
      }
    }
    NoOperators(scan.kind);
  }

  lemma NumberText(s: string, i: nat)
    requires i < |s| && IsDigit(s[i])
    ensures var scan := ScanNumber(s, i);
      && (scan.kind.IntLiteral? || scan.kind.FloatLiteral?)
      && (scan.kind.IntLiteral? ==> IntText(s[i..scan.end]))
      && (scan.kind.FloatLiteral? ==> FloatText(s[i..scan.end]))
  {
    hide EatWhile, ScanDecimal, FloatText;
    DecimalSpelled(s, i);
    var radix := if s[i] == '0' then Peek(s, i + 1) else None;
    if radix.Some? && radix.value in {'x', 'X', 'b', 'B', 'o', 'O'} {
      EatenIsRun(s, i, i + 2, if radix.value in {'x', 'X'} then HexOrUnderscore
        else if radix.value in {'b', 'B'} then BinaryOrUnderscore else OctalOrUnderscore);
    }
  }

  // ---- Words ----

  /** A word runs on to the first character that cannot continue it; it is a keyword exactly when it
      spells one. */
  lemma IdentSpelled(u: Alphabet, s: string, i: nat)
    requires i < |s| && IsIdentStart(u, s[i])
    ensures var scan := ScanIdent(u, s, i);
      Spelled(u, scan.kind, s[i..scan.end]) && Longest(u, s, i, scan.kind, scan.end)
  {
    hide KEYWORDS, Longest;
    var scan := ScanIdent(u, s, i);
    assert Word(u, s[i..scan.end]);
    WordIsLongest(u, s, i, scan.kind, scan.end);
  }

  lemma WordIsLongest(u: Alphabet, s: string, i: nat, kind: TokenKind, end: nat)
    requires i <= end <= |s| && (kind.Ident? || kind.Keyword?) && !PeekIs(s, end, IdentContinue(u))
    ensures Longest(u, s, i, kind, end)
  {
  }

  lemma TildeSpelled(u: Alphabet, s: string, i: nat)
    requires i < |s| && s[i] == '~'
    ensures var scan := ScanTilde(s, i);
      Spelled(u, scan.kind, s[i..scan.end]) && Longest(u, s, i, scan.kind, scan.end)
  {
    hide RegexClose, EatWhile, Longest, FixedSpelling, Escaped;
    var scan := ScanTilde(s, i);
    if scan.kind.RegexLiteral? {
      var close := RegexClose(s, i + 3, false);
      RegexText(s, i, close, scan.end);
      RegexCloseIsFirst(s, i + 3);
      RegexIsLongest(u, s, i, scan.kind, scan.end);
    } else {
      OthersAreLongest(u, s, i, scan.kind, scan.end);
    }
  }

  lemma RegexIsLongest(u: Alphabet, s: string, i: nat, kind: TokenKind, end: nat)
    requires i <= end <= |s| && kind.RegexLiteral? && RegexEnds(s, i, |kind.pattern|, end)
    ensures Longest(u, s, i, kind, end)
  {
    hide Spelled, Operator, NoLongerOperator, NoLongerNumber, CommentEnds, RegexEnds;
    NoOperators(kind);
  }

  lemma RegexText(s: string, i: nat, close: nat, end: nat)
    requires i + 3 <= close < end <= |s| && s[i] == '~' && s[i + 1] == 'r' && s[i + 2] == '/' && s[close] == '/'
    ensures s[i..end] == "~r/" + s[i + 3..close] + "/" + s[close + 1..end]
  {
    assert s[i..i + 3] == "~r/" && s[close..close + 1] == "/";
    assert s[i..end] == s[i..i + 3] + s[i + 3..close] + s[close..close + 1] + s[close + 1..end];
  }

  lemma SlotPipeLongest(u: Alphabet, s: string, i: nat, n: nat, e: nat)
    requires i + 1 < |s| && i < e <= |s| && SlotPipeText(n, s[i..e])
    ensures s[i] == '|' && IsDigit(s[i + 1]) && ScanSlotPipe(s, i).end == e
  {
    var text := s[i..e];
    assert forall k | i < k < e :: s[k] == text[k - i];
    assert s[i] == text[0] && s[e - 1] == text[|text| - 1];
    var end := EatWhile(s, i + 1, IsDigit);
    assert forall k | i + 1 <= k < e - 1 :: IsDigit(s[k]);
    assert end >= e - 1;
    assert end <= e - 1;
  }

  lemma AtomLongest(u: Alphabet, s: string, i: nat, e: nat)
    requires i + 1 < |s| && i < e <= |s| && AtomText(u, s[i..e])
    ensures s[i] == ':' && PeekIs(s, i + 1, c => IsAsciiLower(c) || c == '_')
    ensures e <= EatWhile(s, i + 1, IdentContinue(u))
  {
    var text := s[i..e];
    assert forall k | i <= k < e :: s[k] == text[k - i];
    assert IdentContinue(u)(s[i + 1]);
    EatsRun(s, i + 1, e, IdentContinue(u));
  }

  lemma OperatorLongest(u: Alphabet, s: string, i: nat, longer: TokenKind, e: nat)
    requires i < |s| && OneCharOperator(s[i]).Some?
    requires ScanOperator(u, s, i).end < e <= |s| && Operator(longer)
    ensures !Spelled(u, longer, s[i..e])
  {
    hide EatWhile, ScanSlotPipe, KEYWORDS, Word, IntText, FloatText, LineText;
    if Spelled(u, longer, s[i..e]) {
      if longer.SlotPipe? {
        SlotPipeLongest(u, s, i, longer.slot, e);
      } else if longer.Atom? {
        AtomLongest(u, s, i, e);
      } else {
        FixedLongest(u, s, i, longer, e);
      }
    }
  }

  /** A longer operator with a fixed spelling is a two-character one. */
  lemma FixedLongest(u: Alphabet, s: string, i: nat, longer: TokenKind, e: nat)
    requires i + 1 < e <= |s| && FixedSpelling(longer) == Some(s[i..e])
    ensures e == i + 2 && TwoCharOperator(s[i], s[i + 1]) == Some(longer)
  {
    hide TwoCharOperator;
    ShortSpelling(longer);
    assert s[i..e] == [s[i], s[i + 1]];
    OnlyTwoChar(longer, s[i], s[i + 1]);
  }

  lemma OperatorIsLongest(u: Alphabet, s: string, i: nat)
    requires i < |s| && OneCharOperator(s[i]).Some?
    ensures var scan := ScanOperator(u, s, i);
      Longest(u, s, i, scan.kind, scan.end)
  {
    hide KEYWORDS, ScanSlotPipe, Spelled;
    var scan := ScanOperator(u, s, i);
    forall longer, e {:trigger Spelled(u, longer, s[i..e])} |
      scan.end < e <= |s| && Operator(longer)
      ensures !Spelled(u, longer, s[i..e])
    {
      OperatorLongest(u, s, i, longer, e);
    }
    OperatorKinds(u, s, i);
  }

  lemma OperatorKinds(u: Alphabet, s: string, i: nat)
    requires i < |s| && OneCharOperator(s[i]).Some?
    ensures var kind := ScanOperator(u, s, i).kind;
      && !kind.Ident? && !kind.Keyword? && !kind.Newline? && !kind.IntLiteral? && !kind.FloatLiteral?
      && !kind.Comment? && !kind.DocComment? && !kind.ModuleDocComment? && !kind.RegexLiteral?
    ensures ScanOperator(u, s, i).kind.Atom? ==> !PeekIs(s, ScanOperator(u, s, i).end, IdentContinue(u))
  {
    hide EatWhile;
  }

  lemma TokenSpelled(u: Alphabet, s: string, i: nat)
    requires i < |s|
    ensures var scan := ScanToken(u, s, i);
      Spelled(u, scan.kind, s[i..scan.end]) && Longest(u, s, i, scan.kind, scan.end)
  {
    hide ScanOperator, ScanComment, ScanNumber, ScanIdent, ScanNewline, KEYWORDS, Longest;
    if !IsLineText(s[i]) {
      NewlineSpelled(u, s, i);
    } else if OneCharOperator(s[i]).Some? {
      OperatorSpelled(u, s, i);
      OperatorIsLongest(u, s, i);
    } else if s[i] == '#' {
      CommentSpelled(u, s, i);
    } else if IsDigit(s[i]) {
      NumberSpelled(u, s, i);
    } else if IsIdentStart(u, s[i]) {
      IdentSpelled(u, s, i);
    } else {
      OthersAreLongest(u, s, i, Error, i + 1);
    }
  }

  // ---- A step and a stream ----

  ghost predicate Fitting(u: Alphabet, s: string, t: Lexeme) {
    && t.from <= t.to <= |s|
    && Spelled(u, t.kind, s[t.from..t.to])
    && Longest(u, s, t.from, t.kind, t.to)
  }

  lemma BraceIsLongest(u: Alphabet, s: string, i: nat)
    requires i < |s| && (s[i] == '{' || s[i] == '}')
    ensures NoLongerOperator(u, s, i, i + 1)
  {
    hide KEYWORDS;
    forall longer, e {:trigger Spelled(u, longer, s[i..e])} | i + 1 < e <= |s| && Operator(longer)
      ensures !Spelled(u, longer, s[i..e])
    {
      if Spelled(u, longer, s[i..e]) && !longer.SlotPipe? && !longer.Atom? {
        FixedLongest(u, s, i, longer, e);
      }
    }
  }

  lemma BraceFits(u: Alphabet, s: string, i: nat, kind: TokenKind)
    requires i < |s|
    requires if s[i] == '{' then kind == LBrace else s[i] == '}' && (kind == RBrace || kind == InterpolationEnd)
    ensures Fitting(u, s, Lexeme(kind, i, i + 1))
  {
    hide NoLongerOperator, NoLongerNumber, CommentEnds, RegexEnds;
    assert s[i..i + 1] == [s[i]];
    BraceIsLongest(u, s, i);
  }

  lemma QuoteFits(u: Alphabet, s: string, i: nat, triple: bool, kind: TokenKind)
    requires kind == StringStart || kind == StringEnd
    requires i < |s| && s[i] == '"' && (triple ==> Peek(s, i + 1) == Some('"') && Peek(s, i + 2) == Some('"'))
    ensures Fitting(u, s, Lexeme(kind, i, if triple then i + 3 else i + 1))
  {
    if triple {
      assert s[i..i + 3] == ['"', '"', '"'];
    } else {
      assert s[i..i + 1] == ['"'];
    }
  }

  lemma EndFits(u: Alphabet, s: string)
    ensures Fitting(u, s, Lexeme(Eof, |s|, |s|)) && Fitting(u, s, Lexeme(Error, |s|, |s|))
  {
  }

  lemma CodeFits(u: Alphabet, s: string, i: nat, stack: StateStack)
    requires i <= |s| && WellStacked(stack) && !Top(stack).InString?
    ensures forall t | t in Produce(u, s, i, stack).tokens :: Fitting(u, s, t)
  {
    hide Spelled, Longest, ScanToken, ScanTilde, EatWhile;
    var j := SkipBlanks(s, i);
    if j == |s| {
      EndFits(u, s);
    } else if s[j] == '{' || s[j] == '}' {
      BraceFits(u, s, j, Produce(u, s, i, stack).tokens[0].kind);
    } else if s[j] == '"' {
      QuoteFits(u, s, j, Peek(s, j + 1) == Some('"') && Peek(s, j + 2) == Some('"'), StringStart);
    } else if s[j] == '~' && Top(stack).Normal? {
      TildeSpelled(u, s, j);
    } else {
      TokenSpelled(u, s, j);
    }
  }

  lemma ContentFits(u: Alphabet, s: string, i: nat, e: nat)
    requires i < e <= |s|
    ensures Fitting(u, s, Lexeme(StringContent, i, e))
  {
  }

  lemma InterpolationFits(u: Alphabet, s: string, e: nat)
    requires e + 1 < |s| && AtInterpolation(s, e)
    ensures Fitting(u, s, Lexeme(InterpolationStart, e, e + 2))
  {
    assert s[e..e + 2] == [s[e], s[e + 1]];
  }

  lemma StringFits(u: Alphabet, s: string, i: nat, stack: StateStack, triple: bool)
    requires i <= |s| && |stack| > 0
    ensures forall t | t in LexStringContent(s, i, stack, triple).tokens :: Fitting(u, s, t)
  {
    hide ContentStop, Fitting;
    var e := ContentStop(s, i, triple);
    if e > i {
      ContentFits(u, s, i, e);
    }
    if e == |s| {
      EndFits(u, s);
    } else if AtInterpolation(s, e) {
      InterpolationFits(u, s, e);
    } else {
      assert AtClosingQuote(s, e, triple);
      QuoteFits(u, s, e, triple, StringEnd);
    }
  }

  lemma {:induction false} StreamFits(u: Alphabet, s: string, i: nat, stack: StateStack)
    requires i <= |s| && WellStacked(stack)
    ensures forall t | t in Stream(u, s, i, stack) :: Fitting(u, s, t)
    decreases Work(s, i, stack)
  {
    hide Fitting, Produce;
    StepProgress(u, s, i, stack);
    var step := Produce(u, s, i, stack);
    if Top(stack).InString? {
      StringFits(u, s, i, stack, Top(stack).triple);
      ProduceInString(u, s, i, stack);
    } else {
      CodeFits(u, s, i, stack);
    }
    if !IsFinal(step) {
      StreamFits(u, s, step.pos, step.stack);
    }
  }

  lemma ProduceInString(u: Alphabet, s: string, i: nat, stack: StateStack)
    requires i <= |s| && |stack| > 0 && Top(stack).InString?
    ensures Produce(u, s, i, stack) == LexStringContent(s, i, stack, Top(stack).triple)
  {
  }

  /** For every source: each token's text is a text of its kind, and it ends where it should. */
  lemma TokensFitTheirKinds(u: Alphabet, s: string)
    ensures forall t | t in Lex(u, s) :: Fitting(u, s, t)
  {
    StreamFits(u, s, 0, [Normal]);
  }
}

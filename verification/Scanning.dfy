/** What each token scan of the lexer consumes, as functions of the text and a position.
    Every scan starts on the first character of its token and reports where the token ends. */
module Scanning {
  import opened Wrappers
  import opened Tokens

  // ---- Character classes ----

  predicate IsBlank(c: char) { c == ' ' || c == '\t' }
  predicate IsLineText(c: char) { c != '\n' && c != '\r' }
  predicate IsDigit(c: char) { '0' <= c <= '9' }
  predicate IsAsciiLower(c: char) { 'a' <= c <= 'z' }
  predicate IsAsciiLetter(c: char) { IsAsciiLower(c) || 'A' <= c <= 'Z' }
  predicate DigitOrUnderscore(c: char) { IsDigit(c) || c == '_' }
  predicate HexOrUnderscore(c: char) { DigitOrUnderscore(c) || 'a' <= c <= 'f' || 'A' <= c <= 'F' }
  predicate BinaryOrUnderscore(c: char) { c == '0' || c == '1' || c == '_' }
  predicate OctalOrUnderscore(c: char) { '0' <= c <= '7' || c == '_' }
  predicate IsRegexFlag(c: char) { c == 'i' || c == 'm' || c == 's' }

  /** The digits of each radix, and the underscore. */
  lemma DigitTables(c: char)
    ensures DigitOrUnderscore(c) <==> c in "0123456789_"
    ensures HexOrUnderscore(c) <==> c in "0123456789abcdefABCDEF_"
    ensures OctalOrUnderscore(c) <==> c in "01234567_"
    ensures BinaryOrUnderscore(c) <==> c in "01_"
  {
  }

  /** The Unicode tables behind `char::is_alphabetic` and `char::is_numeric`; the lexer relies
      only on what they say about ASCII. */
  datatype CharTables = CharTables(alphabetic: char -> bool, numeric: char -> bool)

  ghost predicate AsciiFaithful(u: CharTables) {
    forall c: char | c < 128 as char ::
      u.alphabetic(c) == IsAsciiLetter(c) && u.numeric(c) == IsDigit(c)
  }

  type Alphabet = u: CharTables | AsciiFaithful(u)
    witness CharTables(c => IsAsciiLetter(c), c => IsDigit(c))

  predicate IsIdentStart(u: Alphabet, c: char) { u.alphabetic(c) || c == '_' }

  function IdentContinue(u: Alphabet): char -> bool {
    c => u.alphabetic(c) || u.numeric(c) || c == '_'
  }

  // ---- Looking and eating ----

  function Peek(s: string, i: nat): Option<char> {
    if i < |s| then Some(s[i]) else None
  }

  predicate PeekIs(s: string, i: nat, p: char -> bool) {
    i < |s| && p(s[i])
  }

  /** The end of the longest run of characters satisfying `p` that starts at `i`. */
  function EatWhile(s: string, i: nat, p: char -> bool): (end: nat)
    requires i <= |s|
    ensures i <= end <= |s|
    ensures forall k | i <= k < end :: p(s[k])
    ensures !PeekIs(s, end, p)
    decreases |s| - i
  {
    if PeekIs(s, i, p) then EatWhile(s, i + 1, p) else i
  }

  /** A scanned token: its kind and the position after its last character. */
  datatype Scan = Scan(kind: TokenKind, end: nat)

  // ---- Operators and delimiters ----

  /** The kind of a one-character operator or delimiter. */
  function OneCharOperator(c: char): Option<TokenKind> {
    match c
    case '(' => Some(LParen)
    case ')' => Some(RParen)
    case '[' => Some(LBracket)
    case ']' => Some(RBracket)
    case ',' => Some(Comma)
    case ';' => Some(Semicolon)
    case '@' => Some(At)
    case '=' => Some(Eq)
    case '!' => Some(Bang)
    case '<' => Some(Lt)
    case '>' => Some(Gt)
    case '&' => Some(Error)
    case '|' => Some(Bar)
    case '+' => Some(Plus)
    case '-' => Some(Minus)
    case ':' => Some(Colon)
    case '.' => Some(Dot)
    case '*' => Some(Star)
    case '/' => Some(Slash)
    case '%' => Some(Percent)
    case '?' => Some(Question)
    case _ => None
  }

  /** The kind of a two-character operator. */
  function TwoCharOperator(c: char, d: char): Option<TokenKind> {
    match (c, d)
    case ('=', '=') => Some(EqEq)
    case ('=', '>') => Some(FatArrow)
    case ('!', '=') => Some(NotEq)
    case ('<', '=') => Some(LtEq)
    case ('<', '>') => Some(Diamond)
    case ('>', '=') => Some(GtEq)
    case ('&', '&') => Some(AmpAmp)
    case ('|', '|') => Some(PipePipe)
    case ('|', '>') => Some(Pipe)
    case ('+', '+') => Some(PlusPlus)
    case ('-', '>') => Some(Arrow)
    case (':', ':') => Some(ColonColon)
    case ('.', '.') => Some(DotDot)
    case _ => None
  }

  /** Maximal munch: a two-character operator wins over its one-character prefix; `:name` and
      `|N>` extend `:` and `|`. */
  function ScanOperator(u: Alphabet, s: string, i: nat): (r: Scan)
    requires i < |s| && OneCharOperator(s[i]).Some?
    ensures i < r.end <= |s|
  {
    if i + 1 < |s| && TwoCharOperator(s[i], s[i + 1]).Some? then
      Scan(TwoCharOperator(s[i], s[i + 1]).value, i + 2)
    else if s[i] == ':' && PeekIs(s, i + 1, c => IsAsciiLower(c) || c == '_') then
      Scan(Atom, EatWhile(s, i + 1, IdentContinue(u)))
    else if s[i] == '|' && PeekIs(s, i + 1, IsDigit) then
      ScanSlotPipe(s, i)
    else
      Scan(OneCharOperator(s[i]).value, i + 1)
  }

  const U32_MAX: nat := 0xFFFF_FFFF

  function DigitValue(c: char): nat
    requires IsDigit(c)
  {
    c as int - '0' as int
  }

  function DecimalValue(digits: string): nat
    requires forall k | 0 <= k < |digits| :: IsDigit(digits[k])
  {
    if digits == "" then 0
    else DecimalValue(digits[..|digits| - 1]) * 10 + DigitValue(digits[|digits| - 1])
  }

  function DecimalText(n: nat): (digits: string)
    ensures digits != "" && forall k | 0 <= k < |digits| :: IsDigit(digits[k])
  {
    (if n < 10 then "" else DecimalText(n / 10)) + ["0123456789"[n % 10]]
  }

  predicate AllDigits(text: string) {
    forall k | 0 <= k < |text| :: IsDigit(text[k])
  }

  lemma OneMoreDigit(front: string, d: nat)
    requires AllDigits(front) && d < 10
    ensures var text := front + ["0123456789"[d]];
      AllDigits(text) && DecimalValue(text) == DecimalValue(front) * 10 + d
  {
    var text := front + ["0123456789"[d]];
    assert text[..|text| - 1] == front;
    assert AllDigits(text);
  }

  function Zeros(n: nat): (zeros: string)
    ensures |zeros| == n && AllDigits(zeros)
  {
    if n == 0 then "" else Zeros(n - 1) + "0"
  }

  lemma {:induction false} ZerosAreNothing(n: nat)
    ensures DecimalValue(Zeros(n)) == 0
  {
    if n > 0 {
      ZerosAreNothing(n - 1);
      OneMoreDigit(Zeros(n - 1), 0);
    }
  }

  /** The value of the decimal writing of a number, leading zeros or not, is the number. */
  lemma {:induction false} DecimalIsRead(n: nat, zeros: nat)
    ensures var text := Zeros(zeros) + DecimalText(n);
      AllDigits(text) && DecimalValue(text) == n
    decreases n
  {
    hide DecimalValue, Zeros, IsDigit;
    if n >= 10 {
      var front := Zeros(zeros) + DecimalText(n / 10);
      DecimalIsRead(n / 10, zeros);
      OneMoreDigit(front, n % 10);
      assert Zeros(zeros) + DecimalText(n) == front + ["0123456789"[n % 10]];
    } else {
      ZerosAreNothing(zeros);
      OneMoreDigit(Zeros(zeros), n);
      assert Zeros(zeros) + DecimalText(n) == Zeros(zeros) + ["0123456789"[n % 10]];
    }
  }

  /** `digit_str.parse::<u32>().unwrap_or(0)`: a number that does not fit counts as zero. */
  function ParseU32(digits: string): (n: nat)
    requires forall k | 0 <= k < |digits| :: IsDigit(digits[k])
    ensures n <= U32_MAX
  {
    var n := DecimalValue(digits);
    if n <= U32_MAX then n else 0
  }

  /** `|N>`; slots 0 and 1, and digits without `>`, are errors. */
  function ScanSlotPipe(s: string, i: nat): (r: Scan)
    requires i + 1 < |s| && IsDigit(s[i + 1])
    ensures i < r.end <= |s|
  {
    var e := EatWhile(s, i + 1, IsDigit);
    if Peek(s, e) == Some('>') then
      var n := ParseU32(s[i + 1..e]);
      Scan(if n <= 1 then Error else SlotPipe(n), e + 1)
    else
      Scan(Error, e)
  }

  // ---- Regex literals ----

  /** The position of the first `/` not escaped by a backslash, or the end of the text. */
  function RegexClose(s: string, i: nat, escaped: bool): (r: nat)
    requires i <= |s|
    ensures i <= r <= |s|
    ensures r < |s| ==> s[r] == '/'
    decreases |s| - i
  {
    if i == |s| then i
    else if s[i] == '/' && !escaped then i
    else RegexClose(s, i + 1, s[i] == '\\' && !escaped)
  }

  /** Pattern and flags, from the character after the opening `/`. */
  function ScanRegexBody(s: string, i: nat): (r: Scan)
    requires i <= |s|
    ensures i <= r.end <= |s|
  {
    var close := RegexClose(s, i, false);
    if close == |s| then Scan(Error, |s|)
    else
      var e := EatWhile(s, close + 1, IsRegexFlag);
      if PeekIs(s, e, IsAsciiLetter) then Scan(Error, e + 1)
      else Scan(RegexLiteral(s[i..close], s[close + 1..e]), e)
  }

  /** `~r/pattern/flags`, or an error for anything else that starts with `~`. */
  function ScanTilde(s: string, i: nat): (r: Scan)
    requires i < |s| && s[i] == '~'
    ensures i < r.end <= |s|
  {
    if Peek(s, i + 1) != Some('r') then Scan(Error, i + 1)
    else if Peek(s, i + 2) != Some('/') then Scan(Error, i + 2)
    else ScanRegexBody(s, i + 3)
  }

  // ---- Comments ----

  /** The depth-counting scan of a nestable block comment. */
  function ScanBlockComment(s: string, i: nat, depth: nat): (r: Scan)
    requires i <= |s| && depth > 0
    ensures i <= r.end <= |s|
    decreases |s| - i
  {
    if i == |s| then Scan(Error, i)
    else if s[i] == '#' && Peek(s, i + 1) == Some('=') then ScanBlockComment(s, i + 2, depth + 1)
    else if s[i] == '=' && Peek(s, i + 1) == Some('#') then
      if depth == 1 then Scan(Comment, i + 2) else ScanBlockComment(s, i + 2, depth - 1)
    else ScanBlockComment(s, i + 1, depth)
  }

  function ScanComment(s: string, i: nat): (r: Scan)
    requires i < |s| && s[i] == '#'
    ensures i < r.end <= |s|
  {
    if Peek(s, i + 1) == Some('#') then
      if Peek(s, i + 2) == Some('!') then Scan(ModuleDocComment, EatWhile(s, i + 3, IsLineText))
      else Scan(DocComment, EatWhile(s, i + 2, IsLineText))
    else if Peek(s, i + 1) == Some('=') then ScanBlockComment(s, i + 2, 1)
    else Scan(Comment, EatWhile(s, i + 1, IsLineText))
  }

  // ---- Numbers ----

  predicate IsExponentMark(c: char) { c == 'e' || c == 'E' }
  predicate IsSign(c: char) { c == '+' || c == '-' }

  function ExponentEnd(s: string, i: nat): (end: nat)
    requires i < |s| && IsExponentMark(s[i])
    ensures i < end <= |s|
  {
    EatWhile(s, if PeekIs(s, i + 1, IsSign) then i + 2 else i + 1, DigitOrUnderscore)
  }

  /** Digits, then a fraction only if a digit follows the point, then an exponent. */
  function ScanDecimal(s: string, i: nat): (r: Scan)
    requires i < |s|
    ensures i < r.end <= |s|
  {
    var d := EatWhile(s, i + 1, DigitOrUnderscore);
    if Peek(s, d) == Some('.') && PeekIs(s, d + 1, IsDigit) then
      var f := EatWhile(s, d + 1, DigitOrUnderscore);
      Scan(FloatLiteral, if PeekIs(s, f, IsExponentMark) then ExponentEnd(s, f) else f)
    else if PeekIs(s, d, IsExponentMark) then Scan(FloatLiteral, ExponentEnd(s, d))
    else Scan(IntLiteral, d)
  }

  function ScanNumber(s: string, i: nat): (r: Scan)
    requires i < |s| && IsDigit(s[i])
    ensures i < r.end <= |s|
  {
    var radix := if s[i] == '0' then Peek(s, i + 1) else None;
    if radix == Some('x') || radix == Some('X') then Scan(IntLiteral, EatWhile(s, i + 2, HexOrUnderscore))
    else if radix == Some('b') || radix == Some('B') then Scan(IntLiteral, EatWhile(s, i + 2, BinaryOrUnderscore))
    else if radix == Some('o') || radix == Some('O') then Scan(IntLiteral, EatWhile(s, i + 2, OctalOrUnderscore))
    else ScanDecimal(s, i)
  }

  // ---- Words ----

  function ScanIdent(u: Alphabet, s: string, i: nat): (r: Scan)
    requires i < |s| && IsIdentStart(u, s[i])
    ensures i < r.end <= |s|
  {
    var e := EatWhile(s, i + 1, IdentContinue(u));
    var keyword := KeywordFromStr(s[i..e]);
    Scan(if keyword.Some? then keyword.value else Ident, e)
  }

  // ---- The table shared by normal and interpolation mode ----

  function ScanNewline(s: string, i: nat): (r: Scan)
    requires i < |s| && !IsLineText(s[i])
    ensures i < r.end <= |s|
  {
    Scan(Newline, if s[i] == '\r' && Peek(s, i + 1) == Some('\n') then i + 2 else i + 1)
  }

  function ScanToken(u: Alphabet, s: string, i: nat): (r: Scan)
    requires i < |s|
    ensures i < r.end <= |s|
  {
    if !IsLineText(s[i]) then ScanNewline(s, i)
    else if OneCharOperator(s[i]).Some? then ScanOperator(u, s, i)
    else if s[i] == '#' then ScanComment(s, i)
    else if IsDigit(s[i]) then ScanNumber(s, i)
    else if IsIdentStart(u, s[i]) then ScanIdent(u, s, i)
    else Scan(Error, i + 1)
  }

  // ---- String content ----

  /** The position after one element of string content: an escape, two quotes that do not close
      anything, or one character. */
  function ContentNext(s: string, i: nat): (j: nat)
    requires i < |s|
    ensures i < j <= |s|
  {
    if s[i] == '\\' then (if i + 2 <= |s| then i + 2 else |s|)
    else if s[i] == '"' && Peek(s, i + 1) == Some('"') then i + 2
    else i + 1
  }

  /** Where the literal text of a string stops: at `${` or `#{`, at the closing quotes, or at the
      end of the text. A backslash carries the next character with it. */
  function ContentStop(s: string, i: nat, triple: bool): (r: nat)
    requires i <= |s|
    ensures i <= r <= |s|
    ensures r < |s| ==> AtTerminator(s, r, triple)
    decreases |s| - i
  {
    if i == |s| || AtTerminator(s, i, triple) then i
    else ContentStop(s, ContentNext(s, i), triple)
  }

  predicate AtTerminator(s: string, i: nat, triple: bool)
    requires i < |s|
  {
    AtInterpolation(s, i) || AtClosingQuote(s, i, triple)
  }

  predicate AtInterpolation(s: string, i: nat)
    requires i < |s|
  {
    (s[i] == '$' || s[i] == '#') && Peek(s, i + 1) == Some('{')
  }

  predicate AtClosingQuote(s: string, i: nat, triple: bool)
    requires i < |s|
  {
    s[i] == '"' && (triple ==> Peek(s, i + 1) == Some('"') && Peek(s, i + 2) == Some('"'))
  }
}

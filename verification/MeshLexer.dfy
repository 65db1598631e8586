/** The lexer itself: a cursor, a state stack and a one-token queue. Every scanning method is
    proved to take the scan of module `Scanning`; `Next` is proved to yield, one at a time, the
    stream of module `LexerMachine`. */
module MeshLexer {
  import opened Wrappers
  import opened Unicode
  import opened SourceCursor
  import opened Tokens
  import opened Scanning
  import opened LexerMachine
  import opened LexerTiling

  /** The rest of the stream, as the tokens the iterator hands out. */
  ghost function StreamTokens(u: Alphabet, s: string, i: nat, stack: StateStack): seq<Token>
    requires i <= |s| && WellStacked(stack)
  {
    StreamTiles(u, s, i, stack);
    TilesInText(s, i, Stream(u, s, i, stack), |s|);
    ToTokens(s, Stream(u, s, i, stack))
  }

  /** One step of the machine is a prefix of what is still to come. */
  lemma StreamTokensStep(u: Alphabet, s: string, i: nat, stack: StateStack)
    requires i <= |s| && WellStacked(stack)
    ensures var step := Produce(u, s, i, stack);
      && Progress(s, i, stack, step) && InText(s, step.tokens)
      && StreamTokens(u, s, i, stack) == ToTokens(s, step.tokens)
        + if IsFinal(step) then [] else StreamTokens(u, s, step.pos, step.stack)
  {
    hide Produce;
    var step := Produce(u, s, i, stack);
    StepProgress(u, s, i, stack);
    StepTiles(u, s, i, stack);
    TilesInText(s, i, step.tokens, step.pos);
  }

  lemma ContentStopStep(s: string, i: nat, triple: bool)
    requires i <= |s|
    ensures ContentStop(s, i, triple)
      == if i == |s| || AtTerminator(s, i, triple) then i else ContentStop(s, ContentNext(s, i), triple)
  {
  }

  /** What a step hands out and queues is what the stream starts with. */
  lemma StepIsPrefix(u: Alphabet, s: string, i: nat, stack: StateStack, token: Token, queued: seq<Token>)
    requires i <= |s| && WellStacked(stack)
    requires var step := Produce(u, s, i, stack);
      InText(s, step.tokens) && [token] + queued == ToTokens(s, step.tokens)
    ensures var step := Produce(u, s, i, stack);
      && step.pos <= |s| && WellStacked(step.stack)
      && |queued| <= 1 && (queued != [] ==> queued[0].kind != Eof)
      && StreamTokens(u, s, i, stack)
        == [token] + if token.kind == Eof then [] else queued + StreamTokens(u, s, step.pos, step.stack)
  {
    hide Produce, StreamTokens;
    StreamTokensStep(u, s, i, stack);
    var step := Produce(u, s, i, stack);
    FinalIsEof(s, i, stack, step);
    var handed := ToTokens(s, step.tokens);
    assert handed[0] == token && |handed| == |step.tokens| == 1 + |queued|;
    if queued != [] {
      assert queued[0] == handed[1];
    }
  }

  lemma FinalIsEof(s: string, i: nat, stack: StateStack, step: Step)
    requires i <= |s| && Progress(s, i, stack, step)
    ensures step.tokens != [] && (IsFinal(step) <==> step.tokens[0].kind == Eof)
    ensures |step.tokens| == 2 ==> step.tokens[1].kind != Eof
  {
  }

  class Lexer {
    const alphabet: Alphabet
    const cursor: Cursor
    var emittedEof: bool
    var pending: seq<Token>
    var stateStack: StateStack
    /** The tokens handed out so far. */
    ghost var history: seq<Token>

    /** Between calls of `ProduceToken`: nothing is queued. */
    ghost predicate Ready()
      reads this, cursor
    {
      cursor.Valid() && WellStacked(stateStack) && pending == []
    }

    /** At most one token is queued, and it is never `Eof`. */
    ghost predicate WellFormed()
      reads this, cursor
    {
      && cursor.Valid()
      && WellStacked(stateStack)
      && |pending| <= 1
      && (pending != [] ==> pending[0].kind != Eof)
    }

    /** What was handed out and what is still to come are, together, the stream of the source. */
    ghost predicate Valid()
      reads this, cursor
    {
      WellFormed() && history + Remaining() == Whole()
    }

    /** Every token of the source. */
    ghost function Whole(): seq<Token>
    {
      StreamTokens(alphabet, cursor.source, 0, [Normal])
    }

    /** What is still to come. */
    ghost function Remaining(): seq<Token>
      requires cursor.Valid() && WellStacked(stateStack)
      reads this, cursor
    {
      if emittedEof then [] else pending + StreamTokens(alphabet, cursor.source, cursor.chars, stateStack)
    }

    constructor (alphabet: Alphabet, source: string)
      ensures Valid() && fresh(cursor) && !emittedEof && history == []
      ensures this.alphabet == alphabet && cursor.source == source
    {
      this.alphabet := alphabet;
      cursor := new Cursor(source);
      emittedEof, pending, stateStack, history := false, [], [Normal], [];
    }

    // ---- Scans ----

    /** `token` is what `scan` takes from character `i`, and the cursor stands right after it. */
    ghost predicate Took(token: Token, i: nat, scan: Scan)
      reads cursor
    {
      && cursor.Valid()
      && cursor.chars == scan.end
      && i <= |cursor.source|
      && token == ToToken(cursor.source, Lexeme(scan.kind, i, scan.end))
    }

    /** The cursor stands on `c`, at byte offset `start`. */
    ghost predicate On(c: char, start: nat)
      reads cursor
    {
      cursor.Valid() && Peek(cursor.source, cursor.chars) == Some(c) && start == cursor.pos
    }

    method NewToken(kind: TokenKind, start: nat, ghost i: nat) returns (token: Token)
      requires cursor.Valid() && i <= cursor.chars && start == ByteOffset(cursor.source, i)
      ensures Took(token, i, Scan(kind, cursor.chars))
    {
      token := Token(kind, Span(start, cursor.pos));
    }

    method SkipWhitespace()
      requires cursor.Valid()
      modifies cursor
      ensures cursor.Valid() && cursor.chars == SkipBlanks(cursor.source, old(cursor.chars))
    {
      cursor.EatWhile(IsBlank);
    }

    method SingleCharToken(kind: TokenKind, start: nat) returns (token: Token)
      requires cursor.Valid() && cursor.chars < |cursor.source| && start == cursor.pos
      modifies cursor
      ensures Took(token, old(cursor.chars), Scan(kind, old(cursor.chars) + 1))
    {
      ghost var i := cursor.chars;
      var _ := cursor.Advance();
      token := NewToken(kind, start, i);
    }

    method LexEq(start: nat) returns (token: Token)
      requires On('=', start)
      modifies cursor
      ensures Took(token, old(cursor.chars), ScanOperator(alphabet, cursor.source, old(cursor.chars)))
    {
      ghost var i := cursor.chars;
      var _ := cursor.Advance();
      if cursor.Peek() == Some('=') {
        var _ := cursor.Advance();
        token := NewToken(EqEq, start, i);
      } else if cursor.Peek() == Some('>') {
        var _ := cursor.Advance();
        token := NewToken(FatArrow, start, i);
      } else {
        token := NewToken(Eq, start, i);
      }
    }

    method LexBang(start: nat) returns (token: Token)
      requires On('!', start)
      modifies cursor
      ensures Took(token, old(cursor.chars), ScanOperator(alphabet, cursor.source, old(cursor.chars)))
    {
      ghost var i := cursor.chars;
      var _ := cursor.Advance();
      if cursor.Peek() == Some('=') {
        var _ := cursor.Advance();
        token := NewToken(NotEq, start, i);
      } else {
        token := NewToken(Bang, start, i);
      }
    }

    method LexLt(start: nat) returns (token: Token)
      requires On('<', start)
      modifies cursor
      ensures Took(token, old(cursor.chars), ScanOperator(alphabet, cursor.source, old(cursor.chars)))
    {
      ghost var i := cursor.chars;
      var _ := cursor.Advance();
      if cursor.Peek() == Some('=') {
        var _ := cursor.Advance();
        token := NewToken(LtEq, start, i);
      } else if cursor.Peek() == Some('>') {
        var _ := cursor.Advance();
        token := NewToken(Diamond, start, i);
      } else {
        token := NewToken(Lt, start, i);
      }
    }

    method LexGt(start: nat) returns (token: Token)
      requires On('>', start)
      modifies cursor
      ensures Took(token, old(cursor.chars), ScanOperator(alphabet, cursor.source, old(cursor.chars)))
    {
      ghost var i := cursor.chars;
      var _ := cursor.Advance();
      if cursor.Peek() == Some('=') {
        var _ := cursor.Advance();
        token := NewToken(GtEq, start, i);
      } else {
        token := NewToken(Gt, start, i);
      }
    }

    method LexAmp(start: nat) returns (token: Token)
      requires On('&', start)
      modifies cursor
      ensures Took(token, old(cursor.chars), ScanOperator(alphabet, cursor.source, old(cursor.chars)))
    {
      ghost var i := cursor.chars;
      var _ := cursor.Advance();
      if cursor.Peek() == Some('&') {
        var _ := cursor.Advance();
        token := NewToken(AmpAmp, start, i);
      } else {
        token := NewToken(Error, start, i);
      }
    }

    method LexPipe(start: nat) returns (token: Token)
      requires On('|', start)
      modifies cursor
      ensures Took(token, old(cursor.chars), ScanOperator(alphabet, cursor.source, old(cursor.chars)))
    {
      hide EatWhile, ByteOffset, DecimalValue;
      ghost var i := cursor.chars;
      var _ := cursor.Advance();
      var c := cursor.Peek();
      if c == Some('|') {
        var _ := cursor.Advance();
        token := NewToken(PipePipe, start, i);
      } else if c == Some('>') {
        var _ := cursor.Advance();
        token := NewToken(Pipe, start, i);
      } else if c.Some? && IsDigit(c.value) {
        var digitStart := cursor.pos;
        cursor.EatWhile(IsDigit);
        var digits := cursor.Slice(digitStart, cursor.pos);
        assert digits == cursor.source[i + 1..cursor.chars];
        var n := ParseU32(digits);
        if cursor.Peek() == Some('>') {
          var _ := cursor.Advance();
          token := NewToken(if n == 0 || n == 1 then Error else SlotPipe(n), start, i);
        } else {
          token := NewToken(Error, start, i);
        }
      } else {
        token := NewToken(Bar, start, i);
      }
    }

    method LexPlus(start: nat) returns (token: Token)
      requires On('+', start)
      modifies cursor
      ensures Took(token, old(cursor.chars), ScanOperator(alphabet, cursor.source, old(cursor.chars)))
    {
      ghost var i := cursor.chars;
      var _ := cursor.Advance();
      if cursor.Peek() == Some('+') {
        var _ := cursor.Advance();
        token := NewToken(PlusPlus, start, i);
      } else {
        token := NewToken(Plus, start, i);
      }
    }

    method LexMinus(start: nat) returns (token: Token)
      requires On('-', start)
      modifies cursor
      ensures Took(token, old(cursor.chars), ScanOperator(alphabet, cursor.source, old(cursor.chars)))
    {
      ghost var i := cursor.chars;
      var _ := cursor.Advance();
      if cursor.Peek() == Some('>') {
        var _ := cursor.Advance();
        token := NewToken(Arrow, start, i);
      } else {
        token := NewToken(Minus, start, i);
      }
    }

    method LexColon(start: nat) returns (token: Token)
      requires On(':', start)
      modifies cursor
      ensures Took(token, old(cursor.chars), ScanOperator(alphabet, cursor.source, old(cursor.chars)))
    {
      ghost var i := cursor.chars;
      var _ := cursor.Advance();
      var c := cursor.Peek();
      if c == Some(':') {
        var _ := cursor.Advance();
        token := NewToken(ColonColon, start, i);
      } else if c.Some? && (IsAsciiLower(c.value) || c.value == '_') {
        cursor.EatWhile(IdentContinue(alphabet));
        token := NewToken(Atom, start, i);
      } else {
        token := NewToken(Colon, start, i);
      }
    }

    method LexDot(start: nat) returns (token: Token)
      requires On('.', start)
      modifies cursor
      ensures Took(token, old(cursor.chars), ScanOperator(alphabet, cursor.source, old(cursor.chars)))
    {
      ghost var i := cursor.chars;
      var _ := cursor.Advance();
      if cursor.Peek() == Some('.') {
        var _ := cursor.Advance();
        token := NewToken(DotDot, start, i);
      } else {
        token := NewToken(Dot, start, i);
      }
    }

    /** Pattern characters up to the closing `/`, which is consumed; None if the text ends first. */
    method ReadRegexPattern() returns (result: Option<string>)
      requires cursor.Valid()
      modifies cursor
      ensures cursor.Valid()
      ensures var s, from := cursor.source, old(cursor.chars);
        var close := RegexClose(s, from, false);
        if close == |s| then result == None && cursor.chars == |s|
        else result == Some(s[from..close]) && cursor.chars == close + 1
    {
      ghost var s, from := cursor.source, cursor.chars;
      var pattern := "";
      var prevWasBackslash := false;
      while true
        invariant cursor.Valid() && from <= cursor.chars && pattern == s[from..cursor.chars]
        invariant RegexClose(s, cursor.chars, prevWasBackslash) == RegexClose(s, from, false)
        decreases |s| - cursor.chars
      {
        var c := cursor.Peek();
        if c == None {
          return None;
        }
        if c == Some('/') && !prevWasBackslash {
          var _ := cursor.Advance();
          return Some(pattern);
        }
        pattern := pattern + [c.value];
        prevWasBackslash := c.value == '\\' && !prevWasBackslash;
        var _ := cursor.Advance();
      }
    }

    method ReadRegexFlags() returns (flags: string)
      requires cursor.Valid()
      modifies cursor
      ensures cursor.Valid() && cursor.chars == EatWhile(cursor.source, old(cursor.chars), IsRegexFlag)
      ensures flags == cursor.source[old(cursor.chars)..cursor.chars]
    {
      ghost var s, from := cursor.source, cursor.chars;
      flags := "";
      while cursor.Peek().Some? && IsRegexFlag(cursor.Peek().value)
        invariant cursor.Valid() && from <= cursor.chars && flags == s[from..cursor.chars]
        invariant EatWhile(s, cursor.chars, IsRegexFlag) == EatWhile(s, from, IsRegexFlag)
        decreases |s| - cursor.chars
      {
        flags := flags + [cursor.Peek().value];
        var _ := cursor.Advance();
      }
    }

    /** `~r/pattern/flags`; the caller has consumed `~` and stands on `r`. */
    method LexRegexLiteral(start: nat, ghost i: nat) returns (token: Token)
      requires On('r', cursor.pos) && cursor.chars == i + 1 && start == ByteOffset(cursor.source, i)
      requires cursor.source[i] == '~'
      modifies cursor
      ensures Took(token, i, ScanTilde(cursor.source, i))
    {
      hide EatWhile, RegexClose, ByteOffset;
      var _ := cursor.Advance();
      if cursor.Peek() != Some('/') {
        token := NewToken(Error, start, i);
        return;
      }
      var _ := cursor.Advance();
      var pattern := ReadRegexPattern();
      if pattern == None {
        token := NewToken(Error, start, i);
        return;
      }
      var flags := ReadRegexFlags();
      var c := cursor.Peek();
      if c.Some? && IsAsciiLetter(c.value) {
        var _ := cursor.Advance();
        token := NewToken(Error, start, i);
      } else {
        token := NewToken(RegexLiteral(pattern.value, flags), start, i);
      }
    }

    method LexComment(start: nat) returns (token: Token)
      requires On('#', start)
      modifies cursor
      ensures Took(token, old(cursor.chars), ScanComment(cursor.source, old(cursor.chars)))
    {
      ghost var i := cursor.chars;
      var _ := cursor.Advance();
      if cursor.Peek() == Some('#') {
        var _ := cursor.Advance();
        if cursor.Peek() == Some('!') {
          var _ := cursor.Advance();
          EatLine();
          token := NewToken(ModuleDocComment, start, i);
        } else {
          EatLine();
          token := NewToken(DocComment, start, i);
        }
      } else if cursor.Peek() == Some('=') {
        token := LexBlockComment(start, i);
      } else {
        EatLine();
        token := NewToken(Comment, start, i);
      }
    }

    /** An optional space, then the rest of the line: the same as the rest of the line. */
    method EatLine()
      requires cursor.Valid()
      modifies cursor
      ensures cursor.Valid() && cursor.chars == EatWhile(cursor.source, old(cursor.chars), IsLineText)
    {
      if cursor.Peek() == Some(' ') {
        var _ := cursor.Advance();
      }
      cursor.EatWhile(IsLineText);
    }

    /** `#= ... =#`, nestable; the caller has consumed `#` and stands on `=`. */
    method LexBlockComment(start: nat, ghost i: nat) returns (token: Token)
      requires On('=', cursor.pos) && cursor.chars == i + 1 && start == ByteOffset(cursor.source, i)
      modifies cursor
      ensures Took(token, i, ScanBlockComment(cursor.source, i + 2, 1))
    {
      hide ByteOffset;
      var _ := cursor.Advance();
      ghost var s := cursor.source;
      var depth := 1;
      while true
        invariant cursor.Valid() && i <= cursor.chars && depth > 0
        invariant ScanBlockComment(s, cursor.chars, depth) == ScanBlockComment(s, i + 2, 1)
        decreases |s| - cursor.chars
      {
        var c := cursor.Peek();
        if c == None {
          token := NewToken(Error, start, i);
          return;
        } else if c == Some('#') {
          var _ := cursor.Advance();
          if cursor.Peek() == Some('=') {
            var _ := cursor.Advance();
            depth := depth + 1;
          }
        } else if c == Some('=') {
          var _ := cursor.Advance();
          if cursor.Peek() == Some('#') {
            var _ := cursor.Advance();
            depth := depth - 1;
            if depth == 0 {
              token := NewToken(Comment, start, i);
              return;
            }
          }
        } else {
          var _ := cursor.Advance();
        }
      }
    }

    method LexNumber(start: nat) returns (token: Token)
      requires cursor.Valid() && PeekIs(cursor.source, cursor.chars, IsDigit) && start == cursor.pos
      modifies cursor
      ensures Took(token, old(cursor.chars), ScanNumber(cursor.source, old(cursor.chars)))
    {
      ghost var i := cursor.chars;
      var first := cursor.Advance();
      if first == Some('0') {
        var radix := cursor.Peek();
        if radix == Some('x') || radix == Some('X') {
          token := LexRadix(start, i, HexOrUnderscore);
          return;
        } else if radix == Some('b') || radix == Some('B') {
          token := LexRadix(start, i, BinaryOrUnderscore);
          return;
        } else if radix == Some('o') || radix == Some('O') {
          token := LexRadix(start, i, OctalOrUnderscore);
          return;
        }
      }
      token := LexDecimal(start, i);
    }

    /** The rest of a number after its first, decimal, digit. */
    method LexDecimal(start: nat, ghost i: nat) returns (token: Token)
      requires cursor.Valid() && cursor.chars == i + 1 && start == ByteOffset(cursor.source, i)
      modifies cursor
      ensures Took(token, i, ScanDecimal(cursor.source, i))
    {
      hide EatWhile, ExponentEnd, ByteOffset;
      cursor.EatWhile(DigitOrUnderscore);
      var next := cursor.PeekNext();
      if cursor.Peek() == Some('.') && next.Some? && IsDigit(next.value) {
        var _ := cursor.Advance();
        cursor.EatWhile(DigitOrUnderscore);
        var _ := TakeExponent();
        token := NewToken(FloatLiteral, start, i);
      } else {
        var scientific := TakeExponent();
        token := NewToken(if scientific then FloatLiteral else IntLiteral, start, i);
      }
    }

    /** `lex_exponent`, if the cursor stands on an exponent mark. */
    method TakeExponent() returns (found: bool)
      requires cursor.Valid()
      modifies cursor
      ensures cursor.Valid() && found == PeekIs(cursor.source, old(cursor.chars), IsExponentMark)
      ensures cursor.chars == if found then ExponentEnd(cursor.source, old(cursor.chars)) else old(cursor.chars)
    {
      var c := cursor.Peek();
      found := c.Some? && IsExponentMark(c.value);
      if found {
        LexExponent();
      }
    }

    /** The radix letter and the digits after it. */
    method LexRadix(start: nat, ghost i: nat, digits: char -> bool) returns (token: Token)
      requires cursor.Valid() && cursor.chars == i + 1 < |cursor.source| && start == ByteOffset(cursor.source, i)
      modifies cursor
      ensures Took(token, i, Scan(IntLiteral, EatWhile(cursor.source, i + 2, digits)))
    {
      var _ := cursor.Advance();
      cursor.EatWhile(digits);
      token := NewToken(IntLiteral, start, i);
    }

    method LexExponent()
      requires cursor.Valid() && PeekIs(cursor.source, cursor.chars, IsExponentMark)
      modifies cursor
      ensures cursor.Valid() && cursor.chars == ExponentEnd(cursor.source, old(cursor.chars))
    {
      var _ := cursor.Advance();
      if cursor.Peek() == Some('+') || cursor.Peek() == Some('-') {
        var _ := cursor.Advance();
      }
      cursor.EatWhile(DigitOrUnderscore);
    }

    method LexIdent(start: nat) returns (token: Token)
      requires cursor.Valid() && cursor.chars < |cursor.source| && start == cursor.pos
      requires IsIdentStart(alphabet, cursor.source[cursor.chars])
      modifies cursor
      ensures Took(token, old(cursor.chars), ScanIdent(alphabet, cursor.source, old(cursor.chars)))
    {
      ghost var i := cursor.chars;
      var _ := cursor.Advance();
      cursor.EatWhile(IdentContinue(alphabet));
      var text := cursor.Slice(start, cursor.pos);
      assert text == cursor.source[i..cursor.chars];
      var keyword := KeywordFromStr(text);
      token := NewToken(if keyword.Some? then keyword.value else Ident, start, i);
    }

    /** The tokens both code states share. */
    method LexShared(start: nat) returns (token: Token)
      requires cursor.Valid() && cursor.chars < |cursor.source| && start == cursor.pos
      modifies cursor
      ensures Took(token, old(cursor.chars), ScanToken(alphabet, cursor.source, old(cursor.chars)))
    {
      hide EatWhile, ScanComment, ScanNumber, ScanIdent;
      var c := cursor.Peek().value;
      match c
      case '\n' => token := SingleCharToken(Newline, start);
      case '\r' => token := LexCarriageReturn(start);
      case '=' => token := LexEq(start);
      case '!' => token := LexBang(start);
      case '<' => token := LexLt(start);
      case '>' => token := LexGt(start);
      case '&' => token := LexAmp(start);
      case '|' => token := LexPipe(start);
      case '+' => token := LexPlus(start);
      case '-' => token := LexMinus(start);
      case ':' => token := LexColon(start);
      case '.' => token := LexDot(start);
      case '#' => token := LexComment(start);
      case _ =>
        if OneCharOperator(c).Some? {
          token := SingleCharToken(OneCharOperator(c).value, start);
        } else if IsDigit(c) {
          token := LexNumber(start);
        } else if IsIdentStart(alphabet, c) {
          token := LexIdent(start);
        } else {
          token := SingleCharToken(Error, start);
        }
    }

    method LexCarriageReturn(start: nat) returns (token: Token)
      requires On('\r', start)
      modifies cursor
      ensures Took(token, old(cursor.chars), ScanNewline(cursor.source, old(cursor.chars)))
    {
      ghost var i := cursor.chars;
      var _ := cursor.Advance();
      if cursor.Peek() == Some('\n') {
        var _ := cursor.Advance();
      }
      token := NewToken(Newline, start, i);
    }

    // ---- The three states ----

    /** What one call of `ProduceToken` does: the step's tokens, the first returned and the second
        queued; the step's stack; the cursor after the step. */
    ghost predicate Stepped(token: Token, step: Step)
      reads this, cursor
    {
      && cursor.Valid()
      && cursor.chars == step.pos
      && stateStack == step.stack
      && InText(cursor.source, step.tokens)
      && [token] + pending == ToTokens(cursor.source, step.tokens)
    }

    method LexStringStart(start: nat, ghost i: nat) returns (token: Token)
      requires On('"', start) && pending == [] && i == cursor.chars
      modifies cursor, this`stateStack
      ensures Stepped(token, OpenString(cursor.source, i, old(stateStack)))
    {
      var _ := cursor.Advance();
      if cursor.Peek() == Some('"') && cursor.PeekNext() == Some('"') {
        var _ := cursor.Advance();
        var _ := cursor.Advance();
        stateStack := stateStack + [InString(true)];
      } else {
        stateStack := stateStack + [InString(false)];
      }
      token := NewToken(StringStart, start, i);
    }

    method LexNormal() returns (token: Token)
      requires Ready() && Top(stateStack).Normal?
      modifies cursor, this`stateStack
      ensures Stepped(token, LexerMachine.LexNormal(alphabet, cursor.source, old(cursor.chars), old(stateStack)))
    {
      hide ScanToken, ScanTilde, OpenString;
      SkipWhitespace();
      ghost var j := cursor.chars;
      var start := cursor.pos;
      var c := cursor.Peek();
      if c == None {
        token := NewToken(Eof, start, j);
      } else if c == Some('{') {
        token := SingleCharToken(LBrace, start);
      } else if c == Some('}') {
        token := SingleCharToken(RBrace, start);
      } else if c == Some('~') {
        token := LexTilde(start);
      } else if c == Some('"') {
        token := LexStringStart(start, j);
      } else {
        token := LexShared(start);
      }
    }

    /** Only `~r` starts a regex literal; any other `~` is an error. */
    method LexTilde(start: nat) returns (token: Token)
      requires On('~', start)
      modifies cursor
      ensures Took(token, old(cursor.chars), ScanTilde(cursor.source, old(cursor.chars)))
    {
      ghost var i := cursor.chars;
      var _ := cursor.Advance();
      if cursor.Peek() == Some('r') {
        token := LexRegexLiteral(start, i);
      } else {
        token := NewToken(Error, start, i);
      }
    }

    method LexInterpolation() returns (token: Token)
      requires Ready() && Top(stateStack).InInterpolation?
      modifies cursor, this`stateStack
      ensures Stepped(token, LexerMachine.LexInterpolation(alphabet, cursor.source, old(cursor.chars), old(stateStack)))
    {
      hide ScanToken, OpenString;
      SkipWhitespace();
      ghost var j := cursor.chars;
      var start := cursor.pos;
      var c := cursor.Peek();
      var below, depth := Pop(stateStack), Top(stateStack).braceDepth;
      if c == None {
        stateStack := below;
        token := NewToken(Error, start, j);
      } else if c == Some('{') {
        stateStack := below + [InInterpolation(depth + 1)];
        token := SingleCharToken(LBrace, start);
      } else if c == Some('}') {
        if depth == 0 {
          stateStack := below;
          token := SingleCharToken(InterpolationEnd, start);
        } else {
          stateStack := below + [InInterpolation(depth - 1)];
          token := SingleCharToken(RBrace, start);
        }
      } else if c == Some('"') {
        token := LexStringStart(start, j);
      } else {
        token := LexShared(start);
      }
    }

    /** How the content that stops at `e` ends: with which token, how long, and on which stack. */
    ghost predicate EndsWith(kind: TokenKind, e: nat, triple: bool, after: StateStack)
      reads this, cursor
    {
      var s := cursor.source;
      && cursor.Valid() && e <= |s| && stateStack != []
      && if e == |s| then kind == Error && cursor.chars == e && after == Pop(stateStack)
         else if AtInterpolation(s, e) then
           kind == InterpolationStart && cursor.chars == e + 2 && after == stateStack + [InInterpolation(0)]
         else
           kind == StringEnd && cursor.chars == (if triple then e + 3 else e + 1) && after == Pop(stateStack)
    }

    /** Queues the token that ends a stretch of content, and returns the content before it, or the
        queued token itself if there is none; the state stack becomes `after`. */
    method EndContent(kind: TokenKind, start: nat, contentEnd: nat, after: StateStack, ghost i: nat, ghost triple: bool)
        returns (token: Token)
      requires cursor.Valid() && pending == [] && i <= cursor.chars
      requires var e := ContentStop(cursor.source, i, triple);
        && e <= cursor.chars && EndsWith(kind, e, triple, after)
        && start == ByteOffset(cursor.source, i) && contentEnd == ByteOffset(cursor.source, e)
      modifies this`pending, this`stateStack
      ensures Stepped(token, LexerMachine.LexStringContent(cursor.source, i, old(stateStack), triple))
    {
      hide ContentStop, AtInterpolation, AtTerminator, MayOpen, ByteOffset, WellStacked;
      ghost var e := ContentStop(cursor.source, i, triple);
      var end := Token(kind, Span(contentEnd, cursor.pos));
      if i < e {
        ByteOffsetStrict(cursor.source, i, e);
      }
      stateStack := after;
      if contentEnd > start {
        pending := [end];
        token := Token(StringContent, Span(start, contentEnd));
      } else {
        token := end;
      }
    }

    method LexStringContent(triple: bool) returns (token: Token)
      requires Ready() && Top(stateStack) == InString(triple)
      modifies cursor, this`stateStack, this`pending
      ensures Stepped(token, LexerMachine.LexStringContent(cursor.source, old(cursor.chars), old(stateStack), triple))
    {
      hide ByteOffset;
      hide Stepped, ContentStop, LexerMachine.LexStringContent;
      ghost var s, i := cursor.source, cursor.chars;
      var start := cursor.pos;
      while true
        invariant cursor.Valid() && i <= cursor.chars && pending == [] && stateStack == old(stateStack)
        invariant ContentStop(s, cursor.chars, triple) == ContentStop(s, i, triple)
        decreases |s| - cursor.chars
      {
        ContentStopStep(s, cursor.chars, triple);
        var c, next := cursor.Peek(), cursor.PeekNext();
        var contentEnd := cursor.pos;
        if c == None {
          token := EndContent(Error, start, contentEnd, Pop(stateStack), i, triple);
          return;
        } else if (c == Some('$') || c == Some('#')) && next == Some('{') {
          var _ := cursor.Advance();
          var _ := cursor.Advance();
          token := EndContent(InterpolationStart, start, contentEnd, stateStack + [InInterpolation(0)], i, triple);
          return;
        } else if c == Some('"') && !triple {
          var _ := cursor.Advance();
          token := EndContent(StringEnd, start, contentEnd, Pop(stateStack), i, triple);
          return;
        } else if c == Some('"') && next == Some('"') {
          var closed := TakeQuotes();
          if closed {
            token := EndContent(StringEnd, start, contentEnd, Pop(stateStack), i, triple);
            return;
          }
        } else {
          SkipContentChar();
        }
      }
    }

    /** Two quotes, and a third if it is there. */
    method TakeQuotes() returns (closed: bool)
      requires On('"', cursor.pos) && Peek(cursor.source, cursor.chars + 1) == Some('"')
      modifies cursor
      ensures cursor.Valid() && closed == (Peek(cursor.source, old(cursor.chars) + 2) == Some('"'))
      ensures cursor.chars == old(cursor.chars) + if closed then 3 else 2
    {
      var _ := cursor.Advance();
      var _ := cursor.Advance();
      closed := cursor.Peek() == Some('"');
      if closed {
        var _ := cursor.Advance();
      }
    }

    /** One character of content, or a backslash with the character it escapes. */
    method SkipContentChar()
      requires cursor.Valid() && cursor.chars < |cursor.source|
      requires cursor.source[cursor.chars] == '"' ==> Peek(cursor.source, cursor.chars + 1) != Some('"')
      modifies cursor
      ensures cursor.Valid() && cursor.chars == ContentNext(cursor.source, old(cursor.chars))
    {
      var c := cursor.Advance();
      if c == Some('\\') {
        var _ := cursor.Advance();
      }
    }

    method ProduceToken() returns (token: Token)
      requires Ready()
      modifies cursor, this`stateStack, this`pending
      ensures Stepped(token, Produce(alphabet, cursor.source, old(cursor.chars), old(stateStack)))
    {
      hide LexerMachine.LexNormal, LexerMachine.LexInterpolation, LexerMachine.LexStringContent;
      match Top(stateStack)
      case Normal => token := LexNormal();
      case InString(triple) => token := LexStringContent(triple);
      case InInterpolation(_) => token := LexInterpolation();
    }

    // ---- The iterator ----

    /** Takes the queued token or produces one. */
    method Pull() returns (token: Token)
      requires WellFormed() && !emittedEof
      modifies cursor, this`stateStack, this`pending
      ensures WellFormed()
      ensures old(Remaining()) == [token] + if token.kind == Eof then [] else Remaining()
    {
      hide Produce, StreamTokens, ToTokens, ByteOffset;
      if pending != [] {
        token := pending[0];
        pending := pending[1..];
      } else {
        ghost var i, stack := cursor.chars, stateStack;
        token := ProduceToken();
        StepIsPrefix(alphabet, cursor.source, i, stack, token, pending);
      }
    }

    /** Hands out the next token of the stream; None once `Eof` has been handed out. */
    method Next() returns (item: Option<Token>)
      requires Valid()
      modifies this, cursor
      ensures Valid()
      ensures item.None? <==> old(emittedEof)
      ensures item.None? ==> history == old(history) && Remaining() == []
      ensures item.Some? ==> history == old(history) + [item.value] && old(Remaining()) == [item.value] + Remaining()
      ensures emittedEof <==> old(emittedEof) || item.value.kind == Eof
    {
      hide StreamTokens, WellStacked, Whole;
      if emittedEof {
        return None;
      }
      var token := Pull();
      if token.kind == Eof {
        emittedEof := true;
      }
      HandOver(history, token, Remaining());
      history := history + [token];
      item := Some(token);
    }
  }

  lemma HandOver(history: seq<Token>, token: Token, rest: seq<Token>)
    ensures history + ([token] + rest) == (history + [token]) + rest
  {
  }

  method Drain(alphabet: Alphabet, source: string) returns (tokens: seq<Token>)
    ensures tokens == StreamTokens(alphabet, source, 0, [Normal])
  {
    hide StreamTokens;
    var lexer := new Lexer(alphabet, source);
    tokens := [];
    while true
      invariant lexer.Valid() && fresh(lexer) && fresh(lexer.cursor)
      invariant lexer.alphabet == alphabet && lexer.cursor.source == source
      invariant tokens == lexer.history
      decreases |lexer.Remaining()|, !lexer.emittedEof
    {
      var item := lexer.Next();
      if item.None? {
        return;
      }
      tokens := tokens + [item.value];
    }
  }

  /** The whole stream, the final `Eof` included: it covers the bytes of the source without loss
      and has at most two tokens a character plus one. */
  method Tokenize(alphabet: Alphabet, source: string) returns (tokens: seq<Token>)
    ensures InText(source, Lex(alphabet, source)) && tokens == ToTokens(source, Lex(alphabet, source))
    ensures TilesBytes(Encode(source), 0, tokens) && Interleave(Encode(source), 0, tokens) == Encode(source)
    ensures 1 <= |tokens| <= 2 * |source| + 1
    ensures tokens[|tokens| - 1].kind == Eof && forall k | 0 <= k < |tokens| - 1 :: tokens[k].kind != Eof
  {
    Lossless(alphabet, source);
    TokenCount(alphabet, source);
    tokens := Drain(alphabet, source);
  }
}

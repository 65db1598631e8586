/** The token stream loses nothing: the tokens lie in order over the text, only spaces and tabs
    fall between them, and there are at most two tokens a character plus one. */
module LexerTiling {
  import opened Wrappers
  import opened Unicode
  import opened Tokens
  import opened Scanning
  import opened LexerMachine

  ghost predicate BlankBetween(s: string, i: nat, j: nat)
    requires i <= j <= |s|
  {
    forall k | i <= k < j :: IsBlank(s[k])
  }

  /** Kinds that are only produced inside a string literal. */
  predicate StringPart(kind: TokenKind) {
    kind.StringContent? || kind.StringEnd? || kind.InterpolationStart?
  }

  /** Kinds after which the lexer is inside a string literal. */
  predicate StringFollows(kind: TokenKind) {
    kind.StringStart? || kind.StringContent? || kind.InterpolationEnd?
  }

  /** `ts` covers the text from `i` to `end`: blanks only before a token, none at all before a
      part of a string nor anywhere inside a string, and an empty token only at the end of the text. */
  ghost predicate Tiles(s: string, i: nat, ts: seq<Lexeme>, end: nat)
    requires i <= |s|
    decreases |ts|
  {
    if ts == [] then i == end
    else
      var t := ts[0];
      && i <= t.from <= t.to <= |s|
      && BlankBetween(s, i, t.from)
      && (StringPart(t.kind) ==> t.from == i)
      && (StringFollows(t.kind) && |ts| > 1 ==> ts[1].from == t.to)
      && (t.from < t.to || t.from == |s|)
      && Tiles(s, t.to, ts[1..], end)
  }

  lemma {:induction false} TilesConcat(s: string, i: nat, a: seq<Lexeme>, j: nat, b: seq<Lexeme>, end: nat)
    requires i <= |s| && j <= |s| && Tiles(s, i, a, j) && Tiles(s, j, b, end)
    requires a != [] && b != [] && StringFollows(a[|a| - 1].kind) ==> b[0].from == j
    ensures Tiles(s, i, a + b, end)
    decreases |a|
  {
    if a == [] {
      assert a + b == b;
    } else {
      assert (a + b)[1..] == a[1..] + b;
      TilesConcat(s, a[0].to, a[1..], j, b, end);
    }
  }

  lemma NormalTiles(u: Alphabet, s: string, i: nat, stack: StateStack)
    requires i <= |s|
    ensures var step := LexNormal(u, s, i, stack);
      step.pos <= |s| && Tiles(s, i, step.tokens, step.pos)
  {
    var j := SkipBlanks(s, i);
    if j < |s| && s[j] !in {'{', '}', '~', '"'} {
      ScanTokenIsPlain(u, s, j);
    }
  }

  lemma InterpolationTiles(u: Alphabet, s: string, i: nat, stack: StateStack)
    requires i <= |s| && |stack| > 0 && Top(stack).InInterpolation?
    ensures var step := LexInterpolation(u, s, i, stack);
      step.pos <= |s| && Tiles(s, i, step.tokens, step.pos)
  {
    var j := SkipBlanks(s, i);
    if j < |s| && s[j] !in {'{', '}', '"'} {
      ScanTokenIsPlain(u, s, j);
    }
  }

  lemma StringTiles(s: string, i: nat, stack: StateStack, triple: bool)
    requires i <= |s| && |stack| > 0
    ensures var step := LexStringContent(s, i, stack, triple);
      step.pos <= |s| && Tiles(s, i, step.tokens, step.pos)
  {
    var step := LexStringContent(s, i, stack, triple);
    if |step.tokens| == 2 {
      assert step.tokens[1..] == [step.tokens[1]];
      assert step.tokens[1..][1..] == [];
    }
  }

  lemma StepTiles(u: Alphabet, s: string, i: nat, stack: StateStack)
    requires i <= |s| && |stack| > 0
    ensures var step := Produce(u, s, i, stack);
      step.pos <= |s| && Tiles(s, i, step.tokens, step.pos)
  {
    match Top(stack)
    case Normal => NormalTiles(u, s, i, stack);
    case InString(triple) => StringTiles(s, i, stack, triple);
    case InInterpolation(_) => InterpolationTiles(u, s, i, stack);
  }

  /** A step that ends inside a string is followed by a token that starts right there. */
  lemma StringFollowsAtOnce(u: Alphabet, s: string, i: nat, stack: StateStack)
    requires i <= |s| && WellStacked(stack)
    ensures var step := Produce(u, s, i, stack);
      && step.tokens != [] && step.pos <= |s| && WellStacked(step.stack)
      && (StringFollows(step.tokens[|step.tokens| - 1].kind) ==> Top(step.stack).InString?)
  {
    hide ScanToken, EatWhile, ContentStop, ScanTilde;
    StepProgress(u, s, i, stack);
    if !Top(stack).InString? {
      var j := SkipBlanks(s, i);
      if j < |s| {
        ScanTokenIsPlain(u, s, j);
        TildeIsPlain(s, j);
      }
    }
  }

  lemma TildeIsPlain(s: string, j: nat)
    requires j < |s|
    ensures s[j] == '~' ==> !StringFollows(ScanTilde(s, j).kind)
  {
  }

  lemma StreamInString(u: Alphabet, s: string, i: nat, stack: StateStack)
    requires i <= |s| && WellStacked(stack) && Top(stack).InString?
    ensures Stream(u, s, i, stack) != [] && Stream(u, s, i, stack)[0].from == i
  {
    StepProgress(u, s, i, stack);
  }

  lemma {:induction false} StreamTiles(u: Alphabet, s: string, i: nat, stack: StateStack)
    requires i <= |s| && WellStacked(stack)
    ensures Tiles(s, i, Stream(u, s, i, stack), |s|)
    decreases Work(s, i, stack)
  {
    var step := Produce(u, s, i, stack);
    StepProgress(u, s, i, stack);
    StepTiles(u, s, i, stack);
    if !IsFinal(step) {
      StreamTiles(u, s, step.pos, step.stack);
      StringFollowsAtOnce(u, s, i, stack);
      if Top(step.stack).InString? {
        StreamInString(u, s, step.pos, step.stack);
      }
      TilesConcat(s, i, step.tokens, step.pos, Stream(u, s, step.pos, step.stack), |s|);
    }
  }

  /** Termination with a bound: at most two tokens a character plus one per open frame, with
      exactly one `Eof`, the last. */
  lemma {:induction false} StreamBound(u: Alphabet, s: string, i: nat, stack: StateStack)
    requires i <= |s| && WellStacked(stack)
    ensures var ts := Stream(u, s, i, stack);
      && 0 < |ts| <= Work(s, i, stack)
      && ts[|ts| - 1] == Lexeme(Eof, |s|, |s|)
      && (forall k | 0 <= k < |ts| - 1 :: ts[k].kind != Eof)
    decreases Work(s, i, stack)
  {
    var step := Produce(u, s, i, stack);
    StepProgress(u, s, i, stack);
    if !IsFinal(step) {
      StreamBound(u, s, step.pos, step.stack);
    }
  }

  // ---- The same statement over bytes ----

  function ToToken(s: string, t: Lexeme): Token
    requires t.from <= |s| && t.to <= |s|
  {
    Token(t.kind, Span(ByteOffset(s, t.from), ByteOffset(s, t.to)))
  }

  ghost predicate InText(s: string, ts: seq<Lexeme>) {
    forall k | 0 <= k < |ts| :: ts[k].from <= ts[k].to <= |s|
  }

  function ToTokens(s: string, ts: seq<Lexeme>): seq<Token>
    requires InText(s, ts)
  {
    seq(|ts|, k requires 0 <= k < |ts| => ToToken(s, ts[k]))
  }

  /** Spans in order and in bounds over the encoded text; every byte outside them is a space or a
      tab; inside a string there is no gap, up to and including the empty token that ends an unclosed
      one. */
  ghost predicate TilesBytes(text: seq<byte>, at: nat, tokens: seq<Token>)
    decreases |tokens|
  {
    if tokens == [] then at == |text|
    else
      var t := tokens[0];
      && at <= t.span.start <= t.span.end <= |text|
      && (forall k | at <= k < t.span.start :: text[k] == 32 || text[k] == 9)
      && (StringPart(t.kind) ==> t.span.start == at)
      && (StringFollows(t.kind) && |tokens| > 1 ==> tokens[1].span.start == t.span.end)
      && TilesBytes(text, t.span.end, tokens[1..])
  }

  /** Gaps and token texts, interleaved in order. */
  function Interleave(text: seq<byte>, at: nat, tokens: seq<Token>): seq<byte>
    requires TilesBytes(text, at, tokens)
    decreases |tokens|
  {
    if tokens == [] then []
    else
      var span := tokens[0].span;
      text[at..span.start] + text[span.start..span.end] + Interleave(text, span.end, tokens[1..])
  }

  lemma {:induction false} InterleaveRebuilds(text: seq<byte>, at: nat, tokens: seq<Token>)
    requires TilesBytes(text, at, tokens)
    ensures at <= |text| && Interleave(text, at, tokens) == text[at..]
    decreases |tokens|
  {
    if tokens != [] {
      InterleaveRebuilds(text, tokens[0].span.end, tokens[1..]);
    }
  }

  lemma {:induction false} TilesInText(s: string, i: nat, ts: seq<Lexeme>, end: nat)
    requires i <= |s| && Tiles(s, i, ts, end)
    ensures InText(s, ts)
    decreases |ts|
  {
    if ts != [] {
      TilesInText(s, ts[0].to, ts[1..], end);
      assert forall k | 1 <= k < |ts| :: ts[k] == ts[1..][k - 1];
    }
  }

  lemma {:induction false} BlankEncoding(b: string)
    requires forall k | 0 <= k < |b| :: IsBlank(b[k])
    ensures forall k | 0 <= k < |Encode(b)| :: Encode(b)[k] == 32 || Encode(b)[k] == 9
    decreases |b|
  {
    if b != "" {
      BlankEncoding(b[..|b| - 1]);
    }
  }

  lemma BlankBytes(s: string, i: nat, j: nat)
    requires i <= j <= |s| && BlankBetween(s, i, j)
    ensures ByteOffset(s, i) <= ByteOffset(s, j) <= |Encode(s)|
    ensures forall k | ByteOffset(s, i) <= k < ByteOffset(s, j) :: Encode(s)[k] == 32 || Encode(s)[k] == 9
  {
    EncodeSlice(s, i, j);
    BlankEncoding(s[i..j]);
    var text := Encode(s);
    var from, to := ByteOffset(s, i), ByteOffset(s, j);
    forall k | from <= k < to
      ensures text[k] == 32 || text[k] == 9
    {
      assert text[k] == text[from..to][k - from];
    }
  }

  lemma {:induction false} TilesToBytes(s: string, i: nat, ts: seq<Lexeme>)
    requires i <= |s| && Tiles(s, i, ts, |s|) && InText(s, ts)
    ensures TilesBytes(Encode(s), ByteOffset(s, i), ToTokens(s, ts))
    decreases |ts|
  {
    if ts == [] {
      EncodeLength(s, |s|);
      assert s[..|s|] == s;
    } else {
      var t := ts[0];
      BlankBytes(s, i, t.from);
      EncodeSlice(s, t.from, t.to);
      assert forall k | 0 <= k < |ts[1..]| :: ts[1..][k] == ts[k + 1];
      TilesToBytes(s, t.to, ts[1..]);
      assert ToTokens(s, ts)[1..] == ToTokens(s, ts[1..]);
    }
  }

  /** Lossless tiling: for every source text, the spans of its tokens are ordered and in bounds,
      what lies between them is blank, and gaps and texts together are the text. */
  lemma Lossless(u: Alphabet, s: string)
    ensures InText(s, Lex(u, s))
    ensures TilesBytes(Encode(s), 0, ToTokens(s, Lex(u, s)))
    ensures Interleave(Encode(s), 0, ToTokens(s, Lex(u, s))) == Encode(s)
  {
    StreamTiles(u, s, 0, [Normal]);
    TilesInText(s, 0, Lex(u, s), |s|);
    TilesToBytes(s, 0, Lex(u, s));
    InterleaveRebuilds(Encode(s), 0, ToTokens(s, Lex(u, s)));
    assert Encode(s)[0..] == Encode(s);
  }

  /** At most `2n + 1` tokens for `n` characters, ending in the only `Eof`. */
  lemma TokenCount(u: Alphabet, s: string)
    ensures var ts := Lex(u, s);
      && 1 <= |ts| <= 2 * |s| + 1
      && ts[|ts| - 1] == Lexeme(Eof, |s|, |s|)
      && (forall k | 0 <= k < |ts| - 1 :: ts[k].kind != Eof)
  {
    StreamBound(u, s, 0, [Normal]);
  }
}

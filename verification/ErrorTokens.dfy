/** When a token is an error: where no token of the vocabulary starts, and in a short list of other
    cases, in each of which the error token ends where the list says. */
module ErrorTokens {
  import opened Wrappers
  import opened Tokens
  import opened Scanning
  import opened LexerMachine
  import opened LexerStops
  import opened LexerSpelling
  import BlockComments

  /** The kinds of tokens that code consists of. */
  predicate CodeKind(kind: TokenKind) {
    && !kind.Error? && !kind.Eof? && !kind.StringContent? && !kind.StringEnd?
    && !kind.InterpolationStart? && !kind.InterpolationEnd?
  }

  /** No text of the vocabulary starts here. */
  ghost predicate NothingStarts(u: Alphabet, s: string, i: nat)
    requires i <= |s|
  {
    forall kind, e {:trigger Spelled(u, kind, s[i..e])} | i < e <= |s| && CodeKind(kind) :: !Spelled(u, kind, s[i..e])
  }

  // ---- The list ----

  /** A bar with digits, up to `e`, that are not closed, or that name slot 0, slot 1 or no slot of 32
      bits. */
  ghost predicate BadSlot(s: string, i: nat, e: nat, end: nat) {
    && i + 1 < e <= |s| && s[i] == '|'
    && (forall k | i < k < e :: '0' <= s[k] <= '9')
    && (e < |s| ==> !('0' <= s[e] <= '9'))
    && if e < |s| && s[e] == '>' then end == e + 1 && !(2 <= DecimalValue(s[i + 1..e]) < 0x1_0000_0000) else end == e
  }

  /** A block comment that a recursive recogniser finds no end of. */
  ghost predicate OpenComment(s: string, i: nat, end: nat) {
    i + 2 <= |s| && s[i..i + 2] == "#=" && BlockComments.Body(s, i + 2).None? && end == |s|
  }

  /** `c` is the first slash of the pattern that no backslash escapes. */
  ghost predicate ClosesPattern(s: string, i: nat, c: nat) {
    && i + 3 <= c < |s| && s[c] == '/' && !Escaped(s, i + 3, c)
    && forall k | i + 3 <= k < c && s[k] == '/' :: Escaped(s, i + 3, k)
  }

  ghost predicate NeverCloses(s: string, i: nat) {
    i + 3 <= |s| && forall k | i + 3 <= k < |s| && s[k] == '/' :: Escaped(s, i + 3, k)
  }

  predicate IsFlag(c: char) {
    c == 'i' || c == 'm' || c == 's'
  }

  /** The last character before `end` is a letter that is no flag, right behind the flags, if any. */
  ghost predicate WrongFlag(s: string, c: nat, end: nat) {
    && c + 1 < end <= |s| && (forall k | c < k < end - 1 :: IsFlag(s[k]))
    && !IsFlag(s[end - 1]) && ('a' <= s[end - 1] <= 'z' || 'A' <= s[end - 1] <= 'Z')
  }

  /** A tilde without a regex literal. */
  ghost predicate BadRegex(s: string, i: nat, end: nat) {
    && i < |s| && s[i] == '~'
    && if !(i + 1 < |s| && s[i + 1] == 'r') then end == i + 1
       else if !(i + 2 < |s| && s[i + 2] == '/') then end == i + 2
       else (NeverCloses(s, i) && end == |s|) || exists c :: ClosesPattern(s, i, c) && WrongFlag(s, c, end)
  }

  /** Why there may be an error token from `i` to `end`. */
  ghost predicate Explained(u: Alphabet, s: string, interpolated: bool, i: nat, end: nat) {
    || (i == end == |s|)
    || (i < |s| && end == i + 1 && NothingStarts(u, s, i))
    || (exists e :: BadSlot(s, i, e, end))
    || OpenComment(s, i, end)
    || if interpolated then i < |s| && s[i] == '~' && end == i + 1 else BadRegex(s, i, end)
  }

  /** An error token is explained; where a token of code starts, an error is not. */
  ghost predicate Verdict(u: Alphabet, s: string, interpolated: bool, t: Lexeme) {
    && t.from <= |s|
    && (t.kind == Error ==> Explained(u, s, interpolated, t.from, t.to))
    && (CodeKind(t.kind) ==> t.from < |s| && forall end :: !Explained(u, s, interpolated, t.from, end))
  }

  /** A token outside the text of strings does not start with a space or a tab. */
  predicate StartsUnblank(s: string, t: Lexeme) {
    t.from < |s| && (t.kind == Error || CodeKind(t.kind)) ==> s[t.from] != ' ' && s[t.from] != '\t'
  }

  // ---- Where nothing starts ----

  /** What the texts of kinds without a fixed spelling start with. */
  predicate StartsOther(u: Alphabet, c: char) {
    IsDigit(c) || IsIdentStart(u, c) || !IsLineText(c) || c == '#' || c == '"' || c == '~' || c == '|' || c == ':'
  }

  lemma SpelledStart(u: Alphabet, kind: TokenKind, text: string)
    requires CodeKind(kind) && Spelled(u, kind, text)
    ensures FixedSpelling(kind) == Some(text) || (text != "" && StartsOther(u, text[0]))
  {
    hide KEYWORDS, FixedSpelling, FloatText;
    match kind
    case FloatLiteral => FloatStart(text);
    case RegexLiteral(pattern, flags) => RegexStart(pattern, flags);
    case _ =>
  }

  lemma RegexStart(pattern: string, flags: string)
    ensures var text := "~r/" + pattern + "/" + flags;
      text != "" && text[0] == '~'
  {
  }

  lemma FloatStart(text: string)
    requires FloatText(text)
    ensures text != "" && IsDigit(text[0])
  {
  }

  predicate StartsFixed(c: char) {
    OneCharOperator(c).Some? || c == '{' || c == '}'
  }

  lemma FixedStart(kind: TokenKind)
    requires FixedSpelling(kind).Some?
    ensures FixedSpelling(kind).value != "" && StartsFixed(FixedSpelling(kind).value[0])
  {
  }

  lemma OddStartsNothing(u: Alphabet, s: string, i: nat)
    requires i < |s| && !StartsFixed(s[i]) && !StartsOther(u, s[i])
    ensures NothingStarts(u, s, i)
  {
    hide Spelled, StartsFixed, StartsOther, FixedSpelling;
    forall kind, e {:trigger Spelled(u, kind, s[i..e])} | i < e <= |s| && CodeKind(kind)
      ensures !Spelled(u, kind, s[i..e])
    {
      if Spelled(u, kind, s[i..e]) {
        SpelledStart(u, kind, s[i..e]);
        if FixedSpelling(kind).Some? {
          FixedStart(kind);
        }
      }
    }
  }

  /** Only a second ampersand makes a token of an ampersand. */
  lemma AmpersandSpelling(kind: TokenKind)
    requires FixedSpelling(kind).Some? && FixedSpelling(kind).value[..1] == "&"
    ensures FixedSpelling(kind).value == "&&"
  {
    var text := FixedSpelling(kind).value;
    assert text[0] == text[..1][0];
  }

  lemma LoneAmpersand(u: Alphabet, s: string, i: nat)
    requires i < |s| && s[i] == '&' && Peek(s, i + 1) != Some('&')
    ensures NothingStarts(u, s, i)
  {
    hide Spelled, FixedSpelling;
    forall kind, e {:trigger Spelled(u, kind, s[i..e])} | i < e <= |s| && CodeKind(kind)
      ensures !Spelled(u, kind, s[i..e])
    {
      if Spelled(u, kind, s[i..e]) {
        SpelledStart(u, kind, s[i..e]);
        TwoAmpersands(s, i, e, kind);
      }
    }
  }

  lemma TwoAmpersands(s: string, i: nat, e: nat, kind: TokenKind)
    requires i < e <= |s| && s[i] == '&' && FixedSpelling(kind) == Some(s[i..e])
    ensures Peek(s, i + 1) == Some('&')
  {
    hide FixedSpelling;
    var text := s[i..e];
    assert text[..1] == "&";
    AmpersandSpelling(kind);
    assert text[1] == s[i + 1];
  }

  // ---- One token ----

  lemma PlainIsNotExplained(u: Alphabet, s: string, interpolated: bool, i: nat, scan: Scan)
    requires i < scan.end <= |s| && CodeKind(scan.kind) && Spelled(u, scan.kind, s[i..scan.end])
    requires s[i] != '|' && s[i] != '#' && s[i] != '~'
    ensures Verdict(u, s, interpolated, Lexeme(scan.kind, i, scan.end))
  {
    hide Spelled;
    assert !NothingStarts(u, s, i);
    forall end ensures !OpenComment(s, i, end) {
      if i + 2 <= |s| {
        assert s[i..i + 2][0] == s[i];
      }
    }
  }

  lemma OneRunOfDigits(s: string, i: nat, a: nat, b: nat, x: nat, y: nat)
    requires BadSlot(s, i, a, x) && i + 1 < b <= |s|
    requires (forall k | i < k < b :: IsDigit(s[k])) && !PeekIs(s, b, IsDigit)
    ensures a == b
  {
  }

  lemma BarVerdict(u: Alphabet, s: string, interpolated: bool, i: nat)
    requires i < |s| && s[i] == '|'
    ensures var scan := ScanOperator(u, s, i);
      Verdict(u, s, interpolated, Lexeme(scan.kind, i, scan.end))
  {
    hide Spelled, NothingStarts;
    var scan := ScanOperator(u, s, i);
    OperatorSpelled(u, s, i);
    BarIsNoOther(s, i);
    if PeekIs(s, i + 1, IsDigit) {
      SlotVerdict(s, i);
    }
    if scan.kind != Error {
      BarSpells(u, s, i, scan);
      assert !NothingStarts(u, s, i);
    }
  }

  lemma BarSpells(u: Alphabet, s: string, i: nat, scan: Scan)
    requires i < scan.end <= |s| && CodeKind(scan.kind) && Spelled(u, scan.kind, s[i..scan.end])
    ensures !NothingStarts(u, s, i)
  {
    hide Spelled;
  }

  lemma BarIsNoOther(s: string, i: nat)
    requires i < |s| && s[i] == '|'
    ensures forall end :: !OpenComment(s, i, end) && !BadRegex(s, i, end)
    ensures !PeekIs(s, i + 1, IsDigit) ==> forall e, end :: !BadSlot(s, i, e, end)
    ensures TwoCharOperator('|', '0').None?
  {
    if i + 2 <= |s| {
      assert s[i..i + 2][0] == s[i];
    }
  }

  /** The scan of a slot pipe fails exactly on the slots of the list. */
  lemma SlotVerdict(s: string, i: nat)
    requires i + 1 < |s| && s[i] == '|' && IsDigit(s[i + 1])
    ensures var scan := ScanSlotPipe(s, i);
      && TwoCharOperator(s[i], s[i + 1]).None?
      && (scan.kind == Error ==> exists e :: BadSlot(s, i, e, scan.end))
      && (scan.kind != Error ==> forall e, end :: !BadSlot(s, i, e, end))
  {
    var e := EatWhile(s, i + 1, IsDigit);
    var scan := ScanSlotPipe(s, i);
    forall k | i < k < e ensures IsDigit(s[k]) {
    }
    if scan.kind == Error {
      assert BadSlot(s, i, e, scan.end);
    } else {
      forall a, end ensures !BadSlot(s, i, a, end) {
        if BadSlot(s, i, a, end) {
          OneRunOfDigits(s, i, a, e, end, end);
        }
      }
    }
  }

  lemma CommentVerdict(u: Alphabet, s: string, interpolated: bool, i: nat)
    requires i < |s| && s[i] == '#'
    ensures var scan := ScanComment(s, i);
      Verdict(u, s, interpolated, Lexeme(scan.kind, i, scan.end))
  {
    hide Spelled, NothingStarts, ScanComment, BlockComments.Body;
    var scan := ScanComment(s, i);
    CommentSpelled(u, s, i);
    CommentKinds(s, i);
    assert forall e, end :: !BadSlot(s, i, e, end);
    if i + 2 <= |s| {
      assert s[i..i + 2] == [s[i], s[i + 1]];
    }
    if scan.kind != Error {
      BarSpells(u, s, i, scan);
    }
  }

  lemma CommentKinds(s: string, i: nat)
    requires i < |s| && s[i] == '#'
    ensures var scan := ScanComment(s, i);
      && (scan.kind == Error || CodeKind(scan.kind))
      && (scan.kind == Error <==> i + 1 < |s| && s[i + 1] == '=' && BlockComments.Body(s, i + 2).None?)
      && (scan.kind == Error ==> scan.end == |s|)
  {
    hide ScanBlockComment, BlockComments.Body, EatWhile;
    if Peek(s, i + 1) == Some('=') {
      BlockComments.BlockCommentScan(s, i);
    }
  }

  lemma OperatorVerdict(u: Alphabet, s: string, interpolated: bool, i: nat)
    requires i < |s| && OneCharOperator(s[i]).Some? && s[i] != '|'
    ensures var scan := ScanOperator(u, s, i);
      Verdict(u, s, interpolated, Lexeme(scan.kind, i, scan.end))
  {
    hide Spelled, NothingStarts, ScanOperator;
    var scan := ScanOperator(u, s, i);
    OperatorSpelled(u, s, i);
    ErrorOperator(u, s, i);
    if scan.kind == Error {
      LoneAmpersand(u, s, i);
    } else {
      PlainIsNotExplained(u, s, interpolated, i, scan);
    }
  }

  /** Apart from slots, the one operator that is an error is a lone ampersand. */
  lemma ErrorOperator(u: Alphabet, s: string, i: nat)
    requires i < |s| && OneCharOperator(s[i]).Some? && s[i] != '|'
    ensures var scan := ScanOperator(u, s, i);
      && (scan.kind == Error ==> s[i] == '&' && Peek(s, i + 1) != Some('&') && scan.end == i + 1)
      && (scan.kind == Error || CodeKind(scan.kind))
    ensures s[i] != '#' && s[i] != '~'
  {
    hide EatWhile;
    if i + 1 < |s| {
      TwoCharKinds(s[i], s[i + 1]);
    }
    OneCharKinds(s[i]);
  }

  lemma TwoCharKinds(c: char, d: char)
    ensures TwoCharOperator(c, d).Some? ==> CodeKind(TwoCharOperator(c, d).value)
    ensures TwoCharOperator('&', '&').Some?
  {
  }

  lemma OneCharKinds(c: char)
    ensures OneCharOperator(c).Some? && OneCharOperator(c) != Some(Error) ==> CodeKind(OneCharOperator(c).value)
    ensures OneCharOperator(c) == Some(Error) ==> c == '&'
    ensures OneCharOperator('#').None? && OneCharOperator('~').None?
  {
  }

  lemma TokenVerdict(u: Alphabet, s: string, interpolated: bool, i: nat)
    requires i < |s| && s[i] != '{' && s[i] != '}' && s[i] != '"' && (s[i] == '~' ==> interpolated)
    ensures var scan := ScanToken(u, s, i);
      Verdict(u, s, interpolated, Lexeme(scan.kind, i, scan.end))
  {
    hide Spelled, Longest, NothingStarts, ScanOperator, ScanComment, ScanNumber, ScanIdent, KEYWORDS, Verdict,
      ScanNewline, OneCharOperator;
    var scan := ScanToken(u, s, i);
    if !IsLineText(s[i]) {
      NewlineSpelled(u, s, i);
      NewlineKind(s, i);
      PlainIsNotExplained(u, s, interpolated, i, scan);
    } else if OneCharOperator(s[i]).Some? {
      if s[i] == '|' {
        BarVerdict(u, s, interpolated, i);
      } else {
        OperatorVerdict(u, s, interpolated, i);
      }
    } else if s[i] == '#' {
      CommentVerdict(u, s, interpolated, i);
    } else if IsDigit(s[i]) {
      NumberSpelled(u, s, i);
      NumberText(s, i);
      PlainIsNotExplained(u, s, interpolated, i, scan);
    } else if IsIdentStart(u, s[i]) {
      IdentSpelled(u, s, i);
      IdentKind(u, s, i);
      PlainIsNotExplained(u, s, interpolated, i, scan);
    } else {
      OddVerdict(u, s, interpolated, i);
    }
  }

  lemma NewlineKind(s: string, i: nat)
    requires i < |s| && !IsLineText(s[i])
    ensures ScanNewline(s, i).kind == Newline
  {
  }

  lemma IdentKind(u: Alphabet, s: string, i: nat)
    requires i < |s| && IsIdentStart(u, s[i])
    ensures CodeKind(ScanIdent(u, s, i).kind) && s[i] != '|' && s[i] != '#' && s[i] != '~'
  {
    hide KEYWORDS, EatWhile;
  }

  lemma OddVerdict(u: Alphabet, s: string, interpolated: bool, i: nat)
    requires i < |s| && IsLineText(s[i]) && OneCharOperator(s[i]).None? && !IsDigit(s[i]) && !IsIdentStart(u, s[i])
    requires s[i] != '{' && s[i] != '}' && s[i] != '"' && s[i] != '#' && (s[i] == '~' ==> interpolated)
    ensures Verdict(u, s, interpolated, Lexeme(Error, i, i + 1))
  {
    hide NothingStarts;
    if s[i] != '~' {
      BarAndColon();
      OddStartsNothing(u, s, i);
    }
  }

  lemma BarAndColon()
    ensures OneCharOperator('|').Some? && OneCharOperator(':').Some?
  {
  }

  // ---- The tilde at file level ----

  lemma TildeVerdict(u: Alphabet, s: string, i: nat)
    requires i < |s| && s[i] == '~'
    ensures var scan := ScanTilde(s, i);
      Verdict(u, s, false, Lexeme(scan.kind, i, scan.end))
  {
    hide Spelled, NothingStarts, ScanTilde, Longest, BadRegex;
    var scan := ScanTilde(s, i);
    TildeSpelled(u, s, i);
    TildeFails(s, i);
    assert forall e, end :: !BadSlot(s, i, e, end);
    forall end ensures !OpenComment(s, i, end) {
      if i + 2 <= |s| {
        assert s[i..i + 2][0] == s[i];
      }
    }
    if scan.kind != Error {
      BarSpells(u, s, i, scan);
    }
  }

  /** The scan of a regex literal fails exactly in the cases of the list. */
  lemma TildeFails(s: string, i: nat)
    requires i < |s| && s[i] == '~'
    ensures var scan := ScanTilde(s, i);
      && (scan.kind == Error ==> BadRegex(s, i, scan.end))
      && (scan.kind != Error ==> scan.kind.RegexLiteral? && forall end :: !BadRegex(s, i, end))
  {
    hide RegexClose, Escaped;
    if i + 2 < |s| && s[i + 1] == 'r' && s[i + 2] == '/' {
      var close := RegexClose(s, i + 3, false);
      RegexCloseIsFirst(s, i + 3);
      if close < |s| {
        FlagsVerdict(s, i, close);
      }
    }
  }

  lemma FlagsVerdict(s: string, i: nat, close: nat)
    requires ClosesPattern(s, i, close)
    ensures var e := EatWhile(s, close + 1, IsRegexFlag);
      && (PeekIs(s, e, IsAsciiLetter) ==> WrongFlag(s, close, e + 1))
      && (!PeekIs(s, e, IsAsciiLetter) ==> forall c, end :: !(ClosesPattern(s, i, c) && WrongFlag(s, c, end)))
      && !NeverCloses(s, i)
  {
    var e := EatWhile(s, close + 1, IsRegexFlag);
    forall c: nat, end: nat | ClosesPattern(s, i, c) && WrongFlag(s, c, end) ensures c == close && end == e + 1 {
      assert end - 1 < e ==> IsRegexFlag(s[end - 1]);
      assert e < end - 1 ==> IsFlag(s[e]);
    }
  }

  // ---- The stream ----

  /** How many interpolations are open after a token. */
  function NextOpen(open: nat, t: Lexeme): nat {
    match t.kind
    case InterpolationStart => open + 1
    case InterpolationEnd => if open == 0 then 0 else open - 1
    case _ => open
  }

  /** The verdict on every token, given the interpolations open before it. */
  ghost predicate Verdicts(u: Alphabet, s: string, open: nat, ts: seq<Lexeme>)
    decreases |ts|
  {
    ts == [] ||
    (Verdict(u, s, open > 0, ts[0]) && StartsUnblank(s, ts[0]) && Verdicts(u, s, NextOpen(open, ts[0]), ts[1..]))
  }

  function AllOpen(open: nat, ts: seq<Lexeme>): nat
    decreases |ts|
  {
    if ts == [] then open else AllOpen(NextOpen(open, ts[0]), ts[1..])
  }

  lemma {:induction false} VerdictsConcat(u: Alphabet, s: string, open: nat, a: seq<Lexeme>, b: seq<Lexeme>)
    requires Verdicts(u, s, open, a) && Verdicts(u, s, AllOpen(open, a), b)
    ensures Verdicts(u, s, open, a + b)
    decreases |a|
  {
    hide Verdict;
    if a == [] {
      assert a + b == b;
    } else {
      assert (a + b)[1..] == a[1..] + b;
      VerdictsConcat(u, s, NextOpen(open, a[0]), a[1..], b);
    }
  }

  function Interpolations(stack: StateStack): nat {
    if stack == [] then 0
    else Interpolations(stack[..|stack| - 1]) + if stack[|stack| - 1].InInterpolation? then 1 else 0
  }

  lemma PushInterpolations(stack: StateStack, state: LexerState)
    ensures Interpolations(stack + [state]) == Interpolations(stack) + if state.InInterpolation? then 1 else 0
  {
    assert (stack + [state])[..|stack|] == stack;
  }

  lemma TopInterpolations(stack: StateStack)
    requires |stack| > 0
    ensures Interpolations(stack) == Interpolations(Pop(stack)) + if Top(stack).InInterpolation? then 1 else 0
  {
  }

  /** In code, some interpolation is open exactly inside one. */
  lemma OpenInCode(stack: StateStack)
    requires WellStacked(stack) && !Top(stack).InString?
    ensures Interpolations(stack) > 0 <==> Top(stack).InInterpolation?
  {
    TopInterpolations(stack);
    if Top(stack).Normal? {
      assert |stack| > 1 ==> MayOpen(stack[|stack| - 2], stack[|stack| - 1]);
      assert stack == [Normal] && stack[..0] == [];
      assert Interpolations([]) == 0;
    }
  }

  lemma OneVerdict(u: Alphabet, s: string, open: nat, t: Lexeme)
    ensures Verdicts(u, s, open, [t]) <==> Verdict(u, s, open > 0, t) && StartsUnblank(s, t)
    ensures AllOpen(open, [t]) == NextOpen(open, t)
  {
    hide Verdict;
    assert [t][1..] == [];
  }

  /** The verdicts on what a step emits; the open interpolations are those of the stack until the text
      ends. */
  ghost predicate StepVerdict(u: Alphabet, s: string, stack: StateStack, step: Step) {
    && Verdicts(u, s, Interpolations(stack), step.tokens)
    && (step.pos < |s| ==> AllOpen(Interpolations(stack), step.tokens) == Interpolations(step.stack))
  }

  lemma BraceVerdict(u: Alphabet, s: string, interpolated: bool, i: nat, kind: TokenKind)
    requires i < |s|
    requires if s[i] == '{' then kind == LBrace else s[i] == '}' && (kind == RBrace || kind == InterpolationEnd)
    ensures Verdict(u, s, interpolated, Lexeme(kind, i, i + 1))
  {
    if kind != InterpolationEnd {
      hide Longest, NothingStarts, NoLongerOperator;
      BraceFits(u, s, i, kind);
      PlainIsNotExplained(u, s, interpolated, i, Scan(kind, i + 1));
    }
  }

  lemma QuoteVerdict(u: Alphabet, s: string, interpolated: bool, i: nat, end: nat)
    requires i < end <= |s| && s[i] == '"' && Spelled(u, StringStart, s[i..end])
    ensures Verdict(u, s, interpolated, Lexeme(StringStart, i, end))
  {
    hide Spelled, NothingStarts;
    PlainIsNotExplained(u, s, interpolated, i, Scan(StringStart, end));
  }

  lemma CodeTokenVerdict(u: Alphabet, s: string, i: nat, stack: StateStack)
    requires i <= |s| && WellStacked(stack) && !Top(stack).InString?
    ensures var step := Produce(u, s, i, stack);
      && |step.tokens| == 1 && Verdict(u, s, Top(stack).InInterpolation?, step.tokens[0])
      && StartsUnblank(s, step.tokens[0])
  {
    hide Verdict, ScanToken, ScanTilde, EatWhile, Spelled, Longest;
    var step := Produce(u, s, i, stack);
    var j := SkipBlanks(s, i);
    assert !PeekIs(s, j, IsBlank);
    if j == |s| {
      EndVerdict(u, s, Top(stack).InInterpolation?);
    } else if s[j] == '{' || s[j] == '}' {
      BraceVerdict(u, s, Top(stack).InInterpolation?, j, step.tokens[0].kind);
    } else if s[j] == '"' {
      var triple := Peek(s, j + 1) == Some('"') && Peek(s, j + 2) == Some('"');
      QuoteFits(u, s, j, triple, StringStart);
      QuoteVerdict(u, s, Top(stack).InInterpolation?, j, if triple then j + 3 else j + 1);
    } else if s[j] == '~' && Top(stack).Normal? {
      TildeVerdict(u, s, j);
    } else {
      TokenVerdict(u, s, Top(stack).InInterpolation?, j);
    }
  }

  lemma EndVerdict(u: Alphabet, s: string, interpolated: bool)
    ensures Verdict(u, s, interpolated, Lexeme(Eof, |s|, |s|)) && Verdict(u, s, interpolated, Lexeme(Error, |s|, |s|))
  {
  }

  lemma CodeStackOpen(u: Alphabet, s: string, i: nat, stack: StateStack)
    requires i <= |s| && WellStacked(stack) && !Top(stack).InString?
    ensures var step := Produce(u, s, i, stack);
      && |step.tokens| == 1
      && (step.pos < |s| ==> NextOpen(Interpolations(stack), step.tokens[0]) == Interpolations(step.stack))
  {
    hide ScanToken, ScanTilde, EatWhile, Interpolations;
    var j := SkipBlanks(s, i);
    TopInterpolations(stack);
    forall state
      ensures Interpolations(stack + [state]) == Interpolations(stack) + if state.InInterpolation? then 1 else 0
    {
      PushInterpolations(stack, state);
    }
    forall d: nat ensures Interpolations(Pop(stack) + [InInterpolation(d)]) == Interpolations(Pop(stack)) + 1 {
      PushInterpolations(Pop(stack), InInterpolation(d));
    }
    if j < |s| {
      ScanTokenIsPlain(u, s, j);
      TildeKinds(s, j);
    }
  }

  lemma TildeKinds(s: string, j: nat)
    requires j < |s|
    ensures s[j] == '~' ==> ScanTilde(s, j).kind.RegexLiteral? || ScanTilde(s, j).kind == Error
  {
  }

  lemma CodeVerdict(u: Alphabet, s: string, i: nat, stack: StateStack)
    requires i <= |s| && WellStacked(stack) && !Top(stack).InString?
    ensures StepVerdict(u, s, stack, Produce(u, s, i, stack))
  {
    hide Produce, Verdict, Interpolations, NextOpen;
    var step := Produce(u, s, i, stack);
    CodeTokenVerdict(u, s, i, stack);
    CodeStackOpen(u, s, i, stack);
    OpenInCode(stack);
    assert step.tokens == [step.tokens[0]];
    OneVerdict(u, s, Interpolations(stack), step.tokens[0]);
  }

  /** Inside a string only the end of the text is an error. */
  lemma StringVerdict(u: Alphabet, s: string, i: nat, stack: StateStack, triple: bool)
    requires i <= |s| && WellStacked(stack) && Top(stack) == InString(triple)
    ensures StepVerdict(u, s, stack, LexStringContent(s, i, stack, triple))
  {
    hide ContentStop, Interpolations, Verdicts, AllOpen;
    var step := LexStringContent(s, i, stack, triple);
    var e := ContentStop(s, i, triple);
    var open := Interpolations(stack);
    TopInterpolations(stack);
    PushInterpolations(stack, InInterpolation(0));
    var last := step.tokens[|step.tokens| - 1];
    EndVerdict(u, s, open > 0);
    OneVerdict(u, s, open, last);
    assert Verdict(u, s, open > 0, last);
    if e > i {
      var content := Lexeme(StringContent, i, e);
      OneVerdict(u, s, open, content);
      assert Verdict(u, s, open > 0, content);
      assert step.tokens == [content] + [last];
      VerdictsConcat(u, s, open, [content], [last]);
      TwoOpen(open, content, last);
    } else {
      assert step.tokens == [last];
    }
  }

  lemma TwoOpen(open: nat, a: Lexeme, b: Lexeme)
    ensures AllOpen(open, [a] + [b]) == NextOpen(NextOpen(open, a), b)
  {
    var both := [a] + [b];
    assert both[0] == a && both[1..] == [b] && [b][0] == b && [b][1..] == [];
    assert AllOpen(NextOpen(open, a), [b]) == NextOpen(NextOpen(open, a), b);
  }

  lemma {:induction false} StreamVerdicts(u: Alphabet, s: string, i: nat, stack: StateStack, open: nat)
    requires i <= |s| && WellStacked(stack) && (i < |s| ==> open == Interpolations(stack))
    ensures Verdicts(u, s, open, Stream(u, s, i, stack))
    decreases Work(s, i, stack)
  {
    hide Produce, Verdicts, Interpolations, AllOpen;
    StepProgress(u, s, i, stack);
    var step := Produce(u, s, i, stack);
    if i == |s| {
      EndVerdicts(u, s, stack, open);
    } else if Top(stack).InString? {
      StringVerdict(u, s, i, stack, Top(stack).triple);
      ProduceInString(u, s, i, stack);
    } else {
      CodeVerdict(u, s, i, stack);
    }
    if !IsFinal(step) {
      StreamVerdicts(u, s, step.pos, step.stack, AllOpen(open, step.tokens));
      VerdictsConcat(u, s, open, step.tokens, Stream(u, s, step.pos, step.stack));
    }
  }

  lemma EndVerdicts(u: Alphabet, s: string, stack: StateStack, open: nat)
    requires WellStacked(stack)
    ensures Verdicts(u, s, open, Produce(u, s, |s|, stack).tokens)
  {
    hide Verdict;
    var t := Produce(u, s, |s|, stack).tokens[0];
    assert Produce(u, s, |s|, stack).tokens == [t];
    EndVerdict(u, s, open > 0);
    OneVerdict(u, s, open, t);
  }

  /** For every source: an error token stands only where no token of the vocabulary starts, or for a
      reason of the list and then ends where the list says; and where there is such a reason no other
      token of code stands. */
  lemma ErrorsAreExplained(u: Alphabet, s: string)
    ensures Verdicts(u, s, 0, Lex(u, s))
  {
    assert [Normal][..0] == [];
    assert Interpolations([Normal]) == Interpolations([]) == 0;
    StreamVerdicts(u, s, 0, [Normal], 0);
  }
}

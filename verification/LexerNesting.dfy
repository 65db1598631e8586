/** Every token stream is the yield of a tree: strings and interpolations nest, braces balance
    inside a closed interpolation, and each zero-width error stands for one frame that the end of
    the text left open. */
module LexerNesting {
  import opened Wrappers
  import opened Tokens
  import opened Scanning
  import opened LexerMachine

  // ---- The trees ----

  datatype Node =
    | Leaf(kind: TokenKind)
    | Str(parts: seq<Node>, closed: bool)
    | Interpolation(code: seq<Node>, closed: bool)
    | Braces(code: seq<Node>, closed: bool)
  {
    predicate Closed() {
      Leaf? || closed
    }
  }

  /** Where a node stands: at file level, in the code of an interpolation, or in a string. */
  datatype Place = File | Code | InStr

  ghost predicate LeafAllowed(kind: TokenKind, place: Place) {
    match place
    case File => !Structural(kind)
    case Code => !Structural(kind) && kind != LBrace && kind != RBrace
    case InStr => kind.StringContent?
  }

  ghost predicate WellFormed(n: Node, place: Place) {
    match n
    case Leaf(kind) => LeafAllowed(kind, place)
    case Str(parts, closed) => place != InStr && AllWellFormed(parts, InStr) && OpenOnlyLast(parts, closed)
    case Interpolation(code, closed) => place == InStr && AllWellFormed(code, Code) && OpenOnlyLast(code, closed)
    case Braces(code, closed) => place == Code && AllWellFormed(code, Code) && OpenOnlyLast(code, closed)
  }

  ghost predicate AllWellFormed(ns: seq<Node>, place: Place) {
    forall k | 0 <= k < |ns| :: WellFormed(ns[k], place)
  }

  /** A node left open by the end of the text has nothing after it, and nothing closes around it. */
  ghost predicate OpenOnlyLast(ns: seq<Node>, closed: bool) {
    forall k | 0 <= k < |ns| :: k < |ns| - 1 || closed ==> ns[k].Closed()
  }

  // ---- What a tree yields ----

  /** A token of the stream: a kind, or the empty error token of an unclosed frame. */
  datatype Symbol = Sym(kind: TokenKind) | Unclosed

  function Yield(n: Node): seq<Symbol> {
    match n
    case Leaf(kind) => [Sym(kind)]
    case Str(parts, closed) =>
      [Sym(StringStart)] + YieldAll(parts) + [if closed then Sym(StringEnd) else Unclosed]
    case Interpolation(code, closed) =>
      [Sym(InterpolationStart)] + YieldAll(code) + [if closed then Sym(InterpolationEnd) else Unclosed]
    case Braces(code, closed) =>
      [Sym(LBrace)] + YieldAll(code) + if closed then [Sym(RBrace)] else []
  }

  function YieldAll(ns: seq<Node>): seq<Symbol> {
    if ns == [] then [] else YieldAll(ns[..|ns| - 1]) + Yield(ns[|ns| - 1])
  }

  function ToSymbol(t: Lexeme): Symbol {
    if t.kind == Error && t.from == t.to then Unclosed else Sym(t.kind)
  }

  function Symbols(ts: seq<Lexeme>): seq<Symbol> {
    seq(|ts|, k requires 0 <= k < |ts| => ToSymbol(ts[k]))
  }

  // ---- Trees under construction: one frame per construct still open ----

  datatype FrameKind = FileFrame | StrFrame | InterpolationFrame | BraceFrame

  datatype Frame = Frame(kind: FrameKind, children: seq<Node>)

  function PlaceOf(kind: FrameKind): Place {
    match kind
    case FileFrame => File
    case StrFrame => InStr
    case _ => Code
  }

  function Opener(kind: FrameKind): seq<Symbol> {
    match kind
    case FileFrame => []
    case StrFrame => [Sym(StringStart)]
    case InterpolationFrame => [Sym(InterpolationStart)]
    case BraceFrame => [Sym(LBrace)]
  }

  function Built(frames: seq<Frame>): seq<Symbol> {
    if frames == [] then []
    else
      var top := frames[|frames| - 1];
      Built(frames[..|frames| - 1]) + (Opener(top.kind) + YieldAll(top.children))
  }

  function Kinds(frames: seq<Frame>): seq<FrameKind> {
    seq(|frames|, k requires 0 <= k < |frames| => frames[k].kind)
  }

  function StateFrames(state: LexerState): seq<FrameKind> {
    match state
    case Normal => [FileFrame]
    case InString(_) => [StrFrame]
    case InInterpolation(depth) => [InterpolationFrame] + seq(depth, _ => BraceFrame)
  }

  /** The constructs a state stack has open. */
  function StackFrames(stack: StateStack): seq<FrameKind> {
    if stack == [] then [] else StackFrames(Pop(stack)) + StateFrames(Top(stack))
  }

  /** Children fit their frame; only the newest child may be open, and only if `ended`. */
  ghost predicate Sound(frames: seq<Frame>, ended: bool) {
    forall k | 0 <= k < |frames| ::
      && AllWellFormed(frames[k].children, PlaceOf(frames[k].kind))
      && OpenOnlyLast(frames[k].children, k < |frames| - 1 || !ended)
  }

  function AddChild(frames: seq<Frame>, n: Node): seq<Frame>
    requires |frames| > 0
  {
    var top := frames[|frames| - 1];
    frames[..|frames| - 1] + [top.(children := top.children + [n])]
  }

  lemma AddChildBuilt(frames: seq<Frame>, n: Node)
    requires |frames| > 0
    ensures Built(AddChild(frames, n)) == Built(frames) + Yield(n)
    ensures Kinds(AddChild(frames, n)) == Kinds(frames)
  {
    var top := frames[|frames| - 1];
    var children := top.children + [n];
    assert children[..|children| - 1] == top.children;
    var grown := AddChild(frames, n);
    assert grown[..|grown| - 1] == frames[..|frames| - 1];
    calc {
      Built(grown);
      Built(frames[..|frames| - 1]) + (Opener(top.kind) + (YieldAll(top.children) + Yield(n)));
      Built(frames) + Yield(n);
    }
  }

  lemma SoundRelax(frames: seq<Frame>)
    requires Sound(frames, false)
    ensures Sound(frames, true)
  {
  }

  lemma AddChildSound(frames: seq<Frame>, n: Node, ended: bool)
    requires |frames| > 0 && Sound(frames, false)
    requires WellFormed(n, PlaceOf(frames[|frames| - 1].kind)) && (n.Closed() || ended)
    ensures Sound(AddChild(frames, n), ended)
  {
  }

  /** Opening a construct. */
  lemma PushFrame(frames: seq<Frame>, kind: FrameKind)
    requires Sound(frames, false)
    ensures var pushed := frames + [Frame(kind, [])];
      Sound(pushed, false) && Built(pushed) == Built(frames) + Opener(kind) && Kinds(pushed) == Kinds(frames) + [kind]
  {
    var pushed := frames + [Frame(kind, [])];
    assert pushed[..|pushed| - 1] == frames;
  }

  function ToNode(frame: Frame, closed: bool): Node
    requires frame.kind != FileFrame
  {
    match frame.kind
    case StrFrame => Str(frame.children, closed)
    case InterpolationFrame => Interpolation(frame.children, closed)
    case BraceFrame => Braces(frame.children, closed)
  }

  function Closer(kind: FrameKind, closed: bool): seq<Symbol>
    requires kind != FileFrame
  {
    match kind
    case StrFrame => [if closed then Sym(StringEnd) else Unclosed]
    case InterpolationFrame => [if closed then Sym(InterpolationEnd) else Unclosed]
    case BraceFrame => if closed then [Sym(RBrace)] else []
  }

  ghost predicate Fits(inner: FrameKind, outer: FrameKind) {
    match inner
    case FileFrame => false
    case StrFrame => outer != StrFrame
    case InterpolationFrame => outer == StrFrame
    case BraceFrame => outer == InterpolationFrame || outer == BraceFrame
  }

  lemma ClosedNodeFits(frames: seq<Frame>, closed: bool)
    requires |frames| > 1 && Fits(frames[|frames| - 1].kind, frames[|frames| - 2].kind)
    requires Sound(frames, !closed)
    ensures WellFormed(ToNode(frames[|frames| - 1], closed), PlaceOf(frames[|frames| - 2].kind))
  {
    var top := frames[|frames| - 1];
    assert AllWellFormed(top.children, PlaceOf(top.kind));
    assert OpenOnlyLast(top.children, closed);
  }

  lemma NodeYield(frame: Frame, closed: bool)
    requires frame.kind != FileFrame
    ensures Yield(ToNode(frame, closed)) == Opener(frame.kind) + YieldAll(frame.children) + Closer(frame.kind, closed)
  {
  }

  /** Closing the newest construct, properly or because the text ended. */
  lemma CloseFrame(frames: seq<Frame>, closed: bool) returns (next: seq<Frame>)
    requires |frames| > 1 && Fits(frames[|frames| - 1].kind, frames[|frames| - 2].kind)
    requires Sound(frames, !closed)
    ensures Sound(next, !closed)
    ensures Built(next) == Built(frames) + Closer(frames[|frames| - 1].kind, closed)
    ensures Kinds(next) == Kinds(frames)[..|frames| - 1]
  {
    var top, rest := frames[|frames| - 1], frames[..|frames| - 1];
    var n := ToNode(top, closed);
    next := AddChild(rest, n);
    assert forall k | 0 <= k < |rest| :: rest[k] == frames[k];
    ClosedNodeFits(frames, closed);
    AddChildSound(rest, n, !closed);
    AddChildBuilt(rest, n);
    NodeYield(top, closed);
    assert Built(rest) + (Opener(top.kind) + YieldAll(top.children) + Closer(top.kind, closed))
      == Built(frames) + Closer(top.kind, closed);
    assert Kinds(rest) == Kinds(frames)[..|frames| - 1];
  }

  /** At the end of the text, the braces still open in an interpolation close without a token. */
  lemma {:induction false} DropBraces(frames: seq<Frame>, base: seq<FrameKind>, depth: nat) returns (left: seq<Frame>)
    requires Sound(frames, true)
    requires Kinds(frames) == base + [InterpolationFrame] + seq(depth, _ => BraceFrame)
    ensures Sound(left, true) && Built(left) == Built(frames) && Kinds(left) == base + [InterpolationFrame]
    decreases depth
  {
    if depth == 0 {
      left := frames;
      assert Kinds(left) == base + [InterpolationFrame];
    } else {
      var kinds := Kinds(frames);
      assert |frames| == |base| + 1 + depth;
      assert frames[|frames| - 1].kind == kinds[|frames| - 1] == BraceFrame;
      assert frames[|frames| - 2].kind == kinds[|frames| - 2];
      var next := CloseFrame(frames, false);
      assert kinds[..|frames| - 1] == base + [InterpolationFrame] + seq(depth - 1, _ => BraceFrame);
      left := DropBraces(next, base, depth - 1);
    }
  }

  // ---- The lexer builds such trees ----

  /** `frames` mirrors the state stack; a child may be open only once the text is used up. */
  ghost predicate Mirrors(s: string, i: nat, stack: StateStack, frames: seq<Frame>) {
    Kinds(frames) == StackFrames(stack) && Sound(frames, true) && (i < |s| ==> Sound(frames, false))
  }

  function NewestFrame(state: LexerState): FrameKind {
    match state
    case Normal => FileFrame
    case InString(_) => StrFrame
    case InInterpolation(depth) => if depth == 0 then InterpolationFrame else BraceFrame
  }

  lemma NewestOfStack(stack: StateStack)
    requires |stack| > 0
    ensures |StackFrames(stack)| > 0 && StackFrames(stack)[|StackFrames(stack)| - 1] == NewestFrame(Top(stack))
  {
  }

  /** The newest frame is the one of the state on top, and the frame below it can hold it. */
  lemma TopKinds(stack: StateStack)
    requires WellStacked(stack)
    ensures var kinds := StackFrames(stack);
      && |kinds| > 0 && kinds[|kinds| - 1] == NewestFrame(Top(stack))
      && (Top(stack).Normal? ==> |kinds| == 1)
      && (!Top(stack).Normal? ==> |kinds| > 1 && Fits(kinds[|kinds| - 1], kinds[|kinds| - 2]))
  {
    NewestOfStack(stack);
    var below := Pop(stack);
    if |stack| == 1 {
      assert StackFrames(stack) == [FileFrame];
    } else {
      NewestOfStack(below);
      assert MayOpen(Top(below), Top(stack));
    }
  }

  lemma TopFrame(stack: StateStack, frames: seq<Frame>)
    requires WellStacked(stack) && Kinds(frames) == StackFrames(stack)
    ensures |frames| > 0 && frames[|frames| - 1].kind == NewestFrame(Top(stack))
    ensures Top(stack).Normal? ==> |frames| == 1
    ensures !Top(stack).Normal? ==> |frames| > 1 && Fits(frames[|frames| - 1].kind, frames[|frames| - 2].kind)
  {
    TopKinds(stack);
    assert forall k | 0 <= k < |frames| :: frames[k].kind == Kinds(frames)[k];
  }

  /** A token that neither opens nor closes anything. */
  lemma NestLeaf(s: string, i: nat, stack: StateStack, frames: seq<Frame>, t: Lexeme) returns (next: seq<Frame>)
    requires WellStacked(stack) && Mirrors(s, i, stack, frames) && i < |s|
    requires LeafAllowed(t.kind, PlaceOf(NewestFrame(Top(stack)))) && t.from < t.to
    ensures Kinds(next) == Kinds(frames) && Sound(next, false) && Sound(next, true)
    ensures Built(next) == Built(frames) + Symbols([t])
  {
    TopFrame(stack, frames);
    var n := Leaf(t.kind);
    next := AddChild(frames, n);
    AddChildBuilt(frames, n);
    AddChildSound(frames, n, false);
    assert Yield(n) == Symbols([t]);
    SoundRelax(next);
  }

  lemma NestPush(s: string, i: nat, stack: StateStack, frames: seq<Frame>, t: Lexeme, kind: FrameKind)
      returns (next: seq<Frame>)
    requires WellStacked(stack) && Mirrors(s, i, stack, frames) && i < |s|
    requires Opener(kind) == Symbols([t])
    ensures Kinds(next) == StackFrames(stack) + [kind] && Sound(next, false) && Sound(next, true)
    ensures Built(next) == Built(frames) + Symbols([t])
  {
    PushFrame(frames, kind);
    next := frames + [Frame(kind, [])];
    SoundRelax(next);
  }

  lemma NestClose(s: string, i: nat, stack: StateStack, frames: seq<Frame>, t: Lexeme) returns (next: seq<Frame>)
    requires WellStacked(stack) && Mirrors(s, i, stack, frames) && i < |s| && !Top(stack).Normal?
    requires Closer(NewestFrame(Top(stack)), true) == Symbols([t])
    ensures var kinds := StackFrames(stack);
      |kinds| > 0 && Kinds(next) == kinds[..|kinds| - 1] && Sound(next, false) && Sound(next, true)
    ensures Built(next) == Built(frames) + Symbols([t])
  {
    TopFrame(stack, frames);
    next := CloseFrame(frames, true);
    SoundRelax(next);
  }

  lemma NestNormal(u: Alphabet, s: string, i: nat, stack: StateStack, frames: seq<Frame>) returns (next: seq<Frame>)
    requires i <= |s| && WellStacked(stack) && Top(stack).Normal? && Mirrors(s, i, stack, frames)
    requires !IsFinal(LexNormal(u, s, i, stack))
    ensures var step := LexNormal(u, s, i, stack);
      Mirrors(s, step.pos, step.stack, next) && Built(next) == Built(frames) + Symbols(step.tokens)
  {
    hide Sound, Built, ScanToken;
    var step := LexNormal(u, s, i, stack);
    var j := SkipBlanks(s, i);
    var t := step.tokens[0];
    assert step.tokens == [t];
    if s[j] == '"' {
      next := NestPush(s, i, stack, frames, t, StrFrame);
      assert Pop(step.stack) == stack;
    } else {
      if s[j] !in {'{', '}', '~'} {
        ScanTokenIsPlain(u, s, j);
      }
      next := NestLeaf(s, i, stack, frames, t);
    }
  }

  /** The end of the text inside an interpolation closes its open braces and the interpolation. */
  lemma NestUnclosedCode(s: string, stack: StateStack, frames: seq<Frame>) returns (next: seq<Frame>)
    requires WellStacked(stack) && Top(stack).InInterpolation?
    requires Kinds(frames) == StackFrames(stack) && Sound(frames, true)
    ensures Kinds(next) == StackFrames(Pop(stack)) && Sound(next, true)
    ensures Built(next) == Built(frames) + [Unclosed]
  {
    hide Sound, Built;
    var below := StackFrames(Pop(stack));
    var left := DropBraces(frames, below, Top(stack).braceDepth);
    var kinds := Kinds(left);
    assert MayOpen(Top(Pop(stack)), Top(stack));
    NewestOfStack(Pop(stack));
    assert left[|left| - 1].kind == kinds[|left| - 1] && left[|left| - 2].kind == kinds[|left| - 2];
    next := CloseFrame(left, false);
    assert kinds[..|kinds| - 1] == below;
  }

  lemma NestBrace(s: string, i: nat, stack: StateStack, frames: seq<Frame>, t: Lexeme) returns (next: seq<Frame>)
    requires i < |s| && WellStacked(stack) && Top(stack).InInterpolation? && Mirrors(s, i, stack, frames)
    requires t.kind in {LBrace, RBrace} && (t.kind == RBrace ==> Top(stack).braceDepth > 0)
    ensures var depth := Top(stack).braceDepth;
      Kinds(next) == StackFrames(Pop(stack) + [InInterpolation(if t.kind == LBrace then depth + 1 else depth - 1)])
    ensures Sound(next, false) && Sound(next, true) && Built(next) == Built(frames) + Symbols([t])
  {
    hide Sound, Built;
    var depth, below := Top(stack).braceDepth, Pop(stack);
    var after := InInterpolation(if t.kind == LBrace then depth + 1 else depth - 1);
    assert Pop(below + [after]) == below;
    if t.kind == LBrace {
      next := NestPush(s, i, stack, frames, t, BraceFrame);
      assert StateFrames(Top(stack)) + [BraceFrame] == StateFrames(after);
    } else {
      next := NestClose(s, i, stack, frames, t);
      assert StateFrames(Top(stack))[..depth] == StateFrames(after);
    }
  }

  lemma NestInterpolation(u: Alphabet, s: string, i: nat, stack: StateStack, frames: seq<Frame>)
      returns (next: seq<Frame>)
    requires i <= |s| && WellStacked(stack) && Top(stack).InInterpolation? && Mirrors(s, i, stack, frames)
    ensures var step := LexInterpolation(u, s, i, stack);
      Mirrors(s, step.pos, step.stack, next) && Built(next) == Built(frames) + Symbols(step.tokens)
  {
    hide ScanToken;
    var step := LexInterpolation(u, s, i, stack);
    var j := SkipBlanks(s, i);
    var t := step.tokens[0];
    assert step.tokens == [t];
    if j == |s| {
      next := NestUnclosedCode(s, stack, frames);
      assert Symbols([t]) == [Unclosed];
    } else if s[j] == '{' || (s[j] == '}' && Top(stack).braceDepth > 0) {
      next := NestBrace(s, i, stack, frames, t);
    } else if s[j] == '}' {
      next := NestClose(s, i, stack, frames, t);
      assert StateFrames(Top(stack)) == [InterpolationFrame];
      assert StackFrames(stack) == StackFrames(Pop(stack)) + [InterpolationFrame];
    } else if s[j] == '"' {
      next := NestPush(s, i, stack, frames, t, StrFrame);
      assert Pop(step.stack) == stack;
    } else {
      ScanTokenIsPlain(u, s, j);
      next := NestLeaf(s, i, stack, frames, t);
    }
  }

  /** What ends a stretch of string content: the end of the text, `${`, or the closing quotes. */
  lemma NestStringEnd(s: string, i: nat, stack: StateStack, triple: bool, frames: seq<Frame>) returns (next: seq<Frame>)
    requires i <= |s| && WellStacked(stack) && Top(stack) == InString(triple) && ContentStop(s, i, triple) == i
    requires Mirrors(s, i, stack, frames)
    ensures var step := LexStringContent(s, i, stack, triple);
      Mirrors(s, step.pos, step.stack, next) && Built(next) == Built(frames) + Symbols(step.tokens)
  {
    var step := LexStringContent(s, i, stack, triple);
    var t := step.tokens[0];
    assert step.tokens == [t];
    assert StackFrames(stack) == StackFrames(Pop(stack)) + [StrFrame];
    if i == |s| {
      TopFrame(stack, frames);
      next := CloseFrame(frames, false);
      assert Symbols([t]) == [Unclosed];
    } else if AtInterpolation(s, i) {
      next := NestPush(s, i, stack, frames, t, InterpolationFrame);
      assert Pop(step.stack) == stack;
    } else {
      next := NestClose(s, i, stack, frames, t);
    }
  }

  lemma NestString(s: string, i: nat, stack: StateStack, triple: bool, frames: seq<Frame>) returns (next: seq<Frame>)
    requires i <= |s| && WellStacked(stack) && Top(stack) == InString(triple) && Mirrors(s, i, stack, frames)
    ensures var step := LexStringContent(s, i, stack, triple);
      Mirrors(s, step.pos, step.stack, next) && Built(next) == Built(frames) + Symbols(step.tokens)
  {
    hide ContentStop, AtInterpolation, AtClosingQuote, Built, Sound, StackFrames;
    var e := ContentStop(s, i, triple);
    if e == i {
      next := NestStringEnd(s, i, stack, triple, frames);
    } else {
      var content := Lexeme(StringContent, i, e);
      var filled := NestLeaf(s, i, stack, frames, content);
      ContentFirst(s, i, stack, triple);
      next := NestStringEnd(s, e, stack, triple, filled);
    }
  }

  /** A stretch of content, then what ends it. */
  lemma ContentFirst(s: string, i: nat, stack: StateStack, triple: bool)
    requires i <= |s| && |stack| > 0 && i < ContentStop(s, i, triple)
    ensures var e := ContentStop(s, i, triple);
      var step, rest := LexStringContent(s, i, stack, triple), LexStringContent(s, e, stack, triple);
      && ContentStop(s, e, triple) == e
      && step.pos == rest.pos && step.stack == rest.stack
      && Symbols(step.tokens) == [Sym(StringContent)] + Symbols(rest.tokens)
  {
    var e := ContentStop(s, i, triple);
    ContentStopStops(s, i, triple);
    var rest := LexStringContent(s, e, stack, triple);
    assert LexStringContent(s, i, stack, triple).tokens == [Lexeme(StringContent, i, e)] + rest.tokens;
  }

  lemma ContentStopStops(s: string, i: nat, triple: bool)
    requires i <= |s|
    ensures ContentStop(s, ContentStop(s, i, triple), triple) == ContentStop(s, i, triple)
  {
  }

  lemma NestStep(u: Alphabet, s: string, i: nat, stack: StateStack, frames: seq<Frame>) returns (next: seq<Frame>)
    requires i <= |s| && WellStacked(stack) && Mirrors(s, i, stack, frames)
    requires !IsFinal(Produce(u, s, i, stack))
    ensures var step := Produce(u, s, i, stack);
      Mirrors(s, step.pos, step.stack, next) && Built(next) == Built(frames) + Symbols(step.tokens)
  {
    hide Mirrors, Built, Symbols, LexNormal, LexStringContent, LexInterpolation;
    match Top(stack)
    case Normal => next := NestNormal(u, s, i, stack, frames);
    case InString(triple) => next := NestString(s, i, stack, triple, frames);
    case InInterpolation(_) => next := NestInterpolation(u, s, i, stack, frames);
  }

  /** At `Eof` only the file itself is open, and its children are the document. */
  lemma NestFinal(frames: seq<Frame>) returns (doc: seq<Node>)
    requires Kinds(frames) == StackFrames([Normal]) && Sound(frames, true)
    ensures AllWellFormed(doc, File) && OpenOnlyLast(doc, false) && Built(frames) == YieldAll(doc)
  {
    TopFrame([Normal], frames);
    doc := frames[0].children;
    assert frames[..0] == [];
  }

  /** From any configuration, the rest of the stream completes the trees under construction. */
  lemma {:induction false} NestStream(u: Alphabet, s: string, i: nat, stack: StateStack, frames: seq<Frame>)
      returns (doc: seq<Node>)
    requires i <= |s| && WellStacked(stack) && Mirrors(s, i, stack, frames)
    ensures AllWellFormed(doc, File) && OpenOnlyLast(doc, false)
    ensures Built(frames) + Symbols(Stream(u, s, i, stack)) == YieldAll(doc) + [Sym(Eof)]
    decreases Work(s, i, stack)
  {
    hide Produce, Sound, Built, AllWellFormed, OpenOnlyLast, YieldAll, StackFrames;
    var step := Produce(u, s, i, stack);
    StepProgress(u, s, i, stack);
    if IsFinal(step) {
      doc := NestFinal(frames);
      assert Symbols(step.tokens) == [Sym(Eof)];
    } else {
      var next := NestStep(u, s, i, stack, frames);
      doc := NestStream(u, s, step.pos, step.stack, next);
      var rest := Stream(u, s, step.pos, step.stack);
      assert Symbols(step.tokens + rest) == Symbols(step.tokens) + Symbols(rest);
    }
  }

  /** Nesting: for every source text, malformed ones included, the token stream is the yield of a
      well-formed tree followed by `Eof`. */
  lemma Nested(u: Alphabet, s: string)
    ensures exists doc: seq<Node> ::
      && AllWellFormed(doc, File) && OpenOnlyLast(doc, false)
      && Symbols(Lex(u, s)) == YieldAll(doc) + [Sym(Eof)]
  {
    var frames := [Frame(FileFrame, [])];
    assert Kinds(frames) == StackFrames([Normal]) by { assert Pop([Normal]) == []; }
    var doc := NestStream(u, s, 0, [Normal], frames);
    assert frames[..0] == [];
    assert Built(frames) == [];
  }
}

/** The token vocabulary of the language. */
module Tokens {
  import opened Wrappers

  /** `Keyword(w)` stands for the keyword kind whose spelling is `w`. */
  datatype TokenKind =
    | Keyword(word: string)
    | Plus | Minus | Star | Slash | Percent
    | EqEq | NotEq | Lt | Gt | LtEq | GtEq
    | AmpAmp | PipePipe | Bang | Pipe | SlotPipe(slot: nat)
    | DotDot | Diamond | PlusPlus | Eq | Arrow | FatArrow | ColonColon | Question | Bar
    | LParen | RParen | LBracket | RBracket | LBrace | RBrace
    | Comma | Dot | Colon | Semicolon | At | Newline
    | IntLiteral | FloatLiteral
    | StringStart | StringEnd | StringContent | InterpolationStart | InterpolationEnd
    | Atom | RegexLiteral(pattern: string, flags: string)
    | Ident | Comment | DocComment | ModuleDocComment
    | Eof | Error

  /** Byte offsets, end exclusive. */
  datatype Span = Span(start: nat, end: nat)

  datatype Token = Token(kind: TokenKind, span: Span)

  /** A token located by character positions rather than byte offsets. */
  datatype Lexeme = Lexeme(kind: TokenKind, from: nat, to: nat)

  const KEYWORDS: seq<string> := [
    "actor", "after", "alias", "and", "call", "case", "cast", "cond", "def", "do", "else", "end",
    "false", "fn", "for", "if", "impl", "import", "interface", "json", "in", "let", "link", "match",
    "module", "monitor", "nil", "not", "or", "pub", "receive", "return", "self", "send", "service",
    "spawn", "struct", "supervisor", "terminate", "trait", "trap", "true", "type", "when", "where",
    "while", "with", "break", "continue"]

  function KeywordFromStr(s: string): Option<TokenKind> {
    if s in KEYWORDS then Some(Keyword(s)) else None
  }
}

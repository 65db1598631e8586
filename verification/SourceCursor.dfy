/** The source iterator under the lexer: a character stream with a byte position. */
module SourceCursor {
  import opened Wrappers
  import opened Unicode
  import Scanning

  class Cursor {
    const source: string
    /** Byte offset of the next character. */
    var pos: nat
    /** How many characters the character iterator has yielded. */
    var chars: nat

    ghost predicate Valid()
      reads this
    {
      chars <= |source| && pos == ByteOffset(source, chars)
    }

    constructor (source: string)
      ensures Valid() && this.source == source && chars == 0
    {
      this.source := source;
      pos, chars := 0, 0;
    }

    function Peek(): (c: Option<char>)
      reads this
      ensures c == Scanning.Peek(source, chars)
    {
      if chars < |source| then Some(source[chars]) else None
    }

    function PeekNext(): (c: Option<char>)
      reads this
      ensures c == Scanning.Peek(source, chars + 1)
    {
      if chars + 1 < |source| then Some(source[chars + 1]) else None
    }

    /** Moves past one character, or stays put at the end of the text. */
    method Advance() returns (c: Option<char>)
      requires Valid()
      modifies this
      ensures Valid() && c == Scanning.Peek(source, old(chars))
      ensures chars == if c.Some? then old(chars) + 1 else old(chars)
    {
      if chars == |source| {
        return None;
      }
      c := Some(source[chars]);
      pos := pos + Utf8Width(source[chars]);
      chars := chars + 1;
    }

    method EatWhile(p: char -> bool)
      requires Valid()
      modifies this
      ensures Valid() && chars == Scanning.EatWhile(source, old(chars), p)
    {
      while Peek().Some? && p(Peek().value)
        invariant Valid()
        invariant Scanning.EatWhile(source, chars, p) == Scanning.EatWhile(source, old(chars), p)
        decreases |source| - chars
      {
        var _ := Advance();
      }
    }

    /** The text between two byte offsets, which must be character boundaries. */
    method Slice(start: nat, end: nat) returns (text: string)
      requires exists i, j :: 0 <= i <= j <= |source| && ByteOffset(source, i) == start && ByteOffset(source, j) == end
      ensures forall i, j | 0 <= i <= j <= |source| && ByteOffset(source, i) == start && ByteOffset(source, j) == end ::
        text == source[i..j]
    {
      var from, to := BoundaryAt(source, start, |source|), BoundaryAt(source, end, |source|);
      forall i, j | 0 <= i <= j <= |source| && ByteOffset(source, i) == start && ByteOffset(source, j) == end
        ensures i == from && j == to
      {
        BoundaryUnique(source, i, from);
        BoundaryUnique(source, j, to);
      }
      text := source[from..to];
    }
  }

  /** Looking at a character is looking at its bytes at the current byte offset. */
  lemma PeekReadsBytes(cursor: Cursor)
    requires cursor.Valid()
    ensures match cursor.Peek()
      case None => cursor.pos == |Encode(cursor.source)|
      case Some(c) =>
        && cursor.pos + Utf8Width(c) <= |Encode(cursor.source)|
        && Encode(cursor.source)[cursor.pos..cursor.pos + Utf8Width(c)] == Utf8Bytes(c)
  {
    if cursor.chars < |cursor.source| {
      EncodeChar(cursor.source, cursor.chars);
    } else {
      EncodeLength(cursor.source, cursor.chars);
      assert cursor.source[..cursor.chars] == cursor.source;
    }
  }

  /** Looking one further is looking at the bytes behind the current character's. */
  lemma PeekNextReadsBytes(cursor: Cursor)
    requires cursor.Valid() && cursor.Peek().Some?
    ensures var next := cursor.pos + Utf8Width(cursor.Peek().value);
      match cursor.PeekNext()
      case None => next == |Encode(cursor.source)|
      case Some(c) =>
        && next + Utf8Width(c) <= |Encode(cursor.source)|
        && Encode(cursor.source)[next..next + Utf8Width(c)] == Utf8Bytes(c)
  {
    var i := cursor.chars + 1;
    if i < |cursor.source| {
      EncodeChar(cursor.source, i);
    } else {
      EncodeLength(cursor.source, i);
      assert cursor.source[..i] == cursor.source;
    }
  }
}

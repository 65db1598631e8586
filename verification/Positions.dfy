/** Source positions: UTF-16 line/character pairs for the language server, and the byte-based line
    index used for error messages. */
module Positions {
  import opened Wrappers
  import opened Unicode

  /** Zero-based line and character, the latter in UTF-16 code units. */
  datatype Position = Position(line: nat, character: nat)

  // ---- Lines of a text ----

  /** Newlines before character `i`. */
  function Newlines(s: string, i: nat): nat
    requires i <= |s|
  {
    if i == 0 then 0 else Newlines(s, i - 1) + if s[i - 1] == '\n' then 1 else 0
  }

  /** The start of the line that character `i` is on. */
  function LineStart(s: string, i: nat): (start: nat)
    requires i <= |s|
    ensures start <= i && StartsLine(s, Newlines(s, i), start)
    ensures forall k | start <= k < i :: s[k] != '\n'
  {
    if i == 0 || s[i - 1] == '\n' then i else LineStart(s, i - 1)
  }

  predicate StartsLine(s: string, line: nat, start: nat) {
    start <= |s| && Newlines(s, start) == line && (start == 0 || s[start - 1] == '\n')
  }

  /** UTF-16 code units from character `a` to character `b`. */
  function Units(s: string, a: nat, b: nat): nat
    requires a <= b <= |s|
    decreases b
  {
    if a == b then 0 else Units(s, a, b - 1) + Utf16Width(s[b - 1])
  }

  /** Those are the units of the encoded text in between. */
  lemma {:induction false} UnitsAreEncoded(s: string, a: nat, b: nat)
    requires a <= b <= |s|
    ensures Units(s, a, b) == |EncodeUtf16(s[a..b])|
    decreases b
  {
    if a < b {
      UnitsAreEncoded(s, a, b - 1);
      Utf16Decodes(s[b - 1], []);
      assert s[a..b][..b - a - 1] == s[a..b - 1];
    }
  }

  /** The newline that ends the line that starts at `i`, or the end of the text. */
  function LineEnd(s: string, i: nat): (e: nat)
    requires i <= |s|
    ensures i <= e <= |s| && (e < |s| ==> s[e] == '\n')
    ensures forall k | i <= k < e :: s[k] != '\n'
    decreases |s| - i
  {
    if i == |s| || s[i] == '\n' then i else LineEnd(s, i + 1)
  }

  lemma {:induction false} NewlinesMonotone(s: string, i: nat, j: nat)
    requires i <= j <= |s|
    ensures Newlines(s, i) <= Newlines(s, j)
    ensures Newlines(s, i) == Newlines(s, j) <==> forall k | i <= k < j :: s[k] != '\n'
    decreases j
  {
    if i < j {
      NewlinesMonotone(s, i, j - 1);
    }
  }

  /** A line starts in one place only. */
  lemma LineStartUnique(s: string, line: nat, a: nat, b: nat)
    requires StartsLine(s, line, a) && StartsLine(s, line, b)
    ensures a == b
  {
    if a < b {
      NewlinesMonotone(s, a, b - 1);
    } else if b < a {
      NewlinesMonotone(s, b, a - 1);
    }
  }

  lemma {:induction false} UnitsStrict(s: string, a: nat, b: nat, c: nat)
    requires a <= b < c <= |s|
    ensures Units(s, a, b) < Units(s, a, c)
    decreases c
  {
    if b < c - 1 {
      UnitsStrict(s, a, b, c - 1);
    }
  }

  // ---- Offset to position ----

  /** The position of character `i`. */
  function PositionAt(s: string, i: nat): Position
    requires i <= |s|
  {
    Position(Newlines(s, i), Units(s, LineStart(s, i), i))
  }

  ghost predicate IsBoundary(s: string, offset: nat) {
    exists i :: 0 <= i <= |s| && ByteOffset(s, i) == offset
  }

  /** The position of a byte offset; past the end it is the position of the end. */
  function OffsetToPosition(s: string, offset: nat): (p: Position)
    requires offset <= ByteLength(s) ==> IsBoundary(s, offset)
    ensures forall i | 0 <= i <= |s| && ByteOffset(s, i) == offset :: p == PositionAt(s, i)
    ensures offset > ByteLength(s) ==> p == PositionAt(s, |s|)
  {
    assert offset > ByteLength(s) ==> BoundaryAt(s, ByteLength(s), |s|) == |s|;
    var clamped := if offset <= ByteLength(s) then offset else ByteLength(s);
    assert ByteOffset(s, |s|) == ByteLength(s);
    var i := BoundaryAt(s, clamped, |s|);
    assert forall j | 0 <= j <= |s| && ByteOffset(s, j) == offset :: j == i by {
      forall j | 0 <= j <= |s| && ByteOffset(s, j) == offset
        ensures j == i
      {
        if j < |s| {
          ByteOffsetStrict(s, j, |s|);
        }
        BoundaryUnique(s, i, j);
      }
    }
    PositionAt(s, i)
  }

  // ---- Position to offset ----

  /** The first character from `k` on, counted from the line start, at which `character` code units
      are reached; the end of the text if there is none. */
  function FirstReaching(s: string, start: nat, k: nat, character: nat): (r: nat)
    requires start <= k <= |s|
    ensures k <= r <= |s|
    ensures r < |s| ==> Units(s, start, r) >= character
    ensures forall j | k <= j < r :: Units(s, start, j) < character
    decreases |s| - k
  {
    if k == |s| || Units(s, start, k) >= character then k else FirstReaching(s, start, k + 1, character)
  }

  /** Where a position on the line that starts at `start` leads. */
  function Target(s: string, start: nat, character: nat): (r: nat)
    requires start <= |s|
    ensures start <= r <= |s|
  {
    var k := FirstReaching(s, start, start, character);
    if k < |s| then k else LineEnd(s, start)
  }

  /** `line_text.find('\n')`, from the line start. */
  method FindLineEnd(s: string, start: nat) returns (e: nat)
    requires start <= |s|
    ensures e == LineEnd(s, start)
  {
    e := start;
    while e < |s| && s[e] != '\n'
      invariant start <= e <= |s| && LineEnd(s, e) == LineEnd(s, start)
    {
      e := e + 1;
    }
  }

  /** The inner scan: counts code units from the line start to the requested character. */
  method ScanLine(s: string, start: nat, startOffset: nat, character: nat) returns (offset: Option<nat>)
    requires start <= |s| && startOffset == ByteOffset(s, start)
    ensures var k := FirstReaching(s, start, start, character);
      offset == if k < |s| then Some(ByteOffset(s, k)) else None
  {
    var units, at := 0, startOffset;
    for k := start to |s|
      invariant units == Units(s, start, k) && at == ByteOffset(s, k)
      invariant FirstReaching(s, start, k, character) == FirstReaching(s, start, start, character)
    {
      if units >= character {
        return Some(at);
      }
      units := units + Utf16Width(s[k]);
      at := at + Utf8Width(s[k]);
    }
    return None;
  }

  /** The offset of a position; None when the text has no such line. A position that comes from an
      offset leads back to it. */
  method PositionToOffset(s: string, position: Position) returns (offset: Option<nat>)
    ensures offset.None? <==> position.line > Newlines(s, |s|)
    ensures forall start | StartsLine(s, position.line, start) ::
      offset == Some(ByteOffset(s, Target(s, start, position.character)))
    ensures forall i | 0 <= i <= |s| && PositionAt(s, i) == position :: offset == Some(ByteOffset(s, i))
  {
    LinesExist(s, position.line);
    RoundTripAll(s, position);
    var currentLine, lineStart, lineStartOffset, at := 0, 0, 0, 0;
    for i := 0 to |s|
      invariant lineStart <= i && StartsLine(s, currentLine, lineStart) && at == ByteOffset(s, i)
      invariant lineStartOffset == ByteOffset(s, lineStart)
      invariant currentLine == Newlines(s, i) <= position.line
      invariant currentLine == position.line ==> lineStart == i
    {
      if currentLine == position.line {
        UniqueStart(s, position.line, lineStart);
        var found := ScanLine(s, lineStart, lineStartOffset, position.character);
        if found.Some? {
          return found;
        }
        var e := FindLineEnd(s, lineStart);
        NewlinesMonotone(s, i, |s|);
        return Some(OffsetFrom(s, lineStart, lineStartOffset, e));
      }
      at := at + Utf8Width(s[i]);
      if s[i] == '\n' {
        currentLine := currentLine + 1;
        lineStart, lineStartOffset := i + 1, at;
      }
    }
    if currentLine == position.line {
      UniqueStart(s, position.line, lineStart);
      var found := ScanLine(s, lineStart, lineStartOffset, position.character);
      if found.Some? {
        return found;
      }
      return Some(at);
    }
    return None;
  }

  /** A line start plus the bytes from there on. */
  function OffsetFrom(s: string, start: nat, startOffset: nat, e: nat): (offset: nat)
    requires start <= e <= |s| && startOffset == ByteOffset(s, start)
    ensures offset == ByteOffset(s, e)
    decreases e
  {
    if start == e then startOffset else OffsetFrom(s, start, startOffset, e - 1) + Utf8Width(s[e - 1])
  }

  lemma UniqueStart(s: string, line: nat, start: nat)
    requires StartsLine(s, line, start)
    ensures forall other | StartsLine(s, line, other) :: other == start
  {
    forall other | StartsLine(s, line, other)
      ensures other == start
    {
      LineStartUnique(s, line, start, other);
    }
  }

  lemma LinesExist(s: string, line: nat)
    ensures line > Newlines(s, |s|) ==> !exists start :: StartsLine(s, line, start)
  {
    forall start | StartsLine(s, line, start)
      ensures line <= Newlines(s, |s|)
    {
      NewlinesMonotone(s, start, |s|);
    }
  }

  /** From character to position and back: also right after a final newline, and after characters
      that take two code units. */
  lemma RoundTrip(s: string, i: nat)
    requires i <= |s|
    ensures var p := PositionAt(s, i);
      StartsLine(s, p.line, LineStart(s, i)) && Target(s, LineStart(s, i), p.character) == i
  {
    var start := LineStart(s, i);
    var character := Units(s, start, i);
    forall k | start <= k < i
      ensures Units(s, start, k) < character
    {
      UnitsStrict(s, start, k, i);
    }
    var r := FirstReaching(s, start, start, character);
    assert r >= i;
  }

  lemma RoundTripAll(s: string, position: Position)
    ensures forall i | 0 <= i <= |s| && PositionAt(s, i) == position ::
      StartsLine(s, position.line, LineStart(s, i)) && Target(s, LineStart(s, i), position.character) == i
  {
    forall i | 0 <= i <= |s| && PositionAt(s, i) == position
      ensures StartsLine(s, position.line, LineStart(s, i)) && Target(s, LineStart(s, i), position.character) == i
    {
      RoundTrip(s, i);
    }
  }

  /** A character past the end of its line is not always clamped to the line: the scan runs on into
      the following lines. It stays on the line exactly if the line, or the whole rest of the text
      but its last character, is too short for it, or the line is the last one. */
  lemma StaysOnLine(s: string, start: nat, character: nat)
    requires start <= |s| && (start == 0 || s[start - 1] == '\n')
    ensures var e := LineEnd(s, start);
      Target(s, start, character) <= e <==>
        character <= Units(s, start, e) || e == |s| || character > Units(s, start, |s| - 1)
  {
    var e, k := LineEnd(s, start), FirstReaching(s, start, start, character);
    if character <= Units(s, start, e) {
      assert k <= e;
    } else if e < |s| {
      forall j | start <= j <= e
        ensures Units(s, start, j) < character
      {
        if j < e {
          UnitsStrict(s, start, j, e);
        }
      }
      assert k > e;
      if k < |s| - 1 {
        UnitsStrict(s, start, k, |s| - 1);
      }
    }
  }

  /** Character 2 of the first line of `a`, newline, `bb` lands on the second line. */
  lemma RunsIntoNextLine()
    ensures var s := "a\nbb";
      StartsLine(s, 0, 0) && LineEnd(s, 0) == 1 && Target(s, 0, 2) == 2
  {
    var s := "a\nbb";
    assert LineEnd(s, 1) == 1;
    assert Units(s, 0, 0) == 0 && Units(s, 0, 1) == 1 && Units(s, 0, 2) == 2;
    assert FirstReaching(s, 0, 2, 2) == 2;
    assert FirstReaching(s, 0, 1, 2) == 2;
  }
}

/** The precomputed line starts behind error messages, in bytes, and their agreement with the
    positions of the language server. */
module LineIndexes {
  import opened Wrappers
  import opened Unicode
  import opened Positions

  const NEWLINE: byte := 10

  /** Newline bytes before byte `n`. */
  function NewlineBytes(text: seq<byte>, n: nat): nat
    requires n <= |text|
  {
    if n == 0 then 0 else NewlineBytes(text, n - 1) + if text[n - 1] == NEWLINE then 1 else 0
  }

  lemma {:induction false} NewlineBytesMonotone(text: seq<byte>, m: nat, n: nat)
    requires m <= n <= |text|
    ensures NewlineBytes(text, m) <= NewlineBytes(text, n)
    decreases n
  {
    if m < n {
      NewlineBytesMonotone(text, m, n - 1);
    }
  }

  /** The `k`-th entry is where line `k` starts, for all lines that start within the first `n` bytes. */
  ghost predicate Indexes(starts: seq<nat>, text: seq<byte>, n: nat)
    requires n <= |text|
  {
    && |starts| == NewlineBytes(text, n) + 1
    && starts[0] == 0
    && forall k | 0 < k < |starts| ::
         0 < starts[k] <= n && text[starts[k] - 1] == NEWLINE && NewlineBytes(text, starts[k]) == k
  }

  class LineIndex {
    var lineStarts: seq<nat>

    constructor (source: string)
      ensures Indexes(lineStarts, Encode(source), |Encode(source)|)
    {
      var text := Encode(source);
      var starts: seq<nat> := [0];
      for i := 0 to |text|
        invariant Indexes(starts, text, i)
      {
        if text[i] == NEWLINE {
          starts := starts + [i + 1];
        }
      }
      lineStarts := starts;
    }

    /** One-based line and byte column of an offset, by binary search. */
    method LineCol(offset: nat, ghost text: seq<byte>) returns (line: nat, col: nat)
      requires Indexes(lineStarts, text, |text|)
      ensures var n := if offset <= |text| then offset else |text|;
        && line == NewlineBytes(text, n) + 1
        && col == offset - LastLineStart(text, n) + 1
    {
      ghost var n := if offset <= |text| then offset else |text|;
      var lo, hi := 0, |lineStarts|;
      while lo < hi
        invariant 0 <= lo <= hi <= |lineStarts|
        invariant forall k | 0 <= k < lo :: lineStarts[k] <= offset
        invariant forall k | hi <= k < |lineStarts| :: lineStarts[k] > offset
      {
        var mid := (lo + hi) / 2;
        if lineStarts[mid] <= offset {
          StartsOrdered(lineStarts, text, mid);
          lo := mid + 1;
        } else {
          StartsOrdered(lineStarts, text, mid);
          hi := mid;
        }
      }
      PartitionPoint(lineStarts, text, offset, lo);
      var index := if lo > 0 then lo - 1 else 0;
      line := index + 1;
      col := offset - lineStarts[index] + 1;
    }
  }

  lemma StartsOrdered(starts: seq<nat>, text: seq<byte>, mid: nat)
    requires Indexes(starts, text, |text|) && mid < |starts|
    ensures forall k | 0 <= k <= mid :: starts[k] <= starts[mid]
    ensures forall k | mid <= k < |starts| :: starts[mid] <= starts[k]
  {
    forall j, k | 0 <= j < k < |starts|
      ensures starts[j] < starts[k]
    {
      if j > 0 && starts[k] <= starts[j] {
        NewlineBytesMonotone(text, starts[k], starts[j]);
      }
    }
  }

  /** The byte after the last newline before `n`. */
  function LastLineStart(text: seq<byte>, n: nat): (start: nat)
    requires n <= |text|
    ensures start <= n && NewlineBytes(text, start) == NewlineBytes(text, n)
    ensures start == 0 || text[start - 1] == NEWLINE
  {
    if n == 0 || text[n - 1] == NEWLINE then n else LastLineStart(text, n - 1)
  }

  /** The entries up to `offset` are those of the lines up to it. */
  lemma PartitionPoint(starts: seq<nat>, text: seq<byte>, offset: nat, lo: nat)
    requires Indexes(starts, text, |text|) && lo <= |starts|
    requires forall k | 0 <= k < lo :: starts[k] <= offset
    requires forall k | lo <= k < |starts| :: starts[k] > offset
    ensures var n := if offset <= |text| then offset else |text|;
      lo == NewlineBytes(text, n) + 1 && starts[lo - 1] == LastLineStart(text, n)
  {
    var n := if offset <= |text| then offset else |text|;
    assert lo > 0;
    assert starts[lo - 1] <= n;
    NewlineBytesMonotone(text, starts[lo - 1], n);
    if lo < |starts| {
      NewlineBytesMonotone(text, n, starts[lo] - 1);
    } else {
      NewlineBytesMonotone(text, n, |text|);
    }
    SameLineStart(text, starts[lo - 1], n);
  }

  lemma {:induction false} SameLineStart(text: seq<byte>, start: nat, n: nat)
    requires start <= n <= |text| && NewlineBytes(text, start) == NewlineBytes(text, n)
    requires start == 0 || text[start - 1] == NEWLINE
    ensures LastLineStart(text, n) == start
    decreases n
  {
    if start < n {
      NewlineBytesMonotone(text, start, n - 1);
      SameLineStart(text, start, n - 1);
    }
  }

  // ---- Bytes and characters ----

  lemma {:induction false} NewlineBytesPrefix(a: seq<byte>, b: seq<byte>, n: nat)
    requires n <= |a| && n <= |b| && a[..n] == b[..n]
    ensures NewlineBytes(a, n) == NewlineBytes(b, n)
  {
    if n > 0 {
      assert a[n - 1] == a[..n][n - 1] == b[n - 1];
      assert a[..n - 1] == a[..n][..n - 1] == b[..n - 1];
      NewlineBytesPrefix(a, b, n - 1);
    }
  }

  /** Only the newline character encodes with a newline byte. */
  lemma {:induction false} NewlinesAgree(s: string, i: nat)
    requires i <= |s|
    ensures ByteOffset(s, i) <= |Encode(s)|
    ensures NewlineBytes(Encode(s), ByteOffset(s, i)) == Newlines(s, i)
  {
    if i > 0 {
      NewlinesAgree(s, i - 1);
      EncodeChar(s, i - 1);
      NewlinesInChar(Encode(s), ByteOffset(s, i - 1), ByteOffset(s, i), s[i - 1]);
    }
  }

  lemma NewlinesInChar(text: seq<byte>, lo: nat, hi: nat, c: char)
    requires lo <= hi <= |text| && text[lo..hi] == Utf8Bytes(c)
    ensures NewlineBytes(text, hi) == NewlineBytes(text, lo) + if c == '\n' then 1 else 0
  {
    var bytes := Utf8Bytes(c);
    assert forall k | 0 <= k < |bytes| :: text[lo + k] == bytes[k];
    if c == '\n' {
      assert hi == lo + 1 && text[lo] == NEWLINE;
    } else {
      NoNewlineBytes(text, lo, hi);
    }
  }

  lemma {:induction false} NoNewlineBytes(text: seq<byte>, lo: nat, hi: nat)
    requires lo <= hi <= |text| && forall k | lo <= k < hi :: text[k] != NEWLINE
    ensures NewlineBytes(text, hi) == NewlineBytes(text, lo)
    decreases hi
  {
    if lo < hi {
      NoNewlineBytes(text, lo, hi - 1);
    }
  }

  lemma NewlineByteBefore(s: string, start: nat)
    requires 0 < start <= |s| && s[start - 1] == '\n'
    ensures 0 < ByteOffset(s, start) <= |Encode(s)| && Encode(s)[ByteOffset(s, start) - 1] == NEWLINE
  {
    EncodeChar(s, start - 1);
    var text, lo, hi := Encode(s), ByteOffset(s, start - 1), ByteOffset(s, start);
    assert hi == lo + 1;
    assert text[lo] == text[lo..hi][0] == Utf8Bytes('\n')[0];
  }

  /** The line index and the language server agree: the same line, counted from one, and the same
      line start, measured in bytes. */
  lemma LineIndexAgrees(s: string, i: nat)
    requires i <= |s|
    ensures ByteOffset(s, i) <= |Encode(s)|
    ensures NewlineBytes(Encode(s), ByteOffset(s, i)) == PositionAt(s, i).line
    ensures LastLineStart(Encode(s), ByteOffset(s, i)) == ByteOffset(s, LineStart(s, i))
  {
    hide Encode, NewlineBytes, LastLineStart;
    var start := LineStart(s, i);
    NewlinesAgree(s, i);
    NewlinesAgree(s, start);
    EncodeSlice(s, start, i);
    if start > 0 {
      NewlineByteBefore(s, start);
    }
    SameLineStart(Encode(s), ByteOffset(s, start), ByteOffset(s, i));
  }

  /** `LineCol` of a character offset is the language server's line plus one and the bytes since
      the start of that line plus one. */
  method LineColOf(index: LineIndex, s: string, i: nat) returns (line: nat, col: nat)
    requires i <= |s| && Indexes(index.lineStarts, Encode(s), |Encode(s)|)
    ensures line == PositionAt(s, i).line + 1
    ensures col == ByteOffset(s, i) - ByteOffset(s, LineStart(s, i)) + 1
  {
    LineIndexAgrees(s, i);
    line, col := index.LineCol(ByteOffset(s, i), Encode(s));
  }
}

/** Characters, their UTF-8 and UTF-16 widths, and byte offsets into a source text.
    A Dafny `char` is a Unicode scalar value, exactly like a Rust `char`. */
module Unicode {
  newtype byte = x: int | 0 <= x < 256

  /** `char::len_utf8`. */
  function Utf8Width(c: char): (w: nat)
    ensures 1 <= w <= 4
  {
    var v := c as int;
    if v < 0x80 then 1 else if v < 0x800 then 2 else if v < 0x1_0000 then 3 else 4
  }

  /** `char::len_utf16`. */
  function Utf16Width(c: char): (w: nat)
    ensures 1 <= w <= 2
  {
    if c as int < 0x1_0000 then 1 else 2
  }

  newtype unit = x: int | 0 <= x < 0x1_0000

  predicate HighSurrogate(x: unit) { 0xD800 <= x < 0xDC00 }
  predicate LowSurrogate(x: unit) { 0xDC00 <= x < 0xE000 }

  /** The UTF-16 encoding of one character (section 2.1 of RFC 2781). */
  function Utf16Units(c: char): (units: seq<unit>) {
    var v := c as int;
    if v < 0x1_0000 then [v as unit]
    else [(0xD800 + (v - 0x1_0000) / 0x400) as unit, (0xDC00 + (v - 0x1_0000) % 0x400) as unit]
  }

  /** The character that starts some UTF-16 text, as a decoder reads it. */
  function FirstOfUnits(units: seq<unit>): int
    requires units != []
  {
    if HighSurrogate(units[0]) && |units| > 1 && LowSurrogate(units[1])
    then 0x1_0000 + (units[0] as int - 0xD800) * 0x400 + (units[1] as int - 0xDC00)
    else units[0] as int
  }

  /** `len_utf16` counts the units of the encoding, from which the character can be read back,
      whatever follows. */
  lemma Utf16Decodes(c: char, rest: seq<unit>)
    ensures |Utf16Units(c)| == Utf16Width(c)
    ensures FirstOfUnits(Utf16Units(c) + rest) == c as int
  {
  }

  /** The UTF-16 encoding of a text. */
  function EncodeUtf16(s: string): seq<unit> {
    if s == "" then [] else EncodeUtf16(s[..|s| - 1]) + Utf16Units(s[|s| - 1])
  }

  /** The UTF-8 encoding of one character (section 3 of RFC 3629). */
  function Utf8Bytes(c: char): (b: seq<byte>)
    ensures |b| == Utf8Width(c)
    ensures c != '\n' ==> forall k | 0 <= k < |b| :: b[k] != 10
  {
    var v := c as int;
    if v < 0x80 then [v as byte]
    else if v < 0x800 then [(0xC0 + v / 0x40) as byte, Tail(v)]
    else if v < 0x1_0000 then [(0xE0 + v / 0x1000) as byte, Tail(v / 0x40), Tail(v)]
    else [(0xF0 + v / 0x4_0000) as byte, Tail(v / 0x1000), Tail(v / 0x40), Tail(v)]
  }

  /** The character that starts some UTF-8 text, as a decoder reads it. */
  function FirstOfBytes(b: seq<byte>): int
    requires b != []
  {
    var lead := b[0] as int;
    if lead < 0x80 then lead
    else if lead < 0xE0 then (if |b| < 2 then -1 else (lead - 0xC0) * 0x40 + (b[1] as int - 0x80))
    else if lead < 0xF0 then
      if |b| < 3 then -1 else (lead - 0xE0) * 0x1000 + (b[1] as int - 0x80) * 0x40 + (b[2] as int - 0x80)
    else if |b| < 4 then -1
    else
      (lead - 0xF0) * 0x4_0000 + (b[1] as int - 0x80) * 0x1000 + (b[2] as int - 0x80) * 0x40 + (b[3] as int - 0x80)
  }

  /** The character can be read back from its bytes, whatever follows. */
  lemma Utf8Decodes(c: char, rest: seq<byte>)
    ensures FirstOfBytes(Utf8Bytes(c) + rest) == c as int
  {
    var v := c as int;
    assert v / 0x1000 == (v / 0x4_0000) * 0x40 + v / 0x1000 % 0x40;
    assert v / 0x40 == (v / 0x1000) * 0x40 + v / 0x40 % 0x40;
    assert v == (v / 0x40) * 0x40 + v % 0x40;
  }

  function Tail(v: nat): (b: byte)
    ensures b >= 0x80
  {
    (0x80 + v % 0x40) as byte
  }

  /** A source text as the bytes the compiler indexes into. */
  function Encode(s: string): seq<byte>
  {
    if s == "" then [] else Encode(s[..|s| - 1]) + Utf8Bytes(s[|s| - 1])
  }

  /** Byte offset of the character boundary before `s[i]`. */
  function ByteOffset(s: string, i: nat): nat
    requires i <= |s|
  {
    if i == 0 then 0 else ByteOffset(s, i - 1) + Utf8Width(s[i - 1])
  }

  /** The boundaries are strictly ordered, so a byte offset names at most one of them. */
  lemma {:induction false} ByteOffsetStrict(s: string, i: nat, j: nat)
    requires i < j <= |s|
    ensures ByteOffset(s, i) + (j - i) <= ByteOffset(s, j)
    decreases j
  {
    if i < j - 1 {
      ByteOffsetStrict(s, i, j - 1);
    }
  }

  lemma {:induction false} EncodeConcat(a: string, b: string)
    ensures Encode(a + b) == Encode(a) + Encode(b)
  {
    if b == "" {
      assert a + b == a;
    } else {
      var last := |b| - 1;
      assert (a + b)[..|a + b| - 1] == a + b[..last];
      EncodeConcat(a, b[..last]);
    }
  }

  lemma {:induction false} EncodeLength(s: string, i: nat)
    requires i <= |s|
    ensures |Encode(s[..i])| == ByteOffset(s, i)
  {
    if i > 0 {
      assert s[..i][..i - 1] == s[..i - 1];
      EncodeLength(s, i - 1);
    }
  }

  /** Slicing the bytes at two boundaries is encoding the characters between them. */
  lemma EncodeSlice(s: string, i: nat, j: nat)
    requires i <= j <= |s|
    ensures ByteOffset(s, i) <= ByteOffset(s, j) <= |Encode(s)|
    ensures Encode(s)[ByteOffset(s, i)..ByteOffset(s, j)] == Encode(s[i..j])
  {
    assert s == s[..j] + s[j..];
    assert s[..j] == s[..i] + s[i..j];
    EncodeConcat(s[..j], s[j..]);
    EncodeConcat(s[..i], s[i..j]);
    EncodeLength(s, i);
    EncodeLength(s, j);
  }

  /** The bytes of one character of a text. */
  lemma EncodeChar(s: string, i: nat)
    requires i < |s|
    ensures ByteOffset(s, i) < ByteOffset(s, i + 1) <= |Encode(s)|
    ensures Encode(s)[ByteOffset(s, i)..ByteOffset(s, i + 1)] == Utf8Bytes(s[i])
  {
    EncodeSlice(s, i, i + 1);
    var c := s[i..i + 1];
    assert c[..0] == "" && c[0] == s[i];
    assert Encode(c) == Encode("") + Utf8Bytes(c[0]);
  }

  /** `str::len`. */
  function ByteLength(s: string): nat {
    ByteOffset(s, |s|)
  }

  lemma ByteLengthConcat(a: string, b: string)
    ensures ByteLength(a + b) == ByteLength(a) + ByteLength(b)
  {
    EncodeConcat(a, b);
    EncodeLength(a, |a|);
    EncodeLength(b, |b|);
    EncodeLength(a + b, |a + b|);
    assert a[..|a|] == a && b[..|b|] == b && (a + b)[..|a + b|] == a + b;
  }

  /** The boundary a byte offset names. */
  function BoundaryAt(s: string, offset: nat, limit: nat): (i: nat)
    requires limit <= |s|
    requires exists k :: 0 <= k <= limit && ByteOffset(s, k) == offset
    ensures i <= limit && ByteOffset(s, i) == offset
  {
    if ByteOffset(s, limit) == offset then limit
    else BoundaryAt(s, offset, limit - 1)
  }

  lemma BoundaryUnique(s: string, i: nat, j: nat)
    requires i <= |s| && j <= |s| && ByteOffset(s, i) == ByteOffset(s, j)
    ensures i == j
  {
    if i < j {
      ByteOffsetStrict(s, i, j);
    } else if j < i {
      ByteOffsetStrict(s, j, i);
    }
  }
}

/** Comparing names by code point is comparing their UTF-8 encodings byte by byte. */
module Utf8Order {
  import opened Unicode
  import opened NameOrder

  predicate BytesLess(a: seq<byte>, b: seq<byte>)
    decreases |a|
  {
    if b == [] then false
    else if a == [] then true
    else if a[0] != b[0] then a[0] < b[0]
    else BytesLess(a[1..], b[1..])
  }

  lemma {:induction false} CommonPrefix(p: seq<byte>, a: seq<byte>, b: seq<byte>)
    ensures BytesLess(p + a, p + b) == BytesLess(a, b)
    decreases |p|
  {
    if p == [] {
      assert p + a == a && p + b == b;
    } else {
      assert (p + a)[1..] == p[1..] + a && (p + b)[1..] == p[1..] + b;
      CommonPrefix(p[1..], a, b);
    }
  }

  /** Two sequences that agree up to `k` and differ there are compared there. */
  lemma DifferAt(a: seq<byte>, b: seq<byte>, k: nat)
    requires k < |a| && k < |b| && a[..k] == b[..k] && a[k] < b[k]
    ensures BytesLess(a, b) && !BytesLess(b, a)
  {
    assert a == a[..k] + a[k..] && b == a[..k] + b[k..];
    CommonPrefix(a[..k], a[k..], b[k..]);
    CommonPrefix(a[..k], b[k..], a[k..]);
  }

  lemma EncodeCons(s: string)
    requires s != ""
    ensures Encode(s) == Utf8Bytes(s[0]) + Encode(s[1..])
  {
    assert s == s[..1] + s[1..];
    EncodeConcat(s[..1], s[1..]);
    assert s[..1][..0] == "";
    assert Encode(s[..1]) == Encode("") + Utf8Bytes(s[0]);
  }

  lemma DigitOrder(v: nat, w: nat)
    requires v < w && v / 0x40 == w / 0x40
    ensures v % 0x40 < w % 0x40
  {
  }

  lemma Shift(v: nat)
    ensures v / 0x1000 == (v / 0x40) / 0x40 && v / 0x4_0000 == (v / 0x1000) / 0x40
  {
  }

  lemma CharOrder2(c: char, d: char) returns (k: nat)
    requires c < d && Utf8Width(c) == Utf8Width(d) == 2
    ensures k < 2 && Utf8Bytes(c)[..k] == Utf8Bytes(d)[..k] && Utf8Bytes(c)[k] < Utf8Bytes(d)[k]
  {
    var v, w := c as int, d as int;
    if v / 0x40 == w / 0x40 {
      DigitOrder(v, w);
      k := 1;
    } else {
      k := 0;
    }
  }

  lemma CharOrder3(c: char, d: char) returns (k: nat)
    requires c < d && Utf8Width(c) == Utf8Width(d) == 3
    ensures k < 3 && Utf8Bytes(c)[..k] == Utf8Bytes(d)[..k] && Utf8Bytes(c)[k] < Utf8Bytes(d)[k]
  {
    var v, w := c as int, d as int;
    Shift(v);
    Shift(w);
    if v / 0x40 == w / 0x40 {
      DigitOrder(v, w);
      k := 2;
    } else if v / 0x1000 == w / 0x1000 {
      DigitOrder(v / 0x40, w / 0x40);
      k := 1;
    } else {
      k := 0;
    }
  }

  lemma CharOrder4(c: char, d: char) returns (k: nat)
    requires c < d && Utf8Width(c) == Utf8Width(d) == 4
    ensures k < 4 && Utf8Bytes(c)[..k] == Utf8Bytes(d)[..k] && Utf8Bytes(c)[k] < Utf8Bytes(d)[k]
  {
    var v, w := c as int, d as int;
    Shift(v);
    Shift(w);
    if v / 0x40 == w / 0x40 {
      DigitOrder(v, w);
      k := 3;
    } else if v / 0x1000 == w / 0x1000 {
      DigitOrder(v / 0x40, w / 0x40);
      k := 2;
    } else if v / 0x4_0000 == w / 0x4_0000 {
      DigitOrder(v / 0x1000, w / 0x1000);
      k := 1;
    } else {
      k := 0;
    }
  }

  /** The first byte in which the encodings of two characters differ decides. */
  lemma CharOrder(c: char, d: char) returns (k: nat)
    requires c < d
    ensures k < Utf8Width(c) && k < Utf8Width(d)
    ensures Utf8Bytes(c)[..k] == Utf8Bytes(d)[..k] && Utf8Bytes(c)[k] < Utf8Bytes(d)[k]
  {
    if Utf8Width(c) == Utf8Width(d) == 2 {
      k := CharOrder2(c, d);
    } else if Utf8Width(c) == Utf8Width(d) == 3 {
      k := CharOrder3(c, d);
    } else if Utf8Width(c) == Utf8Width(d) == 4 {
      k := CharOrder4(c, d);
    } else {
      k := 0;
      LeadByte(c);
      LeadByte(d);
    }
  }

  /** The first byte shows the width. */
  lemma LeadByte(c: char)
    ensures var lead := Utf8Bytes(c)[0] as int;
      match Utf8Width(c)
      case 1 => lead == c as int < 0x80
      case 2 => 0xC0 <= lead < 0xE0
      case 3 => 0xE0 <= lead < 0xF0
      case _ => 0xF0 <= lead
  {
  }

  lemma {:induction false} NameOrderIsByteOrder(a: string, b: string)
    ensures NameLess(a, b) <==> BytesLess(Encode(a), Encode(b))
    decreases |a|
  {
    if a == "" {
      if b != "" {
        EncodeCons(b);
      }
    } else if b == "" {
    } else {
      EncodeCons(a);
      EncodeCons(b);
      if a[0] == b[0] {
        CommonPrefix(Utf8Bytes(a[0]), Encode(a[1..]), Encode(b[1..]));
        NameOrderIsByteOrder(a[1..], b[1..]);
      } else if a[0] < b[0] {
        HeadOrder(a[0], Encode(a[1..]), b[0], Encode(b[1..]));
      } else {
        HeadOrder(b[0], Encode(b[1..]), a[0], Encode(a[1..]));
      }
    }
  }

  lemma HeadOrder(c: char, x: seq<byte>, d: char, y: seq<byte>)
    requires c < d
    ensures BytesLess(Utf8Bytes(c) + x, Utf8Bytes(d) + y) && !BytesLess(Utf8Bytes(d) + y, Utf8Bytes(c) + x)
  {
    var k := CharOrder(c, d);
    var a, b := Utf8Bytes(c) + x, Utf8Bytes(d) + y;
    assert a[..k] == Utf8Bytes(c)[..k] && b[..k] == Utf8Bytes(d)[..k];
    DifferAt(a, b, k);
  }
}

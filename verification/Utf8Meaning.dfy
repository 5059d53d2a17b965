/** Valid UTF-8 is what encoding characters gives (section 3 of RFC 3629). */
module Utf8Meaning {
  import opened Bytes
  import opened Patterns

  /** A Unicode scalar value: no surrogates. */
  type Scalar = c: int | 0 <= c <= 0x10FFFF && !(0xD800 <= c <= 0xDFFF) witness 0

  /** Six bits in a byte that continues a character. */
  function Tail(bits: nat): byte
    requires bits < 64
  {
    0x80 + bits
  }

  /** The first byte: a mark that tells the length, and the highest bits. */
  function Lead(mark: nat, bits: nat): byte
    requires mark + bits < 256
  {
    mark + bits
  }

  function Encoded(c: Scalar): (s: seq<byte>)
    ensures 1 <= |s| <= 4
  {
    if c < 0x80 then [Lead(0, c)]
    else if c < 0x800 then [Lead(0xC0, c / 64), Tail(c % 64)]
    else if c < 0x10000 then [Lead(0xE0, c / 4096), Tail(c / 64 % 64), Tail(c % 64)]
    else
      assert c / 262144 <= 4;
      [Lead(0xF0, c / 262144), Tail(c / 4096 % 64), Tail(c / 64 % 64), Tail(c % 64)]
  }

  function EncodedAll(cs: seq<Scalar>): seq<byte> {
    if cs == [] then [] else Encoded(cs[0]) + EncodedAll(cs[1..])
  }

  /** The first bytes of `s` are one character, by the program's test. */
  predicate StartsWithChar(s: seq<byte>) {
    s != [] &&
    var n := CharLength(s[0]);
    && 0 < n <= |s|
    && (n > 1 ==> MayFollow(s[0], s[1]))
    && (forall i :: 2 <= i < n ==> IsContinuation(s[i]))
  }

  lemma LongCharIsChar(c: Scalar)
    requires c >= 0x10000
    ensures StartsWithChar(Encoded(c)) && CharLength(Encoded(c)[0]) == |Encoded(c)|
  {
    var h := c / 4096;
    assert 16 <= h <= 0x10F;
    assert c / 262144 == h / 64 && h == h / 64 * 64 + h % 64;
    assert h / 64 <= 4;
  }

  lemma MiddleCharIsChar(c: Scalar)
    requires 0x800 <= c < 0x10000
    ensures StartsWithChar(Encoded(c)) && CharLength(Encoded(c)[0]) == |Encoded(c)|
  {
    var h := c / 64;
    assert 32 <= h < 1024 && !(864 <= h < 896);
    assert c / 4096 == h / 64 && h == h / 64 * 64 + h % 64;
  }

  lemma EncodedIsChar(c: Scalar)
    ensures StartsWithChar(Encoded(c)) && CharLength(Encoded(c)[0]) == |Encoded(c)|
  {
    if c >= 0x10000 {
      LongCharIsChar(c);
    } else if c >= 0x800 {
      MiddleCharIsChar(c);
    }
  }

  lemma TwoBytes(a: byte, b: byte) returns (c: Scalar)
    requires 0xC2 <= a <= 0xDF && IsContinuation(b)
    ensures Encoded(c) == [a, b]
  {
    c := (a - 0xC0) * 64 + (b - 0x80);
    assert c / 64 == a - 0xC0 && c % 64 == b - 0x80;
  }

  lemma ThreeBytes(a: byte, b: byte, d: byte) returns (c: Scalar)
    requires 0xE0 <= a <= 0xEF && MayFollow(a, b) && IsContinuation(d)
    ensures Encoded(c) == [a, b, d]
  {
    var m := (a - 0xE0) * 64 + (b - 0x80);
    assert 32 <= m && !(0x360 <= m <= 0x37F);
    var n := m * 64 + (d - 0x80);
    assert m / 64 == a - 0xE0 && m % 64 == b - 0x80;
    assert n / 64 == m && n % 64 == d - 0x80 && n / 4096 == m / 64;
    c := n;
  }

  lemma FourBytes(a: byte, b: byte, d: byte, e: byte) returns (c: Scalar)
    requires 0xF0 <= a <= 0xF4 && MayFollow(a, b) && IsContinuation(d) && IsContinuation(e)
    ensures Encoded(c) == [a, b, d, e]
  {
    var l := (a - 0xF0) * 64 + (b - 0x80);
    assert 16 <= l <= 0x10F;
    var m := l * 64 + (d - 0x80);
    var n := m * 64 + (e - 0x80);
    assert l / 64 == a - 0xF0 && l % 64 == b - 0x80;
    assert m / 64 == l && m % 64 == d - 0x80;
    assert n / 64 == m && n % 64 == e - 0x80;
    assert n / 4096 == m / 64 && n / 262144 == l / 64;
    c := n;
  }

  /** What the program takes for one character is the encoding of one. */
  lemma CharIsEncoded(s: seq<byte>) returns (c: Scalar)
    requires StartsWithChar(s)
    ensures Encoded(c) == s[..CharLength(s[0])]
  {
    var n := CharLength(s[0]);
    if n == 1 {
      c := s[0];
      assert s[..1] == [s[0]];
    } else if n == 2 {
      c := TwoBytes(s[0], s[1]);
      assert s[..2] == [s[0], s[1]];
    } else if n == 3 {
      c := ThreeBytes(s[0], s[1], s[2]);
      assert s[..3] == [s[0], s[1], s[2]];
    } else {
      c := FourBytes(s[0], s[1], s[2], s[3]);
      assert s[..4] == [s[0], s[1], s[2], s[3]];
    }
  }

  /** Encoded characters are valid UTF-8. */
  lemma {:induction false} EncodedIsValid(cs: seq<Scalar>)
    ensures ValidUtf8(EncodedAll(cs))
  {
    if cs != [] {
      var first, rest := Encoded(cs[0]), EncodedAll(cs[1..]);
      var s := first + rest;
      EncodedIsChar(cs[0]);
      EncodedIsValid(cs[1..]);
      CharThenValid(s, rest);
    }
  }

  lemma CharThenValid(s: seq<byte>, rest: seq<byte>)
    requires StartsWithChar(s) && s[CharLength(s[0])..] == rest && ValidUtf8(rest)
    ensures ValidUtf8(s)
  {
  }

  lemma {:induction false} ValidIsEncoded(s: seq<byte>) returns (cs: seq<Scalar>)
    requires ValidUtf8(s)
    ensures EncodedAll(cs) == s
  {
    if s == [] {
      cs := [];
    } else {
      var n := CharLength(s[0]);
      var c := CharIsEncoded(s);
      var rest := ValidIsEncoded(s[n..]);
      cs := [c] + rest;
      assert cs[1..] == rest;
      assert s == s[..n] + s[n..];
    }
  }

  /** Bytes are a text exactly when they are the encoding of some characters. */
  lemma ValidUtf8Exactly(s: seq<byte>)
    ensures ValidUtf8(s) <==> exists cs: seq<Scalar> :: EncodedAll(cs) == s
  {
    if ValidUtf8(s) {
      var cs := ValidIsEncoded(s);
    }
    forall cs: seq<Scalar> | EncodedAll(cs) == s
      ensures ValidUtf8(s)
    {
      EncodedIsValid(cs);
    }
  }
}

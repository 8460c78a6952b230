/** Well-formed UTF-8, as `String::from_utf8` accepts it (table 3-7 of the Unicode standard). */
module Utf8 {
  import opened Bytes

  predicate Continuation(b: byte) {
    0x80 <= b <= 0xBF
  }

  /** Length of the well-formed sequence at the front of `s`, or 0. */
  function Lead(s: bytes): (n: nat)
    ensures n <= |s|
  {
    if s == [] then 0
    else if s[0] <= 0x7F then 1
    else if |s| >= 2 && 0xC2 <= s[0] <= 0xDF && Continuation(s[1]) then 2
    else if |s| >= 3 && 0xE0 <= s[0] <= 0xEF && Second3(s[0], s[1]) && Continuation(s[2]) then 3
    else if |s| >= 4 && 0xF0 <= s[0] <= 0xF4 && Second4(s[0], s[1]) && Continuation(s[2]) && Continuation(s[3]) then 4
    else 0
  }

  predicate Second3(b0: byte, b1: byte) {
    (if b0 == 0xE0 then 0xA0 else 0x80) <= b1 <= (if b0 == 0xED then 0x9F else 0xBF)
  }

  predicate Second4(b0: byte, b1: byte) {
    (if b0 == 0xF0 then 0x90 else 0x80) <= b1 <= (if b0 == 0xF4 then 0x8F else 0xBF)
  }

  predicate ValidUtf8(s: bytes) {
    s == [] || (Lead(s) > 0 && ValidUtf8(s[Lead(s)..]))
  }

  lemma {:induction false} AsciiIsUtf8(s: bytes)
    requires forall b :: b in s ==> b <= 0x7F
    ensures ValidUtf8(s)
  {
    if s != [] {
      assert s[0] in s && Lead(s) == 1;
      assert forall b :: b in s[1..] ==> b in s;
      AsciiIsUtf8(s[1..]);
    }
  }

  // ---------------------------------------------------------------- what the valid texts are

  /** A Unicode scalar value: a code point that is no surrogate. */
  predicate Scalar(c: nat) {
    c < 0xD800 || 0xE000 <= c <= 0x10FFFF
  }

  /** The bytes of a scalar value (table 3-6 of the Unicode standard). */
  function Encode(c: nat): (b: bytes)
    requires Scalar(c)
    ensures 1 <= |b| <= 4
  {
    if c < 0x80 then [c]
    else if c < 0x800 then [0xC0 + c / 64, 0x80 + c % 64]
    else if c < 0x1_0000 then [0xE0 + c / 4096, 0x80 + c / 64 % 64, 0x80 + c % 64]
    else [0xF0 + c / 262144, 0x80 + c / 4096 % 64, 0x80 + c / 64 % 64, 0x80 + c % 64]
  }

  function EncodeText(text: seq<nat>): bytes
    requires forall c :: c in text ==> Scalar(c)
  {
    if text == [] then [] else Encode(text[0]) + EncodeText(text[1..])
  }

  lemma LeadOfEncoded(c: nat, rest: bytes)
    requires Scalar(c)
    ensures Lead(Encode(c) + rest) == |Encode(c)|
  {
    var b, s := Encode(c), Encode(c) + rest;
    assert forall i :: 0 <= i < |b| ==> s[i] == b[i];
    if 0x800 <= c < 0x1_0000 {
      LeadOfThree(c / 4096, c / 64 % 64, c);
    } else if c >= 0x1_0000 {
      LeadOfFour(c / 262144, c / 4096 % 64, c);
    }
  }

  lemma LeadOfThree(h: nat, a: nat, c: nat)
    requires 0x800 <= c < 0x1_0000 && Scalar(c) && h == c / 4096 && a == c / 64 % 64
    ensures h < 16 && a < 64 && Second3(0xE0 + h, 0x80 + a)
  {
  }

  lemma LeadOfFour(h: nat, a: nat, c: nat)
    requires 0x1_0000 <= c <= 0x10FFFF && h == c / 262144 && a == c / 4096 % 64
    ensures h < 5 && a < 64 && Second4(0xF0 + h, 0x80 + a)
  {
  }

  lemma Quotient(c: nat, d: nat, q: nat, r: nat)
    requires d > 0 && c == d * q + r && r < d
    ensures c / d == q && c % d == r
  {
    var k: int, m: int := c / d, c % d;
    assert d * (k - q) == r - m;
    AtLeastOne(d, k - q);
    AtLeastOne(d, q - k);
  }

  lemma AtLeastOne(d: nat, n: int)
    ensures n >= 1 ==> d * n >= d
  {
  }

  lemma ThreeDigits(h: nat, a: nat, b: nat)
    requires a < 64 && b < 64
    ensures var c := 4096 * h + 64 * a + b; c / 4096 == h && c / 64 % 64 == a && c % 64 == b
  {
    var c := 4096 * h + 64 * a + b;
    Quotient(c, 4096, h, 64 * a + b);
    Quotient(c, 64, 64 * h + a, b);
    Quotient(64 * h + a, 64, h, a);
  }

  lemma FourDigits(h: nat, a: nat, b: nat, d: nat)
    requires a < 64 && b < 64 && d < 64
    ensures var c := 262144 * h + 4096 * a + 64 * b + d;
            c / 262144 == h && c / 4096 % 64 == a && c / 64 % 64 == b && c % 64 == d
  {
    var c := 262144 * h + 4096 * a + 64 * b + d;
    Quotient(c, 262144, h, 4096 * a + 64 * b + d);
    Quotient(c, 4096, 64 * h + a, 64 * b + d);
    Quotient(64 * h + a, 64, h, a);
    Quotient(c, 64, 4096 * h + 64 * a + b, d);
    Quotient(4096 * h + 64 * a + b, 64, 64 * h + a, b);
  }

  /** The scalar value of the sequence at the front. */
  lemma FirstScalar(s: bytes) returns (c: nat)
    requires Lead(s) > 0
    ensures Scalar(c) && Encode(c) == s[..Lead(s)]
  {
    if Lead(s) == 1 {
      c := s[0];
    } else if Lead(s) == 2 {
      c := ScalarOfTwo(s[0], s[1]);
      assert s[..2] == [s[0], s[1]];
    } else if Lead(s) == 3 {
      c := ScalarOfThree(s[0], s[1], s[2]);
      assert s[..3] == [s[0], s[1], s[2]];
    } else {
      c := ScalarOfFour(s[0], s[1], s[2], s[3]);
      assert s[..4] == [s[0], s[1], s[2], s[3]];
    }
  }

  lemma ScalarOfTwo(x: int, y: int) returns (c: nat)
    requires 0xC2 <= x <= 0xDF && 0x80 <= y <= 0xBF
    ensures Scalar(c) && Encode(c) == [x, y]
  {
    c := 64 * (x - 0xC0) + (y - 0x80);
    Quotient(c, 64, x - 0xC0, y - 0x80);
  }

  lemma ScalarOfThree(x: int, y: int, z: int) returns (c: nat)
    requires 0xE0 <= x <= 0xEF && 0x80 <= y <= 0xBF && Second3(x, y) && 0x80 <= z <= 0xBF
    ensures Scalar(c) && Encode(c) == [x, y, z]
  {
    c := 4096 * (x - 0xE0) + 64 * (y - 0x80) + (z - 0x80);
    ThreeDigits(x - 0xE0, y - 0x80, z - 0x80);
  }

  lemma ScalarOfFour(x: int, y: int, z: int, w: int) returns (c: nat)
    requires 0xF0 <= x <= 0xF4 && 0x80 <= y <= 0xBF && Second4(x, y) && 0x80 <= z <= 0xBF && 0x80 <= w <= 0xBF
    ensures Scalar(c) && Encode(c) == [x, y, z, w]
  {
    c := 262144 * (x - 0xF0) + 4096 * (y - 0x80) + 64 * (z - 0x80) + (w - 0x80);
    FourDigits(x - 0xF0, y - 0x80, z - 0x80, w - 0x80);
  }

  /** A text is valid exactly if it is the encoding of some scalar values. */
  lemma {:induction false} ValidIffText(s: bytes)
    ensures ValidUtf8(s) <==> exists text :: (forall c :: c in text ==> Scalar(c)) && EncodeText(text) == s
  {
    if ValidUtf8(s) {
      var text := TextOf(s);
    }
    if text :| (forall c :: c in text ==> Scalar(c)) && EncodeText(text) == s {
      TextIsValid(text);
    }
  }

  lemma {:induction false} TextOf(s: bytes) returns (text: seq<nat>)
    requires ValidUtf8(s)
    ensures (forall c :: c in text ==> Scalar(c)) && EncodeText(text) == s
  {
    if s == [] {
      text := [];
    } else {
      var c := FirstScalar(s);
      var rest := TextOf(s[Lead(s)..]);
      text := [c] + rest;
      assert text[1..] == rest && s == s[..Lead(s)] + s[Lead(s)..];
    }
  }

  lemma {:induction false} TextIsValid(text: seq<nat>)
    requires forall c :: c in text ==> Scalar(c)
    ensures ValidUtf8(EncodeText(text))
  {
    if text != [] {
      var first, rest := Encode(text[0]), EncodeText(text[1..]);
      TextIsValid(text[1..]);
      LeadOfEncoded(text[0], rest);
      assert (first + rest)[|first|..] == rest;
    }
  }
}

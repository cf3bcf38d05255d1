/** The byte strings the wire format takes for text are exactly the UTF-8 encodings of Unicode scalar values. */
module Unicode {
  import opened Common
  import opened Packets

  type Scalar = x: int | 0 <= x <= 0x10FFFF && !(0xD800 <= x <= 0xDFFF)

  /** Section 3 of RFC 3629: six bits for each continuation byte. */
  function EncodeScalar(x: Scalar): (b: Bytes)
    ensures 1 <= |b| <= 4
  {
    var n: int := x;
    if n < 0x80 then [n]
    else if n < 0x800 then [0xC0 + n / 64, 0x80 + n % 64]
    else if n < 0x1_0000 then [0xE0 + n / 64 / 64, 0x80 + n / 64 % 64, 0x80 + n % 64]
    else [0xF0 + n / 64 / 64 / 64, 0x80 + n / 64 / 64 % 64, 0x80 + n / 64 % 64, 0x80 + n % 64]
  }

  function EncodeScalars(xs: seq<Scalar>): Bytes {
    if xs == [] then [] else EncodeScalar(xs[0]) + EncodeScalars(xs[1..])
  }

  /** The reader finds the end of a scalar value, whatever follows. */
  lemma HeadOfScalar(x: Scalar, rest: Bytes)
    ensures Utf8Head(EncodeScalar(x) + rest) == |EncodeScalar(x)|
  {
    var b := EncodeScalar(x);
    var s := b + rest;
    assert forall i :: 0 <= i < |b| ==> s[i] == b[i];
  }

  /** The number that six more bits make. */
  lemma SixBits(high: int, low: int)
    requires 0 <= low < 64
    ensures (64 * high + low) / 64 == high && (64 * high + low) % 64 == low
  {
  }

  lemma ScalarOfTwo(a: u8, b: u8) returns (x: Scalar)
    requires 0xC2 <= a <= 0xDF && Tail(b)
    ensures EncodeScalar(x) == [a, b]
  {
    SixBits(a as int - 0xC0, b as int - 0x80);
    x := 64 * (a as int - 0xC0) + (b as int - 0x80);
  }

  lemma ScalarOfThree(a: u8, b: u8, c: u8) returns (x: Scalar)
    requires 0xE0 <= a <= 0xEF && Tail(b) && Tail(c)
    requires (a == 0xE0 ==> b >= 0xA0) && (a == 0xED ==> b <= 0x9F)
    ensures EncodeScalar(x) == [a, b, c]
  {
    var high := 64 * (a as int - 0xE0) + (b as int - 0x80);
    SixBits(a as int - 0xE0, b as int - 0x80);
    SixBits(high, c as int - 0x80);
    x := 64 * high + (c as int - 0x80);
  }

  lemma ScalarOfFour(a: u8, b: u8, c: u8, d: u8) returns (x: Scalar)
    requires 0xF0 <= a <= 0xF4 && Tail(b) && Tail(c) && Tail(d)
    requires (a == 0xF0 ==> b >= 0x90) && (a == 0xF4 ==> b <= 0x8F)
    ensures EncodeScalar(x) == [a, b, c, d]
  {
    var top := 64 * (a as int - 0xF0) + (b as int - 0x80);
    var high := 64 * top + (c as int - 0x80);
    SixBits(a as int - 0xF0, b as int - 0x80);
    SixBits(top, c as int - 0x80);
    SixBits(high, d as int - 0x80);
    x := 64 * high + (d as int - 0x80);
  }

  /** A well-formed sequence encodes some scalar value. */
  lemma ScalarOfHead(s: Bytes) returns (x: Scalar)
    requires Utf8Head(s) > 0
    ensures EncodeScalar(x) == s[..Utf8Head(s)]
  {
    var n := Utf8Head(s);
    if n == 1 {
      x := s[0];
      assert s[..1] == [s[0]];
    } else if n == 2 {
      x := ScalarOfTwo(s[0], s[1]);
      assert s[..2] == [s[0], s[1]];
    } else if n == 3 {
      x := ScalarOfThree(s[0], s[1], s[2]);
      assert s[..3] == [s[0], s[1], s[2]];
    } else {
      x := ScalarOfFour(s[0], s[1], s[2], s[3]);
      assert s[..4] == [s[0], s[1], s[2], s[3]];
    }
  }

  lemma {:induction false} EncodedIsValid(xs: seq<Scalar>)
    ensures ValidUtf8(EncodeScalars(xs))
    decreases |xs|
  {
    if xs != [] {
      var rest := EncodeScalars(xs[1..]);
      HeadOfScalar(xs[0], rest);
      EncodedIsValid(xs[1..]);
      assert (EncodeScalar(xs[0]) + rest)[|EncodeScalar(xs[0])|..] == rest;
    }
  }

  lemma {:induction false} ValidIsEncoded(s: Bytes) returns (xs: seq<Scalar>)
    requires ValidUtf8(s)
    ensures EncodeScalars(xs) == s
    decreases |s|
  {
    xs := [];
    if s != [] {
      var n := Utf8Head(s);
      var x := ScalarOfHead(s);
      var rest := ValidIsEncoded(s[n..]);
      xs := [x] + rest;
      assert xs[1..] == rest && s == s[..n] + s[n..];
    }
  }

  /** Surrogates, overlong forms, values above the last code point and cut-off sequences are refused, and nothing
      else. */
  lemma Utf8Exactly(s: Bytes)
    ensures ValidUtf8(s) <==> exists xs :: EncodeScalars(xs) == s
  {
    if ValidUtf8(s) {
      var xs := ValidIsEncoded(s);
    }
    if xs :| EncodeScalars(xs) == s { EncodedIsValid(xs); }
  }

  /** Two scalar values have different encodings, neither of which starts the other. */
  lemma ScalarsDiffer(x: Scalar, y: Scalar, p: Bytes, q: Bytes)
    requires EncodeScalar(x) + p == EncodeScalar(y) + q
    ensures x == y && p == q
  {
    HeadOfScalar(x, p);
    HeadOfScalar(y, q);
    var s := EncodeScalar(x) + p;
    assert EncodeScalar(x) == s[..|EncodeScalar(x)|] && EncodeScalar(y) == s[..|EncodeScalar(y)|];
    assert p == s[|EncodeScalar(x)|..] && q == s[|EncodeScalar(y)|..];
    SameScalar(x, y);
  }

  lemma SameScalar(x: Scalar, y: Scalar)
    requires EncodeScalar(x) == EncodeScalar(y)
    ensures x == y
  {
  }

  /** A text spells one sequence of scalar values. */
  lemma {:induction false} OneSpelling(xs: seq<Scalar>, ys: seq<Scalar>)
    requires EncodeScalars(xs) == EncodeScalars(ys)
    ensures xs == ys
    decreases |xs|
  {
    if xs != [] && ys != [] {
      ScalarsDiffer(xs[0], ys[0], EncodeScalars(xs[1..]), EncodeScalars(ys[1..]));
      OneSpelling(xs[1..], ys[1..]);
    }
  }
}

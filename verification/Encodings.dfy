/** What the bytes of plain values mean: little-endian numbers, two's complement, UTF-8 and doubles. */
module Encodings {
  import opened Bytes
  import opened Values

  // ----- numbers -----

  /** Least significant byte first. */
  lemma {:induction false} LeByteAt(n: nat, k: nat, i: nat)
    requires i < k
    ensures Le(n, k)[i] as nat == (n / Radix(i)) % 256
    decreases k
  {
    if i > 0 {
      LeByteAt(n / 256, k - 1, i - 1);
      DivRadix(n, i);
    }
  }

  lemma DivRadix(n: nat, i: nat)
    requires i > 0
    ensures n / 256 / Radix(i - 1) == n / Radix(i)
  {
    DivDiv(n, Radix(i - 1));
  }

  lemma DivDiv(n: nat, b: nat)
    requires b > 0
    ensures n / 256 / b == n / (256 * b)
  {
    var q, r := n / 256, n % 256;
    var q', r' := q / b, q % b;
    DivMod(q, b);
    MulAssoc(256, b, q');
    DivUnique(n, 256 * b, q', 256 * r' + r);
  }

  lemma DivMod(n: nat, d: nat)
    requires d > 0
    ensures n == d * (n / d) + n % d && n % d < d
  {
  }

  lemma MulAssoc(a: nat, b: nat, c: nat)
    ensures (a * b) * c == a * (b * c)
  {
  }

  lemma MulLe(a: nat, x: nat, y: nat)
    requires x <= y
    ensures a * x <= a * y
  {
  }

  lemma DivUnique(n: nat, d: nat, q: nat, r: nat)
    requires d > 0 && n == d * q + r && r < d
    ensures n / d == q
  {
    var q', r' := n / d, n % d;
    assert n == d * q' + r';
    if q < q' { MulLe(d, q + 1, q'); } else if q' < q { MulLe(d, q' + 1, q); }
  }

  /** Two's complement. */
  lemma SignedBits(v: i64)
    ensures I64Bits(v) as int == if v < 0 then v + 0x1_0000_0000_0000_0000 else v
    ensures I64OfBits(I64Bits(v)) == v
  {
  }

  // ----- UTF-8 -----

  /** A Unicode scalar value. */
  predicate Scalar(c: nat) {
    c < 0x110000 && !(0xD800 <= c <= 0xDFFF)
  }

  /** The bytes of one character, six bits to a continuation byte. */
  function Encode(c: nat): (s: seq<byte>)
    requires Scalar(c)
  {
    if c < 0x80 then [c as byte]
    else if c < 0x800 then [(0xC0 + c / 0x40) as byte, Six(c)]
    else if c < 0x10000 then [(0xE0 + c / 0x1000) as byte, Six(c / 0x40), Six(c)]
    else [(0xF0 + c / 0x40000) as byte, Six(c / 0x1000), Six(c / 0x40), Six(c)]
  }

  function Six(c: nat): byte {
    (0x80 + c % 0x40) as byte
  }

  function EncodeAll(cs: seq<nat>): seq<byte>
    requires forall i :: 0 <= i < |cs| ==> Scalar(cs[i])
  {
    if cs == [] then [] else Encode(cs[0]) + EncodeAll(cs[1..])
  }

  lemma HeadOf(c: nat, rest: seq<byte>)
    requires Scalar(c)
    ensures Utf8Head(Encode(c) + rest) == |Encode(c)| > 0
  {
    hide Utf8Head;
    if c < 0x80 {
      HeadOne(Encode(c) + rest);
    } else if c < 0x800 {
      HeadTwo(c, rest);
    } else if c < 0x10000 {
      HeadThree(c, rest);
    } else {
      HeadFour(c, rest);
    }
  }

  lemma HeadOne(s: seq<byte>)
    requires s != [] && s[0] < 0x80
    ensures Utf8Head(s) == 1
  {
  }

  lemma HeadTwo(c: nat, rest: seq<byte>)
    requires 0x80 <= c < 0x800
    ensures Utf8Head([(0xC0 + c / 0x40) as byte, Six(c)] + rest) == 2
  {
    var s := [(0xC0 + c / 0x40) as byte, Six(c)] + rest;
    assert s[0] == (0xC0 + c / 0x40) as byte && s[1] == Six(c);
  }

  lemma HeadThree(c: nat, rest: seq<byte>)
    requires 0x800 <= c < 0x10000 && Scalar(c)
    ensures Utf8Head([(0xE0 + c / 0x1000) as byte, Six(c / 0x40), Six(c)] + rest) == 3
  {
    var s := [(0xE0 + c / 0x1000) as byte, Six(c / 0x40), Six(c)] + rest;
    assert s[0] == (0xE0 + c / 0x1000) as byte && s[1] == Six(c / 0x40) && s[2] == Six(c);
  }

  lemma HeadFour(c: nat, rest: seq<byte>)
    requires 0x10000 <= c < 0x110000
    ensures Utf8Head([(0xF0 + c / 0x40000) as byte, Six(c / 0x1000), Six(c / 0x40), Six(c)] + rest) == 4
  {
    var s := [(0xF0 + c / 0x40000) as byte, Six(c / 0x1000), Six(c / 0x40), Six(c)] + rest;
    assert s[0] == (0xF0 + c / 0x40000) as byte && s[1] == Six(c / 0x1000) && s[2] == Six(c / 0x40) && s[3] == Six(c);
  }

  lemma Two(a: nat, x: nat)
    requires x < 0x40
    ensures var c := a * 0x40 + x; c / 0x40 == a && c % 0x40 == x
  {
  }

  lemma Three(a: nat, x: nat, y: nat)
    requires x < 0x40 && y < 0x40
    ensures var c := a * 0x1000 + x * 0x40 + y;
      c / 0x1000 == a && c / 0x40 == a * 0x40 + x && (c / 0x40) % 0x40 == x && c % 0x40 == y
  {
    Two(a * 0x40 + x, y);
    Two(a, x);
  }

  lemma Four(a: nat, x: nat, y: nat, z: nat)
    requires x < 0x40 && y < 0x40 && z < 0x40
    ensures var c := a * 0x40000 + x * 0x1000 + y * 0x40 + z;
      c / 0x40000 == a && (c / 0x1000) % 0x40 == x && (c / 0x40) % 0x40 == y && c % 0x40 == z
  {
    Three(a, x, y);
    Two(a * 0x1000 + x * 0x40 + y, z);
    Two(a, x);
  }

  /** The first well-formed character of a string is some character's encoding. */
  lemma CharOf(s: seq<byte>) returns (c: nat)
    requires Utf8Head(s) > 0
    ensures Scalar(c) && Encode(c) == s[..Utf8Head(s)]
  {
    var n := Utf8Head(s);
    if n == 1 {
      c := s[0] as nat;
    } else if n == 2 {
      c := CharOfTwo(s);
    } else if n == 3 {
      c := CharOfThree(s);
    } else {
      c := CharOfFour(s);
    }
  }

  lemma CharOfTwo(s: seq<byte>) returns (c: nat)
    requires Utf8Head(s) == 2
    ensures Scalar(c) && Encode(c) == s[..2]
  {
    var a, x: nat := s[0] as nat - 0xC0, s[1] as nat - 0x80;
    Two(a, x);
    c := a * 0x40 + x;
  }

  lemma CharOfThree(s: seq<byte>) returns (c: nat)
    requires Utf8Head(s) == 3
    ensures Scalar(c) && Encode(c) == s[..3]
  {
    var a, x, y: nat := s[0] as nat - 0xE0, s[1] as nat - 0x80, s[2] as nat - 0x80;
    Three(a, x, y);
    c := a * 0x1000 + x * 0x40 + y;
  }

  lemma CharOfFour(s: seq<byte>) returns (c: nat)
    requires Utf8Head(s) == 4
    ensures Scalar(c) && Encode(c) == s[..4]
  {
    var a, x, y, z: nat := s[0] as nat - 0xF0, s[1] as nat - 0x80, s[2] as nat - 0x80, s[3] as nat - 0x80;
    Four(a, x, y, z);
    c := a * 0x40000 + x * 0x1000 + y * 0x40 + z;
  }

  /** A string is valid exactly when it encodes a sequence of characters. */
  lemma {:induction false} EncodedIsValid(cs: seq<nat>)
    requires forall i :: 0 <= i < |cs| ==> Scalar(cs[i])
    ensures ValidUtf8(EncodeAll(cs))
    decreases |cs|
  {
    hide Encode, Utf8Head, Scalar;
    if cs != [] {
      HeadOf(cs[0], EncodeAll(cs[1..]));
      EncodedIsValid(cs[1..]);
      var s := EncodeAll(cs);
      assert s[|Encode(cs[0])|..] == EncodeAll(cs[1..]);
    }
  }

  lemma {:induction false} ValidIsEncoded(s: seq<byte>) returns (cs: seq<nat>)
    requires ValidUtf8(s)
    ensures (forall i :: 0 <= i < |cs| ==> Scalar(cs[i])) && EncodeAll(cs) == s
    decreases |s|
  {
    hide Encode, Utf8Head, Scalar;
    if s == [] {
      cs := [];
    } else {
      var c := CharOf(s);
      var rest := ValidIsEncoded(s[Utf8Head(s)..]);
      cs := [c] + rest;
      assert cs[1..] == rest;
      assert s == s[..Utf8Head(s)] + s[Utf8Head(s)..];
    }
  }

  // ----- integers as doubles -----

  lemma {:induction false} Pow2Add(a: nat, b: nat)
    ensures Pow2(a + b) == Pow2(a) * Pow2(b)
    decreases a
  {
    if a > 0 { Pow2Add(a - 1, b); }
  }

  lemma Pow2Of52()
    ensures Pow2(52) == 0x10_0000_0000_0000
  {
    assert Pow2(13) == 8192;
    Pow2Add(13, 13);
    Pow2Add(26, 26);
  }

  lemma Pow2Of64()
    ensures Pow2(64) == 0x1_0000_0000_0000_0000
  {
    Pow2Of52();
    assert Pow2(12) == 4096;
    Pow2Add(52, 12);
  }

  lemma {:induction false} Log2Bounds(n: nat)
    requires n > 0
    ensures Pow2(Log2(n)) <= n < Pow2(Log2(n) + 1)
    decreases n
  {
    if n > 1 { Log2Bounds(n / 2); }
  }

  lemma {:induction false} Pow2Grows(a: nat, b: nat)
    requires a <= b
    ensures Pow2(a) <= Pow2(b)
    decreases b - a
  {
    if a < b { Pow2Grows(a, b - 1); }
  }

  /** `bits` is the double of that sign with significand `sig`, of 53 bits, and exponent `exp`: its magnitude is
      `sig` times 2 to the `exp`. */
  predicate Denotes(bits: u64, negative: bool, sig: nat, exp: int) {
    && bits / 0x8000_0000_0000_0000 == (if negative then 1 else 0)
    && 1 <= (bits / 0x10_0000_0000_0000) % 0x800 <= 0x7FE
    && exp == (bits / 0x10_0000_0000_0000) % 0x800 - 1075
    && sig == 0x10_0000_0000_0000 + bits % 0x10_0000_0000_0000
  }

  lemma Assembled(negative: bool, e: nat, s: nat)
    requires e <= 63 && 0x10_0000_0000_0000 <= s <= 0x20_0000_0000_0000
    ensures var bits := Bits(negative, e, s);
      && 0 <= bits < 0x1_0000_0000_0000_0000
      && (s < 0x20_0000_0000_0000 ==> Denotes(bits, negative, s, e - 52))
      && (s == 0x20_0000_0000_0000 ==> Denotes(bits, negative, 0x10_0000_0000_0000, e - 51))
  {
    var bits := Bits(negative, e, s);
    var q := (if negative then 2048 else 0) + 1023 + e;
    if s < 0x20_0000_0000_0000 {
      assert bits == q * 0x10_0000_0000_0000 + (s - 0x10_0000_0000_0000);
    } else {
      assert bits == (q + 1) * 0x10_0000_0000_0000;
    }
  }

  /** The scaled significand: at most half a unit off, and even when exactly half way. */
  lemma SignificandNearest(m: nat)
    requires m > 0
    ensures 0x10_0000_0000_0000 <= Significand(m) <= 0x20_0000_0000_0000
    ensures Log2(m) <= 52 ==> Significand(m) == m * Pow2(52 - Log2(m)) && Significand(m) < 0x20_0000_0000_0000
    ensures Log2(m) > 52 ==>
      var unit, s := Pow2(Log2(m) - 52), Significand(m);
      && 2 * s * unit <= 2 * m + unit && 2 * m <= 2 * s * unit + unit
      && (2 * s * unit == 2 * m + unit || 2 * m == 2 * s * unit + unit ==> s % 2 == 0)
  {
    hide Log2, Pow2;
    Log2Bounds(m);
    Pow2Of52();
    var e := Log2(m);
    assert Pow2(53) == 2 * Pow2(52) by { Doubles(52); }
    if e <= 52 {
      Pow2Add(e, 52 - e);
      Pow2Add(e + 1, 52 - e);
      Scaled(m, Pow2(e), Pow2(e + 1), Pow2(52 - e));
    } else {
      var unit := Pow2(e - 52);
      Pow2Add(52, e - 52);
      Pow2Add(53, e - 52);
      Rounded(m, unit, Significand(m));
    }
  }

  lemma Doubles(k: nat)
    ensures Pow2(k + 1) == 2 * Pow2(k)
  {
  }

  lemma Scaled(m: nat, lo: nat, hi: nat, f: nat)
    requires lo <= m < hi && f > 0
    ensures lo * f <= m * f < hi * f
  {
    MulLe(f, lo, m);
    MulLe(f, m + 1, hi);
  }

  lemma Rounded(m: nat, unit: nat, s: nat)
    requires unit > 0 && 0x10_0000_0000_0000 * unit <= m < 0x20_0000_0000_0000 * unit
    requires var q, r := m / unit, m % unit;
      s == if 2 * r > unit || (2 * r == unit && q % 2 == 1) then q + 1 else q
    ensures 0x10_0000_0000_0000 <= s <= 0x20_0000_0000_0000
    ensures 2 * s * unit <= 2 * m + unit && 2 * m <= 2 * s * unit + unit
    ensures 2 * s * unit == 2 * m + unit || 2 * m == 2 * s * unit + unit ==> s % 2 == 0
  {
    var q, r := m / unit, m % unit;
    DivMod(m, unit);
    Between(m, unit, q, r);
    var p := unit * q;
    assert s * unit == if s == q then p else p + unit by { Product(unit, q, s); }
    RoundedOff(m, unit, q, r, p, s, s * unit);
    MulAssoc(2, s, unit);
  }

  lemma Product(unit: nat, q: nat, s: nat)
    requires s == q || s == q + 1
    ensures s * unit == if s == q then unit * q else unit * q + unit
  {
  }

  lemma Between(m: nat, unit: nat, q: nat, r: nat)
    requires unit > 0 && 0x10_0000_0000_0000 * unit <= m < 0x20_0000_0000_0000 * unit
    requires m == unit * q + r && r < unit
    ensures 0x10_0000_0000_0000 <= q < 0x20_0000_0000_0000
  {
    if q < 0x10_0000_0000_0000 { MulLe(unit, q + 1, 0x10_0000_0000_0000); }
    if q >= 0x20_0000_0000_0000 { MulLe(unit, 0x20_0000_0000_0000, q); }
  }

  /** Rounding, with the products given: `p` is `unit` times `q`, and `value` is `unit` times `s`. */
  lemma RoundedOff(m: nat, unit: nat, q: nat, r: nat, p: nat, s: nat, value: nat)
    requires m == p + r && r < unit && value == if s == q then p else p + unit
    requires s == if 2 * r > unit || (2 * r == unit && q % 2 == 1) then q + 1 else q
    ensures 2 * value <= 2 * m + unit && 2 * m <= 2 * value + unit
    ensures 2 * value == 2 * m + unit || 2 * m == 2 * value + unit ==> s % 2 == 0
  {
  }

  /** The double with significand `sig` and exponent `exp` is `m` exactly, or for an `m` of more than 53 bits the
      multiple of the unit in its last place nearest to it, the even one when `m` is half way. */
  ghost predicate Nearest(m: nat, sig: nat, exp: int)
    requires m > 0
  {
    if exp <= 0 then sig == m * Pow2(-exp)
    else Log2(m) > 52 && NearestMultiple(m, Pow2(Log2(m) - 52), sig * Pow2(exp))
  }

  ghost predicate NearestMultiple(m: nat, unit: nat, value: nat)
    requires unit > 0
  {
    && value % unit == 0 && 2 * value <= 2 * m + unit && 2 * m <= 2 * value + unit
    && (2 * value == 2 * m + unit || 2 * m == 2 * value + unit ==> (value / unit) % 2 == 0)
  }

  lemma AsMultiple(m: nat, unit: nat, s: nat)
    requires unit > 0
    requires 2 * s * unit <= 2 * m + unit && 2 * m <= 2 * s * unit + unit
    requires 2 * s * unit == 2 * m + unit || 2 * m == 2 * s * unit + unit ==> s % 2 == 0
    ensures NearestMultiple(m, unit, s * unit)
  {
    MulAssoc(2, s, unit);
    Multiple(s, unit);
  }

  lemma SignificandDenotes(m: nat, s: nat, e: nat)
    requires m > 0 && s == Significand(m) && e == Log2(m)
    ensures s < 0x20_0000_0000_0000 ==> Nearest(m, s, e - 52)
    ensures s == 0x20_0000_0000_0000 ==> Nearest(m, 0x10_0000_0000_0000, e - 51)
  {
    hide Log2, Pow2, Significand, NearestMultiple;
    SignificandNearest(m);
    if e > 52 {
      var unit := Pow2(e - 52);
      AsMultiple(m, unit, s);
      Doubles(e - 52);
      MulAssoc(0x10_0000_0000_0000, 2, unit);
    } else if e == 52 {
      assert Pow2(0) == 1 by { Pow2Zero(); }
    }
  }

  lemma Pow2Zero()
    ensures Pow2(0) == 1
  {
  }

  /** Sign, exponent and fraction side by side. */
  ghost function Bits(negative: bool, e: nat, s: int): int {
    (if negative then 0x8000_0000_0000_0000 else 0) + (1022 + e) * 0x10_0000_0000_0000 + s
  }

  lemma BitsOf(v: i64)
    requires v != 0
    requires var m := Magnitude(v); 0 <= Bits(v < 0, Log2(m), Significand(m)) < 0x1_0000_0000_0000_0000
    ensures var m := Magnitude(v); F64OfInt(v) == Bits(v < 0, Log2(m), Significand(m))
  {
    hide Log2, Significand, Pow2;
    var m := Magnitude(v);
    var x := Bits(v < 0, Log2(m), Significand(m));
    assert F64OfInt(v) == x % 0x1_0000_0000_0000_0000;
    hide F64OfInt, Bits;
    Below(x);
  }

  lemma Below(x: nat)
    requires x < 0x1_0000_0000_0000_0000
    ensures x % 0x1_0000_0000_0000_0000 == x
  {
  }

  /** An integer becomes the nearest double. */
  lemma NearestDouble(v: i64) returns (sig: nat, exp: int)
    requires v != 0
    ensures Denotes(F64OfInt(v), v < 0, sig, exp) && Nearest(Magnitude(v), sig, exp)
  {
    hide Log2, Significand, Denotes, Nearest, Pow2, F64OfInt, Bits;
    var m := Magnitude(v);
    var e: int, s: int := Log2(m), Significand(m);
    SignificandNearest(m);
    SignificandDenotes(m, s, e);
    Log2Small(m);
    Assembled(v < 0, e, s);
    BitsOf(v);
    if s < 0x20_0000_0000_0000 {
      sig, exp := s, e - 52;
    } else {
      sig, exp := 0x10_0000_0000_0000, e - 51;
    }
  }

  ghost function Magnitude(v: i64): nat {
    if v < 0 then -(v as int) else v
  }

  lemma Multiple(s: nat, unit: nat)
    requires unit > 0
    ensures (s * unit) % unit == 0 && (s * unit) / unit == s
  {
    assert s * unit == unit * s + 0;
    DivUnique(s * unit, unit, s, 0);
    assert s * unit == unit * ((s * unit) / unit) + (s * unit) % unit;
  }

  lemma Log2Small(m: nat)
    requires 0 < m < 0x1_0000_0000_0000_0000
    ensures Log2(m) <= 63
  {
    hide Log2, Pow2;
    Log2Bounds(m);
    Pow2Of64();
    if Log2(m) > 63 { Pow2Grows(64, Log2(m)); }
  }

  lemma ZeroDouble()
    ensures F64OfInt(0) == 0
  {
  }
}

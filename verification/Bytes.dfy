/** Bytes, little-endian codecs and in-place overwrites of a byte sequence. */
module Bytes {

  newtype byte = x: int | 0 <= x < 256

  const U32_LIMIT: nat := 0x1_0000_0000
  const U64_LIMIT: nat := 0x1_0000_0000_0000_0000

  type u64 = x: int | 0 <= x < 0x1_0000_0000_0000_0000
  type i64 = x: int | -0x8000_0000_0000_0000 <= x < 0x8000_0000_0000_0000

  /** `256` to the power `k`: the number of values `k` bytes can hold. */
  function Radix(k: nat): (r: nat)
    ensures r > 0
  {
    if k == 0 then 1 else 256 * Radix(k - 1)
  }

  lemma RadixValues()
    ensures Radix(4) == U32_LIMIT && Radix(8) == U64_LIMIT
  {
    assert Radix(3) == 256 * Radix(2);
    assert Radix(6) == 256 * Radix(5) && Radix(5) == 256 * Radix(4);
    assert Radix(4) == 256 * Radix(3);
    assert Radix(7) == 256 * Radix(6);
  }

  /** The low `k` bytes of `n`, least significant first. */
  function Le(n: nat, k: nat): (s: seq<byte>)
    ensures |s| == k
    decreases k
  {
    if k == 0 then [] else [(n % 256) as byte] + Le(n / 256, k - 1)
  }

  /** The number a little-endian byte string denotes. */
  function LeVal(s: seq<byte>): (n: nat)
    decreases |s|
  {
    if s == [] then 0 else s[0] as nat + 256 * LeVal(s[1..])
  }

  lemma {:induction false} LeValBound(s: seq<byte>)
    ensures LeVal(s) < Radix(|s|)
    decreases |s|
  {
    if s != [] {
      LeValBound(s[1..]);
    }
  }

  /** Decoding what was encoded gives the value back. */
  lemma {:induction false} LeRoundTrip(n: nat, k: nat)
    requires n < Radix(k)
    ensures LeVal(Le(n, k)) == n
    decreases k
  {
    if k > 0 {
      assert Le(n, k)[1..] == Le(n / 256, k - 1);
      LeRoundTrip(n / 256, k - 1);
    }
  }

  /** A `u32` cast keeps the number modulo 2^32. */
  lemma LeWraps(n: nat)
    ensures Le(n, 4) == Le(n % U32_LIMIT, 4)
  {
    var r := n % U32_LIMIT;
    var q := n / U32_LIMIT;
    assert n == q * 0x1_0000_0000 + r;
    assert n / 256 == q * 0x100_0000 + r / 256;
    assert n / 256 / 256 == q * 0x1_0000 + r / 256 / 256;
    assert n / 256 / 256 / 256 == q * 0x100 + r / 256 / 256 / 256;
    assert Le(n / 256 / 256 / 256, 1) == Le(r / 256 / 256 / 256, 1);
    assert Le(n / 256 / 256, 2) == Le(r / 256 / 256, 2);
    assert Le(n / 256, 3) == Le(r / 256, 3);
  }

  /** A wider number is read back truncated. */
  lemma LeRoundTrip4(n: nat)
    ensures LeVal(Le(n, 4)) == n % U32_LIMIT
  {
    LeWraps(n);
    RadixValues();
    LeRoundTrip(n % U32_LIMIT, 4);
  }

  function Times(n: nat, size: nat): nat { n * size }

  /** A slice and its two halves. */
  lemma SliceSplit(b: seq<byte>, off: nat, mid: nat, end: nat)
    requires off <= mid <= end <= |b|
    ensures b[off..mid] == b[off..end][..mid - off] && b[mid..end] == b[off..end][mid - off..]
  {
  }

  /** The `u32` stored at `off`. */
  function U32At(b: seq<byte>, off: nat): (n: nat)
    requires off + 4 <= |b|
    ensures n < U32_LIMIT
  {
    LeValBound(b[off..off + 4]);
    RadixValues();
    LeVal(b[off..off + 4])
  }

  /** `b` with the bytes starting at `off` overwritten by `data`. */
  function Put(b: seq<byte>, off: nat, data: seq<byte>): (r: seq<byte>)
    requires off + |data| <= |b|
    ensures |r| == |b|
    ensures r[off..off + |data|] == data
    ensures forall i :: 0 <= i < |b| && !(off <= i < off + |data|) ==> r[i] == b[i]
  {
    b[..off] + data + b[off + |data|..]
  }

  function PutU32(b: seq<byte>, off: nat, n: nat): (r: seq<byte>)
    requires off + 4 <= |b| && n < U32_LIMIT
    ensures |r| == |b|
    ensures r[off..off + 4] == Le(n, 4)
    ensures U32At(r, off) == n
    ensures forall i :: 0 <= i < |b| && !(off <= i < off + 4) ==> r[i] == b[i]
  {
    LeRoundTrip4(n);
    Put(b, off, Le(n, 4))
  }

  function Zeros(n: nat): (s: seq<byte>)
    ensures |s| == n && forall i :: 0 <= i < n ==> s[i] == 0
  {
    seq(n, _ => 0)
  }

  /** Two's complement: the 64-bit pattern of a signed integer, and back. */
  function I64Bits(v: i64): u64 {
    if v >= 0 then v else v + 0x1_0000_0000_0000_0000
  }

  function I64OfBits(n: u64): i64 {
    if n < 0x8000_0000_0000_0000 then n else n - 0x1_0000_0000_0000_0000
  }

  function U64Of(s: seq<byte>): u64
    requires |s| == 8
  {
    LeValBound(s);
    RadixValues();
    LeVal(s)
  }

  lemma U64RoundTrip(n: u64)
    ensures U64Of(Le(n, 8)) == n
  {
    LeRoundTrip(n, 8);
    RadixValues();
  }
}

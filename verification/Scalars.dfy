/**
 Little-endian bytes and the payloads of scalar HAL values, as they stand in wire
 messages and in the data of arrays. Floating-point payloads are bit patterns.
 */
module Scalars {
  import opened Values

  type Bytes = seq<u8>

  /** A HAL value whose floating-point variants carry their bits. */
  type WireValue = HalValue<nat>

  // ----- little-endian integers -----

  function Pow256(k: nat): (p: nat)
    ensures p > 0
  {
    if k == 0 then 1 else 256 * Pow256(k - 1)
  }

  /** The low `k` bytes of a number, lowest first. */
  function LeBytes(n: nat, k: nat): (b: Bytes)
    ensures |b| == k
    decreases k
  {
    if k == 0 then [] else [n % 256] + LeBytes(n / 256, k - 1)
  }

  function FromLe(b: Bytes): nat {
    if b == [] then 0 else b[0] + 256 * FromLe(b[1..])
  }

  /** Byte `i` holds the digit of weight 256 to the i. */
  lemma {:induction false} LeByteAt(n: nat, k: nat, i: nat)
    requires i < k
    ensures LeBytes(n, k)[i] == n / Pow256(i) % 256
    decreases k
  {
    if i > 0 {
      LeByteAt(n / 256, k - 1, i - 1);
      DivideTwice(n, Pow256(i - 1));
    }
  }

  lemma DivideTwice(n: nat, p: nat)
    requires p > 0
    ensures n / 256 / p == n / (256 * p)
  {
    var q, r := n / 256, n % 256;
    var a, b := q / p, q % p;
    assert n == 256 * q + r && q == p * a + b;
    assert n == (256 * p) * a + (256 * b + r);
    assert 256 * b + r < 256 * p;
    QuotientIs(n, 256 * p, a, 256 * b + r);
  }

  lemma QuotientIs(n: nat, m: nat, a: nat, r: nat)
    requires m > 0 && n == m * a + r && r < m
    ensures n / m == a
  {
    var q := n / m;
    assert n == m * q + n % m;
    if q < a {
      MultipleStep(m, q, a);
    } else if q > a {
      MultipleStep(m, a, q);
    }
  }

  lemma MultipleStep(m: nat, x: nat, y: nat)
    requires x < y
    ensures m * x + m <= m * y
  {
    assert m * y == m * x + m * (y - x);
    assert m * (y - x) == m + m * (y - x - 1);
  }

  lemma {:induction false} LeRoundTrip(n: nat, k: nat)
    requires n < Pow256(k)
    ensures FromLe(LeBytes(n, k)) == n
    decreases k
  {
    if k > 0 {
      LeRoundTrip(n / 256, k - 1);
      assert LeBytes(n, k)[1..] == LeBytes(n / 256, k - 1);
    }
  }

  lemma {:induction false} FromLeRoundTrip(b: Bytes)
    ensures FromLe(b) < Pow256(|b|) && LeBytes(FromLe(b), |b|) == b
    decreases |b|
  {
    if b != [] {
      FromLeRoundTrip(b[1..]);
      ByteSplit(b[0], FromLe(b[1..]));
      assert b == [b[0]] + b[1..];
    }
  }

  lemma ByteSplit(low: u8, rest: nat)
    ensures (low + 256 * rest) % 256 == low && (low + 256 * rest) / 256 == rest
  {
  }

  lemma Pow256Values()
    ensures Pow256(1) == 0x100 && Pow256(2) == 0x1_0000 && Pow256(4) == TWO_32 && Pow256(8) == TWO_64
  {
    assert Pow256(3) == 0x100_0000 && Pow256(4) == TWO_32;
    assert Pow256(5) == 256 * TWO_32 && Pow256(6) == 65536 * TWO_32 && Pow256(7) == 16777216 * TWO_32;
  }

  /** Two's complement on `modulus` values. */
  function ToUnsigned(n: int, modulus: nat): nat
    requires 0 <= n + modulus
  {
    if n < 0 then n + modulus else n
  }

  function ToSigned(u: nat, modulus: nat): int { if 2 * u >= modulus then u - modulus else u }

  lemma SignedRoundTrip(n: int, modulus: nat)
    requires 0 <= 2 * n + modulus < 2 * modulus
    ensures ToSigned(ToUnsigned(n, modulus), modulus) == n && ToUnsigned(n, modulus) < modulus
  {
  }

  lemma UnsignedRoundTrip(u: nat, modulus: nat)
    requires u < modulus
    ensures 0 <= 2 * ToSigned(u, modulus) + modulus < 2 * modulus && ToUnsigned(ToSigned(u, modulus), modulus) == u
  {
  }

  // ----- element types -----

  function PinTag(t: PinType): u8 {
    match t
    case PBool => 0
    case PS8 => 1
    case PU8 => 2
    case PS16 => 3
    case PU16 => 4
    case PS32 => 5
    case PU32 => 6
    case PS64 => 7
    case PU64 => 8
    case PF32 => 9
    case PF64 => 10
    case PBlob => 11
    case PString => 12
  }

  // ----- scalars -----

  predicate BitsFit(v: WireValue) { (v.F32? ==> v.f32 < TWO_32) && (v.F64? ==> v.f64 < TWO_64) }

  /** Tag and bytes of a scalar; containers have their own layout. */
  function ScalarTag(v: WireValue): u8 {
    match v
    case Bool(_) => 0
    case S8(_) => 1
    case U8(_) => 2
    case S16(_) => 3
    case U16(_) => 4
    case S32(_) => 5
    case U32(_) => 6
    case S64(_) => 7
    case U64(_) => 8
    case F32(_) => 9
    case F64(_) => 10
    case Blob(_) => 11
    case String(_) => 12
    case Array(_, _) => 13
  }

  function ScalarBytes(v: WireValue): Bytes {
    match v
    case Bool(b) => [if b then 1 else 0]
    case S8(n) => LeBytes(ToUnsigned(n, 0x100), 1)
    case U8(n) => LeBytes(n, 1)
    case S16(n) => LeBytes(ToUnsigned(n, 0x1_0000), 2)
    case U16(n) => LeBytes(n, 2)
    case S32(n) => LeBytes(ToUnsigned(n, TWO_32), 4)
    case U32(n) => LeBytes(n, 4)
    case S64(n) => LeBytes(ToUnsigned(n, TWO_64), 8)
    case U64(n) => LeBytes(n, 8)
    case F32(bits) => LeBytes(bits, 4)
    case F64(bits) => LeBytes(bits, 8)
    case _ => []
  }

  predicate IsScalar(v: WireValue) { !v.Blob? && !v.String? && !v.Array? }

  /** Width of a scalar payload by tag. */
  function Width(tag: u8): nat {
    if tag <= 2 then 1 else if tag <= 4 then 2 else if tag == 5 || tag == 6 || tag == 9 then 4 else 8
  }

  /** The scalar with a given tag and payload of its width. */
  function Scalar(tag: u8, b: Bytes): WireValue
    requires tag <= 10 && |b| == Width(tag)
  {
    var u := FromLe(b);
    match tag
    case 0 => Bool(b[0] != 0)
    case 1 => S8(WrapS8(ToSigned(u, 0x100)))
    case 2 => U8(WrapU8(u))
    case 3 => S16(WrapS16(ToSigned(u, 0x1_0000)))
    case 4 => U16(WrapU16(u))
    case 5 => S32(WrapS32(ToSigned(u, TWO_32)))
    case 6 => U32(WrapU32(u))
    case 7 => S64(WrapS64(ToSigned(u, TWO_64)))
    case 8 => U64(WrapU64(u))
    case 9 => F32(u)
    case _ => F64(u)
  }

  lemma ScalarRoundTrip(v: WireValue)
    requires IsScalar(v) && BitsFit(v)
    ensures ScalarTag(v) <= 10 && |ScalarBytes(v)| == Width(ScalarTag(v))
    ensures Scalar(ScalarTag(v), ScalarBytes(v)) == v
  {
    hide LeBytes, FromLe, Pow256;
    Pow256Values();
    match v
    case Bool(_) =>
    case S8(n) => SignedRoundTrip(n, 0x100); LeRoundTrip(ToUnsigned(n, 0x100), 1);
    case U8(n) => LeRoundTrip(n, 1);
    case S16(n) => SignedRoundTrip(n, 0x1_0000); LeRoundTrip(ToUnsigned(n, 0x1_0000), 2);
    case U16(n) => LeRoundTrip(n, 2);
    case S32(n) => SignedRoundTrip(n, TWO_32); LeRoundTrip(ToUnsigned(n, TWO_32), 4);
    case U32(n) => LeRoundTrip(n, 4);
    case S64(n) => SignedRoundTrip(n, TWO_64); LeRoundTrip(ToUnsigned(n, TWO_64), 8);
    case U64(n) => LeRoundTrip(n, 8);
    case F32(bits) => LeRoundTrip(bits, 4);
    case F64(bits) => LeRoundTrip(bits, 8);
  }

  lemma SignedCanonical(tag: u8, b: Bytes)
    requires (tag == 1 || tag == 3 || tag == 5 || tag == 7) && |b| == Width(tag)
    ensures ScalarTag(Scalar(tag, b)) == tag && ScalarBytes(Scalar(tag, b)) == b
  {
    hide LeBytes, FromLe, Pow256;
    Pow256Values();
    FromLeRoundTrip(b);
    var u := FromLe(b);
    if tag == 1 {
      UnsignedRoundTrip(u, 0x100);
    } else if tag == 3 {
      UnsignedRoundTrip(u, 0x1_0000);
    } else if tag == 5 {
      UnsignedRoundTrip(u, TWO_32);
    } else {
      UnsignedRoundTrip(u, TWO_64);
    }
  }

  lemma UnsignedCanonical(tag: u8, b: Bytes)
    requires (tag == 2 || tag == 4 || tag == 6 || 8 <= tag <= 10) && |b| == Width(tag)
    ensures ScalarTag(Scalar(tag, b)) == tag && ScalarBytes(Scalar(tag, b)) == b && BitsFit(Scalar(tag, b))
  {
    hide LeBytes, FromLe, Pow256, ToSigned;
    Pow256Values();
    FromLeRoundTrip(b);
  }

  /** The converse: a payload is the encoding of the scalar read from it; a Boolean byte may also be non-zero other than 1. */
  lemma ScalarCanonical(tag: u8, b: Bytes)
    requires tag <= 10 && |b| == Width(tag)
    ensures var v := Scalar(tag, b);
            IsScalar(v) && BitsFit(v) && ScalarTag(v) == tag && (tag != 0 || b[0] <= 1 ==> ScalarBytes(v) == b)
  {
    hide LeBytes, FromLe, ToSigned;
    if tag == 0 {
      assert |b| == 1;
    } else if tag == 1 || tag == 3 || tag == 5 || tag == 7 {
      SignedCanonical(tag, b);
    } else {
      UnsignedCanonical(tag, b);
    }
  }
}

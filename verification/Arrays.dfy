/**
 Array values: the elements lie packed in one byte buffer, and reading or replacing
 one of them computes its offset with 64-bit arithmetic that wraps.
 */
module Arrays {
  import opened Values
  import opened Scalars

  // ----- floating-point bits over the reals -----

  function Scaled(x: real, k: int): real
    decreases if k < 0 then -k else k
  {
    if k == 0 then x else if k > 0 then Scaled(2.0 * x, k - 1) else Scaled(x / 2.0, k + 1)
  }

  function Pow2(k: nat): (p: nat)
    ensures p > 0
  {
    if k == 0 then 1 else 2 * Pow2(k - 1)
  }

  /** Exponent and fraction width of an IEEE 754 format. */
  datatype Format = Format(exponent: nat, fraction: nat)

  const SINGLE := Format(8, 23)
  const DOUBLE := Format(11, 52)

  function Patterns(f: Format): nat { 2 * Pow2(f.exponent) * Pow2(f.fraction) }

  /** The real number a finite pattern stands for; infinities and NaN, which no real is, give zero. */
  function RealOf(f: Format, bits: nat): real {
    var fraction, rest := bits % Pow2(f.fraction), bits / Pow2(f.fraction);
    var e, negative := rest % Pow2(f.exponent), rest / Pow2(f.exponent) % 2 == 1;
    var bias := Pow2(f.exponent) / 2 - 1;
    var magnitude :=
      if e == 0 then Scaled(fraction as real, 1 - bias - f.fraction)
      else if e == Pow2(f.exponent) - 1 then 0.0
      else Scaled((Pow2(f.fraction) + fraction) as real, e - bias - f.fraction);
    if negative then -magnitude else magnitude
  }

  /** The first pattern from `n` on that stands for `x`. */
  function FirstPattern(f: Format, x: real, n: nat): (bits: nat)
    requires n <= Patterns(f)
    ensures bits < Patterns(f) || bits == 0
    decreases Patterns(f) - n
  {
    if n == Patterns(f) then 0 else if RealOf(f, n) == x then n else FirstPattern(f, x, n + 1)
  }

  /** The bits of a real number that the format can hold. */
  function BitsOf(f: Format, x: real): nat { FirstPattern(f, x, 0) }

  ghost predicate Holds(f: Format, x: real) { exists n :: 0 <= n < Patterns(f) && RealOf(f, n) == x }

  lemma {:induction false} FirstPatternFinds(f: Format, x: real, n: nat, m: nat)
    requires n <= m < Patterns(f) && RealOf(f, m) == x
    ensures RealOf(f, FirstPattern(f, x, n)) == x
    decreases Patterns(f) - n
  {
    if RealOf(f, n) != x {
      FirstPatternFinds(f, x, n + 1, m);
    }
  }

  function ToBits(v: Value): WireValue {
    match v
    case Bool(b) => Bool(b)
    case S8(n) => S8(n)
    case U8(n) => U8(n)
    case S16(n) => S16(n)
    case U16(n) => U16(n)
    case S32(n) => S32(n)
    case U32(n) => U32(n)
    case S64(n) => S64(n)
    case U64(n) => U64(n)
    case F32(x) => F32(BitsOf(SINGLE, x))
    case F64(x) => F64(BitsOf(DOUBLE, x))
    case Blob(b) => Blob(b)
    case String(b) => String(b)
    case Array(t, b) => Array(t, b)
  }

  function FromBits(v: WireValue): Value {
    match v
    case Bool(b) => Bool(b)
    case S8(n) => S8(n)
    case U8(n) => U8(n)
    case S16(n) => S16(n)
    case U16(n) => U16(n)
    case S32(n) => S32(n)
    case U32(n) => U32(n)
    case S64(n) => S64(n)
    case U64(n) => U64(n)
    case F32(bits) => F32(RealOf(SINGLE, bits))
    case F64(bits) => F64(RealOf(DOUBLE, bits))
    case Blob(b) => Blob(b)
    case String(b) => String(b)
    case Array(t, b) => Array(t, b)
  }

  /** A floating-point value that its format holds exactly; every other value. */
  ghost predicate Exact(v: Value) {
    (v.F32? ==> Holds(SINGLE, v.f32)) && (v.F64? ==> Holds(DOUBLE, v.f64))
  }

  lemma FormatSizes()
    ensures Patterns(SINGLE) == TWO_32 && Patterns(DOUBLE) == TWO_64
  {
    assert Pow2(8) == 256 && Pow2(11) == 2048 by { assert Pow2(4) == 16; assert Pow2(8) == 256; }
    Pow2Double(8, 8);
    assert Pow2(16) == 65536;
    Pow2Double(16, 7);
    assert Pow2(7) == 128 && Pow2(23) == 65536 * 128;
    Pow2Double(23, 23);
    assert Pow2(46) == Pow2(23) * Pow2(23);
    Pow2Double(46, 6);
    assert Pow2(6) == 64;
  }

  lemma {:induction false} Pow2Double(a: nat, b: nat)
    ensures Pow2(a + b) == Pow2(a) * Pow2(b)
    decreases b
  {
    if b > 0 {
      Pow2Double(a, b - 1);
    }
  }

  lemma BitsRoundTrip(v: Value)
    requires Exact(v)
    ensures FromBits(ToBits(v)) == v && BitsFit(ToBits(v))
  {
    hide FirstPattern, RealOf, Patterns;
    FormatSizes();
    match v
    case F32(x) =>
      var m :| 0 <= m < Patterns(SINGLE) && RealOf(SINGLE, m) == x;
      FirstPatternFinds(SINGLE, x, 0, m);
    case F64(x) =>
      var m :| 0 <= m < Patterns(DOUBLE) && RealOf(DOUBLE, m) == x;
      FirstPatternFinds(DOUBLE, x, 0, m);
    case _ =>
  }

  // ----- elements -----

  /** Size of an element in bytes. */
  function ByteSize(t: PinType): (n: nat)
    ensures n == 1 || n == 2 || n == 4 || n == 8
  {
    match t
    case PBool => 1
    case PS8 => 1
    case PU8 => 1
    case PS16 => 2
    case PU16 => 2
    case PS32 => 4
    case PU32 => 4
    case PF32 => 4
    case _ => 8
  }

  function TypeTag(v: Value): PinType {
    match v
    case Bool(_) => PBool
    case S8(_) => PS8
    case U8(_) => PU8
    case S16(_) => PS16
    case U16(_) => PU16
    case S32(_) => PS32
    case U32(_) => PU32
    case S64(_) => PS64
    case U64(_) => PU64
    case F32(_) => PF32
    case F64(_) => PF64
    case Blob(_) => PBlob
    case String(_) => PString
    case Array(t, _) => t
  }

  function Zero(t: PinType): Value {
    match t
    case PBool => Bool(false)
    case PS8 => S8(0)
    case PU8 => U8(0)
    case PS16 => S16(0)
    case PU16 => U16(0)
    case PS32 => S32(0)
    case PU32 => U32(0)
    case PS64 => S64(0)
    case PU64 => U64(0)
    case PF32 => F32(0.0)
    case PF64 => F64(0.0)
    case PBlob => Blob([])
    case PString => String([])
  }

  /** The bytes of a value as it is copied into an array. */
  function ElementBytes(v: Value): Bytes {
    match v
    case Blob(b) => LeBytes(|b| % TWO_32, 4) + b
    case String(b) => b
    case Array(_, b) => b
    case _ => ScalarBytes(ToBits(v))
  }

  /** The element read from its bytes; containers are not stored in arrays and read as S32(0). */
  function Element(t: PinType, b: Bytes): Value
    requires |b| == ByteSize(t)
  {
    if t == PBlob || t == PString then S32(0) else FromBits(Scalar(PinTag(t), b))
  }

  /** A value as a 64-bit index: signed integers are sign-extended, other values count as zero. */
  function AsIndex(v: Value): u64 {
    match v
    case S8(n) => WrapU64(n)
    case U8(n) => n
    case S16(n) => WrapU64(n)
    case U16(n) => n
    case S32(n) => WrapU64(n)
    case U32(n) => n
    case S64(n) => WrapU64(n)
    case U64(n) => n
    case _ => 0
  }

  function Offset(t: PinType, i: u64): u64 { WrapU64(i * ByteSize(t)) }

  /** What the bounds check makes of an element: inside the buffer, past its end, or an abort when
      the end of the element wraps around to a number before its start. */
  datatype Place = Inside | Past | Aborts

  function Locate(t: PinType, data: Bytes, i: u64): (p: Place)
    ensures p == Inside ==> Offset(t, i) + ByteSize(t) <= |data|
  {
    var end := WrapU64(Offset(t, i) + ByteSize(t));
    if end > |data| then Past else if end < Offset(t, i) then Aborts else Inside
  }

  function Slice(t: PinType, data: Bytes, i: u64): (b: Bytes)
    requires Locate(t, data, i) == Inside
    ensures |b| == ByteSize(t)
  {
    data[Offset(t, i)..Offset(t, i) + ByteSize(t)]
  }

  /** A value, or an abort on a slice that does not exist. */
  datatype Access = Got(value: Value) | BadSlice

  /** Element `i` of an array; zero past the end and for values that are no arrays. */
  function Index(v: Value, i: u64): Access {
    if !v.Array? then Got(Zero(TypeTag(v)))
    else match Locate(v.element, v.data, i)
      case Past => Got(Zero(v.element))
      case Aborts => BadSlice
      case Inside => Got(Element(v.element, Slice(v.element, v.data, i)))
  }

  /** The array with element `i` replaced; unchanged past the end and for values that are no arrays. */
  function SetIndex(v: Value, i: u64, x: Value): Access {
    if !v.Array? then Got(v)
    else match Locate(v.element, v.data, i)
      case Past => Got(v)
      case Aborts => BadSlice
      case Inside =>
        var at, size, b := Offset(v.element, i), ByteSize(v.element), ElementBytes(x);
        if |b| < size then BadSlice
        else Got(v.(data := v.data[..at] + b[..size] + v.data[at + size..]))
  }

  // ----- laws -----

  lemma TagOfType(v: Value)
    requires IsScalar(ToBits(v))
    ensures PinTag(TypeTag(v)) == ScalarTag(ToBits(v)) && Width(PinTag(TypeTag(v))) == ByteSize(TypeTag(v))
  {
    hide BitsOf;
  }

  /** Reading an element just stored gives the stored value. */
  lemma StoreThenLoad(a: Value, i: u64, x: Value)
    requires a.Array? && Locate(a.element, a.data, i) == Inside
    requires TypeTag(x) == a.element && !x.Array? && !x.Blob? && !x.String? && Exact(x)
    ensures SetIndex(a, i, x).Got? && Index(SetIndex(a, i, x).value, i) == Got(x)
  {
    hide ScalarBytes, Scalar, ToBits, FromBits, Exact, ScalarTag;
    ScalarStays(x);
    BitsRoundTrip(x);
    TagOfType(x);
    ScalarRoundTrip(ToBits(x));
    var at, size := Offset(a.element, i), ByteSize(a.element);
    var b, stored := ElementBytes(x), SetIndex(a, i, x).value;
    assert b[..size] == b;
    assert stored.data[at..at + size] == b;
  }

  lemma ScalarStays(x: Value)
    ensures IsScalar(ToBits(x)) <==> !x.Array? && !x.Blob? && !x.String?
  {
  }

  lemma SpliceKeeps(data: Bytes, at: nat, b: Bytes, lo: nat)
    requires at + |b| <= |data| && lo + |b| <= |data| && (lo + |b| <= at || at + |b| <= lo)
    ensures (data[..at] + b + data[at + |b|..])[lo..lo + |b|] == data[lo..lo + |b|]
  {
    var stored := data[..at] + b + data[at + |b|..];
    assert forall k :: lo <= k < lo + |b| ==> stored[k] == data[k];
  }

  /** Every other element keeps its value, whatever is stored. */
  lemma StoreKeepsOthers(a: Value, i: u64, x: Value, j: u64)
    requires SetIndex(a, i, x).Got? && (a.Array? ==> Offset(a.element, i) != Offset(a.element, j))
    ensures Index(SetIndex(a, i, x).value, j) == Index(a, j)
  {
    hide Element, ElementBytes, Zero;
    if a.Array? && Locate(a.element, a.data, i) == Inside && Locate(a.element, a.data, j) == Inside {
      var at, size := Offset(a.element, i), ByteSize(a.element);
      OffsetsApart(a.element, i, j);
      SpliceKeeps(a.data, at, ElementBytes(x)[..size], Offset(a.element, j));
    }
  }

  /** Number of element positions in the address space. */
  function Positions(t: PinType): (q: nat)
    ensures q > 0 && ByteSize(t) * q == TWO_64
  {
    TWO_64 / ByteSize(t)
  }

  lemma RemainderIs(n: nat, m: nat, a: nat, r: nat)
    requires m > 0 && n == m * a + r && r < m
    ensures n % m == r
  {
    QuotientIs(n, m, a, r);
    assert n == m * (n / m) + n % m;
  }

  /** Offsets wrap around by whole elements. */
  lemma OffsetIs(t: PinType, n: nat)
    ensures n * ByteSize(t) % TWO_64 == ByteSize(t) * (n % Positions(t))
  {
    var s, q := ByteSize(t), Positions(t);
    var a, b := n / q, n % q;
    assert n == q * a + b;
    assert n * s == s * (q * a) + s * b;
    assert s * (q * a) == (s * q) * a;
    assert s * b <= s * (q - 1) by { MultipleLe(s, b, q - 1); }
    RemainderIs(n * s, TWO_64, a, s * b);
  }

  lemma MultipleLe(m: nat, x: nat, y: nat)
    requires x <= y
    ensures m * x <= m * y
  {
    if x < y {
      MultipleStep(m, x, y);
    }
  }

  lemma OffsetsApart(t: PinType, i: u64, j: u64)
    requires Offset(t, i) != Offset(t, j)
    ensures Offset(t, i) + ByteSize(t) <= Offset(t, j) || Offset(t, j) + ByteSize(t) <= Offset(t, i)
  {
    hide ByteSize, Positions;
    OffsetIs(t, i);
    OffsetIs(t, j);
    var a, b := i % Positions(t), j % Positions(t);
    if a < b {
      MultipleStep(ByteSize(t), a, b);
    } else if b < a {
      MultipleStep(ByteSize(t), b, a);
    }
  }

  lemma NextRemainder(i: nat, q: nat)
    requires q > 0
    ensures (i + 1) % q == if i % q == q - 1 then 0 else i % q + 1
  {
    var a, b := i / q, i % q;
    assert i == q * a + b;
    if b == q - 1 {
      assert i + 1 == q * (a + 1);
      RemainderIs(i + 1, q, a + 1, 0);
    } else {
      RemainderIs(i + 1, q, a, b + 1);
    }
  }

  lemma MultipleBounds(s: nat, b: nat, q: nat)
    requires s > 0 && b < q
    ensures s * b == 0 <==> b == 0
    ensures if b == q - 1 then s * b + s == s * q else s * b + s < s * q
  {
    if b > 0 {
      MultipleStep(s, 0, b);
    }
    assert s * b + s == s * (b + 1);
    if b + 1 < q {
      MultipleStep(s, b + 1, q);
    }
  }

  /** The element at an offset ends inside the address space, or exactly at its end. */
  lemma ElementEnd(t: PinType, i: u64)
    ensures var end := Offset(t, i) + ByteSize(t);
            if (i + 1) % Positions(t) == 0 then end == TWO_64 else end < TWO_64
    ensures (i + 1) * ByteSize(t) % TWO_64 == 0 <==> (i + 1) % Positions(t) == 0
  {
    var s, q := ByteSize(t), Positions(t);
    OffsetIs(t, i);
    OffsetIs(t, i + 1);
    NextRemainder(i, q);
    MultipleBounds(s, i % q, q);
    MultipleBounds(s, (i + 1) % q, q);
    hide ByteSize, Positions;
  }

  /** Access is documented as panic-free; it aborts exactly on the element that ends where the
      address space does. */
  lemma AbortsExactlyOnLastElement(t: PinType, data: Bytes, i: u64)
    requires |data| < 0x8000_0000_0000_0000
    ensures Locate(t, data, i) == Aborts <==> (i + 1) * ByteSize(t) % TWO_64 == 0
  {
    hide Positions;
    ElementEnd(t, i);
  }

  lemma LastSigned(t: PinType, n: i32)
    ensures (WrapU64(n) + 1) * ByteSize(t) % TWO_64 == 0 <==> n == -1
  {
    if n < 0 {
      assert WrapU64(n) == n + TWO_64;
      var m := TWO_64 + n + 1;
      var s, q := ByteSize(t), Positions(t);
      OffsetIs(t, m);
      assert 0 < q && s * q == TWO_64;
    } else {
      assert WrapU64(n) == n;
    }
  }

  /** So a 32-bit index makes it abort exactly when it is -1, whatever the array holds. */
  lemma MinusOneAborts(t: PinType, data: Bytes, n: i32)
    requires |data| < 0x8000_0000_0000_0000
    ensures Index(Array(t, data), AsIndex(S32(n))) == BadSlice <==> n == -1
    ensures forall x :: SetIndex(Array(t, data), AsIndex(S32(n)), x) == BadSlice <== n == -1
  {
    hide Element, ElementBytes, Zero, Locate, ByteSize, Offset;
    AbortsExactlyOnLastElement(t, data, AsIndex(S32(n)));
    LastSigned(t, n);
  }
}

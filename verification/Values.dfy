/**
 The unified HAL value and the operators the virtual machine applies to it.

 Integer variants carry integers of their own width and every integer operation
 wraps to that width. The representation of the two floating-point variants is a
 type parameter: the machine computes with reals, the wire codec with bit patterns.
 */
module Values {

  const TWO_32: int := 0x1_0000_0000
  const TWO_64: int := 0x1_0000_0000_0000_0000

  type i8 = x: int | -0x80 <= x < 0x80
  type u8 = x: int | 0 <= x < 0x100
  type i16 = x: int | -0x8000 <= x < 0x8000
  type u16 = x: int | 0 <= x < 0x1_0000
  type i32 = x: int | -0x8000_0000 <= x < 0x8000_0000
  type u32 = x: int | 0 <= x < 0x1_0000_0000
  type i64 = x: int | -0x8000_0000_0000_0000 <= x < 0x8000_0000_0000_0000
  type u64 = x: int | 0 <= x < 0x1_0000_0000_0000_0000

  /** Element type tag of pins and arrays. */
  datatype PinType =
    PBool | PS8 | PU8 | PS16 | PU16 | PS32 | PU32 | PS64 | PU64 | PF32 | PF64 | PBlob | PString

  /** `F` represents the payload of the floating-point variants. */
  datatype HalValue<F> =
    | Bool(b: bool)
    | S8(s8: i8)
    | U8(u8: u8)
    | S16(s16: i16)
    | U16(u16: u16)
    | S32(s32: i32)
    | U32(u32: u32)
    | S64(s64: i64)
    | U64(u64: u64)
    | F32(f32: F)
    | F64(f64: F)
    | Blob(blob: seq<u8>)
    | String(text: seq<u8>)
    | Array(element: PinType, data: seq<u8>)

  type Value = HalValue<real>

  datatype ArithOp = Plus | Minus | Times | Over | Rem | BitAnd | BitOr | BitXor
  datatype CmpOp = CmpEq | CmpNeq | CmpGt | CmpLt | CmpGte | CmpLte

  // ----- two's-complement wrap-around -----

  function WrapS8(n: int): i8 { (n + 0x80) % 0x100 - 0x80 }
  function WrapU8(n: int): u8 { n % 0x100 }
  function WrapS16(n: int): i16 { (n + 0x8000) % 0x1_0000 - 0x8000 }
  function WrapU16(n: int): u16 { n % 0x1_0000 }
  function WrapS32(n: int): i32 { (n + 0x8000_0000) % 0x1_0000_0000 - 0x8000_0000 }
  function WrapU32(n: int): u32 { n % 0x1_0000_0000 }
  function WrapS64(n: int): i64 { (n + 0x8000_0000_0000_0000) % 0x1_0000_0000_0000_0000 - 0x8000_0000_0000_0000 }
  function WrapU64(n: int): u64 { n % 0x1_0000_0000_0000_0000 }

  // ----- integer operators -----

  /** Division truncating toward zero. */
  function TruncDiv(a: int, b: int): int
    requires b != 0
  {
    var q := (if a < 0 then -a else a) / (if b < 0 then -b else b);
    if (a < 0) == (b < 0) then q else -q
  }

  /** Remainder with the sign of the dividend. */
  function TruncRem(a: int, b: int): int
    requires b != 0
  {
    a - b * TruncDiv(a, b)
  }

  function BitOf(op: ArithOp, a: nat, b: nat): nat {
    match op
    case BitAnd => if a % 2 == 1 && b % 2 == 1 then 1 else 0
    case BitOr => if a % 2 == 1 || b % 2 == 1 then 1 else 0
    case _ => if a % 2 != b % 2 then 1 else 0
  }

  /** Bitwise operator on the low `width` bits. */
  function Bitwise(op: ArithOp, a: nat, b: nat, width: nat): nat {
    if width == 0 then 0 else 2 * Bitwise(op, a / 2, b / 2, width - 1) + BitOf(op, a, b)
  }

  /** The operator on unbounded integers; the caller wraps the result to its width. */
  function IntOp(op: ArithOp, a: int, b: int, width: nat, modulus: nat): int
    requires modulus > 0
  {
    match op
    case Plus => a + b
    case Minus => a - b
    case Times => a * b
    case Over => if b == 0 then 0 else TruncDiv(a, b)
    case Rem => if b == 0 then 0 else TruncRem(a, b)
    case _ => Bitwise(op, a % modulus, b % modulus, width)
  }

  function Truncate(q: real): int { if q >= 0.0 then q.Floor else -(-q).Floor }

  /** What remains of `a` when `b` goes into it `q` times, `q` truncated toward zero. */
  function RealRest(a: real, b: real, q: real): real { a - b * (Truncate(q) as real) }

  function RealOp(op: ArithOp, a: real, b: real): Value {
    match op
    case Plus => F64(a + b)
    case Minus => F64(a - b)
    case Times => F64(a * b)
    case Over => if b == 0.0 then S32(0) else F64(a / b)
    case Rem =>
      if b == 0.0 then S32(0) else F64(RealRest(a, b, a / b))
    case _ => S32(0)
  }

  /** An integer division by zero outside S32 is not intercepted by the machine and aborts. */
  predicate DivideFault(op: ArithOp, a: Value, b: Value) {
    && (op == Over || op == Rem)
    && (|| (a.S8? && b == S8(0)) || (a.U8? && b == U8(0))
        || (a.S16? && b == S16(0)) || (a.U16? && b == U16(0))
        || (a.U32? && b == U32(0))
        || (a.S64? && b == S64(0)) || (a.U64? && b == U64(0)))
  }

  /** A quotient or remainder of the smallest signed number by -1 does not fit and aborts, in S32 too. */
  predicate DivideOverflow(op: ArithOp, a: Value, b: Value) {
    && (op == Over || op == Rem)
    && (|| (a == S8(-0x80) && b == S8(-1))
        || (a == S16(-0x8000) && b == S16(-1))
        || (a == S32(-0x8000_0000) && b == S32(-1))
        || (a == S64(-0x8000_0000_0000_0000) && b == S64(-1)))
  }

  /** Binary operators; mismatched types and containers give S32(0). */
  function Arith(op: ArithOp, a: Value, b: Value): Value {
    if a.S32? && b.S32? then S32(Op32(op, a.s32, b.s32))
    else if (op == Over || op == Rem) && (b == S32(0) || b == F32(0.0) || b == F64(0.0)) then S32(0)
    else if a.Bool? && b.Bool? then BoolOp(op, a.b, b.b)
    else if a.F64? && b.F64? then RealOp(op, a.f64, b.f64)
    else if a.F32? && b.F32? then
      var r := RealOp(op, a.f32, b.f32);
      if r.F64? then F32(r.f64) else r
    else if a.S8? && b.S8? then S8(WrapS8(IntOp(op, a.s8, b.s8, 8, 0x100)))
    else if a.U8? && b.U8? then U8(WrapU8(IntOp(op, a.u8, b.u8, 8, 0x100)))
    else if a.S16? && b.S16? then S16(WrapS16(IntOp(op, a.s16, b.s16, 16, 0x1_0000)))
    else if a.U16? && b.U16? then U16(WrapU16(IntOp(op, a.u16, b.u16, 16, 0x1_0000)))
    else if a.U32? && b.U32? then U32(WrapU32(IntOp(op, a.u32, b.u32, 32, 0x1_0000_0000)))
    else if a.S64? && b.S64? then S64(WrapS64(IntOp(op, a.s64, b.s64, 64, 0x1_0000_0000_0000_0000)))
    else if a.U64? && b.U64? then U64(WrapU64(IntOp(op, a.u64, b.u64, 64, 0x1_0000_0000_0000_0000)))
    else S32(0)
  }

  /** The operator on DINT, where dividing by zero gives zero. */
  function Op32(op: ArithOp, a: i32, b: i32): i32 {
    WrapS32(IntOp(op, a, b, 32, 0x1_0000_0000))
  }

  /** Bool has the three bitwise operators and no arithmetic. */
  function BoolOp(op: ArithOp, a: bool, b: bool): Value {
    match op
    case BitAnd => Bool(a && b)
    case BitOr => Bool(a || b)
    case BitXor => Bool(a != b)
    case _ => S32(0)
  }

  function Negate(v: Value): Value {
    match v
    case S8(n) => S8(WrapS8(0 - n))
    case S16(n) => S16(WrapS16(0 - n))
    case S32(n) => S32(WrapS32(0 - n))
    case S64(n) => S64(WrapS64(0 - n))
    case F32(x) => F32(-x)
    case F64(x) => F64(-x)
    case _ => S32(0)
  }

  /** Bitwise complement; logical negation on Bool. */
  function Complement(v: Value): Value {
    match v
    case Bool(b) => Bool(!b)
    case S8(n) => S8(-1 - n)
    case U8(n) => U8(0xFF - n)
    case S16(n) => S16(-1 - n)
    case U16(n) => U16(0xFFFF - n)
    case S32(n) => S32(-1 - n)
    case U32(n) => U32(0xFFFF_FFFF - n)
    case S64(n) => S64(-1 - n)
    case U64(n) => U64(0xFFFF_FFFF_FFFF_FFFF - n)
    case _ => S32(0)
  }

  predicate CmpReal(op: CmpOp, a: real, b: real) {
    match op
    case CmpEq => a == b
    case CmpNeq => a != b
    case CmpGt => a > b
    case CmpLt => a < b
    case CmpGte => a >= b
    case CmpLte => a <= b
  }

  predicate CmpInt(op: CmpOp, a: int, b: int) {
    match op
    case CmpEq => a == b
    case CmpNeq => a != b
    case CmpGt => a > b
    case CmpLt => a < b
    case CmpGte => a >= b
    case CmpLte => a <= b
  }

  /** Equality compares whole values; the orderings are false on mismatched types, on Bool and on containers. */
  predicate Compare(op: CmpOp, a: Value, b: Value) {
    if op == CmpEq then a == b
    else if op == CmpNeq then a != b
    else
      match (a, b)
      case (S8(x), S8(y)) => CmpInt(op, x, y)
      case (U8(x), U8(y)) => CmpInt(op, x, y)
      case (S16(x), S16(y)) => CmpInt(op, x, y)
      case (U16(x), U16(y)) => CmpInt(op, x, y)
      case (S32(x), S32(y)) => CmpInt(op, x, y)
      case (U32(x), U32(y)) => CmpInt(op, x, y)
      case (S64(x), S64(y)) => CmpInt(op, x, y)
      case (U64(x), U64(y)) => CmpInt(op, x, y)
      case (F32(x), F32(y)) => CmpReal(op, x, y)
      case (F64(x), F64(y)) => CmpReal(op, x, y)
      case _ => false
  }

  // ----- laws -----

  function Magnitude(n: int): nat { if n < 0 then -n else n }

  /** Division truncates: the remainder is smaller than the divisor and has the sign of the dividend. */
  lemma TruncatingDivision(a: int, b: int)
    requires b != 0
    ensures a == b * TruncDiv(a, b) + TruncRem(a, b)
    ensures Magnitude(TruncRem(a, b)) < Magnitude(b)
    ensures (a >= 0 ==> TruncRem(a, b) >= 0) && (a <= 0 ==> TruncRem(a, b) <= 0)
  {
    var x: int, y: int := Magnitude(a), Magnitude(b);
    var q: int := x / y;
    EuclideanDivision(x, y);
    if b > 0 {
      assert b * TruncDiv(a, b) == if a < 0 then b * -q else b * q;
      NegatedProduct(b, q);
    } else {
      assert b * TruncDiv(a, b) == if a < 0 then -y * q else -y * -q;
      NegatedProduct(y, q);
    }
  }

  lemma EuclideanDivision(x: int, y: int)
    requires x >= 0 && y > 0
    ensures 0 <= x - y * (x / y) < y
  {
    assert x == y * (x / y) + x % y;
  }

  lemma NegatedProduct(x: int, y: int)
    ensures x * -y == -(x * y) && -x * y == -(x * y) && -x * -y == x * y
  {
  }

  function Shift(n: nat, i: nat): nat { if i == 0 then n else Shift(n / 2, i - 1) }

  /** Every bit of a bitwise operation is the operation on the bits in that place. */
  lemma {:induction false} BitwiseBits(op: ArithOp, a: nat, b: nat, width: nat, i: nat)
    requires i < width
    ensures Shift(Bitwise(op, a, b, width), i) % 2 == BitOf(op, Shift(a, i), Shift(b, i))
    decreases width
  {
    var rest := Bitwise(op, a / 2, b / 2, width - 1);
    assert Bitwise(op, a, b, width) / 2 == rest;
    if i > 0 {
      BitwiseBits(op, a / 2, b / 2, width - 1, i - 1);
    }
  }
}

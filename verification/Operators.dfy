/**
 What the machine's operators compute, in ordinary arithmetic: sums, differences and
 products modulo the width of their type, truncating quotients with their remainders,
 bitwise operators place by place, and comparisons as the order of the numbers.
 */
module Operators {
  import opened Values
  import opened Blocks
  import opened Machine
  import Arrays

  // ----- integer types -----

  predicate IsInteger(t: PinType) { t in {PS8, PU8, PS16, PU16, PS32, PU32, PS64, PU64} }

  /** Number of bits of an integer type. */
  function Bits(t: PinType): nat {
    match t
    case PS8 => 8
    case PU8 => 8
    case PS16 => 16
    case PU16 => 16
    case PS32 => 32
    case PU32 => 32
    case _ => 64
  }

  /** Number of values of an integer type. */
  function Size(t: PinType): (m: int)
    ensures m > 0
  {
    match t
    case PS8 => 0x100
    case PU8 => 0x100
    case PS16 => 0x1_0000
    case PU16 => 0x1_0000
    case PS32 => 0x1_0000_0000
    case PU32 => 0x1_0000_0000
    case _ => 0x1_0000_0000_0000_0000
  }

  predicate Signed(t: PinType) { t in {PS8, PS16, PS32, PS64} }

  predicate InRange(t: PinType, n: int) {
    if Signed(t) then -Size(t) <= 2 * n < Size(t) else 0 <= n < Size(t)
  }

  /** The value of type `t` that holds `n`. */
  function Of(t: PinType, n: int): Value
    requires IsInteger(t) && InRange(t, n)
  {
    match t
    case PS8 => S8(n)
    case PU8 => U8(n)
    case PS16 => S16(n)
    case PU16 => U16(n)
    case PS32 => S32(n)
    case PU32 => U32(n)
    case PS64 => S64(n)
    case PU64 => U64(n)
  }

  predicate Congruent(a: int, b: int, m: int)
    requires m > 0
  {
    (a - b) % m == 0
  }

  /** Congruent numbers that both fit are equal, so each result below is the only one. */
  lemma FittingIsUnique(t: PinType, a: int, b: int)
    requires InRange(t, a) && InRange(t, b) && Congruent(a, b, Size(t))
    ensures a == b
  {
    var m, d := Size(t), a - b;
    var q := d / m;
    assert d == m * q + d % m;
    if q > 0 {
      Multiples(m, 1, q);
    } else if q < 0 {
      Multiples(m, q, -1);
    }
  }

  lemma Multiples(m: int, a: int, b: int)
    requires m > 0 && a <= b
    ensures m * a <= m * b
  {
    assert m * b - m * a == m * (b - a);
  }

  lemma CongruentBy(a: int, b: int, q: int, m: int)
    requires m > 0 && a - b == q * m
    ensures Congruent(a, b, m)
  {
    var d, z := a - b, (a - b) / m;
    assert d == m * z + d % m;
    if z < q {
      Multiples(m, z + 1, q);
    } else if z > q {
      Multiples(m, q + 1, z);
    }
  }

  lemma ShiftedRemainder(n: int, h: int, m: int)
    requires m > 0
    ensures Congruent((n + h) % m - h, n, m)
  {
    var q, r := (n + h) / m, (n + h) % m;
    assert n + h == m * q + r;
    CongruentBy(r - h, n, -q, m);
  }

  /** The number of type `t` congruent to `n`. */
  lemma Wraps(t: PinType, n: int) returns (r: int)
    requires IsInteger(t)
    ensures InRange(t, r) && Congruent(r, n, Size(t))
    ensures Of(t, r) == match t
                        case PS8 => S8(WrapS8(n))
                        case PU8 => U8(WrapU8(n))
                        case PS16 => S16(WrapS16(n))
                        case PU16 => U16(WrapU16(n))
                        case PS32 => S32(WrapS32(n))
                        case PU32 => U32(WrapU32(n))
                        case PS64 => S64(WrapS64(n))
                        case _ => U64(WrapU64(n))
  {
    hide Congruent;
    ShiftedRemainder(n, if Signed(t) then Size(t) / 2 else 0, Size(t));
    r := match t
         case PS8 => WrapS8(n)
         case PU8 => WrapU8(n)
         case PS16 => WrapS16(n)
         case PU16 => WrapU16(n)
         case PS32 => WrapS32(n)
         case PU32 => WrapU32(n)
         case PS64 => WrapS64(n)
         case _ => WrapU64(n);
  }

  // ----- sums, differences, products -----

  lemma RingResult(op: ArithOp, t: PinType, x: int, y: int, n: int) returns (r: int)
    requires IsInteger(t) && InRange(t, x) && InRange(t, y) && op in {Plus, Minus, Times}
    requires n == if op == Plus then x + y else if op == Minus then x - y else x * y
    ensures InRange(t, r) && Congruent(r, n, Size(t)) && Arith(op, Of(t, x), Of(t, y)) == Of(t, r)
  {
    hide Congruent, InRange;
    r := Wraps(t, n);
    hide WrapS8, WrapU8, WrapS16, WrapU16, WrapS32, WrapU32, WrapS64, WrapU64, RealOp, BoolOp, TruncDiv, TruncRem, Bitwise;
  }

  /** On every integer type, the result is the number of the type that is congruent to the ordinary one. */
  lemma RingLaws(t: PinType, x: int, y: int) returns (sum: int, difference: int, product: int)
    requires IsInteger(t) && InRange(t, x) && InRange(t, y)
    ensures InRange(t, sum) && Congruent(sum, x + y, Size(t)) && Arith(Plus, Of(t, x), Of(t, y)) == Of(t, sum)
    ensures InRange(t, difference) && Congruent(difference, x - y, Size(t)) && Arith(Minus, Of(t, x), Of(t, y)) == Of(t, difference)
    ensures InRange(t, product) && Congruent(product, x * y, Size(t)) && Arith(Times, Of(t, x), Of(t, y)) == Of(t, product)
  {
    hide *;
    sum := RingResult(Plus, t, x, y, x + y);
    difference := RingResult(Minus, t, x, y, x - y);
    product := RingResult(Times, t, x, y, x * y);
  }

  // ----- quotients and remainders -----

  /** The smallest signed number by -1, whose quotient does not fit. */
  predicate QuotientOverflows(t: PinType, x: int, y: int) { Signed(t) && 2 * x == -Size(t) && y == -1 }

  lemma FittingWraps(t: PinType, n: int)
    requires IsInteger(t) && InRange(t, n)
    ensures match t
            case PS8 => WrapS8(n) == n
            case PU8 => WrapU8(n) == n
            case PS16 => WrapS16(n) == n
            case PU16 => WrapU16(n) == n
            case PS32 => WrapS32(n) == n
            case PU32 => WrapU32(n) == n
            case PS64 => WrapS64(n) == n
            case _ => WrapU64(n) == n
  {
  }

  function Abs(n: int): nat { if n < 0 then -n else n }

  /** A quotient is no larger than the dividend, and as large only for a divisor of 1 or -1. */
  lemma QuotientBounds(x: int, y: int, q: int, r: int)
    requires y != 0 && x == y * q + r && Abs(r) < Abs(y) && (x >= 0 ==> r >= 0) && (x <= 0 ==> r <= 0)
    ensures Abs(q) <= Abs(x) && Abs(r) <= Abs(x)
    ensures x >= 0 && y > 0 ==> q >= 0
    ensures x < 0 && y < -1 ==> q < -x
  {
    var a, b, p, s := Abs(x), Abs(y), Abs(q), Abs(r);
    AbsProduct(y, q);
    var w := Abs(y * q);
    assert w == b * p;
    if p > 0 {
      Multiples(p, 1, b);
      Multiples(b, 1, p);
      assert p <= w && b <= w;
      SameSign(x, y * q, r, s, w);
      if y < -1 {
        Multiples(p, 2, b);
      }
    }
    if x >= 0 && y > 0 && q < 0 {
      Multiples(y, q, -1);
    }
  }

  lemma AbsProduct(y: int, q: int)
    ensures Abs(y * q) == Abs(y) * Abs(q)
  {
    if y < 0 && q < 0 {
      assert y * q == -y * -q;
    } else if y < 0 {
      assert y * q == -(-y * q);
    } else if q < 0 {
      assert y * q == -(y * -q);
    }
    if (y < 0) == (q < 0) {
      assert Abs(y) * Abs(q) >= 0;
    }
  }

  /** A remainder smaller than the product has the sign of the sum, so the product has it too. */
  lemma SameSign(x: int, w: int, r: int, s: int, size: int)
    requires x == w + r && s == Abs(r) && size == Abs(w) && s < size && (x >= 0 ==> r >= 0) && (x <= 0 ==> r <= 0)
    ensures size <= Abs(x)
  {
  }

  /** On every integer type, quotient and remainder truncate toward zero. */
  lemma QuotientLaws(t: PinType, x: int, y: int) returns (q: int, r: int)
    requires IsInteger(t) && InRange(t, x) && InRange(t, y) && y != 0 && !QuotientOverflows(t, x, y)
    ensures InRange(t, q) && Arith(Over, Of(t, x), Of(t, y)) == Of(t, q)
    ensures InRange(t, r) && Arith(Rem, Of(t, x), Of(t, y)) == Of(t, r)
    ensures x == y * q + r && Abs(r) < Abs(y) && (x >= 0 ==> r >= 0) && (x <= 0 ==> r <= 0)
  {
    TruncatingDivision(x, y);
    q, r := TruncDiv(x, y), TruncRem(x, y);
    hide TruncDiv, TruncRem;
    QuotientBounds(x, y, q, r);
    QuotientFits(t, x, y, q, r);
    FittingWraps(t, q);
    FittingWraps(t, r);
    hide WrapS8, WrapU8, WrapS16, WrapU16, WrapS32, WrapU32, WrapS64, WrapU64;
    OverIs(t, x, y);
  }

  lemma QuotientFits(t: PinType, x: int, y: int, q: int, r: int)
    requires IsInteger(t) && InRange(t, x) && InRange(t, y) && y != 0 && !QuotientOverflows(t, x, y)
    requires x == y * q + r && Abs(q) <= Abs(x) && Abs(r) <= Abs(x)
    requires (x >= 0 && y > 0 ==> q >= 0) && (x < 0 && y < -1 ==> q < -x) && Abs(r) < Abs(y) && (x >= 0 ==> r >= 0) && (x <= 0 ==> r <= 0)
    ensures InRange(t, q) && InRange(t, r)
  {
    if Signed(t) && q > 0 && x < 0 && y > 0 {
      Multiples(y, 1, q);
    }
  }

  lemma OverIs(t: PinType, x: int, y: int)
    requires IsInteger(t) && InRange(t, x) && InRange(t, y) && y != 0
    ensures Arith(Over, Of(t, x), Of(t, y)) == match t
              case PS8 => S8(WrapS8(TruncDiv(x, y)))
              case PU8 => U8(WrapU8(TruncDiv(x, y)))
              case PS16 => S16(WrapS16(TruncDiv(x, y)))
              case PU16 => U16(WrapU16(TruncDiv(x, y)))
              case PS32 => S32(WrapS32(TruncDiv(x, y)))
              case PU32 => U32(WrapU32(TruncDiv(x, y)))
              case PS64 => S64(WrapS64(TruncDiv(x, y)))
              case _ => U64(WrapU64(TruncDiv(x, y)))
    ensures Arith(Rem, Of(t, x), Of(t, y)) == match t
              case PS8 => S8(WrapS8(TruncRem(x, y)))
              case PU8 => U8(WrapU8(TruncRem(x, y)))
              case PS16 => S16(WrapS16(TruncRem(x, y)))
              case PU16 => U16(WrapU16(TruncRem(x, y)))
              case PS32 => S32(WrapS32(TruncRem(x, y)))
              case PU32 => U32(WrapU32(TruncRem(x, y)))
              case PS64 => S64(WrapS64(TruncRem(x, y)))
              case _ => U64(WrapU64(TruncRem(x, y)))
  {
    hide TruncDiv, TruncRem, WrapS8, WrapU8, WrapS16, WrapU16, WrapS32, WrapU32, WrapS64, WrapU64;
  }

  /** Dividing a DINT by zero gives zero; no other integer type gets that far. */
  lemma DintByZero(x: i32)
    ensures Arith(Over, S32(x), S32(0)) == S32(0) && Arith(Rem, S32(x), S32(0)) == S32(0)
  {
  }

  // ----- bits -----

  /** The bit of weight 2 to the i in the two's complement of `n`. */
  predicate Place(n: int, i: nat)
    decreases i
  {
    if i == 0 then n % 2 == 1 else Place(n / 2, i - 1)
  }

  lemma {:induction false} PlaceCongruent(a: int, b: int, q: int, w: nat, i: nat)
    requires i < w && a - b == q * Arrays.Pow2(w)
    ensures Place(a, i) == Place(b, i)
    decreases i
  {
    var p := q * Arrays.Pow2(w - 1);
    assert a == b + 2 * p;
    if i > 0 {
      assert a / 2 == b / 2 + p;
      PlaceCongruent(a / 2, b / 2, q, w - 1, i - 1);
    }
  }

  lemma {:induction false} PlaceIsShift(n: nat, i: nat)
    ensures Place(n, i) <==> Shift(n, i) % 2 == 1
  {
    if i > 0 {
      PlaceIsShift(n / 2, i - 1);
    }
  }

  lemma SizeIsPower(t: PinType)
    requires IsInteger(t)
    ensures Arrays.Pow2(Bits(t)) == Size(t)
  {
    hide Arrays.Pow2;
    PowerOfEight();
    Arrays.Pow2Double(8, 8);
    assert Arrays.Pow2(16) == 0x1_0000;
    Arrays.Pow2Double(16, 16);
    assert Arrays.Pow2(32) == 0x1_0000_0000;
    Arrays.Pow2Double(32, 32);
  }

  lemma PowerOfEight()
    ensures Arrays.Pow2(8) == 0x100
  {
    assert Arrays.Pow2(4) == 16;
  }

  /** Numbers congruent modulo the size of a type have the same bits in it. */
  lemma {:induction false} SamePlaces(t: PinType, a: int, b: int, i: nat)
    requires IsInteger(t) && i < Bits(t) && Congruent(a, b, Size(t))
    ensures Place(a, i) == Place(b, i)
  {
    SizeIsPower(t);
    var m := Size(t);
    assert a - b == m * ((a - b) / m);
    PlaceCongruent(a, b, (a - b) / m, Bits(t), i);
  }

  lemma RemainderCongruent(n: int, m: int)
    requires m > 0
    ensures Congruent(n % m, n, m)
  {
    ShiftedRemainder(n, 0, m);
  }

  /** A bitwise result, place by place, in terms of the operands as numbers. */
  lemma {:induction false} BitwisePlace(op: ArithOp, t: PinType, x: int, y: int, r: int, i: nat)
    requires IsInteger(t) && i < Bits(t)
    requires Congruent(r, Bitwise(op, x % Size(t), y % Size(t), Bits(t)), Size(t))
    ensures op == BitAnd ==> (Place(r, i) <==> Place(x, i) && Place(y, i))
    ensures op == BitOr ==> (Place(r, i) <==> Place(x, i) || Place(y, i))
    ensures op == BitXor ==> (Place(r, i) <==> Place(x, i) != Place(y, i))
  {
    hide Place, Bitwise, Congruent, Size, Bits, Shift;
    var m, a, b := Size(t), x % Size(t), y % Size(t);
    RemainderCongruent(x, m);
    RemainderCongruent(y, m);
    SamePlaces(t, a, x, i);
    SamePlaces(t, b, y, i);
    var all := Bitwise(op, a, b, Bits(t));
    SamePlaces(t, r, all, i);
    BitwiseBits(op, a, b, Bits(t), i);
    PlaceIsShift(a, i);
    PlaceIsShift(b, i);
    PlaceIsShift(all, i);
  }

  /** AND, OR and XOR of integers work place by place. */
  lemma BitLaws(t: PinType, x: int, y: int) returns (both: int, either: int, one: int)
    requires IsInteger(t) && InRange(t, x) && InRange(t, y)
    ensures InRange(t, both) && Arith(BitAnd, Of(t, x), Of(t, y)) == Of(t, both)
    ensures forall i :: 0 <= i < Bits(t) ==> (Place(both, i) <==> Place(x, i) && Place(y, i))
    ensures InRange(t, either) && Arith(BitOr, Of(t, x), Of(t, y)) == Of(t, either)
    ensures forall i :: 0 <= i < Bits(t) ==> (Place(either, i) <==> Place(x, i) || Place(y, i))
    ensures InRange(t, one) && Arith(BitXor, Of(t, x), Of(t, y)) == Of(t, one)
    ensures forall i :: 0 <= i < Bits(t) ==> (Place(one, i) <==> Place(x, i) != Place(y, i))
  {
    both := BitResult(BitAnd, t, x, y);
    either := BitResult(BitOr, t, x, y);
    one := BitResult(BitXor, t, x, y);
    hide Place, Bits, InRange, Arith, Of;
    forall i | 0 <= i < Bits(t)
      ensures Place(both, i) <==> Place(x, i) && Place(y, i)
      ensures Place(either, i) <==> Place(x, i) || Place(y, i)
      ensures Place(one, i) <==> Place(x, i) != Place(y, i)
    {
      BitwisePlace(BitAnd, t, x, y, both, i);
      BitwisePlace(BitOr, t, x, y, either, i);
      BitwisePlace(BitXor, t, x, y, one, i);
    }
  }

  lemma BitResult(op: ArithOp, t: PinType, x: int, y: int) returns (r: int)
    requires IsInteger(t) && InRange(t, x) && InRange(t, y) && op in {BitAnd, BitOr, BitXor}
    ensures InRange(t, r) && Arith(op, Of(t, x), Of(t, y)) == Of(t, r)
    ensures Congruent(r, Bitwise(op, x % Size(t), y % Size(t), Bits(t)), Size(t))
  {
    hide Congruent, Bitwise;
    r := Wraps(t, Bitwise(op, x % Size(t), y % Size(t), Bits(t)));
    hide WrapS8, WrapU8, WrapS16, WrapU16, WrapS32, WrapU32, WrapS64, WrapU64, InRange;
  }

  // ----- one operand -----

  lemma ComplementIs(t: PinType, x: int)
    requires IsInteger(t) && InRange(t, x)
    ensures var flipped := if Signed(t) then -1 - x else Size(t) - 1 - x;
            InRange(t, flipped) && Complement(Of(t, x)) == Of(t, flipped)
  {
    if Signed(t) {
    } else {
    }
  }

  lemma NegateIs(t: PinType, x: int) returns (negated: int)
    requires IsInteger(t) && InRange(t, x)
    ensures Signed(t) ==> InRange(t, negated) && Congruent(negated, -x, Size(t)) && Negate(Of(t, x)) == Of(t, negated)
    ensures !Signed(t) ==> Negate(Of(t, x)) == S32(0)
  {
    hide Congruent, InRange;
    negated := Wraps(t, 0 - x);
    hide WrapS8, WrapU8, WrapS16, WrapU16, WrapS32, WrapU32, WrapS64, WrapU64;
  }

  lemma FlippedPlaces(t: PinType, x: int, flipped: int)
    requires IsInteger(t) && flipped == if Signed(t) then -1 - x else Size(t) - 1 - x
    ensures forall i :: 0 <= i < Bits(t) ==> Place(flipped, i) != Place(x, i)
  {
    hide Congruent, Place, Size, Bits, Signed;
    forall i | 0 <= i < Bits(t)
      ensures Place(flipped, i) != Place(x, i)
    {
      FlippedPlace(x, i);
      CongruentBy(flipped, -1 - x, if Signed(t) then 0 else 1, Size(t));
      SamePlaces(t, flipped, -1 - x, i);
    }
  }

  /** NOT flips every bit: with its operand it adds up to all ones. Negation is congruent to the
      ordinary one on signed types, and zero on the others. */
  lemma UnaryLaws(t: PinType, x: int) returns (flipped: int, negated: int)
    requires IsInteger(t) && InRange(t, x)
    ensures InRange(t, flipped) && Complement(Of(t, x)) == Of(t, flipped)
    ensures x + flipped == if Signed(t) then -1 else Size(t) - 1
    ensures forall i :: 0 <= i < Bits(t) ==> Place(flipped, i) != Place(x, i)
    ensures Signed(t) ==> InRange(t, negated) && Congruent(negated, -x, Size(t)) && Negate(Of(t, x)) == Of(t, negated)
    ensures !Signed(t) ==> Negate(Of(t, x)) == S32(0)
  {
    hide *;
    flipped := if Signed(t) then -1 - x else Size(t) - 1 - x;
    ComplementIs(t, x);
    FlippedPlaces(t, x, flipped);
    negated := NegateIs(t, x);
  }

  lemma {:induction false} FlippedPlace(x: int, i: nat)
    ensures Place(-1 - x, i) != Place(x, i)
    decreases i
  {
    if i > 0 {
      assert (-1 - x) / 2 == -1 - x / 2;
      FlippedPlace(x / 2, i - 1);
    }
  }

  // ----- other types -----

  /** The kind of a value: its integer type, Boolean, one of two real types, or a container. */
  function Kind(v: Value): nat {
    match v
    case Bool(_) => 0
    case S8(_) => 1
    case U8(_) => 2
    case S16(_) => 3
    case U16(_) => 4
    case S32(_) => 5
    case U32(_) => 6
    case S64(_) => 7
    case U64(_) => 8
    case F32(_) => 9
    case F64(_) => 10
    case Blob(_) => 11
    case String(_) => 12
    case Array(_, _) => 13
  }

  /** Operands of different kinds, and containers, give S32(0) under every operator. */
  lemma MismatchGivesZero(op: ArithOp, a: Value, b: Value)
    requires Kind(a) != Kind(b) || Kind(a) > 10
    ensures Arith(op, a, b) == S32(0)
  {
    hide IntOp, RealOp, Op32, BoolOp;
  }

  /** Booleans have the three bitwise operators, as connectives, and NOT. */
  lemma BoolLaws(a: bool, b: bool)
    ensures Arith(BitAnd, Bool(a), Bool(b)) == Bool(a && b)
    ensures Arith(BitOr, Bool(a), Bool(b)) == Bool(a || b)
    ensures Arith(BitXor, Bool(a), Bool(b)) == Bool(a != b)
    ensures Complement(Bool(a)) == Bool(!a)
    ensures forall op :: op in {Plus, Minus, Times, Over, Rem} ==> Arith(op, Bool(a), Bool(b)) == S32(0)
  {
  }

  /** Reals: the four operations, and the remainder of the truncated quotient; dividing by zero gives S32(0). */
  lemma RealLaws(x: real, y: real) returns (q: real, k: int, r: real)
    ensures Arith(Plus, F64(x), F64(y)) == F64(x + y) && Arith(Plus, F32(x), F32(y)) == F32(x + y)
    ensures Arith(Minus, F64(x), F64(y)) == F64(x - y) && Arith(Minus, F32(x), F32(y)) == F32(x - y)
    ensures Arith(Times, F64(x), F64(y)) == F64(x * y) && Arith(Times, F32(x), F32(y)) == F32(x * y)
    ensures y == 0.0 ==> forall op :: op in {Over, Rem} ==> Arith(op, F64(x), F64(y)) == S32(0) && Arith(op, F32(x), F32(y)) == S32(0)
    ensures y != 0.0 ==> q * y == x && Arith(Over, F64(x), F64(y)) == F64(q) && Arith(Over, F32(x), F32(y)) == F32(q)
    ensures y != 0.0 ==> Arith(Rem, F64(x), F64(y)) == F64(r) && Arith(Rem, F32(x), F32(y)) == F32(r)
    ensures y != 0.0 ==> x == y * (k as real) + r && (if r < 0.0 then -r else r) < if y < 0.0 then -y else y
    ensures y != 0.0 ==> (x >= 0.0 ==> r >= 0.0) && (x <= 0.0 ==> r <= 0.0)
  {
    q, k, r := 0.0, 0, 0.0;
    if y != 0.0 {
      q := x / y;
      assert q * y == x;
      k, r := RealRemainder(x, y, q);
    }
    hide RealOp;
    RealOpIs(x, y);
  }

  lemma RealOpIs(x: real, y: real)
    ensures RealOp(Plus, x, y) == F64(x + y) && RealOp(Minus, x, y) == F64(x - y) && RealOp(Times, x, y) == F64(x * y)
    ensures y != 0.0 ==> RealOp(Over, x, y) == F64(x / y)
  {
  }

  lemma RemainderIs(x: real, y: real, q: real)
    requires y != 0.0 && q == x / y
    ensures RealOp(Rem, x, y) == F64(RealRest(x, y, q))
  {
    hide RealRest;
  }

  lemma RestIs(x: real, y: real, q: real)
    ensures RealRest(x, y, q) == x - y * (Truncate(q) as real)
  {
    hide Truncate;
  }

  lemma RealRemainder(x: real, y: real, q: real) returns (k: int, r: real)
    requires y != 0.0 && q == x / y && q * y == x
    ensures RealOp(Rem, x, y) == F64(r) && x == y * (k as real) + r
    ensures (if r < 0.0 then -r else r) < if y < 0.0 then -y else y
    ensures (x >= 0.0 ==> r >= 0.0) && (x <= 0.0 ==> r <= 0.0)
  {
    hide RealOp, Truncate, RealRest;
    k, r := Truncate(q), RealRest(x, y, q);
    RemainderIs(x, y, q);
    RestIs(x, y, q);
    TruncateBounds(q);
    var f := q - (k as real);
    if y > 0.0 {
      assert r == y * f;
      if q >= 0.0 {
        FractionOf(y, f, r);
        NotNegative(y, q, x);
      } else {
        assert -r == y * -f;
        FractionOf(y, -f, -r);
        NotNegative(y, -q, -x);
      }
    } else {
      assert -r == -y * f;
      if q >= 0.0 {
        FractionOf(-y, f, -r);
        NotNegative(-y, q, -x);
      } else {
        assert r == -y * -f;
        FractionOf(-y, -f, r);
        NotNegative(-y, -q, x);
      }
    }
  }

  lemma TruncateBounds(q: real)
    ensures var f := q - (Truncate(q) as real);
            if q >= 0.0 then 0.0 <= f < 1.0 && (q == 0.0 ==> f == 0.0) else -1.0 < f <= 0.0
  {
  }

  lemma FractionOf(y: real, f: real, r: real)
    requires y > 0.0 && 0.0 <= f < 1.0 && r == y * f
    ensures 0.0 <= r < y && (f == 0.0 ==> r == 0.0)
  {
    var g := 1.0 - f;
    RealSign(y, g);
    assert y * f + y * g == y;
    if f > 0.0 {
      RealSign(y, f);
    }
  }

  lemma NotNegative(y: real, q: real, x: real)
    requires y > 0.0 && q >= 0.0 && q * y == x
    ensures x >= 0.0 && (x == 0.0 ==> q == 0.0)
  {
    if q > 0.0 {
      RealSign(y, q);
    }
  }

  lemma RealSign(y: real, q: real)
    requires y > 0.0 && q > 0.0
    ensures y * q > 0.0
  {
  }

  // ----- comparisons -----

  /** Integers of one type compare as numbers. */
  lemma IntegersCompare(t: PinType, x: int, y: int)
    requires IsInteger(t) && InRange(t, x) && InRange(t, y)
    ensures Compare(CmpEq, Of(t, x), Of(t, y)) <==> x == y
    ensures Compare(CmpNeq, Of(t, x), Of(t, y)) <==> x != y
    ensures Compare(CmpGt, Of(t, x), Of(t, y)) <==> x > y
    ensures Compare(CmpLt, Of(t, x), Of(t, y)) <==> x < y
    ensures Compare(CmpGte, Of(t, x), Of(t, y)) <==> x >= y
    ensures Compare(CmpLte, Of(t, x), Of(t, y)) <==> x <= y
  {
  }

  /** Reals of one type compare as numbers. */
  lemma RealsCompare(x: real, y: real)
    ensures Compare(CmpEq, F64(x), F64(y)) <==> x == y
    ensures Compare(CmpNeq, F64(x), F64(y)) <==> x != y
    ensures Compare(CmpGt, F64(x), F64(y)) <==> x > y
    ensures Compare(CmpLt, F64(x), F64(y)) <==> x < y
    ensures Compare(CmpGte, F64(x), F64(y)) <==> x >= y
    ensures Compare(CmpLte, F64(x), F64(y)) <==> x <= y
    ensures forall op :: Compare(op, F32(x), F32(y)) == Compare(op, F64(x), F64(y))
  {
  }

  /** Any two values are equal or not; values of different kinds, Booleans and containers have no order. */
  lemma OthersCompare(a: Value, b: Value)
    ensures (Compare(CmpEq, a, b) <==> a == b) && (Compare(CmpNeq, a, b) <==> a != b)
    ensures Kind(a) != Kind(b) || Kind(a) == 0 || Kind(a) > 10 ==>
              forall op :: op in {CmpGt, CmpLt, CmpGte, CmpLte} ==> !Compare(op, a, b)
  {
    hide Compare;
    EqualCompare(a, b);
    if Kind(a) != Kind(b) || Kind(a) == 0 || Kind(a) > 10 {
      forall op | op in {CmpGt, CmpLt, CmpGte, CmpLte}
        ensures !Compare(op, a, b)
      {
        NoOrder(op, a, b);
      }
    }
  }

  lemma EqualCompare(a: Value, b: Value)
    ensures (Compare(CmpEq, a, b) <==> a == b) && (Compare(CmpNeq, a, b) <==> a != b)
  {
    hide CmpInt, CmpReal;
  }

  lemma NoOrder(op: CmpOp, a: Value, b: Value)
    requires op != CmpEq && op != CmpNeq && (Kind(a) != Kind(b) || Kind(a) == 0 || Kind(a) > 10)
    ensures !Compare(op, a, b)
  {
    hide CmpInt, CmpReal;
  }

  // ----- the instructions -----

  lemma ThreeOperands(vm: Vm, op: Opcode, a: u8, b: u8, c: u8)
    requires a < REGISTER_COUNT && b < REGISTER_COUNT && c < REGISTER_COUNT
    ensures var x, y := vm.regs[a], vm.regs[b];
            var r := Execute(vm, Instruction(op, [Register(a), Register(b), Register(c)]));
            && (op == Add ==> r == Running(vm.(regs := vm.regs[c := Arith(Plus, x, y)])))
            && (op == Sub ==> r == Running(vm.(regs := vm.regs[c := Arith(Minus, x, y)])))
            && (op == Mul ==> r == Running(vm.(regs := vm.regs[c := Arith(Times, x, y)])))
            && (op == And ==> r == Running(vm.(regs := vm.regs[c := Arith(BitAnd, x, y)])))
            && (op == Or ==> r == Running(vm.(regs := vm.regs[c := Arith(BitOr, x, y)])))
            && (op == Xor ==> r == Running(vm.(regs := vm.regs[c := Arith(BitXor, x, y)])))
  {
    hide Arith;
  }

  lemma DivisionOperands(vm: Vm, a: u8, b: u8, c: u8)
    requires a < REGISTER_COUNT && b < REGISTER_COUNT && c < REGISTER_COUNT
    ensures var x, y := vm.regs[a], vm.regs[b];
            var quotient := Execute(vm, Instruction(Div, [Register(a), Register(b), Register(c)]));
            var remainder := Execute(vm, Instruction(Mod, [Register(a), Register(b), Register(c)]));
            if DivideFault(Over, x, y) then quotient == remainder == Faulted(DivisionByZero)
            else if DivideOverflow(Over, x, y) then quotient == remainder == Faulted(DivisionOverflow)
            else
              && quotient == Running(vm.(regs := vm.regs[c := Arith(Over, x, y)]))
              && remainder == Running(vm.(regs := vm.regs[c := Arith(Rem, x, y)]))
  {
    hide Arith;
  }

  lemma WhenDivisionAborts(t: PinType, x: int, y: int)
    requires IsInteger(t) && InRange(t, x) && InRange(t, y)
    ensures DivideFault(Over, Of(t, x), Of(t, y)) <==> y == 0 && t != PS32
    ensures DivideOverflow(Over, Of(t, x), Of(t, y)) <==> QuotientOverflows(t, x, y)
  {
  }

  /** ADD, SUB and MUL on two registers of one integer type. */
  lemma RingInstructions(vm: Vm, a: u8, b: u8, c: u8, t: PinType, x: int, y: int) returns (sum: int, difference: int, product: int)
    requires a < REGISTER_COUNT && b < REGISTER_COUNT && c < REGISTER_COUNT
    requires IsInteger(t) && InRange(t, x) && InRange(t, y) && vm.regs[a] == Of(t, x) && vm.regs[b] == Of(t, y)
    ensures InRange(t, sum) && Congruent(sum, x + y, Size(t)) && InRange(t, difference) && Congruent(difference, x - y, Size(t))
    ensures InRange(t, product) && Congruent(product, x * y, Size(t))
    ensures Execute(vm, Instruction(Add, [Register(a), Register(b), Register(c)])) == Running(vm.(regs := vm.regs[c := Of(t, sum)]))
    ensures Execute(vm, Instruction(Sub, [Register(a), Register(b), Register(c)])) == Running(vm.(regs := vm.regs[c := Of(t, difference)]))
    ensures Execute(vm, Instruction(Mul, [Register(a), Register(b), Register(c)])) == Running(vm.(regs := vm.regs[c := Of(t, product)]))
  {
    hide *;
    sum, difference, product := RingLaws(t, x, y);
    ThreeOperands(vm, Add, a, b, c);
    ThreeOperands(vm, Sub, a, b, c);
    ThreeOperands(vm, Mul, a, b, c);
  }

  /** DIV and MOD: zero for a DINT divided by zero, an abort for other integers divided by zero and for
      a quotient that does not fit, and truncation toward zero otherwise. */
  lemma DivisionInstructions(vm: Vm, a: u8, b: u8, c: u8, t: PinType, x: int, y: int) returns (q: int, r: int)
    requires a < REGISTER_COUNT && b < REGISTER_COUNT && c < REGISTER_COUNT
    requires IsInteger(t) && InRange(t, x) && InRange(t, y) && vm.regs[a] == Of(t, x) && vm.regs[b] == Of(t, y)
    ensures var quotient := Execute(vm, Instruction(Div, [Register(a), Register(b), Register(c)]));
            var remainder := Execute(vm, Instruction(Mod, [Register(a), Register(b), Register(c)]));
            if y == 0 && t == PS32 then
              quotient == remainder == Running(vm.(regs := vm.regs[c := S32(0)]))
            else if y == 0 then
              quotient == remainder == Faulted(DivisionByZero)
            else if Signed(t) && 2 * x == -Size(t) && y == -1 then
              quotient == remainder == Faulted(DivisionOverflow)
            else
              && InRange(t, q) && quotient == Running(vm.(regs := vm.regs[c := Of(t, q)]))
              && InRange(t, r) && remainder == Running(vm.(regs := vm.regs[c := Of(t, r)]))
              && x == y * q + r && Abs(r) < Abs(y) && (x >= 0 ==> r >= 0) && (x <= 0 ==> r <= 0)
  {
    hide Arith, Execute, DivideFault, DivideOverflow, Abs, Size, Signed, InRange;
    DivisionOperands(vm, a, b, c);
    WhenDivisionAborts(t, x, y);
    if y == 0 {
      q, r := 0, 0;
      if t == PS32 {
        DintByZero(x);
      }
    } else if QuotientOverflows(t, x, y) {
      q, r := 0, 0;
    } else {
      q, r := QuotientLaws(t, x, y);
    }
  }

  /** AND, OR and XOR on two registers of one integer type. */
  lemma BitInstructions(vm: Vm, a: u8, b: u8, c: u8, t: PinType, x: int, y: int) returns (both: int, either: int, one: int)
    requires a < REGISTER_COUNT && b < REGISTER_COUNT && c < REGISTER_COUNT
    requires IsInteger(t) && InRange(t, x) && InRange(t, y) && vm.regs[a] == Of(t, x) && vm.regs[b] == Of(t, y)
    ensures InRange(t, both) && forall i :: 0 <= i < Bits(t) ==> (Place(both, i) <==> Place(x, i) && Place(y, i))
    ensures InRange(t, either) && forall i :: 0 <= i < Bits(t) ==> (Place(either, i) <==> Place(x, i) || Place(y, i))
    ensures InRange(t, one) && forall i :: 0 <= i < Bits(t) ==> (Place(one, i) <==> Place(x, i) != Place(y, i))
    ensures Execute(vm, Instruction(And, [Register(a), Register(b), Register(c)])) == Running(vm.(regs := vm.regs[c := Of(t, both)]))
    ensures Execute(vm, Instruction(Or, [Register(a), Register(b), Register(c)])) == Running(vm.(regs := vm.regs[c := Of(t, either)]))
    ensures Execute(vm, Instruction(Xor, [Register(a), Register(b), Register(c)])) == Running(vm.(regs := vm.regs[c := Of(t, one)]))
  {
    hide *;
    both, either, one := BitLaws(t, x, y);
    ThreeOperands(vm, And, a, b, c);
    ThreeOperands(vm, Or, a, b, c);
    ThreeOperands(vm, Xor, a, b, c);
  }

  /** The six comparisons on two registers of one integer type set the flag. */
  lemma ComparisonInstructions(vm: Vm, a: u8, b: u8, t: PinType, x: int, y: int)
    requires a < REGISTER_COUNT && b < REGISTER_COUNT
    requires IsInteger(t) && InRange(t, x) && InRange(t, y) && vm.regs[a] == Of(t, x) && vm.regs[b] == Of(t, y)
    ensures Execute(vm, Instruction(Eq, [Register(a), Register(b)])) == Running(vm.(flag := x == y))
    ensures Execute(vm, Instruction(Neq, [Register(a), Register(b)])) == Running(vm.(flag := x != y))
    ensures Execute(vm, Instruction(Gt, [Register(a), Register(b)])) == Running(vm.(flag := x > y))
    ensures Execute(vm, Instruction(Lt, [Register(a), Register(b)])) == Running(vm.(flag := x < y))
    ensures Execute(vm, Instruction(Gte, [Register(a), Register(b)])) == Running(vm.(flag := x >= y))
    ensures Execute(vm, Instruction(Lte, [Register(a), Register(b)])) == Running(vm.(flag := x <= y))
  {
    hide Compare, Of;
    IntegersCompare(t, x, y);
  }

  /** NOT and NEG from one register into another. */
  lemma UnaryInstructions(vm: Vm, a: u8, c: u8, t: PinType, x: int) returns (flipped: int, negated: int)
    requires a < REGISTER_COUNT && c < REGISTER_COUNT && IsInteger(t) && InRange(t, x) && vm.regs[a] == Of(t, x)
    ensures InRange(t, flipped) && x + flipped == if Signed(t) then -1 else Size(t) - 1
    ensures Execute(vm, Instruction(Not, [Register(a), Register(c)])) == Running(vm.(regs := vm.regs[c := Of(t, flipped)]))
    ensures if Signed(t) then
              && InRange(t, negated) && Congruent(negated, -x, Size(t))
              && Execute(vm, Instruction(Neg, [Register(a), Register(c)])) == Running(vm.(regs := vm.regs[c := Of(t, negated)]))
            else Execute(vm, Instruction(Neg, [Register(a), Register(c)])) == Running(vm.(regs := vm.regs[c := S32(0)]))
  {
    flipped, negated := UnaryLaws(t, x);
    hide Complement, Negate, Of, Place, Congruent, InRange, Size;
  }
}

/**
 What the machine's instructions other than operators do, written out for their operands:
 moves between registers and signals, elements of arrays, jumps, calls and returns.
 */
module Instructions {
  import opened Values
  import opened Scalars
  import opened Arrays
  import opened Machine
  import opened Operators

  // ----- elements of integer arrays -----

  /** The number that one, two, four or eight bytes spell, lowest first. */
  function Spelled(b: seq<int>): int
    requires |b| in {1, 2, 4, 8}
  {
    if |b| == 1 then b[0]
    else if |b| == 2 then b[0] + 0x100 * b[1]
    else if |b| == 4 then b[0] + 0x100 * b[1] + 0x1_0000 * b[2] + 0x100_0000 * b[3]
    else
      b[0] + 0x100 * b[1] + 0x1_0000 * b[2] + 0x100_0000 * b[3]
      + 0x1_0000_0000 * b[4] + 0x100_0000_0000 * b[5] + 0x1_0000_0000_0000 * b[6] + 0x100_0000_0000_0000 * b[7]
  }

  lemma {:induction false} TwoBytes(b: Bytes, rest: Bytes)
    requires |b| == 2
    ensures FromLe(b + rest) == b[0] + 0x100 * b[1] + 0x1_0000 * FromLe(rest)
  {
    assert (b + rest)[1..] == [b[1]] + rest;
    assert ([b[1]] + rest)[1..] == rest;
    assert FromLe(b + rest) == b[0] + 256 * FromLe([b[1]] + rest);
    assert FromLe([b[1]] + rest) == b[1] + 256 * FromLe(rest);
  }

  lemma {:induction false} FourBytes(b: Bytes, rest: Bytes)
    requires |b| == 4
    ensures FromLe(b + rest) == b[0] + 0x100 * b[1] + 0x1_0000 * b[2] + 0x100_0000 * b[3] + 0x1_0000_0000 * FromLe(rest)
  {
    hide FromLe;
    TwoBytes(b[..2], b[2..] + rest);
    TwoBytes(b[2..], rest);
    assert b[..2] + (b[2..] + rest) == b + rest;
  }

  lemma {:induction false} SpelledIs(b: Bytes)
    requires |b| in {1, 2, 4, 8}
    ensures FromLe(b) == Spelled(b)
  {
    var none: Bytes := [];
    assert FromLe(none) == 0;
    assert b + none == b;
    if |b| == 1 {
      assert b[1..] == none;
    } else if |b| == 2 {
      TwoBytes(b, none);
    } else if |b| == 4 {
      FourBytes(b, none);
    } else {
      assert b == b[..4] + b[4..] && b[4..] == b[4..] + none;
      FourBytes(b[..4], b[4..]);
      FourBytes(b[4..], none);
    }
  }

  lemma SpelledFits(b: Bytes)
    requires |b| in {1, 2, 4, 8}
    ensures |b| == 1 ==> Spelled(b) < 0x100
    ensures |b| == 2 ==> Spelled(b) < 0x1_0000
    ensures |b| == 4 ==> Spelled(b) < 0x1_0000_0000
    ensures |b| == 8 ==> Spelled(b) < 0x1_0000_0000_0000_0000
  {
  }

  lemma Widths(t: PinType)
    requires IsInteger(t)
    ensures ByteSize(t) == Bits(t) / 8 && Bits(t) / 8 in {1, 2, 4, 8} && Width(PinTag(t)) == Bits(t) / 8 && PinTag(t) <= 10
  {
  }

  lemma {:induction false} SignedReading(t: PinType, b: Bytes)
    requires t in {PS8, PS16, PS32, PS64} && |b| == Bits(t) / 8 && FromLe(b) < Size(t)
    ensures var u, m := FromLe(b), Size(t);
            var n := if 2 * u >= m then u - m else u;
            InRange(t, n) && Element(t, b) == Of(t, n)
  {
    hide FromLe;
  }

  lemma {:induction false} UnsignedReading(t: PinType, b: Bytes)
    requires t in {PU8, PU16, PU32, PU64} && |b| == Bits(t) / 8 && FromLe(b) < Size(t)
    ensures InRange(t, FromLe(b)) && Element(t, b) == Of(t, FromLe(b))
  {
    hide FromLe, ToSigned;
  }

  lemma Reading(t: PinType, b: Bytes) returns (n: int)
    requires IsInteger(t) && |b| == Bits(t) / 8
    ensures InRange(t, n) && Element(t, b) == Of(t, n) && Congruent(n, Spelled(b), Size(t))
  {
    hide Spelled, FromLe, Width, Congruent, Element, Of, InRange;
    Widths(t);
    SpelledIs(b);
    SpelledFits(b);
    var u, m := Spelled(b), Size(t);
    if Signed(t) {
      SignedReading(t, b);
      n := if 2 * u >= m then u - m else u;
    } else {
      UnsignedReading(t, b);
      n := u;
    }
    hide Size;
    CongruentBy(n, u, if n == u then 0 else -1, m);
  }

  lemma Wrapped(n: nat)
    ensures n < 0x1_0000_0000_0000_0000 ==> WrapU64(n) == n
  {
  }

  lemma AtLeast(i: nat, w: nat)
    requires w > 0
    ensures i <= i * w && (i + 1) * w == i * w + w
  {
    assert i * w == i + i * (w - 1);
  }

  /** Where the bytes of an element lie, while its end is below the 64-bit limit. */
  lemma PlaceOf(t: PinType, data: Bytes, i: nat)
    requires IsInteger(t) && (i + 1) * (Bits(t) / 8) < 0x1_0000_0000_0000_0000
    ensures i < TWO_64 && Offset(t, i) == i * (Bits(t) / 8)
    ensures Locate(t, data, i) == if (i + 1) * (Bits(t) / 8) <= |data| then Inside else Past
  {
    var w := Bits(t) / 8;
    Widths(t);
    AtLeast(i, w);
    hide Bits, ByteSize, IsInteger;
    Wrapped(i * w);
    Wrapped(i * w + w);
    hide WrapU64;
    assert Offset(t, i) == i * w;
  }

  /** Element `i` of an integer array is the number its bytes spell, two's complement for signed types;
      past the end it is zero. */
  lemma ElementOf(t: PinType, data: Bytes, i: nat) returns (n: int)
    requires IsInteger(t) && (i + 1) * (Bits(t) / 8) < 0x1_0000_0000_0000_0000
    ensures i < TWO_64 && InRange(t, n) && Index(Array(t, data), i) == Got(Of(t, n))
    ensures var w := Bits(t) / 8;
            if (i + 1) * w <= |data| then w in {1, 2, 4, 8} && Congruent(n, Spelled(data[i * w..(i + 1) * w]), Size(t)) else n == 0
  {
    hide Spelled, Element, Congruent, Locate, Offset, ByteSize;
    var w := Bits(t) / 8;
    Widths(t);
    PlaceOf(t, data, i);
    if (i + 1) * w <= |data| {
      assert (i + 1) * w == i * w + w;
      n := Reading(t, data[i * w..(i + 1) * w]);
    } else {
      n := 0;
      ZeroOf(t);
    }
  }

  lemma ZeroOf(t: PinType)
    requires IsInteger(t)
    ensures InRange(t, 0) && Zero(t) == Of(t, 0)
  {
  }

  /** Storing a number of the element type spells it in the bytes of that element and changes no other byte. */
  lemma StoredElement(t: PinType, data: Bytes, i: nat, x: int) returns (after: Bytes)
    requires IsInteger(t) && InRange(t, x) && (i + 1) * (Bits(t) / 8) <= |data| < 0x1_0000_0000_0000_0000
    ensures i < TWO_64 && SetIndex(Array(t, data), i, Of(t, x)) == Got(Array(t, after)) && |after| == |data|
    ensures var w := Bits(t) / 8;
            && w in {1, 2, 4, 8} && Congruent(x, Spelled(after[i * w..(i + 1) * w]), Size(t))
            && forall j :: 0 <= j < |data| && !(i * w <= j < (i + 1) * w) ==> after[j] == data[j]
  {
    hide Spelled, Index, SetIndex, ElementBytes, Congruent, Locate, Offset, ByteSize, Of;
    PlaceOf(t, data, i);
    Plain(t, x);
    StoreThenLoad(Array(t, data), i, Of(t, x));
    Splice(t, data, i, Of(t, x));
    after := SetIndex(Array(t, data), i, Of(t, x)).value.data;
    var n := ElementOf(t, after, i);
    SameNumber(t, x, n);
  }

  lemma Plain(t: PinType, x: int)
    requires IsInteger(t) && InRange(t, x)
    ensures var v := Of(t, x); TypeTag(v) == t && !v.Array? && !v.Blob? && !v.String? && Exact(v)
  {
  }

  lemma SameNumber(t: PinType, x: int, n: int)
    requires IsInteger(t) && InRange(t, x) && InRange(t, n) && Of(t, x) == Of(t, n)
    ensures x == n
  {
  }

  lemma Splice(t: PinType, data: Bytes, i: nat, v: Value)
    requires IsInteger(t) && (i + 1) * (Bits(t) / 8) <= |data| && i < TWO_64 && SetIndex(Array(t, data), i, v).Got?
    requires Offset(t, i) == i * (Bits(t) / 8) && Locate(t, data, i) == Inside
    ensures var r := SetIndex(Array(t, data), i, v).value;
            && r.Array? && r.element == t && |r.data| == |data|
            && forall j :: 0 <= j < |data| && !(i * (Bits(t) / 8) <= j < (i + 1) * (Bits(t) / 8)) ==> r.data[j] == data[j]
  {
    hide ElementBytes, Locate, Offset;
    Widths(t);
    var w := Bits(t) / 8;
    assert (i + 1) * w == i * w + w;
  }

  /** Integers index by their value, negative ones by it modulo 2 to the 64; other values by zero. */
  lemma IndexOf(t: PinType, n: int)
    requires IsInteger(t) && InRange(t, n)
    ensures AsIndex(Of(t, n)) == if n >= 0 then n else n + 0x1_0000_0000_0000_0000
  {
  }

  lemma NoIndex(b: bool, x: real)
    ensures AsIndex(Bool(b)) == AsIndex(F32(x)) == AsIndex(F64(x)) == 0
  {
  }

  // ----- instructions -----

  lemma LoadIndexRuns(vm: Vm, d: u8, a: u8, i: u8)
    requires d < 16 && a < 16 && i < 16
    ensures Execute(vm, Instruction(LoadIndex, [Register(d), Register(a), Register(i)]))
         == match Index(vm.regs[a], AsIndex(vm.regs[i]))
            case Got(v) => Running(vm.(regs := vm.regs[d := v]))
            case BadSlice => Faulted(SliceOutOfRange)
  {
    hide Index, AsIndex;
  }

  lemma StoreIndexRuns(vm: Vm, a: u8, i: u8, s: u8)
    requires a < 16 && i < 16 && s < 16
    ensures Execute(vm, Instruction(StoreIndex, [Register(a), Register(i), Register(s)]))
         == match SetIndex(vm.regs[a], AsIndex(vm.regs[i]), vm.regs[s])
            case Got(v) => Running(vm.(regs := vm.regs[a := v]))
            case BadSlice => Faulted(SliceOutOfRange)
  {
    hide SetIndex, AsIndex;
  }

  /** The first operand of LoadIndex receives the element of the second at the index in the third. */
  lemma LoadElement(vm: Vm, d: u8, a: u8, i: u8, t: PinType, data: Bytes, u: PinType, k: nat) returns (n: int)
    requires d < 16 && a < 16 && i < 16 && IsInteger(t) && IsInteger(u) && InRange(u, k)
    requires vm.regs[a] == Array(t, data) && vm.regs[i] == Of(u, k) && (k + 1) * (Bits(t) / 8) < 0x1_0000_0000_0000_0000
    ensures InRange(t, n)
    ensures Execute(vm, Instruction(LoadIndex, [Register(d), Register(a), Register(i)])) == Running(vm.(regs := vm.regs[d := Of(t, n)]))
    ensures var w := Bits(t) / 8;
            if (k + 1) * w <= |data| then w in {1, 2, 4, 8} && Congruent(n, Spelled(data[k * w..(k + 1) * w]), Size(t)) else n == 0
  {
    hide Index, AsIndex, Execute, Spelled, Congruent, Of;
    IndexOf(u, k);
    n := ElementOf(t, data, k);
    LoadIndexRuns(vm, d, a, i);
  }

  /** StoreIndex changes the array in its first operand at the index in the second to the value in the third. */
  lemma StoreElement(vm: Vm, a: u8, i: u8, s: u8, t: PinType, data: Bytes, u: PinType, k: nat, x: int) returns (after: Bytes)
    requires a < 16 && i < 16 && s < 16 && IsInteger(t) && IsInteger(u) && InRange(u, k) && InRange(t, x)
    requires vm.regs[a] == Array(t, data) && vm.regs[i] == Of(u, k) && vm.regs[s] == Of(t, x)
    requires (k + 1) * (Bits(t) / 8) <= |data| < 0x1_0000_0000_0000_0000
    ensures |after| == |data|
    ensures Execute(vm, Instruction(StoreIndex, [Register(a), Register(i), Register(s)])) == Running(vm.(regs := vm.regs[a := Array(t, after)]))
    ensures var w := Bits(t) / 8;
            && w in {1, 2, 4, 8} && Congruent(x, Spelled(after[k * w..(k + 1) * w]), Size(t))
            && forall j :: 0 <= j < |data| && !(k * w <= j < (k + 1) * w) ==> after[j] == data[j]
  {
    hide SetIndex, AsIndex, Execute, Spelled, Congruent, Of;
    IndexOf(u, k);
    after := StoredElement(t, data, k, x);
    StoreIndexRuns(vm, a, i, s);
  }

  /** Loads take a literal, a register or a signal, which is FALSE while unset; stores write a register to a signal. */
  lemma Moves(vm: Vm, r: u8, s: u8, v: Value, x: string)
    requires r < 16 && s < 16
    ensures Execute(vm, Instruction(Load, [Register(r), Immediate(v)])) == Running(vm.(regs := vm.regs[r := v]))
    ensures Execute(vm, Instruction(Load, [Register(r), Register(s)])) == Running(vm.(regs := vm.regs[r := vm.regs[s]]))
    ensures Execute(vm, Instruction(Load, [Register(r), SignalName(x)]))
         == Running(vm.(regs := vm.regs[r := if x in vm.signals then vm.signals[x] else Bool(false)]))
    ensures Execute(vm, Instruction(Store, [SignalName(x), Register(r)])) == Running(vm.(signals := vm.signals[x := vm.regs[r]]))
  {
  }

  /** Jumps go to their operand, a conditional one only on the flag; a call also notes the next place. */
  lemma Jumps(p: Program, vm: Vm, t: u32)
    requires vm.ip < |p|
    ensures p[vm.ip] == Instruction(Jump, [Immediate(U32(t))]) ==> Step(p, vm) == Running(vm.(ip := t))
    ensures p[vm.ip] == Instruction(JumpIf, [Immediate(U32(t))]) ==> Step(p, vm) == Running(vm.(ip := if vm.flag then t else vm.ip + 1))
    ensures p[vm.ip] == Instruction(Call, [Immediate(U32(t))]) ==> Step(p, vm) == Running(vm.(ip := t, calls := vm.calls + [vm.ip + 1]))
  {
  }

  lemma Stops(p: Program, vm: Vm)
    requires vm.ip < |p|
    ensures p[vm.ip] == Instruction(Halt, []) ==> Step(p, vm) == Halted(vm.(ip := vm.ip + 1))
    ensures p[vm.ip] == Instruction(Nop, []) ==> Step(p, vm) == Running(vm.(ip := vm.ip + 1))
  {
  }

  /** A return ends the program when nothing is noted, and otherwise goes one place behind the last noted
      one; with an operand it also copies that register to r0. */
  lemma Returns(p: Program, vm: Vm, r: u8)
    requires vm.ip < |p| && r < 16 && p[vm.ip].opcode == Ret && p[vm.ip].operands in [[], [Register(r)]]
    ensures vm.calls == [] ==> Step(p, vm) == Halted(vm.(ip := vm.ip + 1))
    ensures vm.calls != [] ==>
              var after := vm.(ip := vm.calls[|vm.calls| - 1] + 1, calls := vm.calls[..|vm.calls| - 1]);
              Step(p, vm) == Running(if p[vm.ip].operands == [] then after else after.(regs := vm.regs[0 := vm.regs[r]]))
  {
  }

  /** Outside the program and outside the sixteen registers the machine aborts. */
  lemma OutOfRange(p: Program, vm: Vm, r: u8, s: u8, v: Value)
    ensures vm.ip >= |p| ==> Step(p, vm) == Faulted(IpOutOfBounds)
    ensures r >= 16 ==> Execute(vm, Instruction(Load, [Register(r), Immediate(v)])) == Faulted(RegisterOutOfBounds)
    ensures s >= 16 ==> Execute(vm, Instruction(Load, [Register(r), Register(s)])) == Faulted(RegisterOutOfBounds)
    ensures s >= 16 ==> Execute(vm, Instruction(Add, [Register(r), Register(s), Register(0)])) == Faulted(RegisterOutOfBounds)
  {
  }
}

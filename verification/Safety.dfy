/**
 A static condition under which no run of a program, from any machine state and of
 any length, leaves the program or the register file.
 */
module Safety {
  import opened Values
  import opened Blocks
  import opened Machine
  import Arrays

  predicate RegistersInRange(inst: Instruction) {
    forall i :: 0 <= i < |inst.operands| ==> Readable(inst.operands[i])
  }

  /** A jump has a proper target, and it lies below `n`. */
  predicate JumpsBelow(inst: Instruction, n: nat) {
    inst.opcode == Jump || inst.opcode == JumpIf ==>
      |inst.operands| > 0 && IsIndex(inst.operands[0]) && inst.operands[0].v.u32 < n
  }

  /** No array with elements in it. */
  predicate NoElements(v: Value) { v.Array? ==> v.data == [] }

  predicate PlainImmediates(inst: Instruction) {
    forall i :: 0 <= i < |inst.operands| && inst.operands[i].Immediate? ==> NoElements(inst.operands[i].v)
  }

  predicate SafeInstruction(inst: Instruction, n: nat) {
    RegistersInRange(inst) && JumpsBelow(inst, n) && PlainImmediates(inst) && inst.opcode != Call && inst.opcode != Ret
  }

  predicate SafeCode(code: seq<Instruction>, n: nat) {
    forall i :: 0 <= i < |code| ==> SafeInstruction(code[i], n)
  }

  predicate SafeProgram(p: Program) {
    |p| > 0 && p[|p| - 1] == HALT && SafeCode(p, |p|)
  }

  /** Faults an instruction can raise although its registers exist. */
  predicate MayRaise(op: Opcode, f: Fault) {
    match f
    case IpOutOfBounds => false
    case RegisterOutOfBounds => false
    case DivisionByZero => op == Div || op == Mod
    case DivisionOverflow => op == Div || op == Mod
    case SliceOutOfRange => op == LoadIndex || op == StoreIndex
  }

  predicate SomeRaises(p: Program, f: Fault) { exists i :: 0 <= i < |p| && MayRaise(p[i].opcode, f) }

  /** An instruction on existing registers cannot miss a register, and moves the pointer only by jumping. */
  lemma ExecuteSafe(vm: Vm, inst: Instruction)
    requires RegistersInRange(inst) && inst.opcode != Call && inst.opcode != Ret
    ensures Execute(vm, inst).Faulted? ==> MayRaise(inst.opcode, Execute(vm, inst).fault)
    ensures Execute(vm, inst).Running? && !IsJump(inst.opcode) ==> Execute(vm, inst).vm.ip == vm.ip
    ensures Execute(vm, inst).Halted? ==> inst.opcode == Halt
  {
    if inst.opcode in {TimerRun, ReadTimer, CounterRun, ReadCounter, SrRun, ReadSr, EdgeRun, ReadEdge} {
      hide TimerScan, CounterScan, BistableScan, EdgeScan, Grow;
    } else {
      hide Execute;
      PlainSafe(vm, inst);
    }
  }

  lemma PlainSafe(vm: Vm, inst: Instruction)
    requires RegistersInRange(inst) && inst.opcode != Call && inst.opcode != Ret
    requires inst.opcode !in {TimerRun, ReadTimer, CounterRun, ReadCounter, SrRun, ReadSr, EdgeRun, ReadEdge}
    ensures Execute(vm, inst).Faulted? ==> MayRaise(inst.opcode, Execute(vm, inst).fault)
    ensures Execute(vm, inst).Running? && !IsJump(inst.opcode) ==> Execute(vm, inst).vm.ip == vm.ip
    ensures Execute(vm, inst).Halted? ==> inst.opcode == Halt
  {
    hide Arith, Compare, Complement, Negate, Arrays.Index, Arrays.SetIndex, Arrays.AsIndex;
  }

  lemma StepSafe(p: Program, vm: Vm)
    requires SafeProgram(p) && vm.ip < |p|
    ensures Step(p, vm).Running? ==> Step(p, vm).vm.ip < |p|
    ensures Step(p, vm).Faulted? ==> MayRaise(p[vm.ip].opcode, Step(p, vm).fault)
  {
    hide Execute;
    var inst := p[vm.ip];
    assert SafeInstruction(inst, |p|);
    if inst.opcode == Jump || inst.opcode == JumpIf {
      JumpSafe(vm, inst, |p|);
      assert inst != HALT;
    } else {
      ExecuteSafe(vm, inst);
      if vm.ip == |p| - 1 {
        HaltStops(vm);
      }
    }
  }

  lemma HaltStops(vm: Vm)
    ensures Execute(vm, HALT) == Halted(vm)
  {
  }

  lemma JumpSafe(vm: Vm, inst: Instruction, n: nat)
    requires SafeInstruction(inst, n) && (inst.opcode == Jump || inst.opcode == JumpIf)
    ensures Execute(vm, inst).Running? && (Execute(vm, inst).vm.ip < n || Execute(vm, inst).vm.ip == vm.ip + 1)
    ensures inst.opcode == Jump ==> Execute(vm, inst).vm.ip < n
  {
  }

  /** No run of a safe program trips the bounds checks on instructions or registers; it aborts only
      on a division or an array access of its own. */
  lemma {:induction false} SafeRun(p: Program, vm: Vm, k: nat)
    requires SafeProgram(p) && vm.ip < |p|
    ensures Run(p, vm, k).Running? ==> Run(p, vm, k).vm.ip < |p|
    ensures Run(p, vm, k).Faulted? ==> SomeRaises(p, Run(p, vm, k).fault)
    decreases k
  {
    hide Step;
    if k > 0 {
      StepSafe(p, vm);
      if Step(p, vm).Running? {
        SafeRun(p, Step(p, vm).vm, k - 1);
      }
    }
  }

  // ----- arrays -----

  /** Neither a register nor a signal holds an array with elements. */
  ghost predicate ArrayFree(vm: Vm) {
    && (forall r :: 0 <= r < REGISTER_COUNT ==> NoElements(vm.regs[r]))
    && (forall x :: x in vm.signals ==> NoElements(vm.signals[x]))
  }

  lemma OperatorsMakeNoArrays(op: ArithOp, a: Value, b: Value)
    ensures NoElements(Arith(op, a, b)) && NoElements(Negate(a)) && NoElements(Complement(a))
  {
    hide Op32, IntOp;
  }

  lemma ElementsAreNoArrays(v: Value, i: u64)
    ensures Arrays.Index(v, i).Got? ==> !Arrays.Index(v, i).value.Array?
  {
    hide Arrays.RealOf, Arrays.Locate;
  }

  /** An array without elements cannot be stored into. */
  lemma EmptyArrayKept(v: Value, i: u64, x: Value)
    requires NoElements(v)
    ensures Arrays.SetIndex(v, i, x).Got? ==> Arrays.SetIndex(v, i, x).value == v
  {
    hide Arrays.ElementBytes;
  }

  lemma LoadKeepsArrayFree(vm: Vm, inst: Instruction)
    requires ArrayFree(vm) && PlainImmediates(inst) && ExecLoad(vm, inst.operands).Running?
    ensures ArrayFree(ExecLoad(vm, inst.operands).vm)
  {
    hide NoElements;
    NoElementsBasics();
  }

  lemma IndexKeepsArrayFree(vm: Vm, ops: seq<Operand>)
    requires ArrayFree(vm)
    ensures ExecLoadIndex(vm, ops).Running? ==> ArrayFree(ExecLoadIndex(vm, ops).vm)
    ensures ExecStoreIndex(vm, ops).Running? ==> ArrayFree(ExecStoreIndex(vm, ops).vm)
  {
    hide Arrays.Index, Arrays.SetIndex, Arrays.AsIndex, NoElements;
    if ThreeRegisters(ops) && Readable(ops[0]) && Readable(ops[1]) && Readable(ops[2]) {
      var v, i := vm.regs[ops[1].r], Arrays.AsIndex(vm.regs[ops[2].r]);
      ElementsAreNoArrays(v, i);
      NoElementsUnlessArray(Arrays.Index(v, i));
      EmptyArrayKept(vm.regs[ops[0].r], Arrays.AsIndex(v), vm.regs[ops[2].r]);
    }
  }

  lemma ArithKeepsArrayFree(vm: Vm, op: ArithOp, complement: bool, ops: seq<Operand>)
    requires ArrayFree(vm)
    ensures ExecArith(vm, op, ops).Running? ==> ArrayFree(ExecArith(vm, op, ops).vm)
    ensures ExecUnary(vm, complement, ops).Running? ==> ArrayFree(ExecUnary(vm, complement, ops).vm)
  {
    hide Arith, Negate, Complement, DivideFault, DivideOverflow, NoElements;
    if |ops| >= 2 && Readable(ops[0]) && Readable(ops[1]) {
      OperatorsMakeNoArrays(op, ReadReg(vm, ops[0]), ReadReg(vm, ops[1]));
    }
  }

  lemma WriteKeepsArrayFree(vm: Vm, inst: Instruction)
    requires ArrayFree(vm) && PlainImmediates(inst) && Execute(vm, inst).Running?
    requires inst.opcode in {Load, LoadIndex, StoreIndex, Add, Sub, Mul, Div, Mod, And, Or, Xor, Neg, Not}
    ensures ArrayFree(Execute(vm, inst).vm)
  {
    hide ExecLoad, ExecLoadIndex, ExecStoreIndex, ExecArith, ExecUnary, ArrayFree, PlainImmediates;
    var ops := inst.operands;
    match inst.opcode
    case Load => LoadKeepsArrayFree(vm, inst);
    case LoadIndex => IndexKeepsArrayFree(vm, ops);
    case StoreIndex => IndexKeepsArrayFree(vm, ops);
    case Add => ArithKeepsArrayFree(vm, Plus, false, ops);
    case Sub => ArithKeepsArrayFree(vm, Minus, false, ops);
    case Mul => ArithKeepsArrayFree(vm, Times, false, ops);
    case Div => ArithKeepsArrayFree(vm, Over, false, ops);
    case Mod => ArithKeepsArrayFree(vm, Rem, false, ops);
    case And => ArithKeepsArrayFree(vm, BitAnd, false, ops);
    case Or => ArithKeepsArrayFree(vm, BitOr, false, ops);
    case Xor => ArithKeepsArrayFree(vm, BitXor, false, ops);
    case Neg => ArithKeepsArrayFree(vm, Plus, false, ops);
    case Not => ArithKeepsArrayFree(vm, Plus, true, ops);
  }

  lemma NoElementsBasics()
    ensures forall b :: NoElements(Bool(b))
    ensures forall n :: NoElements(U32(n))
    ensures NoElements(S32(0))
  {
  }

  lemma NoElementsUnlessArray(a: Arrays.Access)
    requires a.Got? ==> !a.value.Array?
    ensures a.Got? ==> NoElements(a.value)
  {
  }

  lemma OtherKeepsArrayFree(vm: Vm, inst: Instruction)
    requires ArrayFree(vm) && Execute(vm, inst).Running? && inst.opcode != Ret
    requires inst.opcode !in {Load, LoadIndex, StoreIndex, Add, Sub, Mul, Div, Mod, And, Or, Xor, Neg, Not}
    ensures ArrayFree(Execute(vm, inst).vm)
  {
    hide TimerScan, CounterScan, BistableScan, EdgeScan, Compare, Grow, NoElements;
    NoElementsBasics();
  }

  lemma StepKeepsArrayFree(p: Program, vm: Vm)
    requires ArrayFree(vm) && SafeProgram(p) && vm.ip < |p| && Step(p, vm).Running?
    ensures ArrayFree(Step(p, vm).vm)
  {
    var inst := p[vm.ip];
    assert SafeInstruction(inst, |p|);
    hide Execute;
    if inst.opcode in {Load, LoadIndex, StoreIndex, Add, Sub, Mul, Div, Mod, And, Or, Xor, Neg, Not} {
      WriteKeepsArrayFree(vm, inst);
    } else {
      OtherKeepsArrayFree(vm, inst);
    }
  }

  /** A run of a safe program that starts without array elements never gets any. */
  lemma {:induction false} RunKeepsArrayFree(p: Program, vm: Vm, k: nat)
    requires SafeProgram(p) && vm.ip < |p| && ArrayFree(vm)
    ensures Run(p, vm, k).Running? ==> ArrayFree(Run(p, vm, k).vm)
    decreases k
  {
    hide Step, ArrayFree;
    if k > 0 && Step(p, vm).Running? {
      StepSafe(p, vm);
      StepKeepsArrayFree(p, vm);
      RunKeepsArrayFree(p, Step(p, vm).vm, k - 1);
    }
  }
}

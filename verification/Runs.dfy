/**
 Code placed in a program, and single steps of the machine as runs of length one:
 what the correctness proofs of all code generators share.
 */
module Runs {
  import opened Values
  import opened Machine

  // ----- code in place -----

  predicate CodeAt(p: Program, at: nat, code: seq<Instruction>) {
    at + |code| <= |p| && p[at..at + |code|] == code
  }

  lemma CodeSplit(p: Program, at: nat, a: seq<Instruction>, b: seq<Instruction>)
    requires CodeAt(p, at, a + b)
    ensures CodeAt(p, at, a) && CodeAt(p, at + |a|, b)
  {
    assert (a + b)[..|a|] == a && (a + b)[|a|..] == b;
  }

  lemma CodeSplit3(p: Program, at: nat, a: seq<Instruction>, b: seq<Instruction>, c: seq<Instruction>)
    requires CodeAt(p, at, a + b + c)
    ensures CodeAt(p, at, a) && CodeAt(p, at + |a|, b) && CodeAt(p, at + |a| + |b|, c)
  {
    hide CodeAt;
    CodeSplit(p, at, a + b, c);
    CodeSplit(p, at, a, b);
  }

  lemma CodeSplit5(p: Program, at: nat, a: seq<Instruction>, b: seq<Instruction>, c: seq<Instruction>, d: seq<Instruction>, e: seq<Instruction>)
    requires CodeAt(p, at, a + b + c + d + e)
    ensures CodeAt(p, at, a) && CodeAt(p, at + |a|, b) && CodeAt(p, at + |a| + |b|, c)
    ensures CodeAt(p, at + |a| + |b| + |c|, d) && CodeAt(p, at + |a| + |b| + |c| + |d|, e)
  {
    hide CodeAt;
    CodeSplit3(p, at, a + b + c, d, e);
    CodeSplit3(p, at, a, b, c);
  }

  lemma CodeBound(p: Program, at: nat, code: seq<Instruction>)
    requires CodeAt(p, at, code)
    ensures at + |code| <= |p|
  {
  }

  lemma InstructionAt(p: Program, at: nat, code: seq<Instruction>, i: nat)
    requires CodeAt(p, at, code) && i < |code|
    ensures at + i < |p| && p[at + i] == code[i]
  {
    assert p[at..at + |code|][i] == p[at + i];
  }

  // ----- single steps -----

  lemma ReachesZero(p: Program, vm: Vm)
    ensures Reaches(p, vm, 0, vm)
  {
  }

  lemma StepOne(p: Program, vm: Vm, mid: Vm)
    requires vm.ip < |p| && !IsJump(p[vm.ip].opcode) && Execute(vm, p[vm.ip]) == Running(mid) && mid.ip == vm.ip
    ensures Reaches(p, vm, 1, AdvanceIp(mid))
  {
    hide Execute;
  }

  lemma StepLoadImm(p: Program, vm: Vm, r: u8, v: Value)
    requires vm.ip < |p| && p[vm.ip] == LoadImm(r, v) && r < REGISTER_COUNT
    ensures Reaches(p, vm, 1, AdvanceIp(SetReg(vm, r, v)))
  {
  }

  lemma StepJump(p: Program, vm: Vm, t: nat)
    requires vm.ip < |p| && p[vm.ip] == JumpTo(t) && t < TWO_32
    ensures Reaches(p, vm, 1, vm.(ip := t))
  {
  }

  lemma StepJumpIf(p: Program, vm: Vm, t: nat)
    requires vm.ip < |p| && p[vm.ip] == JumpIfTo(t) && t < TWO_32
    ensures Reaches(p, vm, 1, vm.(ip := if vm.flag then t else vm.ip + 1))
  {
  }

  lemma StepStore(p: Program, vm: Vm, x: string, r: u8)
    requires vm.ip < |p| && p[vm.ip] == StoreSignal(x, r) && r < REGISTER_COUNT
    ensures Reaches(p, vm, 1, AdvanceIp(vm.(signals := vm.signals[x := vm.regs[r]])))
  {
  }

  lemma HaltStep(p: Program, vm: Vm)
    requires vm.ip < |p| && p[vm.ip] == HALT
    ensures Run(p, vm, 1) == Halted(AdvanceIp(vm))
  {
  }
}

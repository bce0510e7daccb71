/**
 Register discipline of expression code: executing it writes the destination and
 scratch registers that were free, never the register of another variable.
 */
module StScratch {
  import opened Values
  import opened Blocks
  import opened Machine
  import opened Runs
  import opened Safety
  import opened StSafety
  import Arrays
  import opened StSyntax
  import opened StCode

  /** Operand positions through which the straight-line instructions of expressions write. */
  predicate WritesThrough(inst: Instruction, i: nat) {
    match inst.opcode
    case Load => i == 0
    case LoadIndex => i == 0
    case Not => i == 1
    case ReadSr => i == 1 || i == 2
    case ReadTimer => i == 1 || i == 2
    case ReadEdge => i == 1
    case Eq => false
    case Neq => false
    case Gt => false
    case Lt => false
    case Gte => false
    case Lte => false
    case JumpIf => false
    case _ => i == 2
  }

  predicate MayWrite(inst: Instruction, r: u8) {
    exists i :: 0 <= i < |inst.operands| && WritesThrough(inst, i) && inst.operands[i] == Register(r)
  }

  /** Opcodes that occur in the code of expressions. */
  predicate ExprOpcode(op: Opcode) {
    op in {Load, LoadIndex, Add, Sub, Mul, Div, Mod, And, Or, Xor, Not, Eq, Neq, Gt, Lt, Gte, Lte, JumpIf, ReadSr, ReadTimer, ReadEdge}
  }

  /** Every operand an instruction writes through is a register. */
  predicate WritesRegisters(inst: Instruction) {
    forall i :: 0 <= i < |inst.operands| && WritesThrough(inst, i) ==> inst.operands[i].Register?
  }

  /** An instruction changes no register but the ones it may write. */
  lemma ExecuteWrites(vm: Vm, inst: Instruction, r: u8)
    requires ExprOpcode(inst.opcode) && WritesRegisters(inst)
    requires r < REGISTER_COUNT && !MayWrite(inst, r) && Execute(vm, inst).Running?
    ensures Execute(vm, inst).vm.regs[r] == vm.regs[r] && Execute(vm, inst).vm.signals == vm.signals
  {
    var ops := inst.operands;
    if |ops| > 0 { assert ops[0] == Register(r) ==> !WritesThrough(inst, 0); }
    if |ops| > 1 { assert ops[1] == Register(r) ==> !WritesThrough(inst, 1); }
    if |ops| > 2 { assert ops[2] == Register(r) ==> !WritesThrough(inst, 2); }
    if inst.opcode in {ReadSr, ReadTimer, ReadEdge} {
      hide Grow;
    } else {
      hide Execute, WritesRegisters;
      PlainWrites(vm, inst, r);
    }
  }

  lemma PlainWrites(vm: Vm, inst: Instruction, r: u8)
    requires ExprOpcode(inst.opcode) && inst.opcode !in {ReadSr, ReadTimer, ReadEdge} && WritesRegisters(inst)
    requires r < REGISTER_COUNT && Execute(vm, inst).Running?
    requires forall i :: 0 <= i < |inst.operands| && i < 3 && inst.operands[i] == Register(r) ==> !WritesThrough(inst, i)
    ensures Execute(vm, inst).vm.regs[r] == vm.regs[r] && Execute(vm, inst).vm.signals == vm.signals
  {
    hide Arith, DivideFault, DivideOverflow, Compare, Complement, Arrays.Index, Arrays.AsIndex;
  }

  /** Register `r` is the destination or a scratch register free at depth `d`. */
  predicate Allowed(r: nat, dest: u8, d: nat) {
    r == dest || (r == Scratch(0) && d <= 0) || (r == Scratch(1) && d <= 1) || (r == Scratch(2) && d <= 2)
  }

  predicate Disciplined(inst: Instruction, dest: u8, d: nat) {
    && ExprOpcode(inst.opcode) && WritesRegisters(inst)
    && forall i :: 0 <= i < |inst.operands| && WritesThrough(inst, i) ==> Allowed(inst.operands[i].r, dest, d)
  }

  predicate DisciplinedCode(code: seq<Instruction>, dest: u8, d: nat) {
    forall i :: 0 <= i < |code| ==> Disciplined(code[i], dest, d)
  }

  /** Code for a scratch operand, one level deeper, is disciplined at this level too. */
  lemma Weaken(code: seq<Instruction>, dest: u8, inner: u8, d: nat, d': nat)
    requires DisciplinedCode(code, inner, d') && d <= d' && Allowed(inner, dest, d)
    ensures DisciplinedCode(code, dest, d)
  {
    forall i | 0 <= i < |code|
      ensures Disciplined(code[i], dest, d)
    {
      assert Disciplined(code[i], inner, d');
    }
  }

  lemma Concat(a: seq<Instruction>, b: seq<Instruction>, c: seq<Instruction>, dest: u8, d: nat)
    requires DisciplinedCode(a, dest, d) && DisciplinedCode(b, dest, d) && DisciplinedCode(c, dest, d)
    ensures DisciplinedCode(a + b + c, dest, d)
  {
    hide Disciplined;
  }

  lemma {:induction false} ExprWritesOnlyDestAndFreeScratch(env: Env, e: Expr, dest: u8, d: nat, base: nat)
    requires ExprVerdict(env, e, d) == Accepted
    ensures DisciplinedCode(ExprCode(env, e, dest, d, base), dest, d)
    decreases e
  {
    hide ExprCode, ExprSize, DisciplinedCode, Disciplined, ExprVerdict;
    match e
    case Binary(l, op, r) =>
      if IsCmpOp(op) {
        ComparisonVerdict(env, e, d);
        ComparisonCode(env, e, dest, d, base);
        var rs := ExprSize(env, r, Scratch(d), d + 1);
        var rc, lc := ExprCode(env, r, Scratch(d), d + 1, base), ExprCode(env, l, Scratch(d + 1), d + 2, base + rs);
        ExprWritesOnlyDestAndFreeScratch(env, r, Scratch(d), d + 1, base);
        ExprWritesOnlyDestAndFreeScratch(env, l, Scratch(d + 1), d + 2, base + rs);
        Weaken(rc, dest, Scratch(d), d, d + 1);
        Weaken(lc, dest, Scratch(d + 1), d, d + 2);
        ComparisonTail(op, dest, d, base + ExprSize(env, e, dest, d));
        Concat(rc, lc, [Regs2(CmpOpcode(op), Scratch(d + 1), Scratch(d)), LoadImm(dest, Bool(false)),
                        JumpIfTo(base + ExprSize(env, e, dest, d)), LoadImm(dest, Bool(true))], dest, d);
      } else {
        OperatorVerdict(env, e, d);
        OperatorCode(env, e, dest, d, base);
        var d' := if IsArithOp(op) then d else d + 1;
        var mid := base + ExprSize(env, l, dest, d');
        var lc, rc := ExprCode(env, l, dest, d', base), ExprCode(env, r, Scratch(d), d + 1, mid);
        ExprWritesOnlyDestAndFreeScratch(env, l, dest, d', base);
        ExprWritesOnlyDestAndFreeScratch(env, r, Scratch(d), d + 1, mid);
        Weaken(lc, dest, dest, d, d');
        Weaken(rc, dest, Scratch(d), d, d + 1);
        OperatorTail(op, dest, d);
        Concat(lc, rc, [Arith3(ArithOpcode(op), dest, Scratch(d), dest)], dest, d);
      }
    case Unary(_, inner) =>
      UnaryVerdict(env, e, d);
      ExprWritesOnlyDestAndFreeScratch(env, inner, dest, d, base);
      UnaryDisciplined(env, e, dest, d, base);
    case ArrayAccess(x, i) =>
      AccessCode(env, e, dest, d, base);
      var c := ExprCode(env, i, Scratch(d), d + 1, base);
      ExprWritesOnlyDestAndFreeScratch(env, i, Scratch(d), d + 1, base);
      Weaken(c, dest, Scratch(d), d, d + 1);
      AccessTail(dest, RegOf(env, x), d);
      Concat(c, [ElementLoad(dest, RegOf(env, x), Scratch(d))], [], dest, d);
      assert c + [ElementLoad(dest, RegOf(env, x), Scratch(d))] + [] == c + [ElementLoad(dest, RegOf(env, x), Scratch(d))];
    case _ =>
      LeafDisciplined(env, e, dest, d, base);
  }

  lemma AccessTail(dest: u8, a: u8, d: nat)
    ensures DisciplinedCode([ElementLoad(dest, a, Scratch(d))], dest, d) && DisciplinedCode([], dest, d)
  {
  }

  lemma UnaryVerdict(env: Env, e: Expr, d: nat)
    requires e.Unary? && ExprVerdict(env, e, d) == Accepted
    ensures ExprVerdict(env, e.inner, d) == Accepted
  {
  }

  lemma UnaryDisciplined(env: Env, e: Expr, dest: u8, d: nat, base: nat)
    requires e.Unary? && ExprVerdict(env, e, d) == Accepted
    requires DisciplinedCode(ExprCode(env, e.inner, dest, d, base), dest, d)
    ensures DisciplinedCode(ExprCode(env, e, dest, d, base), dest, d)
  {
  }

  lemma LeafDisciplined(env: Env, e: Expr, dest: u8, d: nat, base: nat)
    requires !e.Binary? && !e.Unary? && !e.ArrayAccess? && ExprVerdict(env, e, d) == Accepted
    ensures DisciplinedCode(ExprCode(env, e, dest, d, base), dest, d)
  {
  }

  lemma OperatorTail(op: BinOp, dest: u8, d: nat)
    ensures DisciplinedCode([Arith3(ArithOpcode(op), dest, Scratch(d), dest)], dest, d)
  {
  }

  lemma ComparisonTail(op: BinOp, dest: u8, d: nat, t: nat)
    ensures DisciplinedCode([Regs2(CmpOpcode(op), Scratch(d + 1), Scratch(d)), LoadImm(dest, Bool(false)), JumpIfTo(t), LoadImm(dest, Bool(true))], dest, d)
  {
  }

  /** No instruction of an expression writes the register of a variable other than its destination. */
  lemma NeverAliasesVariables(env: Env, e: Expr, dest: u8, d: nat, base: nat, x: string, i: nat)
    requires ValidEnv(env) && ExprVerdict(env, e, d) == Accepted && x in env.registers && env.registers[x] != dest
    requires i < ExprSize(env, e, dest, d)
    ensures !MayWrite(ExprCode(env, e, dest, d, base)[i], env.registers[x])
  {
    hide ExprCode, ExprSize;
    ExprWritesOnlyDestAndFreeScratch(env, e, dest, d, base);
    assert Disciplined(ExprCode(env, e, dest, d, base)[i], dest, d);
  }

  // ----- runs -----

  /** Jumps in code at `base` lead forward, and to `end` at most. */
  predicate Forward(code: seq<Instruction>, base: nat, end: nat) {
    forall i :: 0 <= i < |code| && code[i].opcode == JumpIf ==> exists t: nat :: code[i] == JumpIfTo(t) && base + i < t <= end
  }

  lemma ForwardConcat(a: seq<Instruction>, b: seq<Instruction>, base: nat, end: nat)
    requires Forward(a, base, end) && Forward(b, base + |a|, end)
    ensures Forward(a + b, base, end)
  {
    forall i | 0 <= i < |a + b| && (a + b)[i].opcode == JumpIf
      ensures exists t: nat :: (a + b)[i] == JumpIfTo(t) && base + i < t <= end
    {
      if i >= |a| {
        assert b[i - |a|].opcode == JumpIf;
      }
    }
  }

  lemma ForwardLonger(code: seq<Instruction>, base: nat, end: nat, far: nat)
    requires Forward(code, base, end) && end <= far
    ensures Forward(code, base, far)
  {
  }

  lemma NoJumpsForward(code: seq<Instruction>, base: nat, end: nat)
    requires forall i :: 0 <= i < |code| ==> code[i].opcode != JumpIf
    ensures Forward(code, base, end)
  {
  }

  lemma {:induction false} ExprJumpsForward(env: Env, e: Expr, dest: u8, d: nat, base: nat)
    ensures Forward(ExprCode(env, e, dest, d, base), base, base + ExprSize(env, e, dest, d))
    decreases e
  {
    hide *;
    var end := base + ExprSize(env, e, dest, d);
    match e
    case Binary(l, op, r) =>
      if IsCmpOp(op) {
        ComparisonCode(env, e, dest, d, base);
        var mid := base + ExprSize(env, r, Scratch(d), d + 1);
        var rc, lc := ExprCode(env, r, Scratch(d), d + 1, base), ExprCode(env, l, Scratch(d + 1), d + 2, mid);
        ExprJumpsForward(env, r, Scratch(d), d + 1, base);
        ExprJumpsForward(env, l, Scratch(d + 1), d + 2, mid);
        ForwardLonger(rc, base, mid, end);
        ForwardLonger(lc, mid, mid + |lc|, end);
        ForwardConcat(rc, lc, base, end);
        ComparisonTailForward(op, dest, d, end);
        ForwardConcat(rc + lc, [Regs2(CmpOpcode(op), Scratch(d + 1), Scratch(d)), LoadImm(dest, Bool(false)), JumpIfTo(end), LoadImm(dest, Bool(true))], base, end);
      } else {
        OperatorCode(env, e, dest, d, base);
        var d' := if IsArithOp(op) then d else d + 1;
        var mid := base + ExprSize(env, l, dest, d');
        var lc, rc := ExprCode(env, l, dest, d', base), ExprCode(env, r, Scratch(d), d + 1, mid);
        ExprJumpsForward(env, l, dest, d', base);
        ExprJumpsForward(env, r, Scratch(d), d + 1, mid);
        ForwardLonger(lc, base, mid, end);
        ForwardLonger(rc, mid, mid + |rc|, end);
        ForwardConcat(lc, rc, base, end);
        OperatorTailForward(op, dest, d, end - 1, end);
        ForwardConcat(lc + rc, [Arith3(ArithOpcode(op), dest, Scratch(d), dest)], base, end);
      }
    case Unary(uop, inner) =>
      UnaryShape(env, e, dest, d, base);
      var code := ExprCode(env, inner, dest, d, base);
      ExprJumpsForward(env, inner, dest, d, base);
      ForwardLonger(code, base, base + |code|, end);
      UnaryTailForward(uop, dest, d, base + |code|, end);
      ForwardConcat(code, UnaryTail(uop, dest, d), base, end);
    case ArrayAccess(x, i) =>
      AccessCode(env, e, dest, d, base);
      var code := ExprCode(env, i, Scratch(d), d + 1, base);
      ExprJumpsForward(env, i, Scratch(d), d + 1, base);
      ForwardLonger(code, base, base + |code|, end);
      AccessTailForward(dest, RegOf(env, x), d, base + |code|, end);
      ForwardConcat(code, [ElementLoad(dest, RegOf(env, x), Scratch(d))], base, end);
    case _ =>
      LeafForward(env, e, dest, d, base);
  }

  function UnaryTail(op: UnaryOp, dest: u8, d: nat): seq<Instruction> {
    if op == UNeg then [LoadImm(Scratch(d), S32(0)), Arith3(Sub, Scratch(d), dest, dest)] else [Arith3(Not, dest, dest, dest)]
  }

  lemma UnaryShape(env: Env, e: Expr, dest: u8, d: nat, base: nat)
    requires e.Unary?
    ensures ExprCode(env, e, dest, d, base) == ExprCode(env, e.inner, dest, d, base) + UnaryTail(e.uop, dest, d)
    ensures ExprSize(env, e, dest, d) == ExprSize(env, e.inner, dest, d) + |UnaryTail(e.uop, dest, d)|
  {
  }

  lemma UnaryTailForward(op: UnaryOp, dest: u8, d: nat, base: nat, end: nat)
    ensures Forward(UnaryTail(op, dest, d), base, end)
  {
    NoJumpsForward(UnaryTail(op, dest, d), base, end);
  }

  lemma OperatorTailForward(op: BinOp, dest: u8, d: nat, base: nat, end: nat)
    ensures Forward([Arith3(ArithOpcode(op), dest, Scratch(d), dest)], base, end)
  {
    NoJumpsForward([Arith3(ArithOpcode(op), dest, Scratch(d), dest)], base, end);
  }

  lemma AccessTailForward(dest: u8, a: u8, d: nat, base: nat, end: nat)
    ensures Forward([ElementLoad(dest, a, Scratch(d))], base, end)
  {
    NoJumpsForward([ElementLoad(dest, a, Scratch(d))], base, end);
  }

  lemma ComparisonTailForward(op: BinOp, dest: u8, d: nat, end: nat)
    requires end >= 4
    ensures Forward([Regs2(CmpOpcode(op), Scratch(d + 1), Scratch(d)), LoadImm(dest, Bool(false)), JumpIfTo(end), LoadImm(dest, Bool(true))], end - 4, end)
  {
  }

  lemma LeafForward(env: Env, e: Expr, dest: u8, d: nat, base: nat)
    requires !e.Binary? && !e.Unary? && !e.ArrayAccess?
    ensures Forward(ExprCode(env, e, dest, d, base), base, base + ExprSize(env, e, dest, d))
  {
    NoJumpsForward(ExprCode(env, e, dest, d, base), base, base + ExprSize(env, e, dest, d));
  }

  /** Only the destination and scratch registers free at depth `d` differ. */
  ghost predicate KeepsOthers(vm: Vm, out: Vm, dest: u8, d: nat) {
    && out.signals == vm.signals
    && forall r: u8 :: r < REGISTER_COUNT && !Allowed(r, dest, d) ==> out.regs[r] == vm.regs[r]
  }

  lemma KeepsTrans(a: Vm, b: Vm, c: Vm, dest: u8, d: nat)
    requires KeepsOthers(a, b, dest, d) && KeepsOthers(b, c, dest, d)
    ensures KeepsOthers(a, c, dest, d)
  {
  }

  /** One instruction of disciplined code whose registers exist. */
  lemma StepKeeps(p: Program, vm: Vm, dest: u8, d: nat, end: nat)
    requires vm.ip < end < TWO_32 && vm.ip < |p| && Disciplined(p[vm.ip], dest, d) && RegistersInRange(p[vm.ip])
    requires Forward([p[vm.ip]], vm.ip, end)
    ensures var r := Step(p, vm);
            match r
            case Running(next) => vm.ip < next.ip <= end && KeepsOthers(vm, next, dest, d)
            case Halted(_) => false
            case Faulted(f) => MayRaise(p[vm.ip].opcode, f)
  {
    hide *;
    var inst := p[vm.ip];
    if inst.opcode == JumpIf {
      JumpStepKeeps(p, vm, dest, d, end);
    } else {
      DisciplinedParts(inst, dest, d);
      StepIs(p, vm);
      ExecuteSafe(vm, inst);
      if Execute(vm, inst).Running? {
        ExecuteKeeps(vm, inst, dest, d);
        AdvancedKeeps(vm, Execute(vm, inst).vm, dest, d);
      }
    }
  }

  lemma JumpStepKeeps(p: Program, vm: Vm, dest: u8, d: nat, end: nat)
    requires vm.ip < end < TWO_32 && vm.ip < |p| && p[vm.ip].opcode == JumpIf && Forward([p[vm.ip]], vm.ip, end)
    ensures Step(p, vm).Running? && vm.ip < Step(p, vm).vm.ip <= end && KeepsOthers(vm, Step(p, vm).vm, dest, d)
  {
    assert [p[vm.ip]][0].opcode == JumpIf;
    var t: nat :| p[vm.ip] == JumpIfTo(t) && vm.ip < t <= end;
  }

  lemma DisciplinedParts(inst: Instruction, dest: u8, d: nat)
    requires Disciplined(inst, dest, d) && inst.opcode != JumpIf
    ensures ExprOpcode(inst.opcode) && WritesRegisters(inst) && !IsJump(inst.opcode) && inst.opcode != Ret && inst.opcode != Halt
  {
  }

  lemma StepIs(p: Program, vm: Vm)
    requires vm.ip < |p| && !IsJump(p[vm.ip].opcode)
    ensures Step(p, vm) == match Execute(vm, p[vm.ip])
                           case Running(next) => Running(AdvanceIp(next))
                           case Halted(last) => Halted(AdvanceIp(last))
                           case Faulted(f) => Faulted(f)
  {
    hide Execute;
  }

  lemma AdvancedKeeps(vm: Vm, next: Vm, dest: u8, d: nat)
    requires KeepsOthers(vm, next, dest, d) && next.ip == vm.ip
    ensures KeepsOthers(vm, AdvanceIp(next), dest, d) && AdvanceIp(next).ip == vm.ip + 1
  {
  }

  lemma WritesAllowed(inst: Instruction, dest: u8, d: nat, r: u8)
    requires Disciplined(inst, dest, d) && !Allowed(r, dest, d)
    ensures !MayWrite(inst, r)
  {
    hide WritesThrough;
  }

  lemma ExecuteKeeps(vm: Vm, inst: Instruction, dest: u8, d: nat)
    requires Disciplined(inst, dest, d) && inst.opcode != JumpIf && Execute(vm, inst).Running?
    ensures KeepsOthers(vm, Execute(vm, inst).vm, dest, d)
  {
    hide Execute, WritesThrough;
    var out := Execute(vm, inst).vm;
    ExecuteSignals(vm, inst);
    forall r: u8 | r < REGISTER_COUNT && !Allowed(r, dest, d)
      ensures out.regs[r] == vm.regs[r]
    {
      WritesAllowed(inst, dest, d, r);
      ExecuteWrites(vm, inst, r);
    }
  }

  lemma ExecuteSignals(vm: Vm, inst: Instruction)
    requires ExprOpcode(inst.opcode) && Execute(vm, inst).Running?
    ensures Execute(vm, inst).vm.signals == vm.signals
  {
    hide Arith, DivideFault, DivideOverflow, Compare, Complement, Grow, Arrays.Index, Arrays.AsIndex;
  }

  /** Disciplined forward code, entered anywhere, is left at its end or by a fault of one of its own instructions. */
  lemma {:induction false} CodeRunsThrough(p: Program, code: seq<Instruction>, base: nat, vm: Vm, dest: u8, d: nat) returns (k: nat)
    requires CodeAt(p, base, code) && base <= vm.ip <= base + |code| < TWO_32
    requires DisciplinedCode(code, dest, d) && SafeCode(code, |p| + 1) && Forward(code, base, base + |code|)
    ensures k <= base + |code| - vm.ip
    ensures match Run(p, vm, k)
            case Running(out) => out.ip == base + |code| && KeepsOthers(vm, out, dest, d)
            case Halted(_) => false
            case Faulted(f) => SomeRaises(code, f)
    decreases base + |code| - vm.ip
  {
    hide *;
    var end := base + |code|;
    if vm.ip == end {
      KeepsItself(vm, dest, d);
      ReachesZero(p, vm);
      ReachesIs(p, vm, 0, vm);
      k := 0;
    } else {
      var i := vm.ip - base;
      InstructionAt(p, base, code, i);
      InstructionOk(code, base, i, dest, d, |p| + 1);
      StepKeeps(p, vm, dest, d, end);
      RunOne(p, vm);
      if Step(p, vm).Faulted? {
        RaisesAt(code, i, Step(p, vm).fault);
        k := 1;
      } else {
        var next := Step(p, vm).vm;
        k := CodeRunsThrough(p, code, base, next, dest, d);
        RunMore(p, vm, k);
        if Run(p, next, k).Running? {
          KeepsTrans(vm, next, Run(p, next, k).vm, dest, d);
        }
        k := k + 1;
      }
    }
  }

  lemma KeepsItself(vm: Vm, dest: u8, d: nat)
    ensures KeepsOthers(vm, vm, dest, d)
  {
  }

  lemma ReachesIs(p: Program, vm: Vm, k: nat, out: Vm)
    ensures Reaches(p, vm, k, out) <==> Run(p, vm, k) == Running(out)
  {
  }

  lemma InstructionOk(code: seq<Instruction>, base: nat, i: nat, dest: u8, d: nat, n: nat)
    requires i < |code| && DisciplinedCode(code, dest, d) && SafeCode(code, n) && Forward(code, base, base + |code|)
    ensures Disciplined(code[i], dest, d) && RegistersInRange(code[i]) && Forward([code[i]], base + i, base + |code|)
  {
    hide Disciplined;
    assert SafeInstruction(code[i], n);
    if code[i].opcode == JumpIf {
      var t: nat :| code[i] == JumpIfTo(t) && base + i < t <= base + |code|;
    }
  }

  lemma RaisesAt(code: seq<Instruction>, i: nat, f: Fault)
    requires i < |code| && MayRaise(code[i].opcode, f)
    ensures SomeRaises(code, f)
  {
  }

  lemma RunOne(p: Program, vm: Vm)
    ensures Run(p, vm, 1) == Step(p, vm)
  {
    hide Step;
  }

  lemma RunMore(p: Program, vm: Vm, k: nat)
    requires Step(p, vm).Running?
    ensures Run(p, vm, k + 1) == Run(p, Step(p, vm).vm, k)
  {
    hide Step;
  }

  /** Evaluating an expression of any type, from any machine state, ends after at most as many steps
      as it has instructions, and every other variable's register and all signals are as before;
      or it aborts on one of its own divisions or array accesses. */
  lemma EvaluationKeepsVariables(p: Program, env: Env, e: Expr, dest: u8, d: nat, vm: Vm) returns (k: nat)
    requires ValidEnv(env) && ExprVerdict(env, e, d) == Accepted && dest < REGISTER_COUNT
    requires CodeAt(p, vm.ip, ExprCode(env, e, dest, d, vm.ip)) && |p| < TWO_32
    ensures k <= ExprSize(env, e, dest, d)
    ensures match Run(p, vm, k)
            case Running(out) =>
              && out.ip == vm.ip + ExprSize(env, e, dest, d) && out.signals == vm.signals
              && (forall x :: x in env.registers && env.registers[x] != dest ==> out.regs[env.registers[x]] == vm.regs[env.registers[x]])
            case Halted(_) => false
            case Faulted(f) => SomeRaises(ExprCode(env, e, dest, d, vm.ip), f)
  {
    hide *;
    var base, code := vm.ip, ExprCode(env, e, dest, d, vm.ip);
    CodeBound(p, base, code);
    ExprWritesOnlyDestAndFreeScratch(env, e, dest, d, base);
    ExprJumpsForward(env, e, dest, d, base);
    ExprSafe(env, e, dest, d, base, |p| + 1);
    k := CodeRunsThrough(p, code, base, vm, dest, d);
    if Run(p, vm, k).Running? {
      VariablesKept(env, vm, Run(p, vm, k).vm, dest, d);
    }
  }

  lemma VariablesKept(env: Env, vm: Vm, out: Vm, dest: u8, d: nat)
    requires ValidEnv(env) && KeepsOthers(vm, out, dest, d)
    ensures out.signals == vm.signals
    ensures forall x :: x in env.registers && env.registers[x] != dest ==> out.regs[env.registers[x]] == vm.regs[env.registers[x]]
  {
    forall x | x in env.registers && env.registers[x] != dest
      ensures out.regs[env.registers[x]] == vm.regs[env.registers[x]]
    {
      assert !Allowed(env.registers[x], dest, d);
    }
  }
}

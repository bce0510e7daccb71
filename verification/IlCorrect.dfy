/**
 Forward simulation of Instruction List by its compiled code, over runs of any
 length: every IL step is matched by as many machine steps as its code has
 instructions, and the machine halts exactly when the IL program reaches its end.
 */
module IlCorrect {
  import opened Values
  import opened Machine
  import opened Runs
  import opened Safety
  import opened IlCode

  /** An IL machine: statement counter, accumulator and signal table. */
  datatype Il = Il(pc: nat, acc: Value, signals: map<string, Value>)

  /** Statements the compiler translates faithfully. */
  predicate Core(s: IlStmt) {
    match s
    case Load(_) => true
    case LoadNot(_) => true
    case Store(_) => true
    case And(_) => true
    case AndNot(_) => true
    case Jump(_) => true
    case JumpIf(_) => true
    case JumpIfNot(_) => true
    case Invert => true
    case Label(_) => true
    case _ => false
  }

  predicate CoreProgram(stmts: seq<IlStmt>) {
    && (forall i :: 0 <= i < |stmts| ==> Core(stmts[i]))
    && |VarOrder(stmts)| <= USER_REGISTERS
    && JumpsFit(stmts)
  }

  predicate Jumping(s: IlStmt) { s.Jump? || s.JumpIf? || s.JumpIfNot? }

  /** Jump targets are 32-bit; a program without jumps may have any length. */
  predicate JumpsFit(stmts: seq<IlStmt>) {
    |IlProgram(stmts)| < TWO_32 || forall i :: 0 <= i < |stmts| ==> !Jumping(stmts[i])
  }

  function SignalOf(signals: map<string, Value>, x: string): Value {
    if x in signals then signals[x] else Bool(false)
  }

  function IlStep(stmts: seq<IlStmt>, s: Il): (r: Il)
    requires s.pc < |stmts|
    ensures r.pc <= |stmts|
  {
    match stmts[s.pc]
    case Load(x) => s.(pc := s.pc + 1, acc := SignalOf(s.signals, x))
    case LoadNot(x) => s.(pc := s.pc + 1, acc := Complement(SignalOf(s.signals, x)))
    case Store(x) => s.(pc := s.pc + 1, signals := s.signals[x := s.acc])
    case And(x) => s.(pc := s.pc + 1, acc := Arith(BitAnd, s.acc, SignalOf(s.signals, x)))
    case AndNot(x) => s.(pc := s.pc + 1, acc := Arith(BitAnd, s.acc, Complement(SignalOf(s.signals, x))))
    case Invert => s.(pc := s.pc + 1, acc := Complement(s.acc))
    case Jump(l) => s.(pc := LabelIndex(stmts, l))
    case JumpIf(l) => s.(pc := if s.acc == Bool(true) then LabelIndex(stmts, l) else s.pc + 1)
    case JumpIfNot(l) => s.(pc := if s.acc != Bool(true) then LabelIndex(stmts, l) else s.pc + 1)
    case _ => s.(pc := s.pc + 1)
  }

  /** `n` IL steps, or fewer when the program ends earlier. */
  function IlRun(stmts: seq<IlStmt>, s: Il, n: nat): Il
    requires s.pc <= |stmts|
    decreases n
  {
    if n == 0 || s.pc == |stmts| then s else IlRun(stmts, IlStep(stmts, s), n - 1)
  }

  /** Machine instructions executed by those IL steps. */
  function IlCost(stmts: seq<IlStmt>, s: Il, n: nat): (k: nat)
    requires s.pc <= |stmts|
    ensures k <= 5 * n
    decreases n
  {
    if n == 0 || s.pc == |stmts| then 0 else SizeOf(stmts[s.pc]) + IlCost(stmts, IlStep(stmts, s), n - 1)
  }

  ghost predicate Matches(stmts: seq<IlStmt>, s: Il, vm: Vm) {
    && s.pc <= |stmts|
    && vm.ip == Addr(stmts, s.pc)
    && vm.regs[CR] == s.acc
    && vm.regs[TRUE_REG] == Bool(true)
    && vm.signals == s.signals
  }

  // ----- one IL step -----

  lemma ExecLoadSignal(vm: Vm, r: u8, x: string)
    requires r < REGISTER_COUNT
    ensures Execute(vm, LoadSignal(r, x)) == Running(SetReg(vm, r, SignalOf(vm.signals, x)))
  {
  }

  lemma ExecLoadReg(vm: Vm, r: u8, src: u8)
    requires r < REGISTER_COUNT && src < REGISTER_COUNT
    ensures Execute(vm, LoadReg(r, src)) == Running(SetReg(vm, r, vm.regs[src]))
  {
  }

  lemma ExecComplement(vm: Vm, r: u8)
    requires r < REGISTER_COUNT
    ensures Execute(vm, Regs2(Not, r, r)) == Running(SetReg(vm, r, Complement(vm.regs[r])))
  {
    hide Complement;
  }

  lemma ExecAnd(vm: Vm, a: u8, b: u8)
    requires a < REGISTER_COUNT && b < REGISTER_COUNT
    ensures Execute(vm, Arith3(Opcode.And, a, b, a)) == Running(SetReg(vm, a, Arith(BitAnd, vm.regs[a], vm.regs[b])))
  {
    hide Arith;
  }

  lemma {:induction false} LoadCorrect(p: Program, vm: Vm, r: u8, x: string) returns (out: Vm)
    requires vm.ip + 1 < |p| && p[vm.ip] == LoadSignal(r, x) && p[vm.ip + 1] == LoadReg(CR, r) && r < USER_REGISTERS
    ensures Reaches(p, vm, 2, out)
    ensures out.ip == vm.ip + 2 && out.regs[CR] == SignalOf(vm.signals, x) && out.regs[TRUE_REG] == vm.regs[TRUE_REG] && out.signals == vm.signals
  {
    hide Run, Execute;
    ExecLoadSignal(vm, r, x);
    var vm1 := AdvanceIp(SetReg(vm, r, SignalOf(vm.signals, x)));
    StepOne(p, vm, SetReg(vm, r, SignalOf(vm.signals, x)));
    ExecLoadReg(vm1, CR, r);
    out := AdvanceIp(SetReg(vm1, CR, vm1.regs[r]));
    StepOne(p, vm1, SetReg(vm1, CR, vm1.regs[r]));
    ReachesTrans(p, vm, 1, vm1, 1, out);
  }

  lemma {:induction false} AndCorrect(p: Program, vm: Vm, r: u8, x: string) returns (out: Vm)
    requires vm.ip + 1 < |p| && p[vm.ip] == LoadSignal(r, x) && p[vm.ip + 1] == Arith3(Opcode.And, CR, r, CR) && r < USER_REGISTERS
    ensures Reaches(p, vm, 2, out)
    ensures out.ip == vm.ip + 2 && out.regs[CR] == Arith(BitAnd, vm.regs[CR], SignalOf(vm.signals, x))
    ensures out.regs[TRUE_REG] == vm.regs[TRUE_REG] && out.signals == vm.signals
  {
    hide Run, Execute, Arith;
    ExecLoadSignal(vm, r, x);
    var vm1 := AdvanceIp(SetReg(vm, r, SignalOf(vm.signals, x)));
    StepOne(p, vm, SetReg(vm, r, SignalOf(vm.signals, x)));
    ExecAnd(vm1, CR, r);
    var vm2 := SetReg(vm1, CR, Arith(BitAnd, vm1.regs[CR], vm1.regs[r]));
    StepOne(p, vm1, vm2);
    out := AdvanceIp(vm2);
    ReachesTrans(p, vm, 1, vm1, 1, out);
  }

  lemma LoadTempCorrect(p: Program, vm: Vm, r: u8, x: string) returns (out: Vm)
    requires vm.ip + 1 < |p| && p[vm.ip] == LoadSignal(r, x) && p[vm.ip + 1] == LoadReg(TEMP, r) && r < USER_REGISTERS
    ensures Reaches(p, vm, 2, out)
    ensures out.ip == vm.ip + 2 && out.regs[TEMP] == SignalOf(vm.signals, x) && out.signals == vm.signals
    ensures out.regs[CR] == vm.regs[CR] && out.regs[TRUE_REG] == vm.regs[TRUE_REG]
  {
    hide Run, Execute;
    var v := SignalOf(vm.signals, x);
    ExecLoadSignal(vm, r, x);
    StepOne(p, vm, SetReg(vm, r, v));
    var vm1 := AdvanceIp(SetReg(vm, r, v));
    ExecLoadReg(vm1, TEMP, r);
    StepOne(p, vm1, SetReg(vm1, TEMP, v));
    out := AdvanceIp(SetReg(vm1, TEMP, v));
    ReachesTrans(p, vm, 1, vm1, 1, out);
  }

  lemma AndTempCorrect(p: Program, vm: Vm) returns (out: Vm)
    requires vm.ip + 1 < |p| && p[vm.ip] == Regs2(Not, TEMP, TEMP) && p[vm.ip + 1] == Arith3(Opcode.And, CR, TEMP, CR)
    ensures Reaches(p, vm, 2, out)
    ensures out.ip == vm.ip + 2 && out.regs[CR] == Arith(BitAnd, vm.regs[CR], Complement(vm.regs[TEMP]))
    ensures out.regs[TRUE_REG] == vm.regs[TRUE_REG] && out.signals == vm.signals
  {
    hide Run, Execute, Arith, Complement;
    var v := Complement(vm.regs[TEMP]);
    ExecComplement(vm, TEMP);
    StepOne(p, vm, SetReg(vm, TEMP, v));
    var vm1 := AdvanceIp(SetReg(vm, TEMP, v));
    ExecAnd(vm1, CR, TEMP);
    var vm2 := SetReg(vm1, CR, Arith(BitAnd, vm1.regs[CR], vm1.regs[TEMP]));
    StepOne(p, vm1, vm2);
    out := AdvanceIp(vm2);
    ReachesTrans(p, vm, 1, vm1, 1, out);
  }

  lemma AndNotCorrect(p: Program, vm: Vm, r: u8, x: string) returns (out: Vm)
    requires vm.ip + 3 < |p| && p[vm.ip] == LoadSignal(r, x) && p[vm.ip + 1] == LoadReg(TEMP, r) && r < USER_REGISTERS
    requires p[vm.ip + 2] == Regs2(Not, TEMP, TEMP) && p[vm.ip + 3] == Arith3(Opcode.And, CR, TEMP, CR)
    ensures Reaches(p, vm, 4, out)
    ensures out.ip == vm.ip + 4 && out.regs[CR] == Arith(BitAnd, vm.regs[CR], Complement(SignalOf(vm.signals, x)))
    ensures out.regs[TRUE_REG] == vm.regs[TRUE_REG] && out.signals == vm.signals
  {
    hide Run, Arith, Complement;
    var mid := LoadTempCorrect(p, vm, r, x);
    out := AndTempCorrect(p, mid);
    ReachesTrans(p, vm, 2, mid, 2, out);
  }

  lemma InvertCorrect(p: Program, vm: Vm) returns (out: Vm)
    requires vm.ip < |p| && p[vm.ip] == Regs2(Not, CR, CR)
    ensures Reaches(p, vm, 1, out)
    ensures out.ip == vm.ip + 1 && out.regs[CR] == Complement(vm.regs[CR]) && out.regs[TRUE_REG] == vm.regs[TRUE_REG] && out.signals == vm.signals
  {
    hide Run, Execute, Complement;
    ExecComplement(vm, CR);
    StepOne(p, vm, SetReg(vm, CR, Complement(vm.regs[CR])));
    out := AdvanceIp(SetReg(vm, CR, Complement(vm.regs[CR])));
  }

  /** Compare the accumulator with TRUE, then jump on the flag. */
  lemma TestCorrect(p: Program, vm: Vm, negate: bool, t: nat) returns (out: Vm)
    requires vm.ip + 1 < |p| && p[vm.ip] == Regs2(if negate then Neq else Eq, CR, TRUE_REG) && p[vm.ip + 1] == JumpIfTo(t)
    requires vm.regs[TRUE_REG] == Bool(true) && t < TWO_32
    ensures Reaches(p, vm, 2, out)
    ensures out == vm.(flag := out.flag, ip := if (vm.regs[CR] == Bool(true)) != negate then t else vm.ip + 2)
  {
    hide Run, Execute;
    var flag := (vm.regs[CR] == Bool(true)) != negate;
    ExecTest(vm, negate);
    StepOne(p, vm, vm.(flag := flag));
    var vm1 := AdvanceIp(vm.(flag := flag));
    StepJumpIf(p, vm1, t);
    out := vm1.(ip := if flag then t else vm1.ip + 1);
    ReachesTrans(p, vm, 1, vm1, 1, out);
  }

  lemma ExecTest(vm: Vm, negate: bool)
    requires vm.regs[TRUE_REG] == Bool(true)
    ensures Execute(vm, Regs2(if negate then Neq else Eq, CR, TRUE_REG)) == Running(vm.(flag := (vm.regs[CR] == Bool(true)) != negate))
  {
  }

  lemma TargetFits(stmts: seq<IlStmt>, l: string)
    requires |IlProgram(stmts)| < TWO_32
    ensures Addr(stmts, LabelIndex(stmts, l)) < |IlProgram(stmts)|
  {
    HaltAtEnd(stmts);
    AddrMonotone(stmts, LabelIndex(stmts, l), |stmts|);
  }

  /** One IL step takes exactly as many machine steps as the statement has instructions. */
  lemma {:induction false} StepCorrect(stmts: seq<IlStmt>, s: Il, vm: Vm) returns (out: Vm)
    requires CoreProgram(stmts) && Matches(stmts, s, vm) && s.pc < |stmts|
    ensures Reaches(IlProgram(stmts), vm, SizeOf(stmts[s.pc]), out)
    ensures Matches(stmts, IlStep(stmts, s), out)
  {
    hide Run, IlProgram, VarOrder, Arith, Complement, LabelIndex;
    var p, i := IlProgram(stmts), s.pc;
    var stmt := stmts[i];
    var size := SizeOf(stmt);
    if size > 0 { StatementInProgram(stmts, i, 0); }
    if size > 1 { StatementInProgram(stmts, i, 1); }
    if size > 2 { StatementInProgram(stmts, i, 2); }
    if size > 3 { StatementInProgram(stmts, i, 3); }
    assert Core(stmt);
    match stmt
    case Load(x) =>
      out := LoadCorrect(p, vm, RegisterFor(VarOrder(stmts), stmt), x);
    case LoadNot(x) =>
      var mid := LoadCorrect(p, vm, RegisterFor(VarOrder(stmts), stmt), x);
      out := InvertCorrect(p, mid);
      ReachesTrans(p, vm, 2, mid, 1, out);
    case Store(x) =>
      StepStore(p, vm, x, CR);
      out := AdvanceIp(vm.(signals := vm.signals[x := vm.regs[CR]]));
    case And(x) =>
      out := AndCorrect(p, vm, RegisterFor(VarOrder(stmts), stmt), x);
    case AndNot(x) =>
      out := AndNotCorrect(p, vm, RegisterFor(VarOrder(stmts), stmt), x);
    case Invert =>
      out := InvertCorrect(p, vm);
    case Label(_) =>
      ReachesZero(p, vm);
      out := vm;
    case Jump(l) =>
      TargetFits(stmts, l);
      StepJump(p, vm, TargetOf(stmts, stmt));
      out := vm.(ip := TargetOf(stmts, stmt));
    case JumpIf(l) =>
      TargetFits(stmts, l);
      out := TestCorrect(p, vm, false, TargetOf(stmts, stmt));
    case JumpIfNot(l) =>
      TargetFits(stmts, l);
      out := TestCorrect(p, vm, true, TargetOf(stmts, stmt));
  }

  // ----- whole runs -----

  /** Any number of IL steps, matched by exactly their cost in machine steps. */
  lemma {:induction false} RunCorrect(stmts: seq<IlStmt>, s: Il, vm: Vm, n: nat) returns (out: Vm)
    requires CoreProgram(stmts) && Matches(stmts, s, vm)
    ensures Reaches(IlProgram(stmts), vm, IlCost(stmts, s, n), out)
    ensures Matches(stmts, IlRun(stmts, s, n), out)
    decreases n
  {
    hide Run, IlProgram, IlStep, CoreProgram;
    if n == 0 || s.pc == |stmts| {
      ReachesZero(IlProgram(stmts), vm);
      out := vm;
    } else {
      var mid := StepCorrect(stmts, s, vm);
      out := RunCorrect(stmts, IlStep(stmts, s), mid, n - 1);
      ReachesTrans(IlProgram(stmts), vm, SizeOf(stmts[s.pc]), mid, IlCost(stmts, IlStep(stmts, s), n - 1), out);
    }
  }

  /** The prelude loads TRUE and leaves everything else alone. */
  lemma PreludeCorrect(stmts: seq<IlStmt>, vm: Vm) returns (out: Vm)
    requires vm.ip == 0
    ensures Reaches(IlProgram(stmts), vm, 1, out)
    ensures Matches(stmts, Il(0, vm.regs[CR], vm.signals), out)
  {
    hide IlProgram;
    HaltAtEnd(stmts);
    out := AdvanceIp(SetReg(vm, TRUE_REG, Bool(true)));
  }

  lemma HaltCorrect(stmts: seq<IlStmt>, s: Il, vm: Vm)
    requires Matches(stmts, s, vm) && s.pc == |stmts|
    ensures Run(IlProgram(stmts), vm, 1) == Halted(AdvanceIp(vm))
  {
    hide IlProgram, Addr;
    HaltAtEnd(stmts);
    HaltStep(IlProgram(stmts), vm);
  }

  /** When the IL program ends after n steps, the machine halts with its accumulator and signals. */
  lemma CompiledProgramHalts(stmts: seq<IlStmt>, vm: Vm, n: nat) returns (k: nat, out: Vm)
    requires CoreProgram(stmts) && vm.ip == 0
    requires IlRun(stmts, Il(0, vm.regs[CR], vm.signals), n).pc == |stmts|
    ensures k <= 5 * n + 2 && Run(IlProgram(stmts), vm, k) == Halted(out)
    ensures var end := IlRun(stmts, Il(0, vm.regs[CR], vm.signals), n); out.regs[CR] == end.acc && out.signals == end.signals
  {
    hide Run, IlProgram, IlStep, CoreProgram, IlRun;
    var p, s := IlProgram(stmts), Il(0, vm.regs[CR], vm.signals);
    var start := PreludeCorrect(stmts, vm);
    var last := RunCorrect(stmts, s, start, n);
    ReachesTrans(p, vm, 1, start, IlCost(stmts, s, n), last);
    HaltCorrect(stmts, IlRun(stmts, s, n), last);
    RunAppend(p, vm, 1 + IlCost(stmts, s, n), last, 1);
    k, out := 2 + IlCost(stmts, s, n), AdvanceIp(last);
  }

  /** Conversely, a machine that halts was running an IL program that ends. */
  lemma {:induction false} HaltMeansEnd(stmts: seq<IlStmt>, s: Il, vm: Vm, k: nat) returns (n: nat)
    requires CoreProgram(stmts) && Matches(stmts, s, vm) && Run(IlProgram(stmts), vm, k).Halted?
    ensures IlRun(stmts, s, n).pc == |stmts|
    decreases k, |stmts| - s.pc
  {
    hide Run, IlProgram, CoreProgram, IlStep;
    if s.pc == |stmts| {
      return 0;
    }
    var p, size := IlProgram(stmts), SizeOf(stmts[s.pc]);
    var mid := StepCorrect(stmts, s, vm);
    NotYetHalted(p, vm, size, mid, k);
    RunAppend(p, vm, size, mid, k - size);
    LabelsMoveOn(stmts, s);
    n := HaltMeansEnd(stmts, IlStep(stmts, s), mid, k - size);
    n := n + 1;
  }

  lemma LabelsMoveOn(stmts: seq<IlStmt>, s: Il)
    requires s.pc < |stmts|
    ensures SizeOf(stmts[s.pc]) == 0 ==> IlStep(stmts, s).pc == s.pc + 1
  {
  }

  lemma NotYetHalted(p: Program, vm: Vm, j: nat, mid: Vm, k: nat)
    requires Reaches(p, vm, j, mid) && Run(p, vm, k).Halted?
    ensures j <= k
  {
    hide Run;
    if k < j {
      RunSettles(p, vm, k, j);
    }
  }

  /** The machine halts on the compiled program exactly when the IL program reaches its end. */
  lemma HaltsExactlyWhenIlEnds(stmts: seq<IlStmt>, vm: Vm)
    requires CoreProgram(stmts) && vm.ip == 0
    ensures (exists k: nat :: Run(IlProgram(stmts), vm, k).Halted?)
       <==> (exists n: nat :: IlRun(stmts, Il(0, vm.regs[CR], vm.signals), n).pc == |stmts|)
  {
    hide Run, IlProgram, CoreProgram, IlRun;
    var p, s := IlProgram(stmts), Il(0, vm.regs[CR], vm.signals);
    if k: nat :| Run(p, vm, k).Halted? {
      var start := PreludeCorrect(stmts, vm);
      NotYetHalted(p, vm, 1, start, k);
      RunAppend(p, vm, 1, start, k - 1);
      var n := HaltMeansEnd(stmts, s, start, k - 1);
    }
    if n: nat :| IlRun(stmts, s, n).pc == |stmts| {
      var k, out := CompiledProgramHalts(stmts, vm, n);
    }
  }

  // ----- bounds -----

  predicate NoCalls(stmts: seq<IlStmt>) {
    forall i :: 0 <= i < |stmts| ==> !stmts[i].CallFb? && !stmts[i].Return?
  }

  /** Some instruction follows the code of every comparison, before the final halt. */
  predicate ComparisonsContinue(stmts: seq<IlStmt>) {
    forall i :: 0 <= i < |stmts| && stmts[i].Cmp? ==> Addr(stmts, i + 1) < Addr(stmts, |stmts|)
  }

  /** An instruction on existing registers that does not transfer control is safe. */
  lemma PlainSafe(op: Opcode, ops: seq<Operand>, n: nat)
    requires !IsJump(op) && op != Ret
    requires forall i :: 0 <= i < |ops| ==> Readable(ops[i]) && (ops[i].Immediate? ==> !ops[i].v.Array?)
    ensures SafeInstruction(Instruction(op, ops), n)
  {
  }

  lemma JumpSafe(t: nat, n: nat)
    requires t < TWO_32
    ensures SafeInstruction(JumpTo(t), n) <==> t < n
    ensures SafeInstruction(JumpIfTo(t), n) <==> t < n
  {
    assert JumpTo(t).operands[0] == Target(t) && JumpIfTo(t).operands[0] == Target(t);
  }

  lemma StatementSafe(s: IlStmt, r: u8, base: nat, t: nat, n: nat)
    requires !s.CallFb? && !s.Return? && r < USER_REGISTERS && t < n && base + SizeOf(s) < n < TWO_32
    ensures SafeCode(StmtCode(s, r, base, t), n) <==> (s.Cmp? ==> base + 6 < n)
  {
    hide SafeInstruction;
    if s.Cmp? {
      assert StmtCode(s, r, base, t)[3] == JumpTo(base + 6);
      JumpSafe(base + 4, n);
      JumpSafe(base + 6, n);
    }
    if s.Cmp? ==> base + 6 < n {
      forall j | 0 <= j < SizeOf(s)
        ensures SafeInstruction(StmtCode(s, r, base, t)[j], n)
      {
        var inst := StmtCode(s, r, base, t)[j];
        if IsJump(inst.opcode) {
          JumpSafe(t, n);
        } else {
          PlainSafe(inst.opcode, inst.operands, n);
        }
      }
    }
  }

  /** A compiled IL program without calls is safe exactly when no comparison ends it:
      the false path of a comparison jumps one instruction past its continuation. */
  lemma SafeExactlyWhenComparisonsContinue(stmts: seq<IlStmt>)
    requires NoCalls(stmts) && |VarOrder(stmts)| <= USER_REGISTERS && |IlProgram(stmts)| < TWO_32
    ensures SafeProgram(IlProgram(stmts)) <==> ComparisonsContinue(stmts)
  {
    hide IlProgram, VarOrder, StmtCode, SafeInstruction;
    var p := IlProgram(stmts);
    HaltAtEnd(stmts);
    SafeEnds(p);
    forall i | 0 <= i < |stmts|
      ensures SafeCode(CodeOf(stmts, i), |p|) <==> (stmts[i].Cmp? ==> Addr(stmts, i + 1) < Addr(stmts, |stmts|))
    {
      StatementFits(stmts, i);
      StatementSafe(stmts[i], RegisterFor(VarOrder(stmts), stmts[i]), Addr(stmts, i), TargetOf(stmts, stmts[i]), |p|);
    }
    if ComparisonsContinue(stmts) {
      forall a | 0 <= a < |p|
        ensures SafeInstruction(p[a], |p|)
      {
        if 0 < a < |p| - 1 {
          var i, j := FindStatement(stmts, a, |stmts|);
          StatementInProgram(stmts, i, j);
          assert p[a] == CodeOf(stmts, i)[j];
        }
      }
    }
    if SafeProgram(p) {
      forall i | 0 <= i < |stmts|
        ensures SafeCode(CodeOf(stmts, i), |p|)
      {
        forall j | 0 <= j < SizeOf(stmts[i])
          ensures SafeInstruction(CodeOf(stmts, i)[j], |p|)
        {
          StatementInProgram(stmts, i, j);
        }
      }
    }
  }

  function CodeOf(stmts: seq<IlStmt>, i: nat): seq<Instruction>
    requires i < |stmts|
  {
    StmtCode(stmts[i], RegisterFor(VarOrder(stmts), stmts[i]), Addr(stmts, i), TargetOf(stmts, stmts[i]))
  }

  lemma SafeEnds(p: Program)
    requires |p| > 1 && p[0] == LoadImm(TRUE_REG, Bool(true)) && p[|p| - 1] == HALT
    ensures SafeInstruction(p[0], |p|) && SafeInstruction(p[|p| - 1], |p|)
  {
  }

  lemma StatementFits(stmts: seq<IlStmt>, i: nat)
    requires i < |stmts| && |IlProgram(stmts)| < TWO_32
    ensures Addr(stmts, i) + SizeOf(stmts[i]) < |IlProgram(stmts)| && TargetOf(stmts, stmts[i]) < |IlProgram(stmts)|
    ensures |IlProgram(stmts)| == Addr(stmts, |stmts|) + 1
  {
    hide IlProgram, SizeOf, TargetOf;
    HaltAtEnd(stmts);
    AddrMonotone(stmts, i + 1, |stmts|);
    TargetInside(stmts, stmts[i]);
  }

  lemma TargetInside(stmts: seq<IlStmt>, s: IlStmt)
    requires |IlProgram(stmts)| < TWO_32
    ensures TargetOf(stmts, s) < |IlProgram(stmts)|
  {
    hide IlProgram, LabelIndex, Addr;
    HaltAtEnd(stmts);
    match s
    case Jump(l) => TargetFits(stmts, l);
    case JumpIf(l) => TargetFits(stmts, l);
    case JumpIfNot(l) => TargetFits(stmts, l);
    case CallFb(l) => TargetFits(stmts, l);
    case _ =>
  }

  /** Every address between the prelude and the halt belongs to some statement. */
  lemma {:induction false} FindStatement(stmts: seq<IlStmt>, a: nat, n: nat) returns (i: nat, j: nat)
    requires n <= |stmts| && 1 <= a < Addr(stmts, n)
    ensures i < |stmts| && j < SizeOf(stmts[i]) && a == Addr(stmts, i) + j
    decreases n
  {
    if a >= Addr(stmts, n - 1) {
      i, j := n - 1, a - Addr(stmts, n - 1);
    } else {
      i, j := FindStatement(stmts, a, n - 1);
    }
  }

  // ----- runs that leave the program -----

  /** Some run that starts inside the program trips the bounds check on instructions. */
  ghost predicate LeavesProgram(p: Program) {
    exists vm: Vm, k: nat :: vm.ip < |p| && Run(p, vm, k) == Faulted(IpOutOfBounds)
  }

  lemma ExecTestOf(vm: Vm, op: CmpOp, a: u8, b: u8)
    requires a < REGISTER_COUNT && b < REGISTER_COUNT
    ensures Execute(vm, Regs2(CompareOpcode(op), a, b)) == Running(vm.(flag := Compare(op, vm.regs[a], vm.regs[b])))
  {
    hide Compare;
  }

  lemma OutOfBounds(p: Program, vm: Vm)
    requires vm.ip >= |p|
    ensures Run(p, vm, 1) == Faulted(IpOutOfBounds)
  {
  }

  lemma NotAJump(op: CmpOp, r: u8, v: Value)
    ensures !IsJump(Regs2(CompareOpcode(op), CR, r).opcode) && !IsJump(LoadImm(CR, v).opcode)
  {
  }

  /** A comparison that fails at the end of a program jumps past its halt. */
  lemma FalseComparisonLeaves(p: Program, vm: Vm, op: CmpOp, r: u8)
    requires vm.ip + 6 == |p| < TWO_32 && r < REGISTER_COUNT && !Compare(op, vm.regs[CR], vm.regs[r])
    requires p[vm.ip] == Regs2(CompareOpcode(op), CR, r) && p[vm.ip + 1] == JumpIfTo(vm.ip + 4)
    requires p[vm.ip + 2] == LoadImm(CR, Bool(false)) && p[vm.ip + 3] == JumpTo(vm.ip + 6)
    ensures Run(p, vm, 4).Running? && Run(p, vm, 5) == Faulted(IpOutOfBounds)
  {
    hide Run, Execute, Compare, Regs2, LoadImm, JumpTo, JumpIfTo, CompareOpcode, IsJump;
    ExecTestOf(vm, op, CR, r);
    NotAJump(op, r, Bool(false));
    StepOne(p, vm, vm.(flag := false));
    var vm1 := AdvanceIp(vm.(flag := false));
    StepJumpIf(p, vm1, vm.ip + 4);
    var vm2 := vm1.(ip := vm.ip + 2);
    ReachesTrans(p, vm, 1, vm1, 1, vm2);
    StepLoadImm(p, vm2, CR, Bool(false));
    var vm3 := AdvanceIp(SetReg(vm2, CR, Bool(false)));
    ReachesTrans(p, vm, 2, vm2, 1, vm3);
    StepJump(p, vm3, vm.ip + 6);
    var vm4 := vm3.(ip := vm.ip + 6);
    ReachesTrans(p, vm, 3, vm3, 1, vm4);
    OutOfBounds(p, vm4);
    RunAppend(p, vm, 4, vm4, 1);
  }

  lemma ComparisonCode(s: IlStmt, r: u8, base: nat, t: nat)
    requires s.Cmp?
    ensures SizeOf(s) == 5
    ensures StmtCode(s, r, base, t)[0] == Regs2(CompareOpcode(s.cmp), CR, r) && StmtCode(s, r, base, t)[1] == JumpIfTo(base + 4)
    ensures StmtCode(s, r, base, t)[2] == LoadImm(CR, Bool(false)) && StmtCode(s, r, base, t)[3] == JumpTo(base + 6)
  {
  }

  /** In any state in which a comparison that ends the program fails, the machine leaves the program. */
  lemma LastComparisonLeaves(stmts: seq<IlStmt>, i: nat, vm: Vm)
    requires |IlProgram(stmts)| < TWO_32 && i < |stmts| && stmts[i].Cmp? && Addr(stmts, i + 1) >= Addr(stmts, |stmts|)
    requires vm.ip == Addr(stmts, i)
    requires !Compare(stmts[i].cmp, vm.regs[CR], vm.regs[RegisterFor(VarOrder(stmts), stmts[i])])
    ensures vm.ip < |IlProgram(stmts)| && Run(IlProgram(stmts), vm, 4).Running?
    ensures Run(IlProgram(stmts), vm, 5) == Faulted(IpOutOfBounds)
  {
    hide Run, IlProgram, VarOrder, StmtCode, Compare, CompareOpcode;
    var r := RegisterFor(VarOrder(stmts), stmts[i]);
    ComparisonCode(stmts[i], r, Addr(stmts, i), TargetOf(stmts, stmts[i]));
    HaltAtEnd(stmts);
    AddrMonotone(stmts, i + 1, |stmts|);
    StatementInProgram(stmts, i, 0);
    StatementInProgram(stmts, i, 1);
    StatementInProgram(stmts, i, 2);
    StatementInProgram(stmts, i, 3);
    FalseComparisonLeaves(IlProgram(stmts), vm, stmts[i].cmp, r);
  }

  /** Register values on which a comparison fails. */
  function FailingState(op: CmpOp, ip: nat): Vm {
    var vm := NewVm();
    vm.(ip := ip, regs := vm.regs[CR := if op == CmpNeq then S32(0) else Bool(true)])
  }

  lemma FailingStateFails(op: CmpOp, ip: nat, r: u8)
    requires r < USER_REGISTERS
    ensures FailingState(op, ip).ip == ip && !Compare(op, FailingState(op, ip).regs[CR], FailingState(op, ip).regs[r])
  {
  }

  /** Some run leaves a compiled IL program without calls exactly when a comparison ends it. */
  lemma RunsLeaveExactlyWhenComparisonEnds(stmts: seq<IlStmt>)
    requires NoCalls(stmts) && |VarOrder(stmts)| <= USER_REGISTERS && |IlProgram(stmts)| < TWO_32
    ensures LeavesProgram(IlProgram(stmts)) <==> !ComparisonsContinue(stmts)
  {
    hide Run, IlProgram, VarOrder, Compare, FailingState, SafeProgram;
    var p := IlProgram(stmts);
    SafeExactlyWhenComparisonsContinue(stmts);
    if ComparisonsContinue(stmts) {
      forall vm: Vm, k: nat | vm.ip < |p|
        ensures Run(p, vm, k) != Faulted(IpOutOfBounds)
      {
        SafeRun(p, vm, k);
      }
    } else {
      var i :| 0 <= i < |stmts| && stmts[i].Cmp? && Addr(stmts, i + 1) >= Addr(stmts, |stmts|);
      var vm := FailingState(stmts[i].cmp, Addr(stmts, i));
      FailingStateFails(stmts[i].cmp, Addr(stmts, i), RegisterFor(VarOrder(stmts), stmts[i]));
      LastComparisonLeaves(stmts, i, vm);
    }
  }

  /** The shortest case: the program `NE x` aborts a fresh machine on its sixth step. */
  lemma LoneComparisonFaults(x: string)
    ensures Run(IlProgram([Cmp(CmpNeq, x)]), NewVm(), 5).Running?
    ensures Run(IlProgram([Cmp(CmpNeq, x)]), NewVm(), 6) == Faulted(IpOutOfBounds)
  {
    hide Run, IlProgram, VarOrder, StmtCode;
    var stmts := [Cmp(CmpNeq, x)];
    var p := IlProgram(stmts);
    var vm := PreludeCorrect(stmts, NewVm());
    HaltAtEnd(stmts);
    assert Addr(stmts, 0) == 1 && Addr(stmts, 1) == 6;
    PreludeIs(stmts, vm);
    LastComparisonLeaves(stmts, 0, vm);
    RunAppend(p, NewVm(), 1, vm, 5);
    RunAppend(p, NewVm(), 1, vm, 4);
  }

  lemma PreludeIs(stmts: seq<IlStmt>, out: Vm)
    requires Reaches(IlProgram(stmts), NewVm(), 1, out)
    ensures out == AdvanceIp(SetReg(NewVm(), TRUE_REG, Bool(true)))
  {
    hide IlProgram;
    HaltAtEnd(stmts);
  }

  /** No core statement divides or accesses an array. */
  lemma CoreNeverRaises(stmts: seq<IlStmt>)
    requires forall i :: 0 <= i < |stmts| ==> Core(stmts[i])
    ensures forall f :: !SomeRaises(IlProgram(stmts), f)
  {
    hide IlProgram, VarOrder, StmtCode;
    var p := IlProgram(stmts);
    HaltAtEnd(stmts);
    forall f: Fault, a | 0 <= a < |p|
      ensures !MayRaise(p[a].opcode, f)
    {
      if 0 < a < |p| - 1 {
        var i, j := FindStatement(stmts, a, |stmts|);
        StatementInProgram(stmts, i, j);
        assert Core(stmts[i]);
        CoreCodeRaises(stmts[i], RegisterFor(VarOrder(stmts), stmts[i]), Addr(stmts, i), TargetOf(stmts, stmts[i]), j, f);
      }
    }
  }

  lemma CoreCodeRaises(s: IlStmt, r: u8, base: nat, t: nat, j: nat, f: Fault)
    requires Core(s) && j < SizeOf(s)
    ensures !MayRaise(StmtCode(s, r, base, t)[j].opcode, f)
  {
  }

  /** Core programs run without any fault from every machine state inside them, looping or not. */
  lemma CoreRunsStayInBounds(stmts: seq<IlStmt>, vm: Vm, k: nat)
    requires CoreProgram(stmts) && vm.ip < |IlProgram(stmts)| < TWO_32
    ensures var r := Run(IlProgram(stmts), vm, k); !r.Faulted?
  {
    hide Run, IlProgram;
    assert forall i :: 0 <= i < |stmts| ==> Core(stmts[i]);
    SafeExactlyWhenComparisonsContinue(stmts);
    SafeRun(IlProgram(stmts), vm, k);
    CoreNeverRaises(stmts);
  }
}

/**
 The HAL IR register machine as a transition function: sixteen registers, one
 comparison flag, an instruction pointer, a signal table, a call stack and the
 function-block tables.
 */
module Machine {
  import opened Values
  import opened Blocks
  import opened Arrays

  const REGISTER_COUNT: nat := 16

  datatype Opcode =
    | Nop | Load | Store | LoadIndex | StoreIndex
    | Add | Sub | Mul | Div | Mod | Neg
    | Eq | Neq | Gt | Lt | Gte | Lte
    | And | Or | Xor | Not
    | Jump | JumpIf | Call | Ret
    | TimerRun | ReadTimer | CounterRun | ReadCounter | SrRun | ReadSr | EdgeRun | ReadEdge
    | Halt

  datatype Operand = Register(r: u8) | Immediate(v: Value) | SignalName(name: string)

  datatype Instruction = Instruction(opcode: Opcode, operands: seq<Operand>)

  type Program = seq<Instruction>

  type RegisterFile = s: seq<Value> | |s| == REGISTER_COUNT witness seq(REGISTER_COUNT, _ => S32(0))

  datatype Vm = Vm(
    regs: RegisterFile,
    flag: bool,
    ip: nat,
    signals: map<string, Value>,
    calls: seq<nat>,
    tables: Tables,
    cycleTime: u64)

  /** Conditions on which the implementation aborts instead of continuing. */
  datatype Fault = IpOutOfBounds | RegisterOutOfBounds | DivisionByZero | DivisionOverflow | SliceOutOfRange

  datatype StepResult = Running(vm: Vm) | Halted(vm: Vm) | Faulted(fault: Fault)

  function ZeroRegisters(): RegisterFile { seq(REGISTER_COUNT, _ => S32(0)) }

  function NewVm(): Vm {
    Vm(ZeroRegisters(), false, 0, map[], [], Tables([], [], [], []), 0)
  }

  /** Reset before a scan: everything except the block tables and the cycle time. */
  function Reset(vm: Vm): Vm {
    vm.(regs := ZeroRegisters(), flag := false, ip := 0, signals := map[], calls := [])
  }

  // ----- operand readers -----

  predicate Readable(op: Operand) { op.Register? ==> op.r < REGISTER_COUNT }

  function ReadReg(vm: Vm, op: Operand): Value
    requires Readable(op)
  {
    if op.Register? then vm.regs[op.r] else S32(0)
  }

  function Dest(op: Operand): u8 { if op.Register? then op.r else 0 }

  function ReadBool(vm: Vm, op: Operand): bool
    requires Readable(op)
  {
    ReadReg(vm, op) == Bool(true)
  }

  predicate IsIndex(op: Operand) { op.Immediate? && op.v.U32? }

  function SetReg(vm: Vm, r: u8, v: Value): Vm
    requires r < REGISTER_COUNT
  {
    vm.(regs := vm.regs[r := v])
  }

  function AdvanceIp(vm: Vm): Vm { vm.(ip := vm.ip + 1) }

  // ----- instructions; each leaves the instruction pointer alone unless it jumps -----

  function ExecLoad(vm: Vm, ops: seq<Operand>): StepResult {
    if |ops| < 2 || !ops[0].Register? then Running(vm)
    else if !Readable(ops[0]) || !Readable(ops[1]) then Faulted(RegisterOutOfBounds)
    else
      var v := match ops[1]
               case Immediate(v) => v
               case Register(r) => vm.regs[r]
               case SignalName(name) => if name in vm.signals then vm.signals[name] else Bool(false);
      Running(SetReg(vm, ops[0].r, v))
  }

  function ExecStore(vm: Vm, ops: seq<Operand>): StepResult {
    if |ops| < 2 || !ops[0].SignalName? then Running(vm)
    else if !Readable(ops[1]) then Faulted(RegisterOutOfBounds)
    else Running(vm.(signals := vm.signals[ops[0].name := ReadReg(vm, ops[1])]))
  }

  predicate ThreeRegisters(ops: seq<Operand>) {
    |ops| >= 3 && ops[0].Register? && ops[1].Register? && ops[2].Register?
  }

  function ExecLoadIndex(vm: Vm, ops: seq<Operand>): StepResult {
    if !ThreeRegisters(ops) then Running(vm)
    else if !Readable(ops[0]) || !Readable(ops[1]) || !Readable(ops[2]) then Faulted(RegisterOutOfBounds)
    else match Index(vm.regs[ops[1].r], AsIndex(vm.regs[ops[2].r]))
      case Got(v) => Running(SetReg(vm, ops[0].r, v))
      case BadSlice => Faulted(SliceOutOfRange)
  }

  function ExecStoreIndex(vm: Vm, ops: seq<Operand>): StepResult {
    if !ThreeRegisters(ops) then Running(vm)
    else if !Readable(ops[0]) || !Readable(ops[1]) || !Readable(ops[2]) then Faulted(RegisterOutOfBounds)
    else match SetIndex(vm.regs[ops[0].r], AsIndex(vm.regs[ops[1].r]), vm.regs[ops[2].r])
      case Got(v) => Running(SetReg(vm, ops[0].r, v))
      case BadSlice => Faulted(SliceOutOfRange)
  }

  function ExecArith(vm: Vm, op: ArithOp, ops: seq<Operand>): StepResult {
    if |ops| < 3 then Running(vm)
    else if !Readable(ops[0]) || !Readable(ops[1]) || !Readable(ops[2]) then Faulted(RegisterOutOfBounds)
    else
      var a, b := ReadReg(vm, ops[0]), ReadReg(vm, ops[1]);
      if DivideFault(op, a, b) then Faulted(DivisionByZero)
      else if DivideOverflow(op, a, b) then Faulted(DivisionOverflow)
      else Running(SetReg(vm, Dest(ops[2]), Arith(op, a, b)))
  }

  function ExecUnary(vm: Vm, complement: bool, ops: seq<Operand>): StepResult {
    if |ops| < 2 then Running(vm)
    else if !Readable(ops[0]) || !Readable(ops[1]) then Faulted(RegisterOutOfBounds)
    else
      var a := ReadReg(vm, ops[0]);
      Running(SetReg(vm, Dest(ops[1]), if complement then Complement(a) else Negate(a)))
  }

  function ExecCompare(vm: Vm, op: CmpOp, ops: seq<Operand>): StepResult {
    if |ops| < 2 then Running(vm)
    else if !Readable(ops[0]) || !Readable(ops[1]) then Faulted(RegisterOutOfBounds)
    else Running(vm.(flag := Compare(op, ReadReg(vm, ops[0]), ReadReg(vm, ops[1]))))
  }

  function ExecJump(vm: Vm, ops: seq<Operand>): StepResult {
    if |ops| > 0 && IsIndex(ops[0]) then Running(vm.(ip := ops[0].v.u32)) else Running(vm)
  }

  function ExecJumpIf(vm: Vm, ops: seq<Operand>): StepResult {
    if vm.flag && |ops| > 0 && IsIndex(ops[0]) then Running(vm.(ip := ops[0].v.u32)) else Running(AdvanceIp(vm))
  }

  function CallTarget(ops: seq<Operand>): u32 {
    if |ops| == 0 || !ops[0].Immediate? then 0
    else match ops[0].v
      case U32(n) => n
      case S32(n) => WrapU32(n)
      case _ => 0
  }

  function ExecCall(vm: Vm, ops: seq<Operand>): StepResult {
    Running(vm.(calls := vm.calls + [vm.ip + 1], ip := CallTarget(ops)))
  }

  function ExecRet(vm: Vm, ops: seq<Operand>): StepResult {
    if vm.calls == [] then Halted(vm)
    else
      var popped := vm.(calls := vm.calls[..|vm.calls| - 1]);
      var back := vm.calls[|vm.calls| - 1];
      if |ops| > 0 && ops[0].Register? then
        if !Readable(ops[0]) then Faulted(RegisterOutOfBounds)
        else Running(SetReg(popped, 0, vm.regs[ops[0].r]).(ip := back))
      else Running(popped.(ip := back))
  }

  function TimerKindOf(ops: seq<Operand>): TimerKind {
    if |ops| >= 4 && IsIndex(ops[3]) then
      if ops[3].v.u32 == 1 then Tof else if ops[3].v.u32 == 2 then Tp else Ton
    else Ton
  }

  /** A preset literal; a negative S32 is sign-extended to 64 bits. */
  function Preset(v: Value): u64
    requires v.U32? || v.S32?
  {
    if v.U32? then v.u32 else if v.s32 < 0 then v.s32 + TWO_64 else v.s32
  }

  function ExecTimerRun(vm: Vm, ops: seq<Operand>): StepResult {
    if |ops| < 3 || !IsIndex(ops[0]) then Running(vm)
    else
      var i, kind := ops[0].v.u32, TimerKindOf(ops);
      var timers := Grow(vm.tables.timers, i, FreshTimer(kind));
      if !ops[1].Register? || !ops[2].Immediate? || !(ops[2].v.U32? || ops[2].v.S32?) then
        Running(vm.(tables := vm.tables.(timers := timers)))
      else if !Readable(ops[1]) then Faulted(RegisterOutOfBounds)
      else
        var t := TimerScan(timers[i], kind, Preset(ops[2].v), ReadBool(vm, ops[1]), vm.cycleTime);
        Running(vm.(tables := vm.tables.(timers := timers[i := t])))
  }

  function ExecReadTimer(vm: Vm, ops: seq<Operand>): StepResult {
    if |ops| < 3 || !IsIndex(ops[0]) then Running(vm)
    else
      var i := ops[0].v.u32;
      var grown := vm.(tables := vm.tables.(timers := Grow(vm.tables.timers, i, FreshTimer(Ton))));
      if !ops[1].Register? || !ops[2].Register? then Running(grown)
      else if !Readable(ops[1]) || !Readable(ops[2]) then Faulted(RegisterOutOfBounds)
      else
        var t := grown.tables.timers[i];
        Running(SetReg(SetReg(grown, ops[1].r, Bool(t.q)), ops[2].r, U32(WrapU32(t.elapsed))))
  }

  function CounterKindOf(op: Operand): CounterKind {
    if !IsIndex(op) || op.v.u32 == 0 then Ctu else if op.v.u32 == 1 then Ctd else Ctud
  }

  function ExecCounterRun(vm: Vm, ops: seq<Operand>): StepResult {
    if |ops| < 5 || !IsIndex(ops[0]) then Running(vm)
    else
      var i := ops[0].v.u32;
      var counters := Grow(vm.tables.counters, i, FreshCounter());
      if !ops[1].Register? || !ops[2].Register? || !IsIndex(ops[3]) then
        Running(vm.(tables := vm.tables.(counters := counters)))
      else if !Readable(ops[1]) || !Readable(ops[2]) then Faulted(RegisterOutOfBounds)
      else
        var c := CounterScan(counters[i], CounterKindOf(ops[4]), ops[3].v.u32, ReadBool(vm, ops[1]), ReadBool(vm, ops[2]));
        Running(vm.(tables := vm.tables.(counters := counters[i := c])))
  }

  function ExecReadCounter(vm: Vm, ops: seq<Operand>): StepResult {
    if |ops| < 3 || !IsIndex(ops[0]) then Running(vm)
    else
      var i := ops[0].v.u32;
      var grown := vm.(tables := vm.tables.(counters := Grow(vm.tables.counters, i, FreshCounter())));
      if !ops[1].Register? || !ops[2].Register? then Running(grown)
      else if !Readable(ops[1]) || !Readable(ops[2]) then Faulted(RegisterOutOfBounds)
      else
        var c := grown.tables.counters[i];
        Running(SetReg(SetReg(grown, ops[1].r, Bool(c.q)), ops[2].r, U32(c.cv)))
  }

  function BistableKindOf(op: Operand): BistableKind {
    if IsIndex(op) && op.v.u32 == 1 then Rs else Sr
  }

  function ExecSrRun(vm: Vm, ops: seq<Operand>): StepResult {
    if |ops| < 4 || !IsIndex(ops[0]) then Running(vm)
    else if !Readable(ops[1]) || !Readable(ops[2]) then Faulted(RegisterOutOfBounds)
    else
      var i, kind := ops[0].v.u32, BistableKindOf(ops[3]);
      var bistables := Grow(vm.tables.bistables, i, FreshBistable(kind));
      var b := BistableScan(bistables[i], kind, ReadBool(vm, ops[1]), ReadBool(vm, ops[2]));
      Running(vm.(tables := vm.tables.(bistables := bistables[i := b])))
  }

  function ExecReadSr(vm: Vm, ops: seq<Operand>): StepResult {
    if |ops| < 3 || !IsIndex(ops[0]) then Running(vm)
    else
      var i := ops[0].v.u32;
      var grown := vm.(tables := vm.tables.(bistables := Grow(vm.tables.bistables, i, FreshBistable(Sr))));
      if !ops[1].Register? || !ops[2].Register? then Running(grown)
      else if !Readable(ops[1]) || !Readable(ops[2]) then Faulted(RegisterOutOfBounds)
      else
        var b := grown.tables.bistables[i];
        Running(SetReg(SetReg(grown, ops[1].r, Bool(b.q1)), ops[2].r, Bool(b.q2)))
  }

  function ExecEdgeRun(vm: Vm, ops: seq<Operand>): StepResult {
    if |ops| < 3 || !IsIndex(ops[0]) then Running(vm)
    else if !Readable(ops[1]) then Faulted(RegisterOutOfBounds)
    else
      var i, kind := ops[0].v.u32, if IsIndex(ops[2]) then WrapU8(ops[2].v.u32) else 0;
      var edges := Grow(vm.tables.edges, i, FreshEdge());
      Running(vm.(tables := vm.tables.(edges := edges[i := EdgeScan(edges[i], kind, ReadBool(vm, ops[1]))])))
  }

  function ExecReadEdge(vm: Vm, ops: seq<Operand>): StepResult {
    if |ops| < 2 || !IsIndex(ops[0]) then Running(vm)
    else
      var i := ops[0].v.u32;
      var grown := vm.(tables := vm.tables.(edges := Grow(vm.tables.edges, i, FreshEdge())));
      if !ops[1].Register? then Running(grown)
      else if !Readable(ops[1]) then Faulted(RegisterOutOfBounds)
      else Running(SetReg(grown, ops[1].r, Bool(grown.tables.edges[i].q)))
  }

  function Execute(vm: Vm, inst: Instruction): StepResult {
    var ops := inst.operands;
    match inst.opcode
    case Nop => Running(vm)
    case Load => ExecLoad(vm, ops)
    case Store => ExecStore(vm, ops)
    case LoadIndex => ExecLoadIndex(vm, ops)
    case StoreIndex => ExecStoreIndex(vm, ops)
    case Add => ExecArith(vm, Plus, ops)
    case Sub => ExecArith(vm, Minus, ops)
    case Mul => ExecArith(vm, Times, ops)
    case Div => ExecArith(vm, Over, ops)
    case Mod => ExecArith(vm, Rem, ops)
    case And => ExecArith(vm, BitAnd, ops)
    case Or => ExecArith(vm, BitOr, ops)
    case Xor => ExecArith(vm, BitXor, ops)
    case Neg => ExecUnary(vm, false, ops)
    case Not => ExecUnary(vm, true, ops)
    case Eq => ExecCompare(vm, CmpEq, ops)
    case Neq => ExecCompare(vm, CmpNeq, ops)
    case Gt => ExecCompare(vm, CmpGt, ops)
    case Lt => ExecCompare(vm, CmpLt, ops)
    case Gte => ExecCompare(vm, CmpGte, ops)
    case Lte => ExecCompare(vm, CmpLte, ops)
    case Jump => ExecJump(vm, ops)
    case JumpIf => ExecJumpIf(vm, ops)
    case Call => ExecCall(vm, ops)
    case Ret => ExecRet(vm, ops)
    case TimerRun => ExecTimerRun(vm, ops)
    case ReadTimer => ExecReadTimer(vm, ops)
    case CounterRun => ExecCounterRun(vm, ops)
    case ReadCounter => ExecReadCounter(vm, ops)
    case SrRun => ExecSrRun(vm, ops)
    case ReadSr => ExecReadSr(vm, ops)
    case EdgeRun => ExecEdgeRun(vm, ops)
    case ReadEdge => ExecReadEdge(vm, ops)
    case Halt => Halted(vm)
  }

  predicate IsJump(op: Opcode) { op == Jump || op == JumpIf || op == Call }

  /** Moves past an instruction that does not place the instruction pointer itself. */
  function Advanced(r: StepResult): StepResult {
    match r
    case Running(vm) => Running(AdvanceIp(vm))
    case Halted(vm) => Halted(AdvanceIp(vm))
    case Faulted(_) => r
  }

  /** One instruction of the program, as executed without a debugger. */
  function Step(p: Program, vm: Vm): StepResult {
    if vm.ip >= |p| then Faulted(IpOutOfBounds)
    else
      var r := Execute(vm, p[vm.ip]);
      if IsJump(p[vm.ip].opcode) then r else Advanced(r)
  }

  /** `k` instructions, or fewer when the machine halts or faults earlier. */
  function Run(p: Program, vm: Vm, k: nat): StepResult
    decreases k
  {
    if k == 0 then Running(vm)
    else match Step(p, vm)
      case Running(next) => Run(p, next, k - 1)
      case Halted(last) => Halted(last)
      case Faulted(f) => Faulted(f)
  }

  /** After exactly `k` instructions, none of which halts, the machine is in state `end`. */
  predicate Reaches(p: Program, start: Vm, k: nat, end: Vm) { Run(p, start, k) == Running(end) }

  lemma {:induction false} RunAppend(p: Program, start: Vm, j: nat, mid: Vm, k: nat)
    requires Reaches(p, start, j, mid)
    ensures Run(p, start, j + k) == Run(p, mid, k)
    decreases j
  {
    hide Step;
    if j > 0 {
      RunAppend(p, Step(p, start).vm, j - 1, mid, k);
    }
  }

  lemma ReachesTrans(p: Program, a: Vm, j: nat, b: Vm, k: nat, c: Vm)
    requires Reaches(p, a, j, b) && Reaches(p, b, k, c)
    ensures Reaches(p, a, j + k, c)
  {
    RunAppend(p, a, j, b, k);
  }

  /** A run that has halted or faulted stays as it is. */
  lemma {:induction false} RunSettles(p: Program, vm: Vm, j: nat, k: nat)
    requires j <= k && !Run(p, vm, j).Running?
    ensures Run(p, vm, k) == Run(p, vm, j)
    decreases j
  {
    hide Step;
    match Step(p, vm)
    case Running(next) => RunSettles(p, next, j - 1, k - 1);
    case _ =>
  }

  /** A return places the instruction pointer and the step then advances it, so a call that
      returns at once continues one instruction behind the one after the call. */
  lemma ReturnSkipsOne(p: Program, vm: Vm, t: nat)
    requires vm.ip < |p| && p[vm.ip] == CallTo(t) && t < |p| && t < TWO_32 && p[t] == Instruction(Ret, [])
    ensures Reaches(p, vm, 2, vm.(ip := vm.ip + 2))
  {
    var called := vm.(calls := vm.calls + [vm.ip + 1], ip := t);
    assert Step(p, vm) == Running(called);
    assert called.calls[..|called.calls| - 1] == vm.calls;
    assert Step(p, called) == Running(vm.(ip := vm.ip + 2));
    hide Step;
    assert Run(p, called, 1) == Running(vm.(ip := vm.ip + 2));
  }

  // ----- instruction constructors used by the code generators -----

  function Target(t: nat): Operand { Immediate(U32(WrapU32(t))) }
  function JumpTo(t: nat): Instruction { Instruction(Jump, [Target(t)]) }
  function JumpIfTo(t: nat): Instruction { Instruction(JumpIf, [Target(t)]) }
  function CallTo(t: nat): Instruction { Instruction(Call, [Target(t)]) }
  function LoadImm(r: u8, v: Value): Instruction { Instruction(Load, [Register(r), Immediate(v)]) }
  function LoadReg(r: u8, src: u8): Instruction { Instruction(Load, [Register(r), Register(src)]) }
  function LoadSignal(r: u8, name: string): Instruction { Instruction(Load, [Register(r), SignalName(name)]) }
  function StoreSignal(name: string, r: u8): Instruction { Instruction(Store, [SignalName(name), Register(r)]) }
  function Arith3(op: Opcode, a: u8, b: u8, out: u8): Instruction { Instruction(op, [Register(a), Register(b), Register(out)]) }
  function Regs2(op: Opcode, a: u8, b: u8): Instruction { Instruction(op, [Register(a), Register(b)]) }
  function ElementLoad(r: u8, a: u8, i: u8): Instruction { Instruction(LoadIndex, [Register(r), Register(a), Register(i)]) }
  function ElementStore(a: u8, i: u8, src: u8): Instruction { Instruction(StoreIndex, [Register(a), Register(i), Register(src)]) }
  const HALT: Instruction := Instruction(Halt, [])
}

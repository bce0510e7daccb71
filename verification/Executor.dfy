/**
 The virtual machine and its executor as they run: registers in an array, the other
 parts in fields, updated in place instruction by instruction. Every method is proved
 against the transition functions of the machine and of the debugger.
 */
module Executor {
  import opened Options
  import opened Values
  import opened Blocks
  import opened Machine
  import Arrays
  import opened Debugger

  /** What an instruction reports; a panic stands for an aborted run. */
  datatype Result = Going | Ended | Panic(fault: Fault)

  class VirtualMachine {
    const registers: array<Value>
    var flagsZero: bool
    var ip: nat
    var signals: map<string, Value>
    var callStack: seq<nat>
    var timers: seq<Timer>
    var counters: seq<Counter>
    var bistables: seq<Bistable>
    var edges: seq<Blocks.Edge>
    var cycleTimeMs: u64

    ghost predicate Valid() { registers.Length == REGISTER_COUNT }

    ghost function View(): Vm
      reads this, registers
      requires Valid()
    {
      Vm(registers[..], flagsZero, ip, signals, callStack, Tables(timers, counters, bistables, edges), cycleTimeMs)
    }

    /** The object and its report after an instruction agree with what the machine prescribes. */
    ghost predicate Agrees(r: Result, spec: StepResult)
      reads this, registers
      requires Valid()
    {
      match spec
      case Running(vm) => r == Going && View() == vm
      case Halted(vm) => r == Ended && View() == vm
      case Faulted(f) => r == Panic(f)
    }

    constructor ()
      ensures Valid() && fresh(registers) && View() == NewVm()
    {
      registers := new Value[REGISTER_COUNT](_ => S32(0));
      flagsZero, ip, signals, callStack := false, 0, map[], [];
      timers, counters, bistables, edges, cycleTimeMs := [], [], [], [], 0;
      new;
      assert registers[..] == ZeroRegisters();
    }

    /** Everything but the block tables and the cycle time goes back to its initial value. */
    method ResetAll()
      requires Valid()
      modifies this, registers
      ensures View() == Reset(old(View()))
    {
      for i := 0 to REGISTER_COUNT
        modifies registers
        invariant forall j :: 0 <= j < i ==> registers[j] == S32(0)
      {
        registers[i] := S32(0);
      }
      assert registers[..] == ZeroRegisters();
      flagsZero, ip, signals, callStack := false, 0, map[], [];
    }

    method WriteRegister(r: u8, v: Value)
      requires Valid() && r < REGISTER_COUNT
      modifies registers
      ensures View() == SetReg(old(View()), r, v)
    {
      registers[r] := v;
      assert registers[..] == old(registers[..])[r := v];
    }

    /** The value of a register operand; S32(0) for anything else. */
    method ReadOperand(op: Operand) returns (v: Value)
      requires Valid() && Readable(op)
      ensures v == ReadReg(View(), op)
    {
      if op.Register? {
        return registers[op.r];
      }
      return S32(0);
    }

    method ReadFlag(op: Operand) returns (b: bool)
      requires Valid() && Readable(op)
      ensures b == ReadBool(View(), op)
    {
      var v := ReadOperand(op);
      return v == Bool(true);
    }

    // ----- data movement, arithmetic and control -----

    method DoLoad(ops: seq<Operand>) returns (r: Result)
      requires Valid()
      modifies registers
      ensures Agrees(r, ExecLoad(old(View()), ops))
    {
      if |ops| < 2 || !ops[0].Register? {
        return Going;
      }
      if !Readable(ops[0]) || !Readable(ops[1]) {
        return Panic(RegisterOutOfBounds);
      }
      var value;
      match ops[1] {
        case Immediate(v) => value := v;
        case Register(src) => value := registers[src];
        case SignalName(name) => value := if name in signals then signals[name] else Bool(false);
      }
      WriteRegister(ops[0].r, value);
      return Going;
    }

    method DoStore(ops: seq<Operand>) returns (r: Result)
      requires Valid()
      modifies this`signals
      ensures Agrees(r, ExecStore(old(View()), ops))
    {
      if |ops| < 2 || !ops[0].SignalName? {
        return Going;
      }
      if !Readable(ops[1]) {
        return Panic(RegisterOutOfBounds);
      }
      var value := ReadOperand(ops[1]);
      signals := signals[ops[0].name := value];
      return Going;
    }

    method DoLoadIndex(ops: seq<Operand>) returns (r: Result)
      requires Valid()
      modifies registers
      ensures Agrees(r, ExecLoadIndex(old(View()), ops))
    {
      hide Arrays.Index, Arrays.AsIndex;
      if |ops| < 3 || !ops[0].Register? || !ops[1].Register? || !ops[2].Register? {
        return Going;
      }
      if !Readable(ops[0]) || !Readable(ops[1]) || !Readable(ops[2]) {
        return Panic(RegisterOutOfBounds);
      }
      var a := registers[ops[1].r];
      var i := Arrays.AsIndex(registers[ops[2].r]);
      var element := Arrays.Index(a, i);
      if element.BadSlice? {
        return Panic(SliceOutOfRange);
      }
      WriteRegister(ops[0].r, element.value);
      return Going;
    }

    method DoStoreIndex(ops: seq<Operand>) returns (r: Result)
      requires Valid()
      modifies registers
      ensures Agrees(r, ExecStoreIndex(old(View()), ops))
    {
      hide Arrays.SetIndex, Arrays.AsIndex;
      if |ops| < 3 || !ops[0].Register? || !ops[1].Register? || !ops[2].Register? {
        return Going;
      }
      if !Readable(ops[0]) || !Readable(ops[1]) || !Readable(ops[2]) {
        return Panic(RegisterOutOfBounds);
      }
      var a := registers[ops[0].r];
      var i := Arrays.AsIndex(registers[ops[1].r]);
      var updated := Arrays.SetIndex(a, i, registers[ops[2].r]);
      if updated.BadSlice? {
        return Panic(SliceOutOfRange);
      }
      WriteRegister(ops[0].r, updated.value);
      return Going;
    }

    method DoArith(op: ArithOp, ops: seq<Operand>) returns (r: Result)
      requires Valid()
      modifies registers
      ensures Agrees(r, ExecArith(old(View()), op, ops))
    {
      hide Arith, DivideFault, DivideOverflow;
      if |ops| < 3 {
        return Going;
      }
      if !Readable(ops[0]) || !Readable(ops[1]) || !Readable(ops[2]) {
        return Panic(RegisterOutOfBounds);
      }
      var a := ReadOperand(ops[0]);
      var b := ReadOperand(ops[1]);
      if DivideFault(op, a, b) {
        return Panic(DivisionByZero);
      }
      if DivideOverflow(op, a, b) {
        return Panic(DivisionOverflow);
      }
      WriteRegister(Dest(ops[2]), Arith(op, a, b));
      return Going;
    }

    method DoUnary(complement: bool, ops: seq<Operand>) returns (r: Result)
      requires Valid()
      modifies registers
      ensures Agrees(r, ExecUnary(old(View()), complement, ops))
    {
      hide Complement, Negate;
      if |ops| < 2 {
        return Going;
      }
      if !Readable(ops[0]) || !Readable(ops[1]) {
        return Panic(RegisterOutOfBounds);
      }
      var a := ReadOperand(ops[0]);
      WriteRegister(Dest(ops[1]), if complement then Complement(a) else Negate(a));
      return Going;
    }

    method DoCompare(op: CmpOp, ops: seq<Operand>) returns (r: Result)
      requires Valid()
      modifies this`flagsZero
      ensures Agrees(r, ExecCompare(old(View()), op, ops))
    {
      hide Compare;
      if |ops| < 2 {
        return Going;
      }
      if !Readable(ops[0]) || !Readable(ops[1]) {
        return Panic(RegisterOutOfBounds);
      }
      var a := ReadOperand(ops[0]);
      var b := ReadOperand(ops[1]);
      flagsZero := Compare(op, a, b);
      return Going;
    }

    method DoJump(ops: seq<Operand>) returns (r: Result)
      requires Valid()
      modifies this`ip
      ensures Agrees(r, ExecJump(old(View()), ops))
    {
      if |ops| > 0 && IsIndex(ops[0]) {
        ip := ops[0].v.u32;
      }
      return Going;
    }

    method DoJumpIf(ops: seq<Operand>) returns (r: Result)
      requires Valid()
      modifies this`ip
      ensures Agrees(r, ExecJumpIf(old(View()), ops))
    {
      if flagsZero && |ops| > 0 && IsIndex(ops[0]) {
        ip := ops[0].v.u32;
        return Going;
      }
      ip := ip + 1;
      return Going;
    }

    method DoCall(ops: seq<Operand>) returns (r: Result)
      requires Valid()
      modifies this`ip, this`callStack
      ensures Agrees(r, ExecCall(old(View()), ops))
    {
      callStack := callStack + [ip + 1];
      ip := CallTarget(ops);
      return Going;
    }

    method DoRet(ops: seq<Operand>) returns (r: Result)
      requires Valid()
      modifies this`ip, this`callStack, registers
      ensures Agrees(r, ExecRet(old(View()), ops))
    {
      if callStack == [] {
        return Ended;
      }
      var back := callStack[|callStack| - 1];
      callStack := callStack[..|callStack| - 1];
      if |ops| > 0 && ops[0].Register? {
        if !Readable(ops[0]) {
          return Panic(RegisterOutOfBounds);
        }
        WriteRegister(0, registers[ops[0].r]);
      }
      ip := back;
      return Going;
    }

    // ----- function blocks -----

    /** Two results of a block into two registers. */
    method WriteResults(a: Operand, x: Value, b: Operand, y: Value) returns (r: Result)
      requires Valid() && a.Register? && b.Register?
      modifies registers
      ensures Agrees(r, if Readable(a) && Readable(b) then Running(SetReg(SetReg(old(View()), a.r, x), b.r, y)) else Faulted(RegisterOutOfBounds))
    {
      if !Readable(a) || !Readable(b) {
        return Panic(RegisterOutOfBounds);
      }
      WriteRegister(a.r, x);
      WriteRegister(b.r, y);
      return Going;
    }

    method GrowTimers(i: nat, kind: TimerKind)
      modifies this`timers
      ensures timers == Grow(old(timers), i, FreshTimer(kind))
    {
      while |timers| <= i
        invariant |old(timers)| <= |timers| && (|timers| <= i + 1 || timers == old(timers))
        invariant forall j :: 0 <= j < |old(timers)| ==> timers[j] == old(timers)[j]
        invariant forall j :: |old(timers)| <= j < |timers| ==> timers[j] == FreshTimer(kind)
        decreases i + 1 - |timers|
      {
        timers := timers + [FreshTimer(kind)];
      }
    }

    method DoTimerRun(ops: seq<Operand>) returns (r: Result)
      requires Valid()
      modifies this`timers
      ensures Agrees(r, ExecTimerRun(old(View()), ops))
    {
      hide Grow, TimerScan;
      if |ops| < 3 || !IsIndex(ops[0]) {
        return Going;
      }
      var i, kind := ops[0].v.u32, TimerKindOf(ops);
      GrowTimers(i, kind);
      if !ops[1].Register? || !ops[2].Immediate? || !(ops[2].v.U32? || ops[2].v.S32?) {
        return Going;
      }
      if !Readable(ops[1]) {
        return Panic(RegisterOutOfBounds);
      }
      var input := ReadFlag(ops[1]);
      var t := RunTimer(timers[i], kind, Preset(ops[2].v), input, cycleTimeMs);
      timers := timers[i := t];
      return Going;
    }

    method DoReadTimer(ops: seq<Operand>) returns (r: Result)
      requires Valid()
      modifies this`timers, registers
      ensures Agrees(r, ExecReadTimer(old(View()), ops))
    {
      hide Grow;
      if |ops| < 3 || !IsIndex(ops[0]) {
        return Going;
      }
      var i := ops[0].v.u32;
      GrowTimers(i, Ton);
      if !ops[1].Register? || !ops[2].Register? {
        return Going;
      }
      var t := timers[i];
      r := WriteResults(ops[1], Bool(t.q), ops[2], U32(WrapU32(t.elapsed)));
    }

    method GrowCounters(i: nat)
      modifies this`counters
      ensures counters == Grow(old(counters), i, FreshCounter())
    {
      while |counters| <= i
        invariant |old(counters)| <= |counters| && (|counters| <= i + 1 || counters == old(counters))
        invariant forall j :: 0 <= j < |old(counters)| ==> counters[j] == old(counters)[j]
        invariant forall j :: |old(counters)| <= j < |counters| ==> counters[j] == FreshCounter()
        decreases i + 1 - |counters|
      {
        counters := counters + [FreshCounter()];
      }
    }

    method DoCounterRun(ops: seq<Operand>) returns (r: Result)
      requires Valid()
      modifies this`counters
      ensures Agrees(r, ExecCounterRun(old(View()), ops))
    {
      hide Grow, CounterScan;
      if |ops| < 5 || !IsIndex(ops[0]) {
        return Going;
      }
      var i := ops[0].v.u32;
      GrowCounters(i);
      if !ops[1].Register? || !ops[2].Register? || !IsIndex(ops[3]) {
        return Going;
      }
      if !Readable(ops[1]) || !Readable(ops[2]) {
        return Panic(RegisterOutOfBounds);
      }
      var cu := ReadFlag(ops[1]);
      var cd := ReadFlag(ops[2]);
      var c := RunCounter(counters[i], CounterKindOf(ops[4]), ops[3].v.u32, cu, cd);
      counters := counters[i := c];
      return Going;
    }

    method DoReadCounter(ops: seq<Operand>) returns (r: Result)
      requires Valid()
      modifies this`counters, registers
      ensures Agrees(r, ExecReadCounter(old(View()), ops))
    {
      hide Grow;
      if |ops| < 3 || !IsIndex(ops[0]) {
        return Going;
      }
      var i := ops[0].v.u32;
      GrowCounters(i);
      if !ops[1].Register? || !ops[2].Register? {
        return Going;
      }
      r := WriteResults(ops[1], Bool(counters[i].q), ops[2], U32(counters[i].cv));
    }

    method GrowBistables(i: nat, kind: BistableKind)
      modifies this`bistables
      ensures bistables == Grow(old(bistables), i, FreshBistable(kind))
    {
      while |bistables| <= i
        invariant |old(bistables)| <= |bistables| && (|bistables| <= i + 1 || bistables == old(bistables))
        invariant forall j :: 0 <= j < |old(bistables)| ==> bistables[j] == old(bistables)[j]
        invariant forall j :: |old(bistables)| <= j < |bistables| ==> bistables[j] == FreshBistable(kind)
        decreases i + 1 - |bistables|
      {
        bistables := bistables + [FreshBistable(kind)];
      }
    }

    method DoSrRun(ops: seq<Operand>) returns (r: Result)
      requires Valid()
      modifies this`bistables
      ensures Agrees(r, ExecSrRun(old(View()), ops))
    {
      hide Grow, BistableScan;
      if |ops| < 4 || !IsIndex(ops[0]) {
        return Going;
      }
      if !Readable(ops[1]) || !Readable(ops[2]) {
        return Panic(RegisterOutOfBounds);
      }
      var s1 := ReadFlag(ops[1]);
      var reset := ReadFlag(ops[2]);
      var i, kind := ops[0].v.u32, BistableKindOf(ops[3]);
      GrowBistables(i, kind);
      var b := RunBistable(bistables[i], kind, s1, reset);
      bistables := bistables[i := b];
      return Going;
    }

    method DoReadSr(ops: seq<Operand>) returns (r: Result)
      requires Valid()
      modifies this`bistables, registers
      ensures Agrees(r, ExecReadSr(old(View()), ops))
    {
      hide Grow;
      if |ops| < 3 || !IsIndex(ops[0]) {
        return Going;
      }
      var i := ops[0].v.u32;
      GrowBistables(i, Sr);
      if !ops[1].Register? || !ops[2].Register? {
        return Going;
      }
      r := WriteResults(ops[1], Bool(bistables[i].q1), ops[2], Bool(bistables[i].q2));
    }

    method GrowEdges(i: nat)
      modifies this`edges
      ensures edges == Grow(old(edges), i, FreshEdge())
    {
      while |edges| <= i
        invariant |old(edges)| <= |edges| && (|edges| <= i + 1 || edges == old(edges))
        invariant forall j :: 0 <= j < |old(edges)| ==> edges[j] == old(edges)[j]
        invariant forall j :: |old(edges)| <= j < |edges| ==> edges[j] == FreshEdge()
        decreases i + 1 - |edges|
      {
        edges := edges + [FreshEdge()];
      }
    }

    method DoEdgeRun(ops: seq<Operand>) returns (r: Result)
      requires Valid()
      modifies this`edges
      ensures Agrees(r, ExecEdgeRun(old(View()), ops))
    {
      hide Grow;
      if |ops| < 3 || !IsIndex(ops[0]) {
        return Going;
      }
      if !Readable(ops[1]) {
        return Panic(RegisterOutOfBounds);
      }
      var clk := ReadFlag(ops[1]);
      var kind := if IsIndex(ops[2]) then WrapU8(ops[2].v.u32) else 0;
      var i := ops[0].v.u32;
      GrowEdges(i);
      var last := edges[i].lastClk;
      var q := if kind == 0 then clk && !last else if kind == 1 then !clk && last else false;
      edges := edges[i := Blocks.Edge.Edge(kind, clk, q)];
      return Going;
    }

    method DoReadEdge(ops: seq<Operand>) returns (r: Result)
      requires Valid()
      modifies this`edges, registers
      ensures Agrees(r, ExecReadEdge(old(View()), ops))
    {
      hide Grow;
      if |ops| < 2 || !IsIndex(ops[0]) {
        return Going;
      }
      var i := ops[0].v.u32;
      GrowEdges(i);
      if !ops[1].Register? {
        return Going;
      }
      if !Readable(ops[1]) {
        return Panic(RegisterOutOfBounds);
      }
      WriteRegister(ops[1].r, Bool(edges[i].q));
      return Going;
    }

    // ----- dispatch -----

    method ExecuteInstruction(inst: Instruction) returns (r: Result)
      requires Valid()
      modifies this, registers
      ensures Agrees(r, Execute(old(View()), inst))
    {
      hide ExecLoad, ExecStore, ExecLoadIndex, ExecStoreIndex, ExecArith, ExecUnary, ExecCompare, ExecJump, ExecJumpIf, ExecCall, ExecRet, ExecTimerRun, ExecReadTimer, ExecCounterRun, ExecReadCounter, ExecSrRun, ExecReadSr, ExecEdgeRun, ExecReadEdge;
      var ops := inst.operands;
      match inst.opcode
      case Nop => r := Going;
      case Load => r := DoLoad(ops);
      case Store => r := DoStore(ops);
      case LoadIndex => r := DoLoadIndex(ops);
      case StoreIndex => r := DoStoreIndex(ops);
      case Add => r := DoArith(Plus, ops);
      case Sub => r := DoArith(Minus, ops);
      case Mul => r := DoArith(Times, ops);
      case Div => r := DoArith(Over, ops);
      case Mod => r := DoArith(Rem, ops);
      case And => r := DoArith(BitAnd, ops);
      case Or => r := DoArith(BitOr, ops);
      case Xor => r := DoArith(BitXor, ops);
      case Neg => r := DoUnary(false, ops);
      case Not => r := DoUnary(true, ops);
      case Eq => r := DoCompare(CmpEq, ops);
      case Neq => r := DoCompare(CmpNeq, ops);
      case Gt => r := DoCompare(CmpGt, ops);
      case Lt => r := DoCompare(CmpLt, ops);
      case Gte => r := DoCompare(CmpGte, ops);
      case Lte => r := DoCompare(CmpLte, ops);
      case Jump => r := DoJump(ops);
      case JumpIf => r := DoJumpIf(ops);
      case Call => r := DoCall(ops);
      case Ret => r := DoRet(ops);
      case TimerRun => r := DoTimerRun(ops);
      case ReadTimer => r := DoReadTimer(ops);
      case CounterRun => r := DoCounterRun(ops);
      case ReadCounter => r := DoReadCounter(ops);
      case SrRun => r := DoSrRun(ops);
      case ReadSr => r := DoReadSr(ops);
      case EdgeRun => r := DoEdgeRun(ops);
      case ReadEdge => r := DoReadEdge(ops);
      case Halt => r := Ended;
    }
  }

  // ----- one scan of a block, step by step -----

  method RunTimer(t0: Timer, kind: TimerKind, preset: u64, input: bool, cycle: u64) returns (t: Timer)
    ensures t == TimerScan(t0, kind, preset, input, cycle)
  {
    t := t0.(preset := preset, kind := kind);
    var prevIn := t.input;
    match kind {
      case Ton =>
        if !input {
          t := t.(q := false, elapsed := 0);
        } else if t.elapsed >= t.preset {
          t := t.(q := true);
        } else {
          t := t.(elapsed := SaturatingAdd(t.elapsed, cycle));
          if t.elapsed >= t.preset {
            t := t.(q := true, elapsed := t.preset);
          }
        }
      case Tof =>
        if input {
          t := t.(q := true, elapsed := 0);
        } else if t.q {
          t := t.(elapsed := SaturatingAdd(t.elapsed, cycle));
          if t.elapsed >= t.preset {
            t := t.(q := false, elapsed := t.preset);
          }
        }
      case Tp =>
        if input && !prevIn {
          t := t.(q := true, elapsed := 0);
        }
        if t.q {
          t := t.(elapsed := SaturatingAdd(t.elapsed, cycle));
          if t.elapsed >= t.preset {
            t := t.(q := false, elapsed := t.preset);
          }
          if !input {
            t := t.(q := false);
          }
        }
    }
    t := t.(input := input);
  }

  method RunCounter(c0: Counter, kind: CounterKind, pv: u32, cu: bool, cd: bool) returns (c: Counter)
    ensures c == CounterScan(c0, kind, pv, cu, cd)
  {
    c := c0.(pv := pv, kind := kind);
    var prevCu, prevCd := c.cu, c.cd;
    c := c.(cu := cu, cd := cd);
    match kind {
      case Ctu =>
        if cu && !prevCu {
          c := c.(cv := Increment(c.cv, c.pv));
        }
        c := c.(q := c.cv >= c.pv);
      case Ctd =>
        if cd && !prevCd {
          c := c.(cv := Decrement(c.cv));
        }
        c := c.(q := c.cv <= 0);
      case Ctud =>
        if cu && !prevCu {
          c := c.(cv := Increment(c.cv, c.pv));
        }
        if cd && !prevCd {
          c := c.(cv := Decrement(c.cv));
        }
        c := c.(qu := c.cv >= c.pv, qd := c.cv <= 0);
        c := c.(q := c.qu);
    }
  }

  method RunBistable(b0: Bistable, kind: BistableKind, s1: bool, r: bool) returns (b: Bistable)
    ensures b == BistableScan(b0, kind, s1, r)
  {
    b := b0.(kind := kind);
    match kind {
      case Sr =>
        if s1 {
          b := b.(q1 := true, q2 := false);
        } else if r {
          b := b.(q1 := false, q2 := true);
        }
      case Rs =>
        if r {
          b := b.(q1 := false, q2 := true);
        } else if s1 {
          b := b.(q1 := true, q2 := false);
        }
    }
    b := b.(s1 := s1, r := r);
  }

  // ----- the executor -----

  class Runner {
    const vm: VirtualMachine
    const program: Program
    var debugMode: bool
    var breakpoints: set<nat>
    var trace: seq<TraceEntry>

    ghost predicate Valid() { vm.Valid() }

    ghost function View(): Session
      reads this, vm, vm.registers
      requires Valid()
    {
      Session(vm.View(), debugMode, breakpoints, trace)
    }

    constructor (program: Program)
      ensures Valid() && fresh(vm) && fresh(vm.registers) && View() == NewSession() && this.program == program
    {
      vm := new VirtualMachine();
      this.program := program;
      debugMode, breakpoints, trace := false, {}, [];
    }

    /** After a panic nothing is promised about the state. */
    method StepOnce() returns (r: Outcome)
      requires Valid()
      modifies this`trace, vm, vm.registers
      ensures r == StepSession(program, old(View())).0
      ensures !r.Panicked? ==> View() == StepSession(program, old(View())).1
    {
      hide Execute;
      var at := vm.ip;
      if at >= |program| {
        return Panicked(IpOutOfBounds);
      }
      if debugMode && at in breakpoints {
        return Breaked;
      }
      var inst := program[at];
      var result := vm.ExecuteInstruction(inst);
      if result.Panic? {
        return Panicked(result.fault);
      }
      if debugMode {
        trace := trace + [TraceEntry(at, inst.opcode, vm.registers[0])];
      }
      if !IsJump(inst.opcode) {
        vm.ip := vm.ip + 1;
      }
      return if result == Ended then Stopped else Continue;
    }

    /** Steps until the machine halts or stops at a breakpoint. It need not end; `bound` is a number
        of steps after which it has. */
    method RunToHalt(ghost bound: nat) returns (steps: nat, r: Outcome)
      requires Valid() && RunSession(program, View(), bound).1 != Continue
      modifies this`trace, vm, vm.registers
      ensures steps == RunSession(program, old(View()), bound).0 && r == RunSession(program, old(View()), bound).1
      ensures !r.Panicked? ==> View() == RunSession(program, old(View()), bound).2
    {
      hide StepSession;
      steps := 0;
      ghost var left := bound;
      ghost var all := RunSession(program, View(), bound);
      while true
        invariant var rest := RunSession(program, View(), left); rest.1 != Continue && all == (steps + rest.0, rest.1, rest.2)
        decreases left
      {
        r := StepOnce();
        steps := steps + 1;
        if r != Continue {
          return;
        }
        left := left - 1;
      }
    }

    /** Steps past a breakpoint; debug mode is on afterwards. */
    method ResumeOnce() returns (r: Outcome)
      requires Valid()
      modifies this`trace, this`debugMode, vm, vm.registers
      ensures r == ResumeSession(program, old(View())).0
      ensures !r.Panicked? ==> View() == ResumeSession(program, old(View())).1
    {
      hide StepSession;
      debugMode := false;
      assert View() == old(View()).(debug := false);
      r := StepOnce();
      debugMode := true;
    }

    method SetDebug(on: bool)
      requires Valid()
      modifies this`debugMode
      ensures Some(View()) == Perform(program, old(View()), if on then Enable else Disable)
    {
      debugMode := on;
    }

    method AddBreakpointAt(at: nat) returns (added: bool)
      requires Valid()
      modifies this`breakpoints
      ensures Some(View()) == Perform(program, old(View()), AddBreakpoint(at)) && added == (at !in old(breakpoints))
    {
      added := at !in breakpoints;
      breakpoints := breakpoints + {at};
    }

    method RemoveBreakpointAt(at: nat) returns (removed: bool)
      requires Valid()
      modifies this`breakpoints
      ensures Some(View()) == Perform(program, old(View()), RemoveBreakpoint(at)) && removed == (at in old(breakpoints))
    {
      removed := at in breakpoints;
      breakpoints := breakpoints - {at};
    }

    /** Resets the machine; breakpoints, trace and debug mode survive. */
    method ResetMachine()
      requires Valid()
      modifies vm, vm.registers
      ensures View() == old(View()).(vm := Reset(old(View()).vm))
    {
      vm.ResetAll();
    }
  }
}

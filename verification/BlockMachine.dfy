/**
 The function blocks inside the machine: in any run of any programs, with resets and
 arbitrary register writes between instructions, each block goes through exactly the
 scans of the instructions that address it, whatever the other blocks do.
 */
module BlockMachine {
  import opened Options
  import opened Values
  import opened Blocks
  import opened Machine
  import Arrays
  import opened BlockHistory

  /** States of a machine in time: between two states either one instruction has been executed,
      or something outside the block tables has changed (a reset, a register, the cycle time). */
  ghost predicate Trace(states: seq<Vm>, log: seq<Option<Instruction>>) {
    && |states| == |log| + 1
    && forall j :: 0 <= j < |log| ==> Follows(states[j], log[j], states[j + 1])
  }

  ghost predicate Follows(before: Vm, executed: Option<Instruction>, after: Vm) {
    match executed
    case None => after.tables == before.tables
    case Some(inst) =>
      var r := Execute(before, inst);
      !r.Faulted? && after.tables == r.vm.tables
  }

  /** A reset is such a change. */
  lemma ResetFollows(vm: Vm)
    ensures Follows(vm, None, Reset(vm))
  {
  }

  /** Every run of a program that does not fault gives a trace from its first to its last state. */
  lemma {:induction false} RunIsTrace(p: Program, vm: Vm, k: nat) returns (states: seq<Vm>, log: seq<Option<Instruction>>)
    requires !Run(p, vm, k).Faulted?
    ensures Trace(states, log) && states[0] == vm && states[|log|] == Run(p, vm, k).vm
    ensures forall j :: 0 <= j < |log| ==> log[j].Some? && log[j].value in p
    decreases k
  {
    hide Step, Follows;
    if k == 0 {
      states, log := [vm], [];
    } else {
      var r := Step(p, vm);
      StepFollows(p, vm);
      var rest, more;
      if r.Running? {
        rest, more := RunIsTrace(p, r.vm, k - 1);
      } else {
        rest, more := [r.vm], [];
      }
      states, log := [vm] + rest, [Some(p[vm.ip])] + more;
      forall j | 0 <= j < |log|
        ensures Follows(states[j], log[j], states[j + 1])
      {
        if j > 0 {
          assert Follows(rest[j - 1], more[j - 1], rest[j]);
        }
      }
    }
  }

  lemma StepFollows(p: Program, vm: Vm)
    requires !Step(p, vm).Faulted?
    ensures vm.ip < |p| && Follows(vm, Some(p[vm.ip]), Step(p, vm).vm)
  {
    hide Execute;
  }

  lemma TracePrefix(states: seq<Vm>, log: seq<Option<Instruction>>)
    requires Trace(states, log) && log != []
    ensures var k := |log| - 1; Trace(states[..k + 1], log[..k]) && states[..k + 1][k] == states[k] && Follows(states[k], log[k], states[k + 1])
  {
    hide Follows;
    var k := |log| - 1;
    forall j | 0 <= j < k
      ensures Follows(states[..k + 1][j], log[..k][j], states[..k + 1][j + 1])
    {
      assert Follows(states[j], log[j], states[j + 1]);
    }
  }

  predicate BlockOpcode(op: Opcode) {
    op in {TimerRun, ReadTimer, CounterRun, ReadCounter, SrRun, ReadSr, EdgeRun, ReadEdge}
  }

  /** Instructions without a function block leave all block tables alone. */
  lemma PlainKeepsTables(vm: Vm, inst: Instruction)
    requires !Execute(vm, inst).Faulted? && !BlockOpcode(inst.opcode)
    ensures Execute(vm, inst).vm.tables == vm.tables
  {
    hide Arith, DivideFault, DivideOverflow, Compare, Complement, Negate, Arrays.Index, Arrays.SetIndex, Arrays.AsIndex;
  }

  // ----- timers -----

  function TimerAt(tables: Tables, i: u32): Timer { if i < |tables.timers| then tables.timers[i] else FreshTimer(Ton) }

  /** The instruction scans timer `i`. */
  predicate RunsTimer(inst: Instruction, i: u32) {
    && inst.opcode == TimerRun && |inst.operands| >= 3 && inst.operands[0] == Immediate(U32(i))
    && inst.operands[1].Register? && inst.operands[2].Immediate? && (inst.operands[2].v.U32? || inst.operands[2].v.S32?)
  }

  /** Equal up to kind and preset, which every scan sets anew. */
  predicate SameTimer(a: Timer, b: Timer) { a.input == b.input && a.elapsed == b.elapsed && a.q == b.q }

  lemma TimerUntouched(vm: Vm, inst: Instruction, i: u32)
    requires !Execute(vm, inst).Faulted? && inst.opcode != TimerRun && inst.opcode != ReadTimer
    ensures Execute(vm, inst).vm.tables.timers == vm.tables.timers
  {
    if BlockOpcode(inst.opcode) {
      hide TimerScan, CounterScan, BistableScan, EdgeScan, Grow;
    } else {
      hide Execute;
      PlainKeepsTables(vm, inst);
    }
  }

  lemma TimerScanned(vm: Vm, inst: Instruction, i: u32)
    requires !Execute(vm, inst).Faulted? && RunsTimer(inst, i)
    ensures Readable(inst.operands[1])
    ensures SameTimer(TimerAt(Execute(vm, inst).vm.tables, i), TimerScan(TimerAt(vm.tables, i), TimerKindOf(inst.operands), Preset(inst.operands[2].v), ReadBool(vm, inst.operands[1]), vm.cycleTime))
  {
    hide TimerScan;
    TimerBlank(vm, inst, i);
  }

  lemma TimerBlank(vm: Vm, inst: Instruction, i: u32)
    requires !Execute(vm, inst).Faulted? && RunsTimer(inst, i)
    ensures Readable(inst.operands[1])
    ensures SameTimer(TimerScan(Grow(vm.tables.timers, i, FreshTimer(TimerKindOf(inst.operands)))[i], TimerKindOf(inst.operands), Preset(inst.operands[2].v), ReadBool(vm, inst.operands[1]), vm.cycleTime),
                      TimerScan(TimerAt(vm.tables, i), TimerKindOf(inst.operands), Preset(inst.operands[2].v), ReadBool(vm, inst.operands[1]), vm.cycleTime))
  {
  }

  lemma TimerKept(vm: Vm, inst: Instruction, i: u32)
    requires !Execute(vm, inst).Faulted? && !RunsTimer(inst, i)
    ensures SameTimer(TimerAt(Execute(vm, inst).vm.tables, i), TimerAt(vm.tables, i))
  {
    if inst.opcode == TimerRun || inst.opcode == ReadTimer {
      hide TimerScan;
    } else {
      TimerUntouched(vm, inst, i);
      hide Execute;
    }
  }

  /** The operand is a register that holds TRUE. */
  predicate IsOn(vm: Vm, op: Operand) { op.Register? && op.r < 16 && vm.regs[op.r] == Bool(true) }

  lemma OnIsRead(vm: Vm, op: Operand)
    requires Readable(op)
    ensures ReadBool(vm, op) == IsOn(vm, op)
  {
  }

  function TickOf(vm: Vm, inst: Instruction): Tick {
    if |inst.operands| < 3 then Tick(false, 0) else
    Tick(IsOn(vm, inst.operands[1]), vm.cycleTime)
  }

  /** The inputs of timer `i` over a trace. */
  function TimerInputs(states: seq<Vm>, log: seq<Option<Instruction>>, i: u32): seq<Tick>
    requires |states| == |log| + 1
    decreases |log|
  {
    if log == [] then []
    else
      var k := |log| - 1;
      var h := TimerInputs(states[..k + 1], log[..k], i);
      if log[k].Some? && RunsTimer(log[k].value, i) then h + [TickOf(states[k], log[k].value)] else h
  }

  /** The fourth operand of a TimerRun: 1 for TOF, 2 for TP, anything else or nothing for TON; the third
      is the preset in milliseconds, a negative one counting from 2^64 downwards. */
  predicate TimerOperands(ops: seq<Operand>, kind: TimerKind, preset: u64)
    requires |ops| >= 3 && ops[2].Immediate?
  {
    var off, pulse := |ops| >= 4 && ops[3] == Immediate(U32(1)), |ops| >= 4 && ops[3] == Immediate(U32(2));
    && (kind == Tof <==> off) && (kind == Tp <==> pulse) && (kind == Ton <==> !off && !pulse)
    && (ops[2].v.U32? ==> preset == ops[2].v.u32)
    && (ops[2].v.S32? ==> preset == ops[2].v.s32 % 0x1_0000_0000_0000_0000)
  }

  lemma TimerOperandsMean(ops: seq<Operand>, kind: TimerKind, preset: u64)
    requires |ops| >= 3 && ops[2].Immediate? && (ops[2].v.U32? || ops[2].v.S32?) && TimerOperands(ops, kind, preset)
    ensures TimerKindOf(ops) == kind && Preset(ops[2].v) == preset
  {
  }

  /** Every scan of timer `i` in the log has the same parameters. */
  predicate FixedTimer(log: seq<Option<Instruction>>, i: u32, kind: TimerKind, preset: u64) {
    forall j :: 0 <= j < |log| && log[j].Some? && RunsTimer(log[j].value, i) ==> TimerOperands(log[j].value.operands, kind, preset)
  }

  lemma TimerStep(before: Vm, executed: Option<Instruction>, after: Vm, i: u32, kind: TimerKind, preset: u64, t: Timer)
    requires Follows(before, executed, after) && FixedTimer([executed], i, kind, preset) && SameTimer(TimerAt(before.tables, i), t)
    ensures if executed.Some? && RunsTimer(executed.value, i)
            then SameTimer(TimerAt(after.tables, i), TimerScan(t, kind, preset, TickOf(before, executed.value).input, TickOf(before, executed.value).cycle))
            else SameTimer(TimerAt(after.tables, i), t)
  {
    hide Execute, TimerScan;
    if executed.Some? {
      if RunsTimer(executed.value, i) {
        TimerScanned(before, executed.value, i);
        assert [executed][0] == executed;
        TimerOperandsMean(executed.value.operands, kind, preset);
        OnIsRead(before, executed.value.operands[1]);
        TimerCongruent(TimerAt(before.tables, i), t, kind, preset, TickOf(before, executed.value));
      } else {
        TimerKept(before, executed.value, i);
      }
    }
  }

  /** Timer `i` is exactly the timer of its own inputs. */
  lemma {:induction false} TimerIsolated(states: seq<Vm>, log: seq<Option<Instruction>>, i: u32, kind: TimerKind, preset: u64)
    requires Trace(states, log) && states[0].tables.timers == [] && FixedTimer(log, i, kind, preset)
    ensures SameTimer(TimerAt(states[|log|].tables, i), TimerAfter(kind, preset, TimerInputs(states, log, i)))
    decreases |log|
  {
    hide Execute, Follows, RunsTimer, TimerAt, TickOf, SameTimer, TimerScan;
    if log == [] {
      TimerStart(states[0].tables, i, kind, preset);
    } else {
      var k := |log| - 1;
      TracePrefix(states, log);
      TimerIsolated(states[..k + 1], log[..k], i, kind, preset);
      var h := TimerInputs(states[..k + 1], log[..k], i);
      TimerStep(states[k], log[k], states[k + 1], i, kind, preset, TimerAfter(kind, preset, h));
      if log[k].Some? && RunsTimer(log[k].value, i) {
        var x := TickOf(states[k], log[k].value);
        assert (h + [x])[..|h|] == h;
      }
    }
  }

  lemma TimerStart(tables: Tables, i: u32, kind: TimerKind, preset: u64)
    requires tables.timers == []
    ensures SameTimer(TimerAt(tables, i), TimerAfter(kind, preset, []))
  {
  }

  lemma TimerCongruent(a: Timer, b: Timer, kind: TimerKind, preset: u64, x: Tick)
    requires SameTimer(a, b)
    ensures SameTimer(TimerScan(a, kind, preset, x.input, x.cycle), TimerScan(b, kind, preset, x.input, x.cycle))
  {
  }

  // ----- counters -----

  function CounterAt(tables: Tables, i: u32): Counter { if i < |tables.counters| then tables.counters[i] else FreshCounter() }

  /** The instruction scans counter `i`. */
  predicate RunsCounter(inst: Instruction, i: u32) {
    && inst.opcode == CounterRun && |inst.operands| >= 5 && inst.operands[0] == Immediate(U32(i))
    && inst.operands[1].Register? && inst.operands[2].Register? && IsIndex(inst.operands[3])
  }

  /** Equal up to the parameters that every scan sets anew. */
  predicate SameCounter(a: Counter, b: Counter) { a.cu == b.cu && a.cd == b.cd && a.cv == b.cv && a.q == b.q && a.qu == b.qu && a.qd == b.qd }

  lemma CounterUntouched(vm: Vm, inst: Instruction, i: u32)
    requires !Execute(vm, inst).Faulted? && inst.opcode != CounterRun && inst.opcode != ReadCounter
    ensures Execute(vm, inst).vm.tables.counters == vm.tables.counters
  {
    if BlockOpcode(inst.opcode) {
      hide TimerScan, CounterScan, BistableScan, EdgeScan, Grow;
    } else {
      hide Execute;
      PlainKeepsTables(vm, inst);
    }
  }

  lemma CounterScanned(vm: Vm, inst: Instruction, i: u32)
    requires !Execute(vm, inst).Faulted? && RunsCounter(inst, i)
    ensures Readable(inst.operands[1]) && Readable(inst.operands[2])
    ensures SameCounter(CounterAt(Execute(vm, inst).vm.tables, i), CounterScan(CounterAt(vm.tables, i), CounterKindOf(inst.operands[4]), inst.operands[3].v.u32, ReadBool(vm, inst.operands[1]), ReadBool(vm, inst.operands[2])))
  {
    hide CounterScan;
    CounterBlank(vm, inst, i);
  }

  lemma CounterBlank(vm: Vm, inst: Instruction, i: u32)
    requires !Execute(vm, inst).Faulted? && RunsCounter(inst, i)
    ensures Readable(inst.operands[1]) && Readable(inst.operands[2])
  {
  }

  lemma CounterKept(vm: Vm, inst: Instruction, i: u32)
    requires !Execute(vm, inst).Faulted? && !RunsCounter(inst, i)
    ensures SameCounter(CounterAt(Execute(vm, inst).vm.tables, i), CounterAt(vm.tables, i))
  {
    if inst.opcode == CounterRun || inst.opcode == ReadCounter {
      hide CounterScan;
    } else {
      CounterUntouched(vm, inst, i);
      hide Execute;
    }
  }

  function CountOf(vm: Vm, inst: Instruction): BlockHistory.Count {
    if |inst.operands| < 5 then BlockHistory.Count.Count(false, false) else
    BlockHistory.Count.Count(IsOn(vm, inst.operands[1]), IsOn(vm, inst.operands[2]))
  }

  /** The inputs of counter `i` over a trace. */
  function CounterInputs(states: seq<Vm>, log: seq<Option<Instruction>>, i: u32): seq<BlockHistory.Count>
    requires |states| == |log| + 1
    decreases |log|
  {
    if log == [] then []
    else
      var k := |log| - 1;
      var h := CounterInputs(states[..k + 1], log[..k], i);
      if log[k].Some? && RunsCounter(log[k].value, i) then h + [CountOf(states[k], log[k].value)] else h
  }

  /** The fifth operand of a CounterRun: 1 for CTD, larger for CTUD, 0 or no number for CTU; the fourth
      is the preset. */
  predicate CounterOperands(ops: seq<Operand>, kind: CounterKind, pv: u32)
    requires |ops| >= 5
  {
    var down := ops[4] == Immediate(U32(1));
    var both := ops[4].Immediate? && ops[4].v.U32? && ops[4].v.u32 >= 2;
    && (kind == Ctd <==> down) && (kind == Ctud <==> both) && (kind == Ctu <==> !down && !both)
    && ops[3] == Immediate(U32(pv))
  }

  lemma CounterOperandsMean(ops: seq<Operand>, kind: CounterKind, pv: u32)
    requires |ops| >= 5 && CounterOperands(ops, kind, pv)
    ensures CounterKindOf(ops[4]) == kind && ops[3] == Immediate(U32(pv))
  {
  }

  /** Every scan of counter `i` in the log has the same parameters. */
  predicate FixedCounter(log: seq<Option<Instruction>>, i: u32, kind: CounterKind, pv: u32) {
    forall j :: 0 <= j < |log| && log[j].Some? && RunsCounter(log[j].value, i) ==> CounterOperands(log[j].value.operands, kind, pv)
  }

  lemma CounterStep(before: Vm, executed: Option<Instruction>, after: Vm, i: u32, kind: CounterKind, pv: u32, t: Counter)
    requires Follows(before, executed, after) && FixedCounter([executed], i, kind, pv) && SameCounter(CounterAt(before.tables, i), t)
    ensures if executed.Some? && RunsCounter(executed.value, i)
            then SameCounter(CounterAt(after.tables, i), CounterScan(t, kind, pv, CountOf(before, executed.value).cu, CountOf(before, executed.value).cd))
            else SameCounter(CounterAt(after.tables, i), t)
  {
    hide Execute, CounterScan;
    if executed.Some? {
      if RunsCounter(executed.value, i) {
        CounterScanned(before, executed.value, i);
        assert [executed][0] == executed;
        CounterOperandsMean(executed.value.operands, kind, pv);
        OnIsRead(before, executed.value.operands[1]);
        OnIsRead(before, executed.value.operands[2]);
        CounterCongruent(CounterAt(before.tables, i), t, kind, pv, CountOf(before, executed.value));
      } else {
        CounterKept(before, executed.value, i);
      }
    }
  }

  /** Counter `i` is exactly the counter of its own inputs. */
  lemma {:induction false} CounterIsolated(states: seq<Vm>, log: seq<Option<Instruction>>, i: u32, kind: CounterKind, pv: u32)
    requires Trace(states, log) && states[0].tables.counters == [] && FixedCounter(log, i, kind, pv)
    ensures SameCounter(CounterAt(states[|log|].tables, i), CounterAfter(kind, pv, CounterInputs(states, log, i)))
    decreases |log|
  {
    hide Execute, Follows, RunsCounter, CounterAt, CountOf, SameCounter, CounterScan;
    if log == [] {
      CounterStart(states[0].tables, i, kind, pv);
    } else {
      var k := |log| - 1;
      TracePrefix(states, log);
      CounterIsolated(states[..k + 1], log[..k], i, kind, pv);
      var h := CounterInputs(states[..k + 1], log[..k], i);
      CounterStep(states[k], log[k], states[k + 1], i, kind, pv, CounterAfter(kind, pv, h));
      if log[k].Some? && RunsCounter(log[k].value, i) {
        var x := CountOf(states[k], log[k].value);
        assert (h + [x])[..|h|] == h;
      }
    }
  }

  lemma CounterStart(tables: Tables, i: u32, kind: CounterKind, pv: u32)
    requires tables.counters == []
    ensures SameCounter(CounterAt(tables, i), CounterAfter(kind, pv, []))
  {
  }

  lemma CounterCongruent(a: Counter, b: Counter, kind: CounterKind, pv: u32, x: BlockHistory.Count)
    requires SameCounter(a, b)
    ensures SameCounter(CounterScan(a, kind, pv, x.cu, x.cd), CounterScan(b, kind, pv, x.cu, x.cd))
  {
  }

  // ----- edge detectors -----

  function EdgeAt(tables: Tables, i: u32): Edge { if i < |tables.edges| then tables.edges[i] else FreshEdge() }

  /** The instruction scans edge detector `i`. */
  predicate RunsEdge(inst: Instruction, i: u32) {
    && inst.opcode == EdgeRun && |inst.operands| >= 3 && inst.operands[0] == Immediate(U32(i))
  }

  /** Equal up to the parameters that every scan sets anew. */
  predicate SameEdge(a: Edge, b: Edge) { a.lastClk == b.lastClk && a.q == b.q }

  lemma EdgeUntouched(vm: Vm, inst: Instruction, i: u32)
    requires !Execute(vm, inst).Faulted? && inst.opcode != EdgeRun && inst.opcode != ReadEdge
    ensures Execute(vm, inst).vm.tables.edges == vm.tables.edges
  {
    if BlockOpcode(inst.opcode) {
      hide TimerScan, CounterScan, BistableScan, EdgeScan, Grow;
    } else {
      hide Execute;
      PlainKeepsTables(vm, inst);
    }
  }

  lemma EdgeScanned(vm: Vm, inst: Instruction, i: u32)
    requires !Execute(vm, inst).Faulted? && RunsEdge(inst, i)
    ensures Readable(inst.operands[1])
    ensures SameEdge(EdgeAt(Execute(vm, inst).vm.tables, i), EdgeScan(EdgeAt(vm.tables, i), EdgeKindOf(inst.operands[2]), ReadBool(vm, inst.operands[1])))
  {
    hide EdgeScan;
    EdgeBlank(vm, inst, i);
  }

  lemma EdgeBlank(vm: Vm, inst: Instruction, i: u32)
    requires !Execute(vm, inst).Faulted? && RunsEdge(inst, i)
    ensures Readable(inst.operands[1])
  {
  }

  lemma EdgeKept(vm: Vm, inst: Instruction, i: u32)
    requires !Execute(vm, inst).Faulted? && !RunsEdge(inst, i)
    ensures SameEdge(EdgeAt(Execute(vm, inst).vm.tables, i), EdgeAt(vm.tables, i))
  {
    if inst.opcode == EdgeRun || inst.opcode == ReadEdge {
      hide EdgeScan;
    } else {
      EdgeUntouched(vm, inst, i);
      hide Execute;
    }
  }

  function ClkOf(vm: Vm, inst: Instruction): bool {
    |inst.operands| >= 3 && IsOn(vm, inst.operands[1])
  }

  /** The inputs of edge detector `i` over a trace. */
  function EdgeInputs(states: seq<Vm>, log: seq<Option<Instruction>>, i: u32): seq<bool>
    requires |states| == |log| + 1
    decreases |log|
  {
    if log == [] then []
    else
      var k := |log| - 1;
      var h := EdgeInputs(states[..k + 1], log[..k], i);
      if log[k].Some? && RunsEdge(log[k].value, i) then h + [ClkOf(states[k], log[k].value)] else h
  }

  /** The third operand of an EdgeRun, modulo 256, is the kind: 0 for R_TRIG, 1 for F_TRIG; no number
      counts as 0. */
  predicate EdgeOperands(ops: seq<Operand>, kind: u8)
    requires |ops| >= 3
  {
    if ops[2].Immediate? && ops[2].v.U32? then kind == ops[2].v.u32 % 256 else kind == 0
  }

  lemma EdgeOperandsMean(ops: seq<Operand>, kind: u8)
    requires |ops| >= 3 && EdgeOperands(ops, kind)
    ensures EdgeKindOf(ops[2]) == kind
  {
  }

  /** Every scan of edge detector `i` in the log has the same parameters. */
  predicate FixedEdge(log: seq<Option<Instruction>>, i: u32, kind: u8) {
    forall j :: 0 <= j < |log| && log[j].Some? && RunsEdge(log[j].value, i) ==> EdgeOperands(log[j].value.operands, kind)
  }

  lemma EdgeStep(before: Vm, executed: Option<Instruction>, after: Vm, i: u32, kind: u8, t: Edge)
    requires Follows(before, executed, after) && FixedEdge([executed], i, kind) && SameEdge(EdgeAt(before.tables, i), t)
    ensures if executed.Some? && RunsEdge(executed.value, i)
            then SameEdge(EdgeAt(after.tables, i), EdgeScan(t, kind, ClkOf(before, executed.value)))
            else SameEdge(EdgeAt(after.tables, i), t)
  {
    hide Execute, EdgeScan;
    if executed.Some? {
      if RunsEdge(executed.value, i) {
        EdgeScanned(before, executed.value, i);
        assert [executed][0] == executed;
        EdgeOperandsMean(executed.value.operands, kind);
        OnIsRead(before, executed.value.operands[1]);
        EdgeCongruent(EdgeAt(before.tables, i), t, kind, ClkOf(before, executed.value));
      } else {
        EdgeKept(before, executed.value, i);
      }
    }
  }

  /** Edge detector `i` is exactly the edge detector of its own inputs. */
  lemma {:induction false} EdgeIsolated(states: seq<Vm>, log: seq<Option<Instruction>>, i: u32, kind: u8)
    requires Trace(states, log) && states[0].tables.edges == [] && FixedEdge(log, i, kind)
    ensures SameEdge(EdgeAt(states[|log|].tables, i), EdgeAfter(kind, EdgeInputs(states, log, i)))
    decreases |log|
  {
    hide Execute, Follows, RunsEdge, EdgeAt, ClkOf, SameEdge, EdgeScan;
    if log == [] {
      EdgeStart(states[0].tables, i, kind);
    } else {
      var k := |log| - 1;
      TracePrefix(states, log);
      EdgeIsolated(states[..k + 1], log[..k], i, kind);
      var h := EdgeInputs(states[..k + 1], log[..k], i);
      EdgeStep(states[k], log[k], states[k + 1], i, kind, EdgeAfter(kind, h));
      if log[k].Some? && RunsEdge(log[k].value, i) {
        var x := ClkOf(states[k], log[k].value);
        assert (h + [x])[..|h|] == h;
      }
    }
  }

  lemma EdgeStart(tables: Tables, i: u32, kind: u8)
    requires tables.edges == []
    ensures SameEdge(EdgeAt(tables, i), EdgeAfter(kind, []))
  {
  }

  lemma EdgeCongruent(a: Edge, b: Edge, kind: u8, x: bool)
    requires SameEdge(a, b)
    ensures SameEdge(EdgeScan(a, kind, x), EdgeScan(b, kind, x))
  {
  }

  // ----- bistables -----

  function BistableAt(tables: Tables, i: u32): Bistable { if i < |tables.bistables| then tables.bistables[i] else FreshBistable(Sr) }

  /** The instruction scans bistable `i`. */
  predicate RunsBistable(inst: Instruction, i: u32) {
    && inst.opcode == SrRun && |inst.operands| >= 4 && inst.operands[0] == Immediate(U32(i))
  }

  /** Equal up to the parameters that every scan sets anew. */
  predicate SameBistable(a: Bistable, b: Bistable) { a.s1 == b.s1 && a.r == b.r && a.q1 == b.q1 && a.q2 == b.q2 }

  lemma BistableUntouched(vm: Vm, inst: Instruction, i: u32)
    requires !Execute(vm, inst).Faulted? && inst.opcode != SrRun && inst.opcode != ReadSr
    ensures Execute(vm, inst).vm.tables.bistables == vm.tables.bistables
  {
    if BlockOpcode(inst.opcode) {
      hide TimerScan, CounterScan, BistableScan, EdgeScan, Grow;
    } else {
      hide Execute;
      PlainKeepsTables(vm, inst);
    }
  }

  lemma BistableScanned(vm: Vm, inst: Instruction, i: u32)
    requires !Execute(vm, inst).Faulted? && RunsBistable(inst, i)
    ensures Readable(inst.operands[1]) && Readable(inst.operands[2])
    ensures SameBistable(BistableAt(Execute(vm, inst).vm.tables, i), BistableScan(BistableAt(vm.tables, i), BistableKindOf(inst.operands[3]), ReadBool(vm, inst.operands[1]), ReadBool(vm, inst.operands[2])))
  {
    hide BistableScan;
    BistableBlank(vm, inst, i);
  }

  lemma BistableBlank(vm: Vm, inst: Instruction, i: u32)
    requires !Execute(vm, inst).Faulted? && RunsBistable(inst, i)
    ensures Readable(inst.operands[1]) && Readable(inst.operands[2])
    ensures var kind := BistableKindOf(inst.operands[3]);
            var s1, r := ReadBool(vm, inst.operands[1]), ReadBool(vm, inst.operands[2]);
            BistableScan(Grow(vm.tables.bistables, i, FreshBistable(kind))[i], kind, s1, r) == BistableScan(BistableAt(vm.tables, i), kind, s1, r)
  {
  }

  lemma BistableKept(vm: Vm, inst: Instruction, i: u32)
    requires !Execute(vm, inst).Faulted? && !RunsBistable(inst, i)
    ensures SameBistable(BistableAt(Execute(vm, inst).vm.tables, i), BistableAt(vm.tables, i))
  {
    if inst.opcode == SrRun || inst.opcode == ReadSr {
      hide BistableScan;
    } else {
      BistableUntouched(vm, inst, i);
      hide Execute;
    }
  }

  function LatchOf(vm: Vm, inst: Instruction): Latch {
    if |inst.operands| < 4 then Latch(false, false) else
    Latch(IsOn(vm, inst.operands[1]), IsOn(vm, inst.operands[2]))
  }

  /** The inputs of bistable `i` over a trace. */
  function BistableInputs(states: seq<Vm>, log: seq<Option<Instruction>>, i: u32): seq<Latch>
    requires |states| == |log| + 1
    decreases |log|
  {
    if log == [] then []
    else
      var k := |log| - 1;
      var h := BistableInputs(states[..k + 1], log[..k], i);
      if log[k].Some? && RunsBistable(log[k].value, i) then h + [LatchOf(states[k], log[k].value)] else h
  }

  /** The fourth operand of an SrRun: 1 for RS, anything else for SR. */
  predicate BistableOperands(ops: seq<Operand>, kind: BistableKind)
    requires |ops| >= 4
  {
    kind == Rs <==> ops[3] == Immediate(U32(1))
  }

  lemma BistableOperandsMean(ops: seq<Operand>, kind: BistableKind)
    requires |ops| >= 4 && BistableOperands(ops, kind)
    ensures BistableKindOf(ops[3]) == kind
  {
  }

  /** Every scan of bistable `i` in the log has the same parameters. */
  predicate FixedBistable(log: seq<Option<Instruction>>, i: u32, kind: BistableKind) {
    forall j :: 0 <= j < |log| && log[j].Some? && RunsBistable(log[j].value, i) ==> BistableOperands(log[j].value.operands, kind)
  }

  lemma BistableStep(before: Vm, executed: Option<Instruction>, after: Vm, i: u32, kind: BistableKind, t: Bistable)
    requires Follows(before, executed, after) && FixedBistable([executed], i, kind) && SameBistable(BistableAt(before.tables, i), t)
    ensures if executed.Some? && RunsBistable(executed.value, i)
            then SameBistable(BistableAt(after.tables, i), BistableScan(t, kind, LatchOf(before, executed.value).s1, LatchOf(before, executed.value).r))
            else SameBistable(BistableAt(after.tables, i), t)
  {
    hide Execute, BistableScan;
    if executed.Some? {
      if RunsBistable(executed.value, i) {
        BistableScanned(before, executed.value, i);
        assert [executed][0] == executed;
        BistableOperandsMean(executed.value.operands, kind);
        OnIsRead(before, executed.value.operands[1]);
        OnIsRead(before, executed.value.operands[2]);
        BistableCongruent(BistableAt(before.tables, i), t, kind, LatchOf(before, executed.value));
      } else {
        BistableKept(before, executed.value, i);
      }
    }
  }

  /** Bistable `i` is exactly the bistable of its own inputs. */
  lemma {:induction false} BistableIsolated(states: seq<Vm>, log: seq<Option<Instruction>>, i: u32, kind: BistableKind)
    requires Trace(states, log) && states[0].tables.bistables == [] && FixedBistable(log, i, kind)
    ensures SameBistable(BistableAt(states[|log|].tables, i), BistableAfter(kind, BistableInputs(states, log, i)))
    decreases |log|
  {
    hide Execute, Follows, RunsBistable, BistableAt, LatchOf, SameBistable, BistableScan;
    if log == [] {
      BistableStart(states[0].tables, i, kind);
    } else {
      var k := |log| - 1;
      TracePrefix(states, log);
      BistableIsolated(states[..k + 1], log[..k], i, kind);
      var h := BistableInputs(states[..k + 1], log[..k], i);
      BistableStep(states[k], log[k], states[k + 1], i, kind, BistableAfter(kind, h));
      if log[k].Some? && RunsBistable(log[k].value, i) {
        var x := LatchOf(states[k], log[k].value);
        assert (h + [x])[..|h|] == h;
      }
    }
  }

  lemma BistableStart(tables: Tables, i: u32, kind: BistableKind)
    requires tables.bistables == []
    ensures SameBistable(BistableAt(tables, i), BistableAfter(kind, []))
  {
  }

  lemma BistableCongruent(a: Bistable, b: Bistable, kind: BistableKind, x: Latch)
    requires SameBistable(a, b)
    ensures SameBistable(BistableScan(a, kind, x.s1, x.r), BistableScan(b, kind, x.s1, x.r))
  {
  }

  function EdgeKindOf(op: Operand): u8 { if IsIndex(op) then WrapU8(op.v.u32) else 0 }

  // ----- reading blocks -----

  /** In any run, reading a timer gives its closed form; the elapsed time comes through 32 bits, exactly
      when it fits in them, which it always does when the preset fits. */
  lemma ReadTimerExact(states: seq<Vm>, log: seq<Option<Instruction>>, i: u32, kind: TimerKind, preset: u64, q: u8, et: u8)
    requires Trace(states, log) && states[0].tables.timers == [] && FixedTimer(log, i, kind, preset)
    requires q < REGISTER_COUNT && et < REGISTER_COUNT && q != et
    ensures var t := TimerAfter(kind, preset, TimerInputs(states, log, i));
            var r := Execute(states[|log|], Instruction(ReadTimer, [Immediate(U32(i)), Register(q), Register(et)]));
            && r.Running? && r.vm.regs[q] == Bool(t.q) && r.vm.regs[et].U32?
            && (r.vm.regs[et].u32 == t.elapsed <==> t.elapsed < TWO_32)
            && (preset < TWO_32 ==> r.vm.regs[et].u32 == t.elapsed)
  {
    hide TimerAfter, TimerInputs, FixedTimer, Follows;
    TimerIsolated(states, log, i, kind, preset);
    ElapsedWithinPreset(kind, preset, TimerInputs(states, log, i));
    ReadTimerAt(states[|log|], i, q, et);
    hide Execute;
  }

  lemma ReadTimerAt(vm: Vm, i: u32, q: u8, et: u8)
    requires q < REGISTER_COUNT && et < REGISTER_COUNT && q != et
    ensures var r := Execute(vm, Instruction(ReadTimer, [Immediate(U32(i)), Register(q), Register(et)]));
            r.Running? && r.vm.regs[q] == Bool(TimerAt(vm.tables, i).q) && r.vm.regs[et] == U32(WrapU32(TimerAt(vm.tables, i).elapsed))
  {
  }

  /** In any run, reading a counter gives Q and CV of the counter of its own inputs. */
  lemma ReadCounterExact(states: seq<Vm>, log: seq<Option<Instruction>>, i: u32, kind: CounterKind, pv: u32, q: u8, cv: u8)
    requires Trace(states, log) && states[0].tables.counters == [] && FixedCounter(log, i, kind, pv)
    requires q < REGISTER_COUNT && cv < REGISTER_COUNT && q != cv
    ensures var c := CounterAfter(kind, pv, CounterInputs(states, log, i));
            var r := Execute(states[|log|], Instruction(ReadCounter, [Immediate(U32(i)), Register(q), Register(cv)]));
            r.Running? && r.vm.regs[q] == Bool(c.q) && r.vm.regs[cv] == U32(c.cv)
  {
    hide CounterAfter, CounterInputs, FixedCounter, Follows;
    CounterIsolated(states, log, i, kind, pv);
    ReadCounterAt(states[|log|], i, q, cv);
    hide Execute;
  }

  lemma ReadCounterAt(vm: Vm, i: u32, q: u8, cv: u8)
    requires q < REGISTER_COUNT && cv < REGISTER_COUNT && q != cv
    ensures var r := Execute(vm, Instruction(ReadCounter, [Immediate(U32(i)), Register(q), Register(cv)]));
            r.Running? && r.vm.regs[q] == Bool(CounterAt(vm.tables, i).q) && r.vm.regs[cv] == U32(CounterAt(vm.tables, i).cv)
  {
  }

  /** In any run, reading a bistable gives Q1 and Q2 of the bistable of its own inputs. */
  lemma ReadBistableExact(states: seq<Vm>, log: seq<Option<Instruction>>, i: u32, kind: BistableKind, q1: u8, q2: u8)
    requires Trace(states, log) && states[0].tables.bistables == [] && FixedBistable(log, i, kind)
    requires q1 < REGISTER_COUNT && q2 < REGISTER_COUNT && q1 != q2
    ensures var b := BistableAfter(kind, BistableInputs(states, log, i));
            var r := Execute(states[|log|], Instruction(ReadSr, [Immediate(U32(i)), Register(q1), Register(q2)]));
            r.Running? && r.vm.regs[q1] == Bool(b.q1) && r.vm.regs[q2] == Bool(b.q2)
  {
    hide BistableAfter, BistableInputs, FixedBistable, Follows;
    BistableIsolated(states, log, i, kind);
    ReadBistableAt(states[|log|], i, q1, q2);
    hide Execute;
  }

  lemma ReadBistableAt(vm: Vm, i: u32, q1: u8, q2: u8)
    requires q1 < REGISTER_COUNT && q2 < REGISTER_COUNT && q1 != q2
    ensures var r := Execute(vm, Instruction(ReadSr, [Immediate(U32(i)), Register(q1), Register(q2)]));
            r.Running? && r.vm.regs[q1] == Bool(BistableAt(vm.tables, i).q1) && r.vm.regs[q2] == Bool(BistableAt(vm.tables, i).q2)
  {
  }

  /** In any run, reading an edge detector gives the pulse of the detector of its own inputs. */
  lemma ReadEdgeExact(states: seq<Vm>, log: seq<Option<Instruction>>, i: u32, kind: u8, q: u8)
    requires Trace(states, log) && states[0].tables.edges == [] && FixedEdge(log, i, kind) && q < REGISTER_COUNT
    ensures var e := EdgeAfter(kind, EdgeInputs(states, log, i));
            var r := Execute(states[|log|], Instruction(ReadEdge, [Immediate(U32(i)), Register(q)]));
            r.Running? && r.vm.regs[q] == Bool(e.q)
  {
    hide EdgeAfter, EdgeInputs, FixedEdge, Follows;
    EdgeIsolated(states, log, i, kind);
    ReadEdgeAt(states[|log|], i, q);
    hide Execute;
  }

  lemma ReadEdgeAt(vm: Vm, i: u32, q: u8)
    requires q < REGISTER_COUNT
    ensures var r := Execute(vm, Instruction(ReadEdge, [Immediate(U32(i)), Register(q)]));
            r.Running? && r.vm.regs[q] == Bool(EdgeAt(vm.tables, i).q)
  {
  }
}

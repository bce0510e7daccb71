/**
 What a program reads from its function blocks, in terms of the inputs the machine has
 given them: the block that the literal kind operand of its scans stands for, whatever
 else the machine executes in between.
 */
module BlockReadings {
  import opened Options
  import opened Values
  import opened Blocks
  import opened Machine
  import opened BlockHistory
  import opened BlockMachine

  /** The machine after reading timer `i` into two registers, with Q in the first and ET in the second. */
  ghost predicate TimerReads(vm: Vm, i: u32, q: u8, et: u8, on: bool, elapsed: nat) {
    var r := Execute(vm, Instruction(ReadTimer, [Immediate(U32(i)), Register(q), Register(et)]));
    r.Running? && q < 16 && et < 16 && r.vm.regs[q] == Bool(on) && r.vm.regs[et] == U32(elapsed % 0x1_0000_0000)
  }

  lemma {:induction false} TimerReadsExact(states: seq<Vm>, log: seq<Option<Instruction>>, i: u32, kind: TimerKind, preset: u64, q: u8, et: u8)
    requires Trace(states, log) && states[0].tables.timers == [] && FixedTimer(log, i, kind, preset) && q < 16 && et < 16 && q != et
    ensures var t := TimerAfter(kind, preset, TimerInputs(states, log, i));
            TimerReads(states[|log|], i, q, et, t.q, t.elapsed)
  {
    hide TimerAfter, TimerInputs, FixedTimer, Follows, TimerAt;
    TimerIsolated(states, log, i, kind, preset);
    ReadTimerAt(states[|log|], i, q, et);
    hide Execute;
  }

  /** A timer whose scans carry no kind operand, or none that is 1 or 2, reads as TON: ET is the time its
      input has been on, capped at the preset, and Q says that it has reached the preset. */
  lemma {:induction false} OnDelayRead(states: seq<Vm>, log: seq<Option<Instruction>>, i: u32, preset: u64, q: u8, et: u8)
    requires Trace(states, log) && states[0].tables.timers == [] && FixedTimer(log, i, Ton, preset) && q < 16 && et < 16 && q != et
    ensures var h := TimerInputs(states, log, i);
            TimerReads(states[|log|], i, q, et, LastInput(h) && RunTime(h, true) >= preset, Min(RunTime(h, true), preset))
  {
    hide TimerReads, TimerAfter, TimerInputs, FixedTimer, Follows;
    TimerReadsExact(states, log, i, Ton, preset, q, et);
    OnDelay(preset, TimerInputs(states, log, i));
  }

  /** A timer whose scans carry kind 1 reads as TOF: once its input has been on, Q stays on until the input
      has been off for the preset, and ET is the time it has been off, capped at the preset. */
  lemma {:induction false} OffDelayRead(states: seq<Vm>, log: seq<Option<Instruction>>, i: u32, preset: u64, q: u8, et: u8)
    requires Trace(states, log) && states[0].tables.timers == [] && FixedTimer(log, i, Tof, preset) && q < 16 && et < 16 && q != et
    ensures var h := TimerInputs(states, log, i);
            TimerReads(states[|log|], i, q, et, EverTrue(h) && (LastInput(h) || RunTime(h, false) < preset),
                       if EverTrue(h) then Min(RunTime(h, false), preset) else 0)
  {
    hide TimerReads, TimerAfter, TimerInputs, FixedTimer, Follows, EverTrue;
    TimerReadsExact(states, log, i, Tof, preset, q, et);
    OffDelay(preset, TimerInputs(states, log, i));
  }

  /** A timer whose scans carry kind 2 reads as TP: Q is on while the input has stayed on since its rising
      edge for less than the preset. */
  lemma {:induction false} PulseRead(states: seq<Vm>, log: seq<Option<Instruction>>, i: u32, preset: u64, q: u8, et: u8)
    requires Trace(states, log) && states[0].tables.timers == [] && FixedTimer(log, i, Tp, preset) && q < 16 && et < 16 && q != et
    ensures var h := TimerInputs(states, log, i);
            TimerReads(states[|log|], i, q, et, LastInput(h) && RunTime(h, true) < preset, Min(PulseTime(h), preset))
  {
    hide TimerReads, TimerAfter, TimerInputs, FixedTimer, Follows;
    TimerReadsExact(states, log, i, Tp, preset, q, et);
    Pulse(preset, TimerInputs(states, log, i));
  }

  /** The machine after reading counter `i` into two registers. */
  ghost predicate CounterReads(vm: Vm, i: u32, q: u8, cv: u8, on: bool, count: nat) {
    var r := Execute(vm, Instruction(ReadCounter, [Immediate(U32(i)), Register(q), Register(cv)]));
    r.Running? && q < 16 && cv < 16 && count < 0x1_0000_0000 && r.vm.regs[q] == Bool(on) && r.vm.regs[cv] == U32(count)
  }

  lemma {:induction false} CounterReadsExact(states: seq<Vm>, log: seq<Option<Instruction>>, i: u32, kind: CounterKind, pv: u32, q: u8, cv: u8)
    requires Trace(states, log) && states[0].tables.counters == [] && FixedCounter(log, i, kind, pv) && q < 16 && cv < 16 && q != cv
    ensures var c := CounterAfter(kind, pv, CounterInputs(states, log, i));
            CounterReads(states[|log|], i, q, cv, c.q, c.cv)
  {
    hide CounterAfter, CounterInputs, FixedCounter, Follows;
    ReadCounterExact(states, log, i, kind, pv, q, cv);
  }

  /** A counter whose scans carry kind 0, or no number, reads as CTU: the rising edges of CU, capped at PV. */
  lemma {:induction false} CountUpRead(states: seq<Vm>, log: seq<Option<Instruction>>, i: u32, pv: u32, q: u8, cv: u8)
    requires Trace(states, log) && states[0].tables.counters == [] && FixedCounter(log, i, Ctu, pv) && pv < 0xFFFF_FFFF
    requires q < 16 && cv < 16 && q != cv
    ensures var h := CounterInputs(states, log, i);
            CounterReads(states[|log|], i, q, cv, h != [] && UpEdges(h) >= pv, Min(UpEdges(h), pv))
  {
    hide CounterReads, CounterAfter, CounterInputs, FixedCounter, Follows;
    CounterReadsExact(states, log, i, Ctu, pv, q, cv);
    CountUp(pv, CounterInputs(states, log, i));
  }

  /** A counter whose scans carry kind 1 reads as CTD, which without a load input stays at zero. */
  lemma {:induction false} CountDownRead(states: seq<Vm>, log: seq<Option<Instruction>>, i: u32, pv: u32, q: u8, cv: u8)
    requires Trace(states, log) && states[0].tables.counters == [] && FixedCounter(log, i, Ctd, pv)
    requires q < 16 && cv < 16 && q != cv
    ensures CounterReads(states[|log|], i, q, cv, CounterInputs(states, log, i) != [], 0)
  {
    hide CounterReads, CounterAfter, CounterInputs, FixedCounter, Follows;
    CounterReadsExact(states, log, i, Ctd, pv, q, cv);
    CountDown(pv, CounterInputs(states, log, i));
  }

  /** A counter whose scans carry a larger kind reads as CTUD: while neither end is hit, the balance of edges. */
  lemma {:induction false} CountBalanceRead(states: seq<Vm>, log: seq<Option<Instruction>>, i: u32, pv: u32, q: u8, cv: u8)
    requires Trace(states, log) && states[0].tables.counters == [] && FixedCounter(log, i, Ctud, pv)
    requires q < 16 && cv < 16 && q != cv && Unclamped(pv, CounterInputs(states, log, i))
    ensures var h := CounterInputs(states, log, i);
            && UpEdges(h) >= DownEdges(h)
            && CounterReads(states[|log|], i, q, cv, h != [] && UpEdges(h) - DownEdges(h) == pv, UpEdges(h) - DownEdges(h))
  {
    hide CounterReads, CounterAfter, CounterInputs, FixedCounter, Follows;
    CounterReadsExact(states, log, i, Ctud, pv, q, cv);
    CountBalance(pv, CounterInputs(states, log, i));
    CountUpDown(pv, CounterInputs(states, log, i));
    NoScanNoCount(Ctud, pv);
  }

  lemma NoScanNoCount(kind: CounterKind, pv: u32)
    ensures !CounterAfter(kind, pv, []).q && UpEdges([]) == DownEdges([]) == 0
  {
  }

  /** A bistable whose scans carry kind 1 lets R win, any other lets S1 win: Q1 is on when some scan has set
      it and none reset it since, Q2 when some scan has reset it and none set it since. */
  lemma {:induction false} BistableRead(states: seq<Vm>, log: seq<Option<Instruction>>, i: u32, kind: BistableKind, q1: u8, q2: u8)
    requires Trace(states, log) && states[0].tables.bistables == [] && FixedBistable(log, i, kind) && q1 < 16 && q2 < 16 && q1 != q2
    ensures var h := BistableInputs(states, log, i);
            var r := Execute(states[|log|], Instruction(ReadSr, [Immediate(U32(i)), Register(q1), Register(q2)]));
            && r.Running?
            && r.vm.regs[q1] == Bool(SetSince(kind, h)) && r.vm.regs[q2] == Bool(ResetSince(kind, h))
  {
    hide *;
    TraceLengths(states, log);
    ReadBistableExact(states, log, i, kind, q1, q2);
    SinceIs(kind, BistableInputs(states, log, i));
    BistableRemembers(kind, BistableInputs(states, log, i));
    BistableRemembersReset(kind, BistableInputs(states, log, i));
  }

  lemma TraceLengths(states: seq<Vm>, log: seq<Option<Instruction>>)
    requires Trace(states, log)
    ensures |states| == |log| + 1 && REGISTER_COUNT == 16
  {
    hide Follows;
  }

  lemma SinceIs(kind: BistableKind, h: seq<Latch>)
    ensures SetSince(kind, h) <==> SetAndNotResetSince(kind, h)
    ensures ResetSince(kind, h) <==> ResetAndNotSetSince(kind, h)
  {
    assert forall x :: (SetsOutput(kind, x) <==> Sets(kind, x)) && (ResetsOutput(kind, x) <==> Resets(kind, x));
  }

  ghost predicate SetSince(kind: BistableKind, h: seq<Latch>) {
    exists k :: 0 <= k < |h| && SetsOutput(kind, h[k]) && forall j :: k < j < |h| ==> !ResetsOutput(kind, h[j])
  }

  ghost predicate ResetSince(kind: BistableKind, h: seq<Latch>) {
    exists k :: 0 <= k < |h| && ResetsOutput(kind, h[k]) && forall j :: k < j < |h| ==> !SetsOutput(kind, h[j])
  }

  predicate SetsOutput(kind: BistableKind, x: Latch) { if kind == Rs then x.s1 && !x.r else x.s1 }
  predicate ResetsOutput(kind: BistableKind, x: Latch) { if kind == Rs then x.r else x.r && !x.s1 }

  /** An edge detector whose scans carry kind 0 reads TRUE exactly when its input has just risen, one with
      kind 1 when it has just fallen; before the first scan the input counts as FALSE. */
  lemma {:induction false} EdgeRead(states: seq<Vm>, log: seq<Option<Instruction>>, i: u32, kind: u8, q: u8)
    requires Trace(states, log) && states[0].tables.edges == [] && FixedEdge(log, i, kind) && q < 16
    ensures var h := EdgeInputs(states, log, i);
            var r := Execute(states[|log|], Instruction(ReadEdge, [Immediate(U32(i)), Register(q)]));
            var n := |h|;
            && r.Running? && r.vm.regs[q].Bool?
            && (kind == 0 ==> (r.vm.regs[q].b <==> n > 0 && h[n - 1] && (n == 1 || !h[n - 2])))
            && (kind == 1 ==> (r.vm.regs[q].b <==> n > 1 && !h[n - 1] && h[n - 2]))
  {
    hide EdgeInputs, FixedEdge, Follows, Execute, EdgeAfter;
    ReadEdgeExact(states, log, i, kind, q);
    var h := EdgeInputs(states, log, i);
    if h == [] {
      NoScanNoPulse(kind);
    } else {
      assert h[..|h|] == h;
      EdgePulses(kind, h, |h| - 1);
    }
  }

  lemma NoScanNoPulse(kind: u8)
    ensures !EdgeAfter(kind, []).q
  {
  }
}

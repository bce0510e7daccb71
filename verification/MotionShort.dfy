/**
 What the program of a move too short to cruise does on the machine. Its loop should speed up for one
 half of its cycles and slow down for the other, but the test that picks the half compares the counter
 with the register of the axis ratios and jumps to the wrong side: every cycle but the last slows down
 from zero, so the axes run backwards, to about two displacements behind their start.
 */
module MotionShort {
  import opened Values
  import opened Machine
  import opened Runs
  import opened Motion
  import opened MotionCorrect
  import opened MotionPath

  // ----- one turn -----

  function Sense(down: bool): Phase { if down then Decelerate else Accelerate }

  lemma SwitchRuns(p: Program, vm: Vm, m: Profile, k: Kin, ratio: real) returns (out: Vm)
    requires Tracks(vm, m, k) && vm.regs[RATIO] == F64(ratio) && |p| < TWO_32 && CodeAt(p, vm.ip, ShortSwitch(vm.ip))
    ensures var down := k.counter as real > ratio;
            && Reaches(p, vm, if down then 3 else 4, out) && out.ip == vm.ip + 5 && out.signals == vm.signals
            && Tracks(out, m, k.(vel := k.vel + Delta(m, Sense(down))))
  {
    hide *;
    var at := vm.ip;
    SwitchShape(p, at);
    CounterIs(vm, m, k);
    GtRuns(vm, COUNTER, RATIO, k.counter as real, ratio);
    var down := k.counter as real > ratio;
    StepOne(p, vm, vm.(flag := down));
    var v1 := AdvanceIp(vm.(flag := down));
    AdvanceIs(vm.(flag := down));
    StepJumpIf(p, v1, at + 4);
    var v2 := v1.(ip := if down then at + 4 else at + 2);
    ReachesTrans(p, vm, 1, v1, 1, v2);
    TracksElsewhere(vm, v2, m, k);
    out := SpeedUpdateRuns(v2, m, Sense(down), k);
    FlowRuns(p, v2, SpeedUpdate(Sense(down)));
    ReachesTrans(p, vm, 2, v2, 1, out);
    if !down {
      var v3 := out;
      StepJump(p, v3, at + 5);
      out := v3.(ip := at + 5);
      ReachesTrans(p, vm, 3, v3, 1, out);
      TracksElsewhere(v3, out, m, k.(vel := k.vel + Delta(m, Sense(down))));
    }
  }

  lemma SwitchShape(p: Program, at: nat)
    requires CodeAt(p, at, ShortSwitch(at))
    ensures at + 5 <= |p| && p[at] == Regs2(Gt, COUNTER, RATIO) && !IsJump(p[at].opcode)
    ensures p[at + 1] == JumpIfTo(at + 4) && p[at + 3] == JumpTo(at + 5)
    ensures CodeAt(p, at + 2, SpeedUpdate(Sense(false))) && CodeAt(p, at + 4, SpeedUpdate(Sense(true)))
    ensures forall down :: |SpeedUpdate(Sense(down))| == 1 && StraightCode(SpeedUpdate(Sense(down)))
    ensures COUNTER < REGISTER_COUNT && RATIO < REGISTER_COUNT
  {
    hide CodeAt;
    var code := ShortSwitch(at);
    CodeBound(p, at, code);
    InstructionAt(p, at, code, 0);
    InstructionAt(p, at, code, 1);
    InstructionAt(p, at, code, 3);
    assert code == code[..2] + [code[2]] + code[3..] && code == code[..4] + [code[4]];
    CodeSplit3(p, at, code[..2], [code[2]], code[3..]);
    CodeSplit(p, at, code[..4], [code[4]]);
  }

  lemma AdvanceIs(vm: Vm)
    ensures AdvanceIp(vm) == vm.(ip := vm.ip + 1)
  {
  }

  lemma CounterIs(vm: Vm, m: Profile, k: Kin)
    requires Tracks(vm, m, k)
    ensures vm.regs[COUNTER] == F64(k.counter as real)
  {
  }

  lemma TracksElsewhere(a: Vm, b: Vm, m: Profile, k: Kin)
    requires Tracks(a, m, k) && b.regs == a.regs
    ensures Tracks(b, m, k)
  {
  }

  lemma ShowsElsewhere(a: Vm, b: Vm, m: Profile, k: Kin, k': Kin)
    requires Shows(a, m, k) && b.signals == a.signals && k'.x == k.x && k'.y == k.y && k'.z == k.z
    ensures Shows(b, m, k')
  {
  }

  lemma CountJumps(p: Program, vm: Vm, m: Profile, k: Kin, base: nat) returns (out: Vm)
    requires Tracks(vm, m, k) && base < TWO_32 && CodeAt(p, vm.ip, ShortCount(base))
    ensures Reaches(p, vm, 3, out) && out.signals == vm.signals && Tracks(out, m, k.(counter := k.counter - 1))
    ensures out.ip == if k.counter - 1 > 0 then base else vm.ip + 3
  {
    hide *;
    var count := [Arith3(Sub, COUNTER, ONE, COUNTER), Regs2(Gt, COUNTER, ZERO)];
    CountShape(p, vm.ip, base);
    var mid := CountRuns(vm, m, k);
    FlowRuns(p, vm, count);
    StepJumpIf(p, mid, base);
    out := mid.(ip := if mid.flag then base else mid.ip + 1);
    ReachesTrans(p, vm, 2, mid, 1, out);
    TracksElsewhere(mid, out, m, k.(counter := k.counter - 1));
  }

  lemma CountShape(p: Program, at: nat, base: nat)
    requires CodeAt(p, at, ShortCount(base))
    ensures var count := [Arith3(Sub, COUNTER, ONE, COUNTER), Regs2(Gt, COUNTER, ZERO)];
            CodeAt(p, at, count) && StraightCode(count) && at + 2 < |p| && p[at + 2] == JumpIfTo(base)
  {
    var count := [Arith3(Sub, COUNTER, ONE, COUNTER), Regs2(Gt, COUNTER, ZERO)];
    assert ShortCount(base) == count + [JumpIfTo(base)];
    CodeSplit(p, at, count, [JumpIfTo(base)]);
    assert p[at + 2] == p[at + 2..at + 3][0];
  }

  /** Steps of one turn that slows down; a turn that speeds up takes one more. */
  function TurnSteps(m: Profile, d: real): nat
    requires d > 0.0
  {
    |MoveCode(m, d)| + 6
  }

  lemma TurnRunsShort(p: Program, vm: Vm, m: Profile, d: real, k: Kin) returns (out: Vm)
    requires d > 0.0 && Tracks(vm, m, k) && |p| < TWO_32 && CodeAt(p, vm.ip, ShortLoop(m, d, vm.ip))
    ensures var down := k.counter as real > LastRatio(m, d);
            var next := NextKin(m, d, Sense(down), k);
            && Reaches(p, vm, TurnSteps(m, d) + if down then 0 else 1, out)
            && Tracks(out, m, next) && Shows(out, m, next)
            && out.ip == if k.counter - 1 > 0 then vm.ip else vm.ip + |ShortLoop(m, d, vm.ip)|
  {
    hide *;
    var base, move := vm.ip, MoveCode(m, d);
    LoopShape(p, base, m, d);
    var down := k.counter as real > LastRatio(m, d);
    var v1 := MoveRuns(vm, m, d, k);
    MoveIsStraight(m, d);
    FlowRuns(p, vm, move);
    var k1 := Moved(m, d, k, Scaled(k.vel, m.dt));
    MovedKeeps(m, d, k, Scaled(k.vel, m.dt));
    var v2 := SwitchRuns(p, v1, m, k1, LastRatio(m, d));
    var k2 := k1.(vel := k1.vel + Delta(m, Sense(down)));
    ReachesTrans(p, vm, |move|, v1, if down then 3 else 4, v2);
    out := CountJumps(p, v2, m, k2, base);
    ReachesTrans(p, vm, |move| + (if down then 3 else 4), v2, 3, out);
    NextKinIs(m, d, Sense(down), k);
    ShowsElsewhere(v1, out, m, k1, NextKin(m, d, Sense(down), k));
  }

  lemma LoopShape(p: Program, at: nat, m: Profile, d: real)
    requires d > 0.0 && CodeAt(p, at, ShortLoop(m, d, at))
    ensures var n := |MoveCode(m, d)|;
            && TurnSteps(m, d) == n + 6 && |ShortLoop(m, d, at)| == n + 8 && at + n + 8 <= |p|
            && CodeAt(p, at, MoveCode(m, d)) && CodeAt(p, at + n, ShortSwitch(at + n)) && CodeAt(p, at + n + 5, ShortCount(at))
  {
    hide MoveCode, ShortSwitch, ShortCount, CodeAt;
    CodeBound(p, at, ShortLoop(m, d, at));
    CodeSplit3(p, at, MoveCode(m, d), ShortSwitch(at + |MoveCode(m, d)|), ShortCount(at));
  }

  lemma MovedKeeps(m: Profile, d: real, k: Kin, s: real)
    requires d > 0.0
    ensures Moved(m, d, k, s).counter == k.counter && Moved(m, d, k, s).vel == k.vel
  {
  }

  lemma NextKinIs(m: Profile, d: real, phase: Phase, k: Kin)
    requires d > 0.0
    ensures var to := Moved(m, d, k, Scaled(k.vel, m.dt));
            NextKin(m, d, phase, k) == to.(vel := to.vel + Delta(m, phase)).(counter := to.counter - 1)
  {
  }

  // ----- the loop -----

  /** Every turn but the last slows down, since the counter is above one and no axis ratio is. */
  lemma {:induction false} ShortProgress(p: Program, vm: Vm, m: Profile, d: real, k: Kin, i: nat) returns (mid: Vm)
    requires d > 0.0 && Tracks(vm, m, k) && |p| < TWO_32 && CodeAt(p, vm.ip, ShortLoop(m, d, vm.ip))
    requires LastRatio(m, d) <= 1.0 && (i == 0 || i < k.counter)
    ensures Reaches(p, vm, i * TurnSteps(m, d), mid)
    ensures mid.ip == vm.ip && Tracks(mid, m, Iterate(m, d, Decelerate, k, i))
    decreases i
  {
    hide *;
    var len := TurnSteps(m, d);
    if i == 0 {
      mid := vm;
      ReachesZero(p, vm);
      IterateNothing(m, d, Decelerate, k);
    } else {
      var before := ShortProgress(p, vm, m, d, k, i - 1);
      IterateCounter(m, d, Decelerate, k, i - 1);
      mid := TurnRunsShort(p, before, m, d, Iterate(m, d, Decelerate, k, i - 1));
      IterateNext(m, d, k, i - 1);
      ReachesTrans(p, vm, (i - 1) * len, before, len, mid);
      assert (i - 1) * len + len == i * len;
    }
  }

  lemma IterateNext(m: Profile, d: real, k: Kin, i: nat)
    requires d > 0.0
    ensures Iterate(m, d, Decelerate, k, i + 1) == NextKin(m, d, Sense(true), Iterate(m, d, Decelerate, k, i))
  {
  }

  /** Turns of the loop: as many as the counter says, but at least one. */
  function Turns(cycles: nat): nat { if cycles == 0 then 1 else cycles }

  /** The last turn slows down too, unless the ratio of the last moving axis is as large as the counter. */
  predicate LastSlows(m: Profile, d: real, cycles: nat)
    requires d > 0.0
  {
    (if cycles == 0 then 0.0 else 1.0) > LastRatio(m, d)
  }

  function LoopSteps(m: Profile, d: real, cycles: nat): nat
    requires d > 0.0
  {
    Turns(cycles) * TurnSteps(m, d) + if LastSlows(m, d, cycles) then 0 else 1
  }

  lemma ShortLoopRuns(p: Program, vm: Vm, m: Profile, d: real, k: Kin) returns (out: Vm)
    requires d > 0.0 && Tracks(vm, m, k) && |p| < TWO_32 && CodeAt(p, vm.ip, ShortLoop(m, d, vm.ip))
    requires LastRatio(m, d) <= 1.0 && k.counter >= 0
    ensures var end := Iterate(m, d, Decelerate, k, Turns(k.counter));
            && Reaches(p, vm, LoopSteps(m, d, k.counter), out) && out.ip == vm.ip + |ShortLoop(m, d, vm.ip)|
            && At(out, m, end) && Shows(out, m, end)
  {
    hide *;
    var cycles := k.counter;
    var len := TurnSteps(m, d);
    var n := if cycles == 0 then 0 else cycles - 1;
    TurnsAre(m, d, cycles, n);
    var mid := ShortProgress(p, vm, m, d, k, n);
    IterateCounter(m, d, Decelerate, k, n);
    var last := Iterate(m, d, Decelerate, k, n);
    out := TurnRunsShort(p, mid, m, d, last);
    ReachesTrans(p, vm, n * len, mid, len + (if LastSlows(m, d, cycles) then 0 else 1), out);
    IterateNext(m, d, k, n);
    SamePlace(out, m, d, last, last.counter as real > LastRatio(m, d));
  }

  lemma TurnsAre(m: Profile, d: real, cycles: nat, n: nat)
    requires d > 0.0 && n == if cycles == 0 then 0 else cycles - 1
    ensures Turns(cycles) == n + 1
    ensures LastSlows(m, d, cycles) == ((cycles - n) as real > LastRatio(m, d))
    ensures LoopSteps(m, d, cycles) == n * TurnSteps(m, d) + (TurnSteps(m, d) + if LastSlows(m, d, cycles) then 0 else 1)
  {
    hide LastRatio, TurnSteps;
    var len := TurnSteps(m, d);
    assert (n + 1) * len == n * len + len;
  }

  /** The sense of a turn does not show in its position. */
  lemma SamePlace(vm: Vm, m: Profile, d: real, k: Kin, down: bool)
    requires d > 0.0
    requires Tracks(vm, m, NextKin(m, d, Sense(down), k)) && Shows(vm, m, NextKin(m, d, Sense(down), k))
    ensures At(vm, m, NextKin(m, d, Sense(true), k)) && Shows(vm, m, NextKin(m, d, Sense(true), k))
  {
    hide MovesY, MovesZ, Scaled;
  }

  // ----- the program -----

  /** The profile whose speed step is the one of the short move. */
  function Ramp(m: Profile, peak: real): Profile
    requires m.acceleration != 0.0 && m.dt != 0.0
  {
    m.(acceleration := ShortStep(m, peak) / m.dt)
  }

  lemma RampIs(m: Profile, d: real, peak: real, base: nat)
    requires d > 0.0 && m.acceleration != 0.0 && m.dt != 0.0
    ensures var r := Ramp(m, peak);
            && SpeedStep(r) == ShortStep(m, peak) && ShortLoop(r, d, base) == ShortLoop(m, d, base)
            && LastRatio(r, d) == LastRatio(m, d) && TurnSteps(r, d) == TurnSteps(m, d)
  {
    hide ShortStep;
    var r := Ramp(m, peak);
    TimesQuotient(ShortStep(m, peak), m.dt);
    assert AxisSteps(r, d) == AxisSteps(m, d);
  }

  lemma RampMoves(m: Profile, d: real, peak: real, k: Kin, s: real, vm: Vm)
    requires d > 0.0 && m.acceleration != 0.0 && m.dt != 0.0
    ensures var r := Ramp(m, peak);
            && Moved(r, d, k, s) == Moved(m, d, k, s)
            && At(vm, r, k) == At(vm, m, k) && Shows(vm, r, k) == Shows(vm, m, k)
  {
    hide Scaled, ShortStep;
  }

  function ShortKin(m: Profile, peak: real): Kin
    requires m.acceleration != 0.0 && m.dt != 0.0
  {
    StartKin(m).(counter := ShortCycles(m, peak))
  }

  lemma ShortStartRuns(vm: Vm, m: Profile, peak: real) returns (out: Vm)
    requires m.acceleration != 0.0 && m.dt != 0.0
    requires vm.regs[ZERO] == F64(0.0) && vm.regs[ONE] == F64(1.0) && vm.regs[DT] == F64(m.dt)
    ensures Flow(vm, ShortStart(m, peak)) == Running(out) && StraightCode(ShortStart(m, peak))
    ensures out.regs[VEL] == F64(0.0) && out.regs[VSTEP] == F64(ShortStep(m, peak))
    ensures out.regs[COUNTER] == F64(ShortCycles(m, peak) as real) && Ready(out, m, StartKin(m))
  {
    hide Flow, MovesY, MovesZ, ShortStep, ShortCycles, HalfCycles, StartPositions;
    var step, cycles, half := ShortStep(m, peak), ShortCycles(m, peak) as real, HalfCycles(m, peak) as real;
    var a, b := LoadImm(VEL, F64(0.0)), LoadImm(VSTEP, F64(step));
    var c, e := LoadImm(COUNTER, F64(cycles)), LoadImm(RATIO, F64(half));
    var v1 := LoadStep(vm, VEL, F64(0.0));
    var v2 := LoadStep(v1, VSTEP, F64(step));
    FlowAppend(vm, [a], [b]);
    var v3 := PositionsRun(v2, m);
    FlowAppend(vm, [a] + [b], StartPositions(m));
    var v4 := LoadStep(v3, COUNTER, F64(cycles));
    FlowAppend(vm, [a] + [b] + StartPositions(m), [c]);
    out := LoadStep(v4, RATIO, F64(half));
    FlowAppend(vm, [a] + [b] + StartPositions(m) + [c], [e]);
    assert [a] + [b] + StartPositions(m) + [c] + [e] == ShortStart(m, peak);
    PositionsStraight(m);
  }

  lemma PositionsStraight(m: Profile)
    ensures StraightCode(StartPositions(m)) && StraightCode(Prelude(m))
  {
  }

  lemma ShortTracks(vm: Vm, m: Profile, peak: real)
    requires m.acceleration != 0.0 && m.dt != 0.0
    requires vm.regs[VEL] == F64(0.0) && vm.regs[VSTEP] == F64(ShortStep(m, peak))
    requires vm.regs[COUNTER] == F64(ShortCycles(m, peak) as real) && Ready(vm, m, StartKin(m))
    ensures SpeedStep(Ramp(m, peak)) == ShortStep(m, peak) ==> Tracks(vm, Ramp(m, peak), ShortKin(m, peak))
  {
    hide ShortStep, ShortCycles, SpeedStep;
  }

  /** Path of a short move along its line. */
  function ShortPath(m: Profile, peak: real): real
    requires m.acceleration != 0.0 && m.dt != 0.0
  {
    Path(Ramp(m, peak), Decelerate, 0.0, Turns(ShortCycles(m, peak)))
  }

  function ShortSteps(m: Profile, d: real, peak: real): nat
    requires d > 0.0 && m.acceleration != 0.0 && m.dt != 0.0
  {
    |Prelude(m) + ShortStart(m, peak)| + LoopSteps(m, d, ShortCycles(m, peak))
  }

  /** From any machine state, the program of a short move takes exactly its number of steps to run
      through, and leaves every moving axis at its start plus its share of the path, in its register
      and in its signal; then it runs out of bounds. */
  lemma ShortProgramMoves(m: Profile, d: real, peak: real, vm: Vm) returns (out: Vm)
    requires d > 0.0 && IsDistance(m, d) && m.acceleration != 0.0 && m.dt != 0.0 && vm.ip == 0
    ensures var p := ShortProgram(m, d, peak);
            var to := Moved(m, d, StartKin(m), ShortPath(m, peak));
            && Reaches(p, vm, ShortSteps(m, d, peak), out) && out.ip == |p| && Step(p, out) == Faulted(IpOutOfBounds)
            && At(out, m, to) && Shows(out, m, to)
  {
    hide *;
    var p, r := ShortProgram(m, d, peak), Ramp(m, peak);
    var start := Prelude(m) + ShortStart(m, peak);
    ProgramShape(m, d, peak);
    var v0 := PreludeRuns(vm, m);
    var v1 := ShortStartRuns(v0, m, peak);
    FlowAppend(vm, Prelude(m), ShortStart(m, peak));
    PositionsStraight(m);
    StraightBoth(Prelude(m), ShortStart(m, peak));
    FlowRuns(p, vm, start);
    RampIs(m, d, peak, |start|);
    ShortTracks(v1, m, peak);
    LastRatioWithin(m, d);
    var k := ShortKin(m, peak);
    ShortKinIs(m, peak);
    out := ShortLoopRuns(p, v1, r, d, k);
    StepsAre(m, d, peak);
    ReachesTrans(p, vm, |start|, v1, LoopSteps(r, d, k.counter), out);
    EndIs(m, d, peak, out);
    PastTheEnd(p, out);
  }

  lemma ProgramShape(m: Profile, d: real, peak: real)
    requires d > 0.0 && m.acceleration != 0.0 && m.dt != 0.0
    ensures var p, start := ShortProgram(m, d, peak), Prelude(m) + ShortStart(m, peak);
            && |p| < TWO_32 && CodeAt(p, 0, start) && CodeAt(p, |start|, ShortLoop(m, d, |start|))
            && |p| == |start| + |ShortLoop(m, d, |start|)|
  {
    hide Prelude, ShortStart, ShortLoop;
    var start := Prelude(m) + ShortStart(m, peak);
    Placed([], start, ShortLoop(m, d, |start|));
    Placed(start, ShortLoop(m, d, |start|), []);
    assert ShortProgram(m, d, peak) == [] + start + ShortLoop(m, d, |start|) == start + ShortLoop(m, d, |start|) + [];
  }

  lemma StraightBoth(a: seq<Instruction>, b: seq<Instruction>)
    requires StraightCode(a) && StraightCode(b)
    ensures StraightCode(a + b)
  {
  }

  lemma ShortKinIs(m: Profile, peak: real)
    requires m.acceleration != 0.0 && m.dt != 0.0
    ensures ShortKin(m, peak) == StartKin(m).(counter := ShortCycles(m, peak)) && StartKin(m).vel == 0.0
  {
    hide ShortCycles;
  }

  lemma StepsAre(m: Profile, d: real, peak: real)
    requires d > 0.0 && m.acceleration != 0.0 && m.dt != 0.0
    ensures ShortSteps(m, d, peak) == |Prelude(m) + ShortStart(m, peak)| + LoopSteps(Ramp(m, peak), d, ShortCycles(m, peak))
  {
    hide Prelude, ShortStart, ShortCycles, LastRatio, TurnSteps, Ramp, Turns;
    RampIs(m, d, peak, 0);
  }

  lemma EndIs(m: Profile, d: real, peak: real, vm: Vm)
    requires d > 0.0 && m.acceleration != 0.0 && m.dt != 0.0
    requires var end := Iterate(Ramp(m, peak), d, Decelerate, ShortKin(m, peak), Turns(ShortCycles(m, peak)));
             At(vm, Ramp(m, peak), end) && Shows(vm, Ramp(m, peak), end)
    ensures var to := Moved(m, d, StartKin(m), ShortPath(m, peak));
            At(vm, m, to) && Shows(vm, m, to)
  {
    hide *;
    var r, k, n := Ramp(m, peak), ShortKin(m, peak), Turns(ShortCycles(m, peak));
    AfterTurns(r, d, Decelerate, k, n);
    ShortKinIs(m, peak);
    ShortPathIs(m, peak);
    var end, to := Iterate(r, d, Decelerate, k, n), Moved(m, d, StartKin(m), ShortPath(m, peak));
    RampMoves(m, d, peak, k, ShortPath(m, peak), vm);
    MovedFrom(m, d, StartKin(m), k, ShortPath(m, peak));
    PlaceDepends(vm, r, end, to);
    RampMoves(m, d, peak, to, 0.0, vm);
  }

  lemma ShortPathIs(m: Profile, peak: real)
    requires m.acceleration != 0.0 && m.dt != 0.0
    ensures ShortPath(m, peak) == Path(Ramp(m, peak), Decelerate, 0.0, Turns(ShortCycles(m, peak)))
  {
    hide Path, Ramp, ShortCycles, Turns;
  }

  lemma MovedFrom(m: Profile, d: real, k: Kin, k': Kin, s: real)
    requires d > 0.0 && k'.x == k.x && k'.y == k.y && k'.z == k.z
    ensures var a, b := Moved(m, d, k, s), Moved(m, d, k', s);
            a.x == b.x && a.y == b.y && a.z == b.z
  {
  }

  lemma PlaceDepends(vm: Vm, m: Profile, k: Kin, k': Kin)
    requires k.x == k'.x && k.y == k'.y && k.z == k'.z
    ensures At(vm, m, k) == At(vm, m, k') && Shows(vm, m, k) == Shows(vm, m, k')
  {
  }

  lemma LastRatioWithin(m: Profile, d: real)
    requires d > 0.0 && IsDistance(m, d)
    ensures LastRatio(m, d) <= 1.0
  {
    hide MovesY, MovesZ;
    SquareNotNegative(m.dx);
    SquareNotNegative(m.dy);
    SquareNotNegative(m.dz);
    ComponentWithin(m.dx, d);
    ComponentWithin(m.dy, d);
    ComponentWithin(m.dz, d);
  }

  // ----- its path -----

  lemma {:induction false} TriangleClosed(n: nat)
    ensures 2.0 * Triangle(n) == n as real * (n as real - 1.0)
  {
    if n > 0 {
      TriangleClosed(n - 1);
      var a := (n - 1) as real;
      assert n as real == a + 1.0;
      assert (a + 1.0) * a == a * (a - 1.0) + 2.0 * a;
    }
  }

  lemma {:induction false} TrianglePositive(n: nat)
    ensures Triangle(n) >= 0.0 && (n >= 2 ==> Triangle(n) > 0.0) && (n <= 1 ==> Triangle(n) == 0.0)
  {
    if n > 0 {
      TrianglePositive(n - 1);
    }
  }

  /** The path is a sum of ever faster turns, all of them backwards. */
  lemma ShortPathClosed(m: Profile, peak: real)
    requires m.acceleration != 0.0 && m.dt != 0.0
    ensures ShortPath(m, peak) == -(ShortStep(m, peak) * Triangle(Turns(ShortCycles(m, peak))) * m.dt)
  {
    hide *;
    var r, n := Ramp(m, peak), Turns(ShortCycles(m, peak));
    ShortPathIs(m, peak);
    PathClosed(r, Decelerate, 0.0, n);
    RampIs(m, 1.0, peak, 0);
    SlowingIs(m, peak);
    NegativeSeries(n as real, ShortStep(m, peak), Triangle(n), m.dt);
  }

  lemma SlowingIs(m: Profile, peak: real)
    requires m.acceleration != 0.0 && m.dt != 0.0
    ensures Delta(Ramp(m, peak), Decelerate) == -SpeedStep(Ramp(m, peak)) && Ramp(m, peak).dt == m.dt
  {
    hide SpeedStep, ShortStep;
  }

  lemma NegativeSeries(n: real, s: real, t: real, dt: real)
    ensures (n * 0.0 + -s * t) * dt == -(s * t * dt)
  {
    assert -s * t == -(s * t);
  }

  /** No short move goes forwards, and one with a distance to go stays where it is exactly when its
      half cycle count is 2^31, so that doubling it wraps to zero. */
  lemma ShortMoveNeverAdvances(m: Profile, d: real, peak: real)
    requires Physical(m) && d > 0.0 && IsPeakSpeed(m, d, peak)
    ensures ShortPath(m, peak) <= 0.0
    ensures ShortPath(m, peak) == 0.0 <==> HalfCycles(m, peak) == 0x8000_0000
  {
    hide ShortPath, Turns, ShortCycles, ShortStep, HalfCycles, Triangle;
    ShortPathClosed(m, peak);
    PeakPositive(m, d, peak);
    var n := Turns(ShortCycles(m, peak));
    WrapsToZero(m, peak);
    TrianglePositive(n);
    var s, t := ShortStep(m, peak), Triangle(n);
    SignOfProduct(s, t, m.dt);
  }

  lemma SignOfProduct(s: real, t: real, dt: real)
    requires s > 0.0 && t >= 0.0 && dt > 0.0
    ensures s * t * dt >= 0.0 && (s * t * dt == 0.0 <==> t == 0.0)
  {
    if t > 0.0 {
      PositiveProduct(s, t);
      PositiveProduct(s * t, dt);
    }
  }

  lemma PeakPositive(m: Profile, d: real, peak: real)
    requires Physical(m) && d > 0.0 && IsPeakSpeed(m, d, peak)
    ensures peak > 0.0 && ShortStep(m, peak) > 0.0
  {
    hide HalfCycles;
    PositiveProduct(d, m.acceleration);
    var h := HalfCycles(m, peak) as real;
    assert peak != 0.0;
    assert peak / h > 0.0;
  }

  lemma WrapsToZero(m: Profile, peak: real)
    requires m.acceleration != 0.0 && m.dt != 0.0
    ensures Turns(ShortCycles(m, peak)) <= 1 <==> HalfCycles(m, peak) == 0x8000_0000
    ensures HalfCycles(m, peak) < 0x8000_0000 ==> Turns(ShortCycles(m, peak)) == 2 * HalfCycles(m, peak)
  {
    hide CeilU32;
  }

  /** As long as the doubled count does not wrap, the path is one half cycle short of two ramps of the
      peak speed, backwards: about two distances. */
  lemma ShortMoveRunsBackwards(m: Profile, d: real, peak: real)
    requires Physical(m) && d > 0.0 && IsPeakSpeed(m, d, peak) && HalfCycles(m, peak) < 0x8000_0000
    ensures ShortPath(m, peak) == -((2.0 * HalfCycles(m, peak) as real - 1.0) * peak * m.dt)
    ensures -(2.0 * d) - peak * m.dt < ShortPath(m, peak) <= -(2.0 * d) + peak * m.dt
  {
    hide ShortPath, Turns, ShortCycles, ShortStep, HalfCycles, Triangle, IsPeakSpeed;
    var h := HalfCycles(m, peak) as real;
    ShortPathClosed(m, peak);
    PeakPositive(m, d, peak);
    WrapsToZero(m, peak);
    TriangleClosed(2 * HalfCycles(m, peak));
    StepTimesHalf(m, peak);
    RampSum(ShortStep(m, peak), Triangle(2 * HalfCycles(m, peak)), h, peak, m.dt);
    HalfBounds(m, d, peak);
    TwoRamps(h, peak, m.dt, d);
  }

  lemma StepTimesHalf(m: Profile, peak: real)
    requires m.acceleration != 0.0 && m.dt != 0.0
    ensures HalfCycles(m, peak) as real * ShortStep(m, peak) == peak
  {
    hide HalfCycles;
    TimesQuotient(peak, HalfCycles(m, peak) as real);
  }

  lemma RampSum(s: real, t: real, h: real, peak: real, dt: real)
    requires 2.0 * t == 2.0 * h * (2.0 * h - 1.0) && h * s == peak
    ensures s * t * dt == (2.0 * h - 1.0) * peak * dt
  {
    var w := 2.0 * h - 1.0;
    assert t == h * w;
    assert s * (h * w) == (h * s) * w;
  }

  lemma HalfBounds(m: Profile, d: real, peak: real)
    requires Physical(m) && peak > 0.0 && IsPeakSpeed(m, d, peak) && HalfCycles(m, peak) < 0x8000_0000
    ensures var way := HalfCycles(m, peak) as real * peak * m.dt;
            d <= way < d + peak * m.dt
  {
    hide CeilU32;
    var x := peak / m.acceleration / m.dt;
    PositiveQuotient(peak, m.acceleration, m.dt);
    CeilBounds(x);
    NotSaturated(x);
    RampBelow(peak, m.acceleration, m.dt, HalfCycles(m, peak) as real);
    RampAbove(peak, m.acceleration, m.dt, HalfCycles(m, peak) as real);
    PeakWay(peak, m.acceleration, d);
  }

  lemma NotSaturated(x: real)
    requires x > 0.0 && CeilU32(x) < 0x8000_0000
    ensures x <= (TWO_32 - 1) as real
  {
    var f := (-x).Floor;
    assert f as real <= -x < f as real + 1.0;
  }

  lemma PeakWay(v: real, a: real, d: real)
    requires a > 0.0 && v * v == d * a
    ensures v * (v / a) == d
  {
    var t := v / a;
    TimesQuotient(v, a);
    assert a * (v * t) == v * (a * t) == v * v == a * d;
    SameFactor(a, v * t, d);
  }

  lemma SameFactor(a: real, x: real, y: real)
    requires a > 0.0 && a * x == a * y
    ensures x == y
  {
    assert a * (x - y) == 0.0;
  }

  lemma TwoRamps(h: real, peak: real, dt: real, d: real)
    requires d <= h * peak * dt < d + peak * dt
    ensures 2.0 * d - peak * dt <= (2.0 * h - 1.0) * peak * dt < 2.0 * d + peak * dt
  {
    assert (2.0 * h - 1.0) * peak * dt == 2.0 * (h * peak * dt) - peak * dt;
  }

  /** So every coordinate ends within one cycle at peak speed of the point two displacements behind its
      start, where one displacement ahead was asked for. */
  lemma EndsBehindStart(m: Profile, d: real, peak: real)
    requires Physical(m) && d > 0.0 && IsDistance(m, d) && IsPeakSpeed(m, d, peak) && HalfCycles(m, peak) < 0x8000_0000
    ensures var to, tolerance := Moved(m, d, StartKin(m), ShortPath(m, peak)), peak * m.dt;
            && Abs(to.x - (m.startX - 2.0 * m.dx)) <= tolerance
            && (MovesY(m) ==> Abs(to.y - (m.startY - 2.0 * m.dy)) <= tolerance)
            && (MovesZ(m) ==> Abs(to.z - (m.startZ - 2.0 * m.dz)) <= tolerance)
  {
    hide ShortPath, HalfCycles, Scaled, MovesY, MovesZ, IsPeakSpeed;
    ShortMoveRunsBackwards(m, d, peak);
    SquareNotNegative(m.dx);
    SquareNotNegative(m.dy);
    SquareNotNegative(m.dz);
    BehindStart(m.dx, d, ShortPath(m, peak), peak * m.dt);
    BehindStart(m.dy, d, ShortPath(m, peak), peak * m.dt);
    BehindStart(m.dz, d, ShortPath(m, peak), peak * m.dt);
  }

  lemma BehindStart(x: real, d: real, s: real, tolerance: real)
    requires d > 0.0 && x * x <= d * d && -(2.0 * d) - tolerance <= s <= -(2.0 * d) + tolerance
    ensures Abs(Scaled(s, x / d) + 2.0 * x) <= tolerance
  {
    hide Scaled;
    var r := x / d;
    ComponentWithin(x, d);
    TimesQuotient(x, d);
    var w := s + 2.0 * d;
    BehindIs(x, d, s, r);
    if w >= 0.0 {
      RatioBounds(r, w);
    } else {
      RatioBounds(r, -w);
      SwapScaled(r, w);
    }
  }

  lemma BehindIs(x: real, d: real, s: real, r: real)
    requires d * r == x
    ensures Scaled(s, r) + 2.0 * x == Scaled(r, s + 2.0 * d)
  {
    assert r * (s + 2.0 * d) == s * r + 2.0 * (d * r);
  }

  lemma SwapScaled(r: real, w: real)
    ensures Scaled(r, -w) == -Scaled(r, w)
  {
  }
}

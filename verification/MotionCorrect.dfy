/**
 What the generated motion program does on the machine: its loops run exactly their
 cycle counts, no speed leaves the range from zero to the target speed, the path
 length is a closed formula, and every axis ends where that path leads.
 */
module MotionCorrect {
  import opened Values
  import opened Blocks
  import opened Machine
  import opened Runs
  import opened Safety
  import opened Motion

  // ----- straight-line code -----

  predicate StraightOp(op: Opcode) { op == Load || op == Store || op == Add || op == Sub || op == Mul || op == Gt }

  predicate StraightCode(code: seq<Instruction>) { forall i :: 0 <= i < |code| ==> StraightOp(code[i].opcode) }

  /** Executes instructions one after the other. */
  function Flow(vm: Vm, code: seq<Instruction>): StepResult
    decreases |code|
  {
    if code == [] then Running(vm)
    else match Execute(vm, code[0])
      case Running(next) => Flow(AdvanceIp(next), code[1..])
      case Halted(last) => Halted(last)
      case Faulted(f) => Faulted(f)
  }

  lemma StraightKeepsIp(vm: Vm, inst: Instruction)
    requires StraightOp(inst.opcode) && Execute(vm, inst).Running?
    ensures Execute(vm, inst).vm.ip == vm.ip
  {
    hide Arith, DivideFault, DivideOverflow, Compare;
  }

  lemma {:induction false} FlowRuns(p: Program, vm: Vm, code: seq<Instruction>)
    requires StraightCode(code) && CodeAt(p, vm.ip, code) && Flow(vm, code).Running?
    ensures Reaches(p, vm, |code|, Flow(vm, code).vm) && Flow(vm, code).vm.ip == vm.ip + |code|
    decreases |code|
  {
    hide Execute;
    if code != [] {
      assert p[vm.ip] == p[vm.ip..vm.ip + |code|][0] == code[0];
      StraightKeepsIp(vm, code[0]);
      var next := AdvanceIp(Execute(vm, code[0]).vm);
      assert code[1..] == p[vm.ip..vm.ip + |code|][1..];
      FlowRuns(p, next, code[1..]);
    }
  }

  lemma FlowCons(vm: Vm, inst: Instruction, rest: seq<Instruction>, mid: Vm)
    requires Execute(vm, inst) == Running(mid)
    ensures Flow(vm, [inst] + rest) == Flow(AdvanceIp(mid), rest)
  {
    hide Execute;
    assert ([inst] + rest)[0] == inst && ([inst] + rest)[1..] == rest;
  }

  lemma {:induction false} FlowAppend(vm: Vm, a: seq<Instruction>, b: seq<Instruction>)
    requires Flow(vm, a).Running?
    ensures Flow(vm, a + b) == Flow(Flow(vm, a).vm, b)
    decreases |a|
  {
    hide Execute;
    if a == [] {
      assert a + b == b;
    } else {
      assert (a + b)[0] == a[0] && (a + b)[1..] == a[1..] + b;
      FlowAppend(AdvanceIp(Execute(vm, a[0]).vm), a[1..], b);
    }
  }

  lemma FlowNothing(vm: Vm)
    ensures Flow(vm, []) == Running(vm)
  {
  }

  // ----- instructions on real numbers -----

  function Scaled(x: real, y: real): real { x * y }

  lemma ImmRuns(vm: Vm, r: u8, v: Value)
    requires r < REGISTER_COUNT
    ensures Execute(vm, LoadImm(r, v)) == Running(SetReg(vm, r, v))
  {
  }

  lemma MulRuns(vm: Vm, a: u8, b: u8, o: u8, x: real, y: real)
    requires a < REGISTER_COUNT && b < REGISTER_COUNT && o < REGISTER_COUNT && vm.regs[a] == F64(x) && vm.regs[b] == F64(y)
    ensures Execute(vm, Arith3(Mul, a, b, o)) == Running(SetReg(vm, o, F64(Scaled(x, y))))
  {
  }

  lemma AddRuns(vm: Vm, a: u8, b: u8, o: u8, x: real, y: real)
    requires a < REGISTER_COUNT && b < REGISTER_COUNT && o < REGISTER_COUNT && vm.regs[a] == F64(x) && vm.regs[b] == F64(y)
    ensures Execute(vm, Arith3(Add, a, b, o)) == Running(SetReg(vm, o, F64(x + y)))
  {
  }

  lemma SubRuns(vm: Vm, a: u8, b: u8, o: u8, x: real, y: real)
    requires a < REGISTER_COUNT && b < REGISTER_COUNT && o < REGISTER_COUNT && vm.regs[a] == F64(x) && vm.regs[b] == F64(y)
    ensures Execute(vm, Arith3(Sub, a, b, o)) == Running(SetReg(vm, o, F64(x - y)))
  {
  }

  lemma GtRuns(vm: Vm, a: u8, b: u8, x: real, y: real)
    requires a < REGISTER_COUNT && b < REGISTER_COUNT && vm.regs[a] == F64(x) && vm.regs[b] == F64(y)
    ensures Execute(vm, Regs2(Gt, a, b)) == Running(vm.(flag := x > y))
  {
  }

  lemma StoreRuns(vm: Vm, signal: string, r: u8)
    requires r < REGISTER_COUNT
    ensures Execute(vm, StoreSignal(signal, r)) == Running(vm.(signals := vm.signals[signal := vm.regs[r]]))
  {
  }

  // ----- axes -----

  predicate SameRegsExcept(a: Vm, b: Vm, changed: set<u8>) {
    forall r: u8 :: r < REGISTER_COUNT && r !in changed ==> a.regs[r] == b.regs[r]
  }

  lemma AxisStepRuns(vm: Vm, ratio: real, pos: u8, signal: string, t: real, x: real) returns (out: Vm)
    requires 1 <= pos <= 3 && vm.regs[TSTEP] == F64(t) && vm.regs[pos] == F64(x)
    ensures Flow(vm, AxisStep(ratio, pos, signal)) == Running(out)
    ensures out.regs[pos] == F64(x + Scaled(t, ratio)) && SameRegsExcept(out, vm, {pos, RATIO, AXIS_STEP})
    ensures out.regs[RATIO] == F64(ratio)
    ensures out.signals == vm.signals[signal := F64(x + Scaled(t, ratio))]
  {
    hide Execute, Flow, Scaled;
    var code := AxisStep(ratio, pos, signal);
    ImmRuns(vm, RATIO, F64(ratio));
    var v1 := SetReg(vm, RATIO, F64(ratio));
    FlowCons(vm, code[0], code[1..], v1);
    var w1 := AdvanceIp(v1);
    MulRuns(w1, TSTEP, RATIO, AXIS_STEP, t, ratio);
    var v2 := SetReg(w1, AXIS_STEP, F64(Scaled(t, ratio)));
    FlowCons(w1, code[1], code[2..], v2);
    var w2 := AdvanceIp(v2);
    AddRuns(w2, pos, AXIS_STEP, pos, x, Scaled(t, ratio));
    var v3 := SetReg(w2, pos, F64(x + Scaled(t, ratio)));
    FlowCons(w2, code[2], code[3..], v3);
    var w3 := AdvanceIp(v3);
    StoreRuns(w3, signal, pos);
    out := AdvanceIp(w3.(signals := w3.signals[signal := w3.regs[pos]]));
    FlowCons(w3, code[3], [], w3.(signals := w3.signals[signal := w3.regs[pos]]));
    FlowNothing(out);
    assert code == [code[0]] + code[1..] && code[1..] == [code[1]] + code[2..] && code[2..] == [code[2]] + code[3..] && code[3..] == [code[3]] + [];
  }

  /** Loop state: remaining cycles, current speed and position. */
  datatype Kin = Kin(counter: int, vel: real, x: real, y: real, z: real)

  predicate Tracks(vm: Vm, m: Profile, k: Kin) {
    && vm.regs[COUNTER] == F64(k.counter as real) && vm.regs[VEL] == F64(k.vel)
    && vm.regs[ZERO] == F64(0.0) && vm.regs[ONE] == F64(1.0)
    && vm.regs[DT] == F64(m.dt) && vm.regs[VSTEP] == F64(SpeedStep(m))
    && At(vm, m, k)
  }

  /** The position registers of the moving axes. */
  predicate At(vm: Vm, m: Profile, k: Kin) {
    vm.regs[POS_X] == F64(k.x) && (MovesY(m) ==> vm.regs[POS_Y] == F64(k.y)) && (MovesZ(m) ==> vm.regs[POS_Z] == F64(k.z))
  }

  /** The position signals of the moving axes. */
  predicate Shows(vm: Vm, m: Profile, k: Kin) {
    && "axis.0.pos" in vm.signals && vm.signals["axis.0.pos"] == F64(k.x)
    && (MovesY(m) ==> "axis.1.pos" in vm.signals && vm.signals["axis.1.pos"] == F64(k.y))
    && (MovesZ(m) ==> "axis.2.pos" in vm.signals && vm.signals["axis.2.pos"] == F64(k.z))
  }

  /** Position after moving `s` along the line; an axis that does not move keeps its coordinate. */
  function Moved(m: Profile, d: real, k: Kin, s: real): Kin
    requires d > 0.0
  {
    k.(x := k.x + Scaled(s, m.dx / d),
       y := if MovesY(m) then k.y + Scaled(s, m.dy / d) else k.y,
       z := if MovesZ(m) then k.z + Scaled(s, m.dz / d) else k.z)
  }

  /** The ratio left in its register by the steps on the axes. */
  function LastRatio(m: Profile, d: real): real
    requires d > 0.0
  {
    if MovesZ(m) then m.dz / d else if MovesY(m) then m.dy / d else m.dx / d
  }

  lemma AxisStepsRun(vm: Vm, m: Profile, d: real, t: real, k: Kin) returns (out: Vm)
    requires d > 0.0 && vm.regs[TSTEP] == F64(t) && At(vm, m, k)
    ensures Flow(vm, AxisSteps(m, d)) == Running(out)
    ensures At(out, m, Moved(m, d, k, t)) && Shows(out, m, Moved(m, d, k, t))
    ensures SameRegsExcept(out, vm, {POS_X, POS_Y, POS_Z, RATIO, AXIS_STEP})
    ensures out.regs[RATIO] == F64(LastRatio(m, d))
  {
    hide *;
    AxesDistinct();
    var rx, ry, rz := m.dx / d, m.dy / d, m.dz / d;
    var a := AxisStep(rx, POS_X, "axis.0.pos");
    var b := if MovesY(m) then AxisStep(ry, POS_Y, "axis.1.pos") else [];
    var c := if MovesZ(m) then AxisStep(rz, POS_Z, "axis.2.pos") else [];
    AtIs(vm, m, k);
    var vx := AxisStepRuns(vm, rx, POS_X, "axis.0.pos", t, k.x);
    KeptBy(vx, vm, {POS_X, RATIO, AXIS_STEP});
    var vy := MaybeStep(vx, MovesY(m), ry, POS_Y, "axis.1.pos", t, k.y);
    KeptBy(vy, vx, {POS_Y, RATIO, AXIS_STEP});
    FlowAppend(vm, a, b);
    out := MaybeStep(vy, MovesZ(m), rz, POS_Z, "axis.2.pos", t, k.z);
    FlowAppend(vm, a + b, c);
    AxisStepsAre(m, d);
    AxisPlaces(vm, vx, vy, out, m, d, t, k);
  }

  lemma AxisStepsAre(m: Profile, d: real)
    requires d > 0.0
    ensures AxisSteps(m, d) ==
            AxisStep(m.dx / d, POS_X, "axis.0.pos") + (if MovesY(m) then AxisStep(m.dy / d, POS_Y, "axis.1.pos") else [])
            + (if MovesZ(m) then AxisStep(m.dz / d, POS_Z, "axis.2.pos") else [])
  {
    hide AxisStep, MovesY, MovesZ;
  }

  lemma AxesDistinct()
    ensures POS_X == 1 && POS_Y == 2 && POS_Z == 3 && TSTEP == 8 && RATIO == 9 && AXIS_STEP == 10 && REGISTER_COUNT == 16
  {
  }

  lemma AtIs(vm: Vm, m: Profile, k: Kin)
    requires At(vm, m, k)
    ensures vm.regs[POS_X] == F64(k.x) && (MovesY(m) ==> vm.regs[POS_Y] == F64(k.y)) && (MovesZ(m) ==> vm.regs[POS_Z] == F64(k.z))
  {
    hide MovesY, MovesZ;
  }

  lemma KeptBy(a: Vm, b: Vm, changed: set<u8>)
    requires SameRegsExcept(a, b, changed)
    ensures forall r: u8 :: r < REGISTER_COUNT && r !in changed ==> a.regs[r] == b.regs[r]
  {
  }

  /** A step on an axis that may not move. */
  lemma MaybeStep(vm: Vm, moves: bool, ratio: real, pos: u8, signal: string, t: real, x: real) returns (out: Vm)
    requires 1 <= pos <= 3 && vm.regs[TSTEP] == F64(t) && (moves ==> vm.regs[pos] == F64(x))
    ensures Flow(vm, if moves then AxisStep(ratio, pos, signal) else []) == Running(out)
    ensures SameRegsExcept(out, vm, {pos, RATIO, AXIS_STEP})
    ensures if moves then
              && out.regs[pos] == F64(x + Scaled(t, ratio)) && out.regs[RATIO] == F64(ratio)
              && out.signals == vm.signals[signal := F64(x + Scaled(t, ratio))]
            else out == vm
  {
    hide Flow, AxisStep, Scaled;
    if moves {
      out := AxisStepRuns(vm, ratio, pos, signal, t, x);
    } else {
      out := vm;
      FlowNothing(vm);
    }
  }

  lemma AxisPlaces(vm: Vm, vx: Vm, vy: Vm, out: Vm, m: Profile, d: real, t: real, k: Kin)
    requires d > 0.0 && SameRegsExcept(vx, vm, {POS_X, RATIO, AXIS_STEP})
    requires SameRegsExcept(vy, vx, {POS_Y, RATIO, AXIS_STEP}) && SameRegsExcept(out, vy, {POS_Z, RATIO, AXIS_STEP})
    requires vx.regs[POS_X] == F64(k.x + Scaled(t, m.dx / d)) && vx.regs[RATIO] == F64(m.dx / d)
    requires vx.signals == vm.signals["axis.0.pos" := F64(k.x + Scaled(t, m.dx / d))]
    requires if MovesY(m) then
               && vy.regs[POS_Y] == F64(k.y + Scaled(t, m.dy / d)) && vy.regs[RATIO] == F64(m.dy / d)
               && vy.signals == vx.signals["axis.1.pos" := F64(k.y + Scaled(t, m.dy / d))]
             else vy == vx
    requires if MovesZ(m) then
               && out.regs[POS_Z] == F64(k.z + Scaled(t, m.dz / d)) && out.regs[RATIO] == F64(m.dz / d)
               && out.signals == vy.signals["axis.2.pos" := F64(k.z + Scaled(t, m.dz / d))]
             else out == vy
    ensures At(out, m, Moved(m, d, k, t)) && Shows(out, m, Moved(m, d, k, t))
    ensures SameRegsExcept(out, vm, {POS_X, POS_Y, POS_Z, RATIO, AXIS_STEP})
    ensures out.regs[RATIO] == F64(LastRatio(m, d))
  {
    hide Scaled, MovesY, MovesZ;
  }

  // ----- one cycle -----

  function Delta(m: Profile, phase: Phase): real {
    match phase
    case Accelerate => SpeedStep(m)
    case Cruise => 0.0
    case Decelerate => -SpeedStep(m)
  }

  /** One cycle at the current speed. */
  function NextKin(m: Profile, d: real, phase: Phase, k: Kin): Kin
    requires d > 0.0
  {
    Moved(m, d, k, Scaled(k.vel, m.dt)).(counter := k.counter - 1, vel := k.vel + Delta(m, phase))
  }

  lemma SpeedUpdateRuns(vm: Vm, m: Profile, phase: Phase, k: Kin) returns (out: Vm)
    requires Tracks(vm, m, k)
    ensures Flow(vm, SpeedUpdate(phase)) == Running(out)
    ensures Tracks(out, m, k.(vel := k.vel + Delta(m, phase))) && out.signals == vm.signals
  {
    hide Execute, MovesY, MovesZ, Flow, SpeedStep;
    match phase
    case Accelerate =>
      AddRuns(vm, VEL, VSTEP, VEL, k.vel, SpeedStep(m));
      var v1 := SetReg(vm, VEL, F64(k.vel + SpeedStep(m)));
      FlowCons(vm, Arith3(Add, VEL, VSTEP, VEL), [], v1);
      assert [Arith3(Add, VEL, VSTEP, VEL)] + [] == SpeedUpdate(phase);
      out := AdvanceIp(v1);
      FlowNothing(out);
    case Decelerate =>
      SubRuns(vm, VEL, VSTEP, VEL, k.vel, SpeedStep(m));
      var v1 := SetReg(vm, VEL, F64(k.vel - SpeedStep(m)));
      FlowCons(vm, Arith3(Sub, VEL, VSTEP, VEL), [], v1);
      assert [Arith3(Sub, VEL, VSTEP, VEL)] + [] == SpeedUpdate(phase);
      out := AdvanceIp(v1);
      FlowNothing(out);
    case Cruise =>
      out := vm;
      FlowNothing(out);
  }

  lemma CountRuns(vm: Vm, m: Profile, k: Kin) returns (out: Vm)
    requires Tracks(vm, m, k)
    ensures Flow(vm, [Arith3(Sub, COUNTER, ONE, COUNTER), Regs2(Gt, COUNTER, ZERO)]) == Running(out)
    ensures Tracks(out, m, k.(counter := k.counter - 1)) && out.signals == vm.signals && out.flag == (k.counter - 1 > 0)
  {
    hide *;
    var sub, gt := Arith3(Sub, COUNTER, ONE, COUNTER), Regs2(Gt, COUNTER, ZERO);
    CountRegisters();
    TracksCount(vm, m, k);
    SubRuns(vm, COUNTER, ONE, COUNTER, k.counter as real, 1.0);
    var left := (k.counter - 1) as real;
    var v1 := SetReg(vm, COUNTER, F64(left));
    assert k.counter as real - 1.0 == left;
    FlowCons(vm, sub, [gt], v1);
    var w1 := AdvanceIp(v1);
    CountedTracks(vm, w1, m, k);
    TracksCount(w1, m, k.(counter := k.counter - 1));
    GtRuns(w1, COUNTER, ZERO, left, 0.0);
    FlowCons(w1, gt, [], w1.(flag := left > 0.0));
    out := AdvanceIp(w1.(flag := left > 0.0));
    FlowNothing(out);
    assert [sub] + [gt] == [sub, gt] && [gt] + [] == [gt];
    FlagTracks(w1, left > 0.0, m, k.(counter := k.counter - 1));
  }

  lemma CountRegisters()
    ensures COUNTER < REGISTER_COUNT && ONE < REGISTER_COUNT && ZERO < REGISTER_COUNT
  {
  }

  lemma TracksCount(vm: Vm, m: Profile, k: Kin)
    requires Tracks(vm, m, k)
    ensures vm.regs[COUNTER] == F64(k.counter as real) && vm.regs[ONE] == F64(1.0) && vm.regs[ZERO] == F64(0.0)
  {
  }

  lemma CountedTracks(vm: Vm, out: Vm, m: Profile, k: Kin)
    requires Tracks(vm, m, k) && out == AdvanceIp(SetReg(vm, COUNTER, F64((k.counter - 1) as real)))
    ensures Tracks(out, m, k.(counter := k.counter - 1)) && out.signals == vm.signals
  {
    hide MovesY, MovesZ, SpeedStep;
  }

  lemma FlagTracks(vm: Vm, flag: bool, m: Profile, k: Kin)
    requires Tracks(vm, m, k)
    ensures var out := AdvanceIp(vm.(flag := flag));
            Tracks(out, m, k) && out.signals == vm.signals && out.flag == flag
  {
    hide MovesY, MovesZ, SpeedStep;
  }

  lemma MoveRuns(vm: Vm, m: Profile, d: real, k: Kin) returns (out: Vm)
    requires d > 0.0 && Tracks(vm, m, k)
    ensures var to := Moved(m, d, k, Scaled(k.vel, m.dt));
            Flow(vm, MoveCode(m, d)) == Running(out) && Tracks(out, m, to) && Shows(out, m, to)
    ensures out.regs[RATIO] == F64(LastRatio(m, d))
  {
    hide Execute, MovesY, MovesZ, Flow, SpeedStep, AxisSteps, Scaled, LastRatio;
    var t := Scaled(k.vel, m.dt);
    var mul, rest := Arith3(Mul, VEL, DT, TSTEP), AxisSteps(m, d);
    MulRuns(vm, VEL, DT, TSTEP, k.vel, m.dt);
    FlowCons(vm, mul, rest, SetReg(vm, TSTEP, F64(t)));
    var v1 := AdvanceIp(SetReg(vm, TSTEP, F64(t)));
    out := AxisStepsRun(v1, m, d, t, k);
    KeepsConstants(vm, v1, out, m, k, Moved(m, d, k, t));
  }

  lemma BodyRuns(vm: Vm, m: Profile, d: real, phase: Phase, k: Kin) returns (out: Vm)
    requires d > 0.0 && Tracks(vm, m, k)
    ensures Flow(vm, LoopBody(m, d, phase)) == Running(out)
    ensures Tracks(out, m, NextKin(m, d, phase, k)) && Shows(out, m, NextKin(m, d, phase, k)) && out.flag == (k.counter - 1 > 0)
  {
    hide Execute, MovesY, MovesZ, Flow, SpeedStep, MoveCode, SpeedUpdate, Scaled, Delta, Tracks, LastRatio;
    var v2 := MoveRuns(vm, m, d, k);
    var k2 := Moved(m, d, k, Scaled(k.vel, m.dt));
    var v3 := SpeedUpdateRuns(v2, m, phase, k2);
    FlowAppend(vm, MoveCode(m, d), SpeedUpdate(phase));
    var k3 := k2.(vel := k2.vel + Delta(m, phase));
    out := CountRuns(v3, m, k3);
    FlowAppend(vm, MoveCode(m, d) + SpeedUpdate(phase), [Arith3(Sub, COUNTER, ONE, COUNTER), Regs2(Gt, COUNTER, ZERO)]);
    assert Shows(out, m, k2);
  }

  lemma KeepsConstants(vm: Vm, v1: Vm, v2: Vm, m: Profile, k: Kin, k2: Kin)
    requires Tracks(vm, m, k) && SameRegsExcept(v1, vm, {TSTEP}) && SameRegsExcept(v2, v1, {POS_X, POS_Y, POS_Z, RATIO, AXIS_STEP})
    requires At(v2, m, k2) && k2.counter == k.counter && k2.vel == k.vel
    ensures Tracks(v2, m, k2)
  {
    hide MovesY, MovesZ, SpeedStep;
  }

  // ----- the loop -----

  lemma BodyIsStraight(m: Profile, d: real, phase: Phase)
    requires d > 0.0
    ensures StraightCode(LoopBody(m, d, phase))
  {
    hide MoveCode;
    MoveIsStraight(m, d);
    var tail := [Arith3(Sub, COUNTER, ONE, COUNTER), Regs2(Gt, COUNTER, ZERO)];
    assert StraightCode(tail) && StraightCode(SpeedUpdate(phase));
  }

  lemma MoveIsStraight(m: Profile, d: real)
    requires d > 0.0
    ensures StraightCode(MoveCode(m, d))
  {
    hide AxisSteps;
    AxisStepsStraight(m, d);
    assert StraightCode([Arith3(Mul, VEL, DT, TSTEP)]);
  }

  lemma AxisStepsStraight(m: Profile, d: real)
    requires d > 0.0
    ensures StraightCode(AxisSteps(m, d))
  {
    hide MovesY, MovesZ, AxisStep;
    AxisStepStraight(m.dx / d, POS_X, "axis.0.pos");
    AxisStepStraight(m.dy / d, POS_Y, "axis.1.pos");
    AxisStepStraight(m.dz / d, POS_Z, "axis.2.pos");
  }

  lemma AxisStepStraight(ratio: real, pos: u8, signal: string)
    ensures StraightCode(AxisStep(ratio, pos, signal))
  {
  }

  /** One turn of the loop at `start`. */
  lemma TurnRuns(p: Program, vm: Vm, m: Profile, d: real, phase: Phase, k: Kin) returns (out: Vm)
    requires d > 0.0 && Tracks(vm, m, k) && |p| < TWO_32
    requires CodeAt(p, vm.ip, LoopBody(m, d, phase) + [JumpIfTo(vm.ip)])
    ensures Reaches(p, vm, |LoopBody(m, d, phase)| + 1, out)
    ensures Tracks(out, m, NextKin(m, d, phase, k)) && Shows(out, m, NextKin(m, d, phase, k))
    ensures out.ip == if k.counter - 1 > 0 then vm.ip else vm.ip + |LoopBody(m, d, phase)| + 1
  {
    hide Run, Flow, LoopBody, NextKin, MovesY, MovesZ, SpeedStep;
    var body, start := LoopBody(m, d, phase), vm.ip;
    var all := body + [JumpIfTo(start)];
    assert p[start..start + |all|][..|body|] == p[start..start + |body|] == body;
    assert p[start + |body|] == p[start..start + |all|][|body|] == JumpIfTo(start);
    var mid := BodyRuns(vm, m, d, phase, k);
    BodyIsStraight(m, d, phase);
    FlowRuns(p, vm, body);
    StepJumpIf(p, mid, start);
    out := mid.(ip := if mid.flag then start else mid.ip + 1);
    ReachesTrans(p, vm, |body|, mid, 1, out);
  }

  function Iterate(m: Profile, d: real, phase: Phase, k: Kin, n: nat): Kin
    requires d > 0.0
  {
    if n == 0 then k else NextKin(m, d, phase, Iterate(m, d, phase, k, n - 1))
  }

  lemma {:induction false} IterateCounter(m: Profile, d: real, phase: Phase, k: Kin, n: nat)
    requires d > 0.0
    ensures Iterate(m, d, phase, k, n).counter == k.counter - n
  {
    if n > 0 {
      IterateCounter(m, d, phase, k, n - 1);
    }
  }

  /** After `i` turns, fewer than the cycle count, control is back at the start of the loop. */
  lemma {:induction false} LoopProgress(p: Program, vm: Vm, m: Profile, d: real, phase: Phase, k: Kin, i: nat) returns (mid: Vm)
    requires d > 0.0 && Tracks(vm, m, k) && |p| < TWO_32 && i < k.counter
    requires CodeAt(p, vm.ip, LoopBody(m, d, phase) + [JumpIfTo(vm.ip)])
    ensures Reaches(p, vm, i * (|LoopBody(m, d, phase)| + 1), mid)
    ensures mid.ip == vm.ip && Tracks(mid, m, Iterate(m, d, phase, k, i))
    decreases i
  {
    hide Run, Flow, LoopBody, NextKin, Tracks;
    var len := |LoopBody(m, d, phase)| + 1;
    if i == 0 {
      mid := vm;
      ReachesZero(p, vm);
    } else {
      var before := LoopProgress(p, vm, m, d, phase, k, i - 1);
      IterateCounter(m, d, phase, k, i - 1);
      mid := TurnRuns(p, before, m, d, phase, Iterate(m, d, phase, k, i - 1));
      ReachesTrans(p, vm, (i - 1) * len, before, len, mid);
      assert (i - 1) * len + len == i * len;
    }
  }

  /** The loop runs exactly as many turns as its counter says. */
  lemma LoopRuns(p: Program, vm: Vm, m: Profile, d: real, phase: Phase, k: Kin) returns (out: Vm)
    requires d > 0.0 && Tracks(vm, m, k) && |p| < TWO_32 && k.counter > 0
    requires CodeAt(p, vm.ip, LoopBody(m, d, phase) + [JumpIfTo(vm.ip)])
    ensures Reaches(p, vm, k.counter * (|LoopBody(m, d, phase)| + 1), out)
    ensures out.ip == vm.ip + |LoopBody(m, d, phase)| + 1
    ensures Tracks(out, m, Iterate(m, d, phase, k, k.counter)) && Shows(out, m, Iterate(m, d, phase, k, k.counter))
  {
    hide Run, Flow, LoopBody, NextKin, Tracks, Shows;
    var len, n := |LoopBody(m, d, phase)| + 1, k.counter - 1;
    var mid := LoopProgress(p, vm, m, d, phase, k, n);
    IterateCounter(m, d, phase, k, n);
    out := TurnRuns(p, mid, m, d, phase, Iterate(m, d, phase, k, n));
    ReachesTrans(p, vm, n * len, mid, len, out);
    assert n * len + len == k.counter * len;
  }

  // ----- phases -----

  /** Constants loaded and positions known. */
  predicate Ready(vm: Vm, m: Profile, k: Kin) {
    vm.regs[ZERO] == F64(0.0) && vm.regs[ONE] == F64(1.0) && vm.regs[DT] == F64(m.dt) && At(vm, m, k)
  }

  lemma HeaderRuns(vm: Vm, m: Profile, cycles: u32, v: real, phase: Phase, k: Kin) returns (out: Vm)
    requires Ready(vm, m, k)
    ensures Flow(vm, PhaseHeader(m, cycles, v, phase)) == Running(out)
    ensures Tracks(out, m, k.(counter := cycles, vel := StartSpeed(v, phase)))
  {
    hide Execute, MovesY, MovesZ, Flow, SpeedStep, StartSpeed;
    var code := PhaseHeader(m, cycles, v, phase);
    var v1 := SetReg(vm, VSTEP, F64(SpeedStep(m)));
    ImmRuns(vm, VSTEP, F64(SpeedStep(m)));
    FlowCons(vm, code[0], code[1..], v1);
    var w1 := AdvanceIp(v1);
    var v2 := SetReg(w1, VEL, F64(StartSpeed(v, phase)));
    ImmRuns(w1, VEL, F64(StartSpeed(v, phase)));
    FlowCons(w1, code[1], code[2..], v2);
    var w2 := AdvanceIp(v2);
    var v3 := SetReg(w2, COUNTER, F64(cycles as real));
    ImmRuns(w2, COUNTER, F64(cycles as real));
    FlowCons(w2, code[2], [], v3);
    out := AdvanceIp(v3);
    FlowNothing(out);
    assert code == [code[0]] + code[1..] && code[1..] == [code[1]] + code[2..] && code[2..] == [code[2]] + [];
  }

  /** Position after a phase. */
  function PhaseEnd(m: Profile, d: real, cycles: u32, v: real, phase: Phase, k: Kin): Kin
    requires d > 0.0
  {
    Iterate(m, d, phase, k.(counter := cycles, vel := StartSpeed(v, phase)), cycles)
  }

  function PhaseSteps(m: Profile, d: real, cycles: u32, phase: Phase): nat
    requires d > 0.0
  {
    if cycles == 0 then 0 else 3 + cycles * (|LoopBody(m, d, phase)| + 1)
  }

  lemma PhaseRuns(p: Program, vm: Vm, m: Profile, d: real, cycles: u32, v: real, phase: Phase, k: Kin) returns (out: Vm)
    requires d > 0.0 && Ready(vm, m, k) && |p| < TWO_32 && CodeAt(p, vm.ip, PhaseCode(m, d, cycles, v, phase, vm.ip))
    ensures Reaches(p, vm, PhaseSteps(m, d, cycles, phase), out)
    ensures out.ip == vm.ip + |PhaseCode(m, d, cycles, v, phase, vm.ip)|
    ensures Ready(out, m, PhaseEnd(m, d, cycles, v, phase, k))
    ensures cycles > 0 ==> Shows(out, m, PhaseEnd(m, d, cycles, v, phase, k))
  {
    hide *;
    PhaseShape(m, d, cycles, v, phase, vm.ip, k);
    if cycles == 0 {
      out := vm;
      ReachesZero(p, vm);
      ReadyElsewhere(vm, m, k, k.(counter := 0, vel := StartSpeed(v, phase)));
    } else {
      var head, loop := PhaseHeader(m, cycles, v, phase), LoopBody(m, d, phase) + [JumpIfTo(vm.ip + 3)];
      HeaderShape(m, cycles, v, phase);
      CodeSplit(p, vm.ip, head, loop);
      var mid := HeaderRuns(vm, m, cycles, v, phase, k);
      FlowRuns(p, vm, head);
      out := LoopRuns(p, mid, m, d, phase, k.(counter := cycles, vel := StartSpeed(v, phase)));
      ReachesTrans(p, vm, 3, mid, cycles * (|LoopBody(m, d, phase)| + 1), out);
      ReadyElsewhere(out, m, PhaseEnd(m, d, cycles, v, phase, k), PhaseEnd(m, d, cycles, v, phase, k));
    }
  }

  lemma PhaseShape(m: Profile, d: real, cycles: u32, v: real, phase: Phase, base: nat, k: Kin)
    requires d > 0.0
    ensures if cycles == 0 then
              PhaseCode(m, d, cycles, v, phase, base) == [] && PhaseSteps(m, d, cycles, phase) == 0 && PhaseEnd(m, d, cycles, v, phase, k) == k.(counter := 0, vel := StartSpeed(v, phase))
            else
              && PhaseCode(m, d, cycles, v, phase, base) == PhaseHeader(m, cycles, v, phase) + (LoopBody(m, d, phase) + [JumpIfTo(base + 3)])
              && PhaseEnd(m, d, cycles, v, phase, k) == Iterate(m, d, phase, k.(counter := cycles, vel := StartSpeed(v, phase)), cycles)
              && PhaseSteps(m, d, cycles, phase) == 3 + cycles * (|LoopBody(m, d, phase)| + 1)
  {
    hide PhaseHeader, LoopBody, JumpIfTo;
  }

  lemma ReadyElsewhere(vm: Vm, m: Profile, k: Kin, k': Kin)
    requires k'.x == k.x && k'.y == k.y && k'.z == k.z
    ensures Ready(vm, m, k) ==> Ready(vm, m, k')
    ensures Tracks(vm, m, k) ==> Ready(vm, m, k)
  {
  }

  lemma IterateNothing(m: Profile, d: real, phase: Phase, k: Kin)
    requires d > 0.0
    ensures Iterate(m, d, phase, k, 0) == k
  {
  }

  lemma HeaderShape(m: Profile, cycles: u32, v: real, phase: Phase)
    ensures |PhaseHeader(m, cycles, v, phase)| == 3 && StraightCode(PhaseHeader(m, cycles, v, phase))
  {
  }
}

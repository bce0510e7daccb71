/**
 The trapezoidal motion generator: register-machine loops for acceleration, cruise
 and deceleration along a straight line, and one loop for moves too short to cruise. Lengths are real numbers; square roots,
 the distance and the peak speed of a short move, are parameters.
 */
module Motion {
  import opened Values
  import opened Machine

  const COUNTER: u8 := 0
  const POS_X: u8 := 1
  const POS_Y: u8 := 2
  const POS_Z: u8 := 3
  const ZERO: u8 := 4
  const ONE: u8 := 5
  const VEL: u8 := 6
  const VSTEP: u8 := 7
  const TSTEP: u8 := 8
  const RATIO: u8 := 9
  const AXIS_STEP: u8 := 10
  const DT: u8 := 11

  const EPSILON: real := 0.000000001

  datatype Profile = Profile(
    dx: real, dy: real, dz: real, feedrate: real, acceleration: real, dt: real,
    startX: real, startY: real, startZ: real)

  function Abs(x: real): real { if x < 0.0 then -x else x }

  predicate MovesY(m: Profile) { Abs(m.dy) > EPSILON }
  predicate MovesZ(m: Profile) { Abs(m.dz) > EPSILON }

  /** `d` is the length of the displacement. */
  predicate IsDistance(m: Profile, d: real) {
    d >= 0.0 && d * d == m.dx * m.dx + m.dy * m.dy + m.dz * m.dz
  }

  /** Target speed in mm/s; a feedrate that is not positive counts as 100 mm/min. */
  function TargetSpeed(m: Profile): (v: real)
    ensures v > 0.0
  {
    (if m.feedrate > 0.0 then m.feedrate else 100.0) / 60.0
  }

  /** Rounds up to a 32-bit count, saturating at both ends. */
  function CeilU32(x: real): u32 {
    var c := -((-x).Floor);
    if c < 0 then 0 else if c >= TWO_32 then TWO_32 - 1 else c
  }

  function AccelCycles(m: Profile): u32
    requires m.acceleration != 0.0 && m.dt != 0.0
  {
    CeilU32(TargetSpeed(m) / m.acceleration / m.dt)
  }

  function CruiseDistance(m: Profile, d: real): real
    requires m.acceleration != 0.0
  {
    var t := TargetSpeed(m) / m.acceleration;
    d - 2.0 * (0.5 * m.acceleration * t * t)
  }

  function CruiseCycles(m: Profile, d: real): u32
    requires m.acceleration != 0.0 && m.dt != 0.0
  {
    CeilU32(CruiseDistance(m, d) / TargetSpeed(m) / m.dt)
  }

  /** `v` is the speed at which a short move should turn from acceleration to deceleration. */
  predicate IsPeakSpeed(m: Profile, d: real, v: real) { v >= 0.0 && v * v == d * m.acceleration }

  function HalfCycles(m: Profile, peak: real): (h: u32)
    requires m.acceleration != 0.0 && m.dt != 0.0
    ensures h > 0
  {
    var c := CeilU32(peak / m.acceleration / m.dt);
    if c == 0 then 1 else c
  }

  /** Doubling a 32-bit count wraps. */
  function Doubled(half: u32): u32 { half * 2 % TWO_32 }

  /** Cycles of a short move. */
  function ShortCycles(m: Profile, peak: real): u32
    requires m.acceleration != 0.0 && m.dt != 0.0
  {
    Doubled(HalfCycles(m, peak))
  }

  /** Change of speed in one cycle of a short move. */
  function ShortStep(m: Profile, peak: real): real
    requires m.acceleration != 0.0 && m.dt != 0.0
  {
    peak / HalfCycles(m, peak) as real
  }

  // ----- code -----

  datatype Phase = Accelerate | Cruise | Decelerate

  function AxisStep(ratio: real, pos: u8, signal: string): seq<Instruction> {
    [LoadImm(RATIO, F64(ratio)), Arith3(Mul, TSTEP, RATIO, AXIS_STEP), Arith3(Add, pos, AXIS_STEP, pos), StoreSignal(signal, pos)]
  }

  /** One step on every moving axis; X always moves. */
  function AxisSteps(m: Profile, d: real): (code: seq<Instruction>)
    requires d > 0.0
    ensures 4 <= |code| <= 12
  {
    AxisStep(m.dx / d, POS_X, "axis.0.pos")
    + (if MovesY(m) then AxisStep(m.dy / d, POS_Y, "axis.1.pos") else [])
    + (if MovesZ(m) then AxisStep(m.dz / d, POS_Z, "axis.2.pos") else [])
  }

  /** One cycle at the current speed. */
  function MoveCode(m: Profile, d: real): (code: seq<Instruction>)
    requires d > 0.0
    ensures 5 <= |code| <= 13
  {
    [Arith3(Mul, VEL, DT, TSTEP)] + AxisSteps(m, d)
  }

  function SpeedUpdate(phase: Phase): seq<Instruction> {
    match phase
    case Accelerate => [Arith3(Add, VEL, VSTEP, VEL)]
    case Cruise => []
    case Decelerate => [Arith3(Sub, VEL, VSTEP, VEL)]
  }

  /** The straight-line part of the loop of a phase. */
  function LoopBody(m: Profile, d: real, phase: Phase): (code: seq<Instruction>)
    requires d > 0.0
    ensures 7 <= |code| <= 16
  {
    MoveCode(m, d) + SpeedUpdate(phase)
    + [Arith3(Sub, COUNTER, ONE, COUNTER), Regs2(Gt, COUNTER, ZERO)]
  }

  /** Change of speed in one cycle. */
  function SpeedStep(m: Profile): real { m.acceleration * m.dt }

  function StartSpeed(v: real, phase: Phase): real { if phase == Accelerate then 0.0 else v }

  function PhaseHeader(m: Profile, cycles: u32, v: real, phase: Phase): seq<Instruction> {
    [LoadImm(VSTEP, F64(SpeedStep(m))), LoadImm(VEL, F64(StartSpeed(v, phase))), LoadImm(COUNTER, F64(cycles as real))]
  }

  /** Code of a phase that starts at instruction `base`. */
  function PhaseCode(m: Profile, d: real, cycles: u32, v: real, phase: Phase, base: nat): (code: seq<Instruction>)
    requires d > 0.0
    ensures |code| <= 20
  {
    if cycles == 0 then []
    else PhaseHeader(m, cycles, v, phase) + LoopBody(m, d, phase) + [JumpIfTo(base + 3)]
  }

  function Prelude(m: Profile): seq<Instruction> {
    [LoadImm(DT, F64(m.dt)), LoadImm(ZERO, F64(0.0)), LoadImm(ONE, F64(1.0))]
  }

  function StartPositions(m: Profile): (code: seq<Instruction>)
    ensures 1 <= |code| <= 3
  {
    [LoadImm(POS_X, F64(m.startX))]
    + (if MovesY(m) then [LoadImm(POS_Y, F64(m.startY))] else [])
    + (if MovesZ(m) then [LoadImm(POS_Z, F64(m.startZ))] else [])
  }

  /** The program of a move that is long enough to cruise. */
  function CruiseProgram(m: Profile, d: real): (code: seq<Instruction>)
    requires d > 0.0 && m.acceleration != 0.0 && m.dt != 0.0
    ensures |code| <= 66
  {
    var v, n := TargetSpeed(m), AccelCycles(m);
    var c0 := Prelude(m) + StartPositions(m);
    var c1 := c0 + PhaseCode(m, d, n, v, Accelerate, |c0|);
    var c2 := c1 + PhaseCode(m, d, CruiseCycles(m, d), v, Cruise, |c1|);
    c2 + PhaseCode(m, d, n, v, Decelerate, |c2|)
  }

  /** Loads of a short move: speed, speed step, positions, counter and, in the register of the axis
      ratios, the count at which to turn. */
  function ShortStart(m: Profile, peak: real): (code: seq<Instruction>)
    requires m.acceleration != 0.0 && m.dt != 0.0
    ensures |code| <= 7
  {
    [LoadImm(VEL, F64(0.0)), LoadImm(VSTEP, F64(ShortStep(m, peak)))] + StartPositions(m)
    + [LoadImm(COUNTER, F64(ShortCycles(m, peak) as real)), LoadImm(RATIO, F64(HalfCycles(m, peak) as real))]
  }

  /** The speed-up is jumped over when the test holds, the slow-down when it fails; `at` is the
      address of the test. */
  function ShortSwitch(at: nat): (code: seq<Instruction>)
    ensures |code| == 5
  {
    [Regs2(Gt, COUNTER, RATIO), JumpIfTo(at + 4), Arith3(Add, VEL, VSTEP, VEL), JumpTo(at + 5), Arith3(Sub, VEL, VSTEP, VEL)]
  }

  function ShortCount(base: nat): (code: seq<Instruction>)
    ensures |code| == 3
  {
    [Arith3(Sub, COUNTER, ONE, COUNTER), Regs2(Gt, COUNTER, ZERO), JumpIfTo(base)]
  }

  /** The loop of a short move that starts at instruction `base`. */
  function ShortLoop(m: Profile, d: real, base: nat): (code: seq<Instruction>)
    requires d > 0.0
    ensures |code| <= 21
  {
    var head := MoveCode(m, d);
    head + ShortSwitch(base + |head|) + ShortCount(base)
  }

  /** The program of a move that is too short to cruise. */
  function ShortProgram(m: Profile, d: real, peak: real): (code: seq<Instruction>)
    requires d > 0.0 && m.acceleration != 0.0 && m.dt != 0.0
    ensures |code| <= 31
  {
    var c0 := Prelude(m) + ShortStart(m, peak);
    c0 + ShortLoop(m, d, |c0|)
  }

  // ----- the generator -----

  class Generator {
    var instructions: seq<Instruction>

    constructor ()
      ensures instructions == []
    {
      instructions := [];
    }

    method Push(inst: Instruction)
      modifies this
      ensures instructions == old(instructions) + [inst]
    {
      instructions := instructions + [inst];
    }

    method EmitAxisStep(ratio: real, pos: u8, signal: string)
      modifies this
      ensures instructions == old(instructions) + AxisStep(ratio, pos, signal)
    {
      Push(LoadImm(RATIO, F64(ratio)));
      Push(Arith3(Mul, TSTEP, RATIO, AXIS_STEP));
      Push(Arith3(Add, pos, AXIS_STEP, pos));
      Push(StoreSignal(signal, pos));
    }

    method EmitAxisSteps(m: Profile, d: real)
      requires d > 0.0
      modifies this
      ensures instructions == old(instructions) + AxisSteps(m, d)
    {
      hide AxisStep;
      EmitAxisStep(m.dx / d, POS_X, "axis.0.pos");
      if MovesY(m) {
        EmitAxisStep(m.dy / d, POS_Y, "axis.1.pos");
      }
      if MovesZ(m) {
        EmitAxisStep(m.dz / d, POS_Z, "axis.2.pos");
      }
    }

    method EmitLoopBody(m: Profile, d: real, phase: Phase)
      requires d > 0.0
      modifies this
      ensures instructions == old(instructions) + LoopBody(m, d, phase)
    {
      hide AxisSteps;
      Push(Arith3(Mul, VEL, DT, TSTEP));
      EmitAxisSteps(m, d);
      match phase {
        case Accelerate => Push(Arith3(Add, VEL, VSTEP, VEL));
        case Decelerate => Push(Arith3(Sub, VEL, VSTEP, VEL));
        case Cruise =>
      }
      Push(Arith3(Sub, COUNTER, ONE, COUNTER));
      Push(Regs2(Gt, COUNTER, ZERO));
    }

    method EmitProfilePhase(m: Profile, d: real, cycles: u32, v: real, phase: Phase)
      requires d > 0.0
      modifies this
      ensures instructions == old(instructions) + PhaseCode(m, d, cycles, v, phase, |old(instructions)|)
    {
      hide LoopBody;
      if cycles == 0 {
        return;
      }
      var vStart := if phase == Accelerate then 0.0 else v;
      Push(LoadImm(VSTEP, F64(SpeedStep(m))));
      Push(LoadImm(VEL, F64(vStart)));
      Push(LoadImm(COUNTER, F64(cycles as real)));
      var loopStart := |instructions|;
      ghost var head, body := PhaseHeader(m, cycles, v, phase), LoopBody(m, d, phase);
      assert instructions == old(instructions) + head;
      EmitLoopBody(m, d, phase);
      Push(JumpIfTo(loopStart));
      assert instructions == old(instructions) + (head + body + [JumpIfTo(loopStart)]);
    }

    method EmitStartPositions(m: Profile)
      modifies this
      ensures instructions == old(instructions) + StartPositions(m)
    {
      Push(LoadImm(POS_X, F64(m.startX)));
      if MovesY(m) {
        Push(LoadImm(POS_Y, F64(m.startY)));
      }
      if MovesZ(m) {
        Push(LoadImm(POS_Z, F64(m.startZ)));
      }
    }

    /** The two jumps are placeholders until their targets are known. */
    method EmitSwitch()
      modifies this
      ensures instructions == old(instructions) + ShortSwitch(|old(instructions)|)
    {
      hide *;
      Push(Regs2(Gt, COUNTER, RATIO));
      var jumpIfAt := |instructions|;
      Push(NOP);
      Push(Arith3(Add, VEL, VSTEP, VEL));
      var jumpAt := |instructions|;
      Push(NOP);
      var slowDown := |instructions|;
      Push(Arith3(Sub, VEL, VSTEP, VEL));
      instructions := instructions[jumpIfAt := JumpIfTo(slowDown)];
      instructions := instructions[jumpAt := JumpTo(slowDown + 1)];
      SwitchPatched(old(instructions), instructions);
    }

    /** The rest of a short move after its speed, its speed step and X. */
    method EmitTriangularMotion(m: Profile, d: real, half: u32)
      requires d > 0.0
      modifies this
      ensures instructions == old(instructions) + ShortRest(m, d, half, |old(instructions)|)
    {
      hide *;
      if MovesY(m) {
        Push(LoadImm(POS_Y, F64(m.startY)));
      }
      if MovesZ(m) {
        Push(LoadImm(POS_Z, F64(m.startZ)));
      }
      Push(LoadImm(COUNTER, F64(Doubled(half) as real)));
      Push(LoadImm(RATIO, F64(half as real)));
      ghost var c0 := instructions;
      var loopStart := |instructions|;
      Push(Arith3(Mul, VEL, DT, TSTEP));
      EmitAxisSteps(m, d);
      ghost var c1 := instructions;
      EmitSwitch();
      Push(Arith3(Sub, COUNTER, ONE, COUNTER));
      Push(Regs2(Gt, COUNTER, ZERO));
      Push(JumpIfTo(loopStart));
      RestIs(m, d, half, old(instructions), c0, c1, instructions);
    }
  }

  const NOP: Instruction := Instruction(Nop, [])

  /** What follows the load of X in a short move, at address `at`. */
  function ShortRest(m: Profile, d: real, half: u32, at: nat): seq<Instruction>
    requires d > 0.0
  {
    var start :=
      (if MovesY(m) then [LoadImm(POS_Y, F64(m.startY))] else [])
      + (if MovesZ(m) then [LoadImm(POS_Z, F64(m.startZ))] else [])
      + [LoadImm(COUNTER, F64(Doubled(half) as real)), LoadImm(RATIO, F64(half as real))];
    start + ShortLoop(m, d, at + |start|)
  }

  lemma SwitchPatched(c: seq<Instruction>, patched: seq<Instruction>)
    requires var n := |c|;
             patched == (c + [Regs2(Gt, COUNTER, RATIO)] + [NOP] + [Arith3(Add, VEL, VSTEP, VEL)] + [NOP] + [Arith3(Sub, VEL, VSTEP, VEL)])
                        [n + 1 := JumpIfTo(n + 4)][n + 3 := JumpTo(n + 5)]
    ensures patched == c + ShortSwitch(|c|)
  {
  }

  lemma RestIs(m: Profile, d: real, half: u32, before: seq<Instruction>, c0: seq<Instruction>, c1: seq<Instruction>, after: seq<Instruction>)
    requires d > 0.0
    requires c0 == before + (if MovesY(m) then [LoadImm(POS_Y, F64(m.startY))] else []) + (if MovesZ(m) then [LoadImm(POS_Z, F64(m.startZ))] else [])
                   + [LoadImm(COUNTER, F64(Doubled(half) as real))] + [LoadImm(RATIO, F64(half as real))]
    requires c1 == c0 + [Arith3(Mul, VEL, DT, TSTEP)] + AxisSteps(m, d)
    requires after == c1 + ShortSwitch(|c1|) + [Arith3(Sub, COUNTER, ONE, COUNTER)] + [Regs2(Gt, COUNTER, ZERO)] + [JumpIfTo(|c0|)]
    ensures after == before + ShortRest(m, d, half, |before|)
  {
    hide AxisSteps, ShortSwitch, Doubled, MovesY, MovesZ;
    assert c1 == c0 + MoveCode(m, d);
    assert after == c0 + ShortLoop(m, d, |c0|);
  }

  lemma ShortProgramIs(m: Profile, d: real, peak: real)
    requires d > 0.0 && m.acceleration != 0.0 && m.dt != 0.0
    ensures var c := Prelude(m) + [LoadImm(VEL, F64(0.0))] + [LoadImm(VSTEP, F64(ShortStep(m, peak)))] + [LoadImm(POS_X, F64(m.startX))];
            c + ShortRest(m, d, HalfCycles(m, peak), |c|) == ShortProgram(m, d, peak)
  {
    hide ShortLoop, Prelude, ShortStep, HalfCycles, Doubled, MovesY, MovesZ;
    var c := Prelude(m) + [LoadImm(VEL, F64(0.0))] + [LoadImm(VSTEP, F64(ShortStep(m, peak)))] + [LoadImm(POS_X, F64(m.startX))];
    var rest := ShortRest(m, d, HalfCycles(m, peak), |c|);
    var c0 := Prelude(m) + ShortStart(m, peak);
    assert c + rest == c0 + ShortLoop(m, d, |c0|);
  }

  /** The program of a move: constants only when it is shorter than 1e-9, three phases when it is
      long enough to cruise, and one loop otherwise. */
  method GenerateTrapezoidalProgram(m: Profile, d: real, peak: real) returns (program: seq<Instruction>)
    requires IsDistance(m, d) && m.acceleration != 0.0 && m.dt != 0.0
    requires CruiseDistance(m, d) <= 0.0 ==> IsPeakSpeed(m, d, peak)
    ensures program ==
            if d < EPSILON then Prelude(m)
            else if CruiseDistance(m, d) > 0.0 then CruiseProgram(m, d)
            else ShortProgram(m, d, peak)
  {
    hide *;
    var g := new Generator();
    g.Push(LoadImm(DT, F64(m.dt)));
    g.Push(LoadImm(ZERO, F64(0.0)));
    g.Push(LoadImm(ONE, F64(1.0)));
    PreludeIs(m);
    if d < EPSILON {
      return g.instructions;
    }
    EpsilonPositive();
    if CruiseDistance(m, d) <= 0.0 {
      g.Push(LoadImm(VEL, F64(0.0)));
      g.Push(LoadImm(VSTEP, F64(ShortStep(m, peak))));
      g.Push(LoadImm(POS_X, F64(m.startX)));
      g.EmitTriangularMotion(m, d, HalfCycles(m, peak));
      ShortProgramIs(m, d, peak);
      return g.instructions;
    }
    CruiseProgramIs(m, d);
    var v, accel, cruise := TargetSpeed(m), AccelCycles(m), CruiseCycles(m, d);
    g.EmitStartPositions(m);
    NoPhase(m, d, v);
    if accel > 0 {
      g.EmitProfilePhase(m, d, accel, v, Accelerate);
    }
    if cruise > 0 {
      g.EmitProfilePhase(m, d, cruise, v, Cruise);
    }
    if accel > 0 {
      g.EmitProfilePhase(m, d, accel, v, Decelerate);
    }
    program := g.instructions;
  }

  lemma EpsilonPositive()
    ensures EPSILON > 0.0
  {
  }

  lemma PreludeIs(m: Profile)
    ensures [] + [LoadImm(DT, F64(m.dt))] + [LoadImm(ZERO, F64(0.0))] + [LoadImm(ONE, F64(1.0))] == Prelude(m)
  {
  }

  lemma CruiseProgramIs(m: Profile, d: real)
    requires d > 0.0 && m.acceleration != 0.0 && m.dt != 0.0
    ensures var v, n := TargetSpeed(m), AccelCycles(m);
            var c0 := Prelude(m) + StartPositions(m);
            var c1 := c0 + PhaseCode(m, d, n, v, Accelerate, |c0|);
            var c2 := c1 + PhaseCode(m, d, CruiseCycles(m, d), v, Cruise, |c1|);
            CruiseProgram(m, d) == c2 + PhaseCode(m, d, n, v, Decelerate, |c2|)
  {
    hide PhaseCode, Prelude, StartPositions, TargetSpeed, AccelCycles, CruiseCycles;
  }

  lemma NoPhase(m: Profile, d: real, v: real)
    requires d > 0.0
    ensures forall phase, base :: PhaseCode(m, d, 0, v, phase, base) == []
  {
  }
}

/**
 The path a trapezoidal program travels: closed formula for its length, bounds on
 every speed and on the overshoot, and the end position of every axis.
 */
module MotionPath {
  import opened Values
  import opened Machine
  import opened Runs
  import opened Motion
  import opened MotionCorrect

  // ----- speed and path of one phase -----

  /** Speed in turn `i` of a phase. */
  function SpeedAt(m: Profile, phase: Phase, u: real, i: nat): real { u + i as real * Delta(m, phase) }

  /** Path length of the first `n` turns. */
  function Path(m: Profile, phase: Phase, u: real, n: nat): real {
    if n == 0 then 0.0 else Path(m, phase, u, n - 1) + Scaled(SpeedAt(m, phase, u, n - 1), m.dt)
  }

  lemma ScaledAdd(s: real, t: real, r: real)
    ensures Scaled(s, r) + Scaled(t, r) == Scaled(s + t, r) && Scaled(0.0, r) == 0.0
  {
  }

  lemma MovedTwice(m: Profile, d: real, k: Kin, s: real, t: real)
    requires d > 0.0
    ensures Moved(m, d, Moved(m, d, k, s), t) == Moved(m, d, k, s + t)
    ensures Moved(m, d, k, 0.0) == k
  {
    hide Scaled, MovesY, MovesZ;
    ScaledAdd(s, t, m.dx / d);
    ScaledAdd(s, t, m.dy / d);
    ScaledAdd(s, t, m.dz / d);
  }

  lemma SpeedNext(m: Profile, phase: Phase, u: real, n: nat)
    ensures SpeedAt(m, phase, u, n + 1) == SpeedAt(m, phase, u, n) + Delta(m, phase)
    ensures SpeedAt(m, phase, u, 0) == u
  {
    hide Delta;
  }

  /** The machine's state after `n` turns: counter, speed and position. */
  lemma {:induction false} AfterTurns(m: Profile, d: real, phase: Phase, k: Kin, n: nat)
    requires d > 0.0
    ensures Iterate(m, d, phase, k, n)
         == Moved(m, d, k, Path(m, phase, k.vel, n)).(counter := k.counter - n, vel := SpeedAt(m, phase, k.vel, n))
    decreases n
  {
    hide SpeedAt, Scaled, MovesY, MovesZ, Delta;
    if n == 0 {
      MovedTwice(m, d, k, 0.0, 0.0);
      SpeedNext(m, phase, k.vel, 0);
    } else {
      AfterTurns(m, d, phase, k, n - 1);
      SpeedNext(m, phase, k.vel, n - 1);
      MovedTwice(m, d, k, Path(m, phase, k.vel, n - 1), Scaled(SpeedAt(m, phase, k.vel, n - 1), m.dt));
    }
  }

  /** Arithmetic series: n turns at the start speed plus a triangle of speed changes. */
  lemma {:induction false} PathClosed(m: Profile, phase: Phase, u: real, n: nat)
    ensures Path(m, phase, u, n) == (n as real * u + Delta(m, phase) * Triangle(n)) * m.dt
    decreases n
  {
    hide Delta;
    if n > 0 {
      PathClosed(m, phase, u, n - 1);
      var a, b := (n - 1) as real, Delta(m, phase);
      assert Triangle(n) == Triangle(n - 1) + a;
      assert n as real == a + 1.0;
      Distribute(a * u + b * Triangle(n - 1), u + a * b, m.dt);
      assert b * Triangle(n) == b * Triangle(n - 1) + a * b;
      assert n as real * u == a * u + u;
    }
  }

  lemma Distribute(x: real, y: real, r: real)
    ensures x * r + Scaled(y, r) == (x + y) * r
  {
  }

  /** 0 + 1 + ... + (n-1). */
  function Triangle(n: nat): real { if n == 0 then 0.0 else Triangle(n - 1) + (n - 1) as real }

  // ----- rounding up -----

  lemma CeilBounds(x: real)
    requires x > 0.0
    ensures CeilU32(x) >= 1 && CeilU32(x) as real < x + 1.0
    ensures x <= (TWO_32 - 1) as real ==> CeilU32(x) as real >= x
  {
    var f := (-x).Floor;
    assert f as real <= -x < f as real + 1.0;
  }

  lemma Quotient(x: real, a: real, b: real)
    requires a > 0.0 && b > 0.0
    ensures (x / a / b) * (a * b) == x && x / a * a == x
  {
    var y := x / a;
    assert y * a == x;
    var z := y / b;
    assert z * b == y;
    assert z * (a * b) == (z * b) * a;
  }

  lemma MulLess(x: real, y: real, c: real)
    requires x < y && c > 0.0
    ensures x * c < y * c
  {
  }

  lemma MulAtMost(x: real, y: real, c: real)
    requires x <= y && c >= 0.0
    ensures x * c <= y * c
  {
  }

  predicate Physical(m: Profile) { m.acceleration > 0.0 && m.dt > 0.0 }

  /** The cycle counts fit in 32 bits, so rounding up does not saturate. */
  predicate CountsFit(m: Profile, d: real)
    requires Physical(m)
  {
    && TargetSpeed(m) / m.acceleration / m.dt <= (TWO_32 - 1) as real
    && CruiseDistance(m, d) / TargetSpeed(m) / m.dt <= (TWO_32 - 1) as real
  }

  // ----- speeds -----

  lemma StepPositive(m: Profile)
    requires Physical(m)
    ensures SpeedStep(m) > 0.0
  {
  }

  /** The last speed step of a ramp stays below the target speed. */
  lemma RampBelowTarget(m: Profile, i: nat)
    requires Physical(m) && i < AccelCycles(m)
    ensures 0.0 <= i as real * SpeedStep(m) <= TargetSpeed(m)
  {
    hide TargetSpeed, CeilU32;
    StepPositive(m);
    var v := TargetSpeed(m);
    var x := v / m.acceleration / m.dt;
    PositiveQuotient(v, m.acceleration, m.dt);
    CeilBounds(x);
    Quotient(v, m.acceleration, m.dt);
    assert i as real <= x;
    MulAtMost(i as real, x, SpeedStep(m));
    MulAtMost(0.0, i as real, SpeedStep(m));
  }

  lemma PositiveQuotient(v: real, a: real, b: real)
    requires v > 0.0 && a > 0.0 && b > 0.0
    ensures v / a / b > 0.0
  {
    assert v / a > 0.0;
  }

  /** No turn of any phase runs at a speed outside the range from zero to the target speed. */
  lemma SpeedsWithinTarget(m: Profile, d: real, phase: Phase, i: nat)
    requires Physical(m)
    requires i < if phase == Cruise then CruiseCycles(m, d) else AccelCycles(m)
    ensures 0.0 <= SpeedAt(m, phase, StartSpeed(TargetSpeed(m), phase), i) <= TargetSpeed(m)
  {
    hide TargetSpeed, SpeedStep, AccelCycles, CruiseCycles;
    match phase
    case Cruise =>
    case Accelerate => RampBelowTarget(m, i);
    case Decelerate =>
      RampBelowTarget(m, i);
      assert i as real * (-SpeedStep(m)) == -(i as real * SpeedStep(m));
  }

  // ----- total path -----

  function TotalPath(m: Profile, d: real): real
    requires Physical(m)
  {
    var v, n := TargetSpeed(m), AccelCycles(m);
    Path(m, Accelerate, 0.0, n) + Path(m, Cruise, v, CruiseCycles(m, d)) + Path(m, Decelerate, v, n)
  }

  /** The two ramps make up for each other: the path is that of all but the last ramp at full speed. */
  lemma TotalPathClosed(m: Profile, d: real)
    requires Physical(m)
    ensures TotalPath(m, d) == (AccelCycles(m) as real + CruiseCycles(m, d) as real) * TargetSpeed(m) * m.dt
  {
    hide TargetSpeed, SpeedStep, AccelCycles, CruiseCycles, Path, Triangle;
    var v, n, c := TargetSpeed(m), AccelCycles(m), CruiseCycles(m, d);
    PathClosed(m, Accelerate, 0.0, n);
    PathClosed(m, Cruise, v, c);
    PathClosed(m, Decelerate, v, n);
    var s, t, a, b := SpeedStep(m), Triangle(n), n as real, c as real;
    assert Delta(m, Accelerate) == s && Delta(m, Cruise) == 0.0 && Delta(m, Decelerate) == -s;
    RampsCancel(a, b, v, s, t, Triangle(c), m.dt);
  }

  lemma RampsCancel(a: real, b: real, v: real, s: real, t: real, t': real, r: real)
    ensures (a * 0.0 + s * t) * r + (b * v + 0.0 * t') * r + (a * v + -s * t) * r == (a + b) * v * r
  {
    var x := s * t;
    assert -s * t == -x;
    assert x * r + (b * v) * r + (a * v - x) * r == (b * v + a * v) * r;
    assert (a + b) * v == a * v + b * v;
  }

  lemma PositiveProduct(v: real, dt: real)
    requires v > 0.0 && dt > 0.0
    ensures v * dt > 0.0
  {
  }

  /** What a count below x + 1 misses of one cycle more than x, at way `c` per cycle. */
  lemma Below(c: real, x: real, n: real) returns (gap: real)
    requires c > 0.0 && n < x + 1.0
    ensures gap > 0.0 && n * c + gap == x * c + c
  {
    gap := (x + 1.0 - n) * c;
    PositiveProduct(x + 1.0 - n, c);
  }

  lemma Ways(v: real, dt: real, x: real, n: real, time: real)
    requires dt * x == time
    ensures v * time == x * (v * dt) && n * v * dt == n * (v * dt)
  {
  }

  lemma TimesQuotient(s: real, v: real)
    requires v != 0.0
    ensures v * (s / v) == s
  {
  }

  /** `x` cycles are the exact time; a count below x + 1 makes less than one cycle more than its way. */
  lemma CycleBelow(time: real, v: real, dt: real, x: real, n: real)
    requires v > 0.0 && dt > 0.0 && dt * x == time && n < x + 1.0
    ensures n * v * dt < v * time + v * dt
  {
    Ways(v, dt, x, n, time);
    PositiveProduct(v, dt);
    var gap := Below(v * dt, x, n);
    assert n * v * dt + gap == v * time + v * dt;
  }

  lemma CycleAbove(time: real, v: real, dt: real, x: real, n: real)
    requires v > 0.0 && dt > 0.0 && dt * x == time && n >= x
    ensures n * v * dt >= v * time
  {
    Ways(v, dt, x, n, time);
    PositiveProduct(v, dt);
    MulAtMost(x, n, v * dt);
  }

  lemma RampBelow(v: real, a: real, dt: real, n: real)
    requires v > 0.0 && a > 0.0 && dt > 0.0 && n < v / a / dt + 1.0
    ensures n * v * dt < v * (v / a) + v * dt
  {
    TimesQuotient(v / a, dt);
    CycleBelow(v / a, v, dt, v / a / dt, n);
  }

  lemma RampAbove(v: real, a: real, dt: real, n: real)
    requires v > 0.0 && a > 0.0 && dt > 0.0 && n >= v / a / dt
    ensures n * v * dt >= v * (v / a)
  {
    TimesQuotient(v / a, dt);
    CycleAbove(v / a, v, dt, v / a / dt, n);
  }

  lemma CruiseBelow(s: real, v: real, dt: real, n: real)
    requires v > 0.0 && dt > 0.0 && n < s / v / dt + 1.0
    ensures n * v * dt < s + v * dt
  {
    TimesQuotient(s / v, dt);
    TimesQuotient(s, v);
    CycleBelow(s / v, v, dt, s / v / dt, n);
  }

  lemma CruiseAbove(s: real, v: real, dt: real, n: real)
    requires v > 0.0 && dt > 0.0 && n >= s / v / dt
    ensures n * v * dt >= s
  {
    TimesQuotient(s / v, dt);
    TimesQuotient(s, v);
    CycleAbove(s / v, v, dt, s / v / dt, n);
  }

  lemma CruiseDistanceIs(m: Profile, d: real)
    requires Physical(m)
    ensures d == CruiseDistance(m, d) + TargetSpeed(m) * (TargetSpeed(m) / m.acceleration)
  {
    hide TargetSpeed;
    var v, a := TargetSpeed(m), m.acceleration;
    var t := v / a;
    assert a * t == v;
    assert 2.0 * (0.5 * a * t * t) == (a * t) * t;
  }

  /** The path overshoots the distance by less than two cycles at full speed, and never falls short
      of it unless a count saturates at 32 bits. */
  lemma Overshoot(m: Profile, d: real)
    requires Physical(m) && CruiseDistance(m, d) > 0.0
    ensures TotalPath(m, d) - d < 2.0 * TargetSpeed(m) * m.dt
    ensures CountsFit(m, d) ==> TotalPath(m, d) - d >= 0.0
  {
    hide TargetSpeed, CruiseDistance, CeilU32, TotalPath;
    var v, a, dt, s := TargetSpeed(m), m.acceleration, m.dt, CruiseDistance(m, d);
    var n, c := AccelCycles(m) as real, CruiseCycles(m, d) as real;
    TotalPathClosed(m, d);
    CruiseDistanceIs(m, d);
    PositiveQuotient(v, a, dt);
    PositiveQuotient(s, v, dt);
    CeilBounds(v / a / dt);
    CeilBounds(s / v / dt);
    OvershootBelow(TotalPath(m, d), d, n, c, v, a, dt, s);
    if CountsFit(m, d) {
      OvershootAbove(TotalPath(m, d), d, n, c, v, a, dt, s);
    }
  }

  lemma OvershootBelow(total: real, d: real, n: real, c: real, v: real, a: real, dt: real, s: real)
    requires v > 0.0 && a > 0.0 && dt > 0.0 && total == (n + c) * v * dt && d == s + v * (v / a)
    requires n < v / a / dt + 1.0 && c < s / v / dt + 1.0
    ensures total - d < 2.0 * v * dt
  {
    RampBelow(v, a, dt, n);
    CruiseBelow(s, v, dt, c);
    SumOfWays(n, c, v, dt);
    SumBelow(total, d, n * v * dt, c * v * dt, v * (v / a), s, v * dt);
  }

  lemma OvershootAbove(total: real, d: real, n: real, c: real, v: real, a: real, dt: real, s: real)
    requires v > 0.0 && a > 0.0 && dt > 0.0 && total == (n + c) * v * dt && d == s + v * (v / a)
    requires n >= v / a / dt && c >= s / v / dt
    ensures total - d >= 0.0
  {
    RampAbove(v, a, dt, n);
    CruiseAbove(s, v, dt, c);
    SumOfWays(n, c, v, dt);
    SumAbove(total, d, n * v * dt, c * v * dt, v * (v / a), s);
  }

  lemma SumOfWays(n: real, c: real, v: real, dt: real)
    ensures (n + c) * v * dt == n * v * dt + c * v * dt && 2.0 * v * dt == 2.0 * (v * dt)
  {
  }

  lemma SumBelow(total: real, d: real, ramp: real, cruise: real, rampWay: real, s: real, cycle: real)
    requires total == ramp + cruise && d == s + rampWay && ramp < rampWay + cycle && cruise < s + cycle
    ensures total - d < 2.0 * cycle
  {
  }

  lemma SumAbove(total: real, d: real, ramp: real, cruise: real, rampWay: real, s: real)
    requires total == ramp + cruise && d == s + rampWay && ramp >= rampWay && cruise >= s
    ensures total - d >= 0.0
  {
  }

  lemma SquareLess(a: real, b: real)
    requires 0.0 < a < b
    ensures a * a < b * b
  {
    MulLess(a, b, a);
    MulLess(a, b, b);
    assert b * a == a * b;
  }

  lemma ComponentWithin(x: real, d: real)
    requires d > 0.0 && x * x <= d * d
    ensures -1.0 <= x / d <= 1.0
  {
    TimesQuotient(x, d);
    RatioWithin(x, d, x / d);
  }

  lemma RatioWithin(x: real, d: real, r: real)
    requires d > 0.0 && x * x <= d * d && d * r == x
    ensures -1.0 <= r <= 1.0
  {
    if d < x {
      SquareLess(d, x);
      assert false;
    }
    if d < -x {
      SquareLess(d, -x);
      NegatedSquare(x);
      assert false;
    }
    if r > 1.0 {
      MulLess(1.0, r, d);
      assert false;
    }
    if r < -1.0 {
      MulLess(r, -1.0, d);
      assert false;
    }
  }

  lemma NegatedSquare(x: real)
    ensures -x * -x == x * x
  {
  }

  lemma SquareNotNegative(x: real)
    ensures x * x >= 0.0
  {
  }

  /** An axis that moves by `x` of the distance ends no further from its target than the path overshoots. */
  lemma AxisError(x: real, d: real, s: real)
    requires d > 0.0 && x * x <= d * d && s >= d
    ensures -(s - d) <= Scaled(s, x / d) - x <= s - d
  {
    hide *;
    ComponentWithin(x, d);
    TimesQuotient(x, d);
    AxisErrorOf(x, d, s, x / d);
  }

  lemma AxisErrorOf(x: real, d: real, s: real, r: real)
    requires d * r == x && -1.0 <= r <= 1.0 && s >= d
    ensures -(s - d) <= Scaled(s, r) - x <= s - d
  {
    hide *;
    ErrorIs(x, d, s, r);
    RatioBounds(r, s - d);
  }

  lemma ErrorIs(x: real, d: real, s: real, r: real)
    requires d * r == x
    ensures Scaled(s, r) - x == Scaled(r, s - d)
  {
  }

  lemma RatioBounds(r: real, w: real)
    requires -1.0 <= r <= 1.0 && w >= 0.0
    ensures -w <= Scaled(r, w) <= w
  {
    hide *;
    RatioAtMost(r, w);
    RatioAtMost(-r, w);
    NegatedScaled(r, w);
  }

  lemma NegatedScaled(r: real, w: real)
    ensures Scaled(-r, w) == -Scaled(r, w)
  {
  }

  lemma RatioAtMost(r: real, w: real)
    requires r <= 1.0 && w >= 0.0
    ensures Scaled(r, w) <= w
  {
    var rest := (1.0 - r) * w;
    ProductNotNegative(1.0 - r, w);
    assert r * w + rest == w;
  }

  lemma ProductNotNegative(a: real, b: real)
    requires a >= 0.0 && b >= 0.0
    ensures a * b >= 0.0
  {
  }

  /** Every coordinate of the end position is within two cycles at full speed of its target. */
  lemma EndsNearTarget(m: Profile, d: real)
    requires Physical(m) && d > 0.0 && IsDistance(m, d) && CruiseDistance(m, d) > 0.0 && CountsFit(m, d)
    ensures var to, tolerance := Moved(m, d, StartKin(m), TotalPath(m, d)), 2.0 * TargetSpeed(m) * m.dt;
            && Abs(to.x - (m.startX + m.dx)) < tolerance
            && (MovesY(m) ==> Abs(to.y - (m.startY + m.dy)) < tolerance)
            && (MovesZ(m) ==> Abs(to.z - (m.startZ + m.dz)) < tolerance)
  {
    hide TotalPath, TargetSpeed, CountsFit, CruiseDistance, Scaled, MovesY, MovesZ;
    Overshoot(m, d);
    SquareNotNegative(m.dx);
    SquareNotNegative(m.dy);
    SquareNotNegative(m.dz);
    AxisError(m.dx, d, TotalPath(m, d));
    AxisError(m.dy, d, TotalPath(m, d));
    AxisError(m.dz, d, TotalPath(m, d));
  }

  // ----- the whole program -----

  function StartKin(m: Profile): Kin { Kin(0, 0.0, m.startX, m.startY, m.startZ) }

  lemma LoadStep(vm: Vm, r: u8, v: Value) returns (out: Vm)
    requires r < REGISTER_COUNT
    ensures Flow(vm, [LoadImm(r, v)]) == Running(out) && out == AdvanceIp(SetReg(vm, r, v))
  {
    hide Execute, Flow;
    ImmRuns(vm, r, v);
    FlowCons(vm, LoadImm(r, v), [], SetReg(vm, r, v));
    out := AdvanceIp(SetReg(vm, r, v));
    FlowNothing(out);
    assert [LoadImm(r, v)] + [] == [LoadImm(r, v)];
  }

  lemma PreludeRuns(vm: Vm, m: Profile) returns (out: Vm)
    ensures Flow(vm, Prelude(m)) == Running(out)
    ensures out.regs[ZERO] == F64(0.0) && out.regs[ONE] == F64(1.0) && out.regs[DT] == F64(m.dt)
  {
    hide Flow;
    var a, b, c := LoadImm(DT, F64(m.dt)), LoadImm(ZERO, F64(0.0)), LoadImm(ONE, F64(1.0));
    var v1 := LoadStep(vm, DT, F64(m.dt));
    var v2 := LoadStep(v1, ZERO, F64(0.0));
    FlowAppend(vm, [a], [b]);
    out := LoadStep(v2, ONE, F64(1.0));
    FlowAppend(vm, [a] + [b], [c]);
    assert [a] + [b] + [c] == Prelude(m);
  }

  lemma PositionsRun(vm: Vm, m: Profile) returns (out: Vm)
    requires vm.regs[ZERO] == F64(0.0) && vm.regs[ONE] == F64(1.0) && vm.regs[DT] == F64(m.dt)
    ensures Flow(vm, StartPositions(m)) == Running(out) && Ready(out, m, StartKin(m))
    ensures SameRegsExcept(out, vm, {POS_X, POS_Y, POS_Z})
  {
    hide Flow, MovesY, MovesZ;
    var a := [LoadImm(POS_X, F64(m.startX))];
    var b := if MovesY(m) then [LoadImm(POS_Y, F64(m.startY))] else [];
    var c := if MovesZ(m) then [LoadImm(POS_Z, F64(m.startZ))] else [];
    var v1 := LoadStep(vm, POS_X, F64(m.startX));
    var v2 := v1;
    if MovesY(m) {
      v2 := LoadStep(v1, POS_Y, F64(m.startY));
    } else {
      FlowNothing(v1);
    }
    FlowAppend(vm, a, b);
    out := v2;
    if MovesZ(m) {
      out := LoadStep(v2, POS_Z, F64(m.startZ));
    } else {
      FlowNothing(v2);
    }
    FlowAppend(vm, a + b, c);
  }

  lemma StartIsStraight(m: Profile)
    ensures StraightCode(Prelude(m) + StartPositions(m))
  {
  }

  /** Machine steps of the whole program. */
  function ProgramSteps(m: Profile, d: real): nat
    requires d > 0.0 && Physical(m)
  {
    var n := AccelCycles(m);
    |Prelude(m) + StartPositions(m)| + PhaseSteps(m, d, n, Accelerate)
    + PhaseSteps(m, d, CruiseCycles(m, d), Cruise) + PhaseSteps(m, d, n, Decelerate)
  }

  lemma Placed(a: seq<Instruction>, b: seq<Instruction>, c: seq<Instruction>)
    ensures CodeAt(a + b + c, |a|, b)
  {
    assert (a + b + c)[|a|..|a| + |b|] == b;
  }

  /** Position after a phase, in terms of its path. */
  lemma PhaseEndIs(m: Profile, d: real, cycles: u32, v: real, phase: Phase, k: Kin)
    requires d > 0.0
    ensures var e := PhaseEnd(m, d, cycles, v, phase, k);
            var to := Moved(m, d, k, Path(m, phase, StartSpeed(v, phase), cycles));
            e.x == to.x && e.y == to.y && e.z == to.z
  {
    hide Path, SpeedAt, Iterate, Scaled, MovesY, MovesZ;
    AfterTurns(m, d, phase, k.(counter := cycles, vel := StartSpeed(v, phase)), cycles);
  }

  lemma ReadyDepends(vm: Vm, m: Profile, k: Kin, k': Kin)
    requires k.x == k'.x && k.y == k'.y && k.z == k'.z
    ensures Ready(vm, m, k) == Ready(vm, m, k') && Shows(vm, m, k) == Shows(vm, m, k')
  {
  }

  lemma PhaseMoves(p: Program, vm: Vm, m: Profile, d: real, cycles: u32, v: real, phase: Phase, k: Kin) returns (out: Vm)
    requires d > 0.0 && Ready(vm, m, k) && |p| < TWO_32 && CodeAt(p, vm.ip, PhaseCode(m, d, cycles, v, phase, vm.ip))
    ensures Reaches(p, vm, PhaseSteps(m, d, cycles, phase), out)
    ensures out.ip == vm.ip + |PhaseCode(m, d, cycles, v, phase, vm.ip)|
    ensures Ready(out, m, Moved(m, d, k, Path(m, phase, StartSpeed(v, phase), cycles)))
    ensures cycles > 0 ==> Shows(out, m, Moved(m, d, k, Path(m, phase, StartSpeed(v, phase), cycles)))
  {
    hide Reaches, PhaseCode, PhaseSteps, Path, PhaseEnd, Ready, Shows, Moved;
    out := PhaseRuns(p, vm, m, d, cycles, v, phase, k);
    PhaseEndIs(m, d, cycles, v, phase, k);
    ReadyDepends(out, m, PhaseEnd(m, d, cycles, v, phase, k), Moved(m, d, k, Path(m, phase, StartSpeed(v, phase), cycles)));
  }

  lemma AccelCyclesPositive(m: Profile)
    requires Physical(m)
    ensures AccelCycles(m) > 0
  {
    hide TargetSpeed, CeilU32;
    PositiveQuotient(TargetSpeed(m), m.acceleration, m.dt);
    CeilBounds(TargetSpeed(m) / m.acceleration / m.dt);
  }

  /** From any machine state, the program of a cruising move takes exactly its number of steps to
      run through, and leaves every moving axis at its start plus its share of the path, in its
      register and in its signal. It has no halt instruction: the next step is out of bounds. */
  lemma ProgramMoves(m: Profile, d: real, vm: Vm) returns (out: Vm)
    requires d > 0.0 && Physical(m) && vm.ip == 0
    ensures var p := CruiseProgram(m, d);
            var to := Moved(m, d, StartKin(m), TotalPath(m, d));
            && Reaches(p, vm, ProgramSteps(m, d), out) && out.ip == |p| && Step(p, out) == Faulted(IpOutOfBounds)
            && At(out, m, to) && Shows(out, m, to)
  {
    hide Run, PhaseCode, PhaseSteps, Path, Ready, Shows, Moved, Flow, Prelude, StartPositions, TargetSpeed, AccelCycles, CruiseCycles, Execute, CruiseProgram, CodeAt;
    var p, v, n, c := CruiseProgram(m, d), TargetSpeed(m), AccelCycles(m), CruiseCycles(m, d);
    var a0, a1, a2 := ProgramLayout(m, d);
    var v0 := StartRuns(p, vm, m);
    var v1 := PhaseMoves(p, v0, m, d, n, v, Accelerate, StartKin(m));
    var s1 := Path(m, Accelerate, 0.0, n);
    var k1 := Moved(m, d, StartKin(m), s1);
    ReachesTrans(p, vm, a0, v0, PhaseSteps(m, d, n, Accelerate), v1);
    var v2 := PhaseMoves(p, v1, m, d, c, v, Cruise, k1);
    var s2 := Path(m, Cruise, v, c);
    var k2 := Moved(m, d, k1, s2);
    ReachesTrans(p, vm, a0 + PhaseSteps(m, d, n, Accelerate), v1, PhaseSteps(m, d, c, Cruise), v2);
    out := PhaseMoves(p, v2, m, d, n, v, Decelerate, k2);
    var s3 := Path(m, Decelerate, v, n);
    ReachesTrans(p, vm, a0 + PhaseSteps(m, d, n, Accelerate) + PhaseSteps(m, d, c, Cruise), v2, PhaseSteps(m, d, n, Decelerate), out);
    MovedTwice(m, d, StartKin(m), s1, s2);
    MovedTwice(m, d, StartKin(m), s1 + s2, s3);
    AccelCyclesPositive(m);
    ReadyAt(out, m, Moved(m, d, StartKin(m), TotalPath(m, d)));
    PastTheEnd(p, out);
  }

  lemma PastTheEnd(p: Program, vm: Vm)
    requires vm.ip == |p|
    ensures Step(p, vm) == Faulted(IpOutOfBounds)
  {
  }

  /** Where the parts of the program stand. */
  lemma ProgramLayout(m: Profile, d: real) returns (a0: nat, a1: nat, a2: nat)
    requires d > 0.0 && Physical(m)
    ensures var p, v, n, c := CruiseProgram(m, d), TargetSpeed(m), AccelCycles(m), CruiseCycles(m, d);
            && |p| < TWO_32
            && a0 == |Prelude(m) + StartPositions(m)| && CodeAt(p, 0, Prelude(m) + StartPositions(m))
            && a1 == a0 + |PhaseCode(m, d, n, v, Accelerate, a0)| && CodeAt(p, a0, PhaseCode(m, d, n, v, Accelerate, a0))
            && a2 == a1 + |PhaseCode(m, d, c, v, Cruise, a1)| && CodeAt(p, a1, PhaseCode(m, d, c, v, Cruise, a1))
            && |p| == a2 + |PhaseCode(m, d, n, v, Decelerate, a2)| && CodeAt(p, a2, PhaseCode(m, d, n, v, Decelerate, a2))
  {
    hide PhaseCode, Prelude, StartPositions, TargetSpeed, AccelCycles, CruiseCycles, CodeAt;
    var p, v, n, c := CruiseProgram(m, d), TargetSpeed(m), AccelCycles(m), CruiseCycles(m, d);
    var c0 := Prelude(m) + StartPositions(m);
    var p1 := PhaseCode(m, d, n, v, Accelerate, |c0|);
    var c1 := c0 + p1;
    var p2 := PhaseCode(m, d, c, v, Cruise, |c1|);
    var c2 := c1 + p2;
    var p3 := PhaseCode(m, d, n, v, Decelerate, |c2|);
    assert p == c2 + p3;
    assert p == [] + c0 + (p1 + p2 + p3) && p == c0 + p1 + (p2 + p3) && p == c1 + p2 + p3 && p == c2 + p3 + [];
    Placed([], c0, p1 + p2 + p3);
    Placed(c0, p1, p2 + p3);
    Placed(c1, p2, p3);
    Placed(c2, p3, []);
    a0, a1, a2 := |c0|, |c1|, |c2|;
  }

  lemma ReadyAt(vm: Vm, m: Profile, k: Kin)
    requires Ready(vm, m, k)
    ensures At(vm, m, k)
  {
  }

  lemma StartRuns(p: Program, vm: Vm, m: Profile) returns (out: Vm)
    requires vm.ip == 0 && CodeAt(p, 0, Prelude(m) + StartPositions(m))
    ensures Reaches(p, vm, |Prelude(m) + StartPositions(m)|, out) && out.ip == |Prelude(m) + StartPositions(m)|
    ensures Ready(out, m, StartKin(m))
  {
    hide Run, Flow, Prelude, StartPositions, Ready;
    var mid := PreludeRuns(vm, m);
    out := PositionsRun(mid, m);
    FlowAppend(vm, Prelude(m), StartPositions(m));
    StartIsStraight(m);
    FlowRuns(p, vm, Prelude(m) + StartPositions(m));
  }
}

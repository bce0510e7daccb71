/**
 Closed forms of the function blocks: the state after any number of scans as a
 formula of the whole input history, for a fixed preset and any cycle times.
 */
module BlockHistory {
  import opened Values
  import opened Blocks

  function Min(a: nat, b: nat): nat { if a < b then a else b }

  // ----- timers -----

  /** Input and cycle time of one scan. */
  datatype Tick = Tick(input: bool, cycle: u64)

  function TimerAfter(kind: TimerKind, preset: u64, h: seq<Tick>): Timer {
    if h == [] then FreshTimer(kind)
    else TimerScan(TimerAfter(kind, preset, h[..|h| - 1]), kind, preset, h[|h| - 1].input, h[|h| - 1].cycle)
  }

  predicate LastInput(h: seq<Tick>) { h != [] && h[|h| - 1].input }

  /** Time in the current run of scans whose input equals `level`. */
  function RunTime(h: seq<Tick>, level: bool): nat {
    if h == [] || h[|h| - 1].input != level then 0 else RunTime(h[..|h| - 1], level) + h[|h| - 1].cycle
  }

  predicate EverTrue(h: seq<Tick>) { exists i :: 0 <= i < |h| && h[i].input }

  lemma EverTrueSnoc(h: seq<Tick>)
    requires h != []
    ensures EverTrue(h) <==> EverTrue(h[..|h| - 1]) || LastInput(h)
  {
    var k := |h| - 1;
    if i :| 0 <= i < |h| && h[i].input {
      if i < k {
        assert h[..k][i].input;
      }
    }
    if i :| 0 <= i < k && h[..k][i].input {
      assert h[i].input;
    }
  }

  /** Time the pulse timer has counted: the last run of true inputs, and the scan that ended it. */
  function PulseTime(h: seq<Tick>): nat {
    if h == [] then 0
    else
      var before, now := h[..|h| - 1], h[|h| - 1];
      if now.input then RunTime(h, true)
      else if LastInput(before) then RunTime(before, true) + now.cycle
      else PulseTime(before)
  }

  /** The machine remembers the last input. */
  lemma {:induction false} TimerInput(kind: TimerKind, preset: u64, h: seq<Tick>)
    ensures TimerAfter(kind, preset, h).input == LastInput(h)
  {
    if h != [] {
      TimerInput(kind, preset, h[..|h| - 1]);
    }
  }

  /** TON: ET is the time of the current true run, capped at PT; Q when that time reaches PT. */
  lemma {:induction false} OnDelay(preset: u64, h: seq<Tick>)
    ensures var t := TimerAfter(Ton, preset, h);
            t.elapsed == Min(RunTime(h, true), preset) && (t.q <==> LastInput(h) && RunTime(h, true) >= preset)
    decreases |h|
  {
    if h != [] {
      OnDelay(preset, h[..|h| - 1]);
    }
  }

  /** TOF: once on, Q stays on until the time since the last true input reaches PT. */
  lemma {:induction false} OffDelay(preset: u64, h: seq<Tick>)
    ensures var t := TimerAfter(Tof, preset, h);
            && (t.q <==> EverTrue(h) && (LastInput(h) || RunTime(h, false) < preset))
            && t.elapsed == if EverTrue(h) then Min(RunTime(h, false), preset) else 0
    decreases |h|
  {
    hide EverTrue;
    if h == [] {
      NeverTrue();
    } else {
      OffDelay(preset, h[..|h| - 1]);
      EverTrueSnoc(h);
      RunTimeOther(h[..|h| - 1]);
    }
  }

  lemma NeverTrue()
    ensures !EverTrue([])
  {
  }

  lemma RunTimeOther(h: seq<Tick>)
    ensures LastInput(h) ==> RunTime(h, false) == 0
  {
  }

  /** TP: Q while the input has stayed true since its rising edge and the time counted, this scan included, is below PT. */
  lemma {:induction false} Pulse(preset: u64, h: seq<Tick>)
    ensures var t := TimerAfter(Tp, preset, h);
            (t.q <==> LastInput(h) && RunTime(h, true) < preset) && t.elapsed == Min(PulseTime(h), preset)
    decreases |h|
  {
    if h != [] {
      var before := h[..|h| - 1];
      Pulse(preset, before);
      TimerInput(Tp, preset, before);
      assert LastInput(before) ==> PulseTime(before) == RunTime(before, true);
    }
  }

  /** The elapsed time never exceeds the preset. */
  lemma ElapsedWithinPreset(kind: TimerKind, preset: u64, h: seq<Tick>)
    ensures TimerAfter(kind, preset, h).elapsed <= preset
  {
    match kind
    case Ton => OnDelay(preset, h);
    case Tof => OffDelay(preset, h);
    case Tp => Pulse(preset, h);
  }

  /** Reading ET through 32 bits loses nothing in any run exactly when the preset fits in 32 bits;
      a negative DINT preset, sign-extended to 64 bits, does not. */
  lemma NarrowingExactIffPresetFits(kind: TimerKind, preset: u64)
    ensures (forall h: seq<Tick> :: WrapU32(TimerAfter(kind, preset, h).elapsed) == TimerAfter(kind, preset, h).elapsed)
       <==> preset < TWO_32
  {
    if preset < TWO_32 {
      forall h: seq<Tick>
        ensures WrapU32(TimerAfter(kind, preset, h).elapsed) == TimerAfter(kind, preset, h).elapsed
      {
        ElapsedWithinPreset(kind, preset, h);
      }
    } else {
      var on, off := Tick(true, TWO_32), Tick(false, TWO_32);
      var h := if kind == Tof then [on, off] else [on];
      assert [on][..0] == [] && [on, off][..1] == [on];
      assert TimerAfter(kind, preset, [on]) == TimerScan(FreshTimer(kind), kind, preset, true, TWO_32);
      assert TimerAfter(kind, preset, h).elapsed == TWO_32;
    }
  }

  // ----- counters -----

  datatype Count = Count(cu: bool, cd: bool)

  function CounterAfter(kind: CounterKind, pv: u32, h: seq<Count>): Counter {
    if h == [] then FreshCounter()
    else CounterScan(CounterAfter(kind, pv, h[..|h| - 1]), kind, pv, h[|h| - 1].cu, h[|h| - 1].cd)
  }

  /** Number of rising edges of CU. */
  function UpEdges(h: seq<Count>): nat {
    if h == [] then 0
    else
      var k := |h| - 1;
      UpEdges(h[..k]) + if h[k].cu && !(k > 0 && h[k - 1].cu) then 1 else 0
  }

  /** CTU: CV is the number of rising edges, capped at PV, unless PV is the largest 32-bit number. */
  lemma {:induction false} CountUp(pv: u32, h: seq<Count>)
    requires pv < TWO_32 - 1
    ensures var c := CounterAfter(Ctu, pv, h);
            c.cv == Min(UpEdges(h), pv) && (c.q <==> h != [] && UpEdges(h) >= pv)
    decreases |h|
  {
    if h != [] {
      CountUp(pv, h[..|h| - 1]);
      CounterRemembers(Ctu, pv, h[..|h| - 1]);
    }
  }

  /** With the largest PV the cap never acts and CV wraps around instead. */
  lemma {:induction false} CountUpWraps(h: seq<Count>)
    ensures CounterAfter(Ctu, TWO_32 - 1, h).cv == UpEdges(h) % TWO_32
    decreases |h|
  {
    if h != [] {
      CountUpWraps(h[..|h| - 1]);
      CounterRemembers(Ctu, TWO_32 - 1, h[..|h| - 1]);
    }
  }

  /** CTD has no load input, so CV never leaves zero and Q is on from the first scan. */
  lemma {:induction false} CountDown(pv: u32, h: seq<Count>)
    ensures CounterAfter(Ctd, pv, h).cv == 0 && (CounterAfter(Ctd, pv, h).q <==> h != [])
    decreases |h|
  {
    if h != [] {
      CountDown(pv, h[..|h| - 1]);
    }
  }

  /** CTUD: CV stays between 0 and PV, QU and QD report exactly the two ends. */
  lemma {:induction false} CountUpDown(pv: u32, h: seq<Count>)
    ensures var c := CounterAfter(Ctud, pv, h);
            0 <= c.cv <= pv && (h != [] ==> (c.qu <==> c.cv == pv) && (c.qd <==> c.cv == 0) && c.q == c.qu)
    decreases |h|
  {
    if h != [] {
      CountUpDown(pv, h[..|h| - 1]);
    }
  }

  /** Number of rising edges of CD. */
  function DownEdges(h: seq<Count>): nat {
    if h == [] then 0
    else
      var k := |h| - 1;
      DownEdges(h[..k]) + if h[k].cd && !(k > 0 && h[k - 1].cd) then 1 else 0
  }

  /** At every moment of the history, counting up before counting down, the balance of edges is within 0 and PV. */
  predicate Unclamped(pv: u32, h: seq<Count>) {
    h != [] ==>
      var before := h[..|h| - 1];
      Unclamped(pv, before) && DownEdges(h) <= UpEdges(h) <= DownEdges(before) + pv
  }

  /** CTUD: as long as neither end is hit, CV is the number of up edges minus the number of down edges. */
  lemma {:induction false} CountBalance(pv: u32, h: seq<Count>)
    requires Unclamped(pv, h)
    ensures CounterAfter(Ctud, pv, h).cv == UpEdges(h) - DownEdges(h)
    decreases |h|
  {
    hide CounterScan;
    if h != [] {
      var k := |h| - 1;
      CountBalance(pv, h[..k]);
      CounterRemembers(Ctud, pv, h[..k]);
      var up := if h[k].cu && !(k > 0 && h[k - 1].cu) then 1 else 0;
      var down := if h[k].cd && !(k > 0 && h[k - 1].cd) then 1 else 0;
      ScanBalances(CounterAfter(Ctud, pv, h[..k]), pv, h[k].cu, h[k].cd, up, down);
    }
  }

  lemma ScanBalances(c: Counter, pv: u32, cu: bool, cd: bool, up: nat, down: nat)
    requires up == (if cu && !c.cu then 1 else 0) && down == (if cd && !c.cd then 1 else 0)
    requires c.cv + up <= pv && down <= c.cv + up
    ensures CounterScan(c, Ctud, pv, cu, cd).cv == c.cv + up - down
  {
  }

  /** The moves of CV that the edges ask for, in order: up before down within one scan. */
  function Moves(h: seq<Count>): (m: seq<int>)
    ensures forall i :: 0 <= i < |m| ==> m[i] == 1 || m[i] == -1
  {
    if h == [] then []
    else
      var k := |h| - 1;
      Moves(h[..k])
      + (if h[k].cu && !(k > 0 && h[k - 1].cu) then [1] else [])
      + (if h[k].cd && !(k > 0 && h[k - 1].cd) then [-1] else [])
  }

  /** Sum of the moves from the k-th on. */
  function Net(m: seq<int>, k: nat): int
    requires k <= |m|
  {
    if k == |m| then 0 else Net(m[..|m| - 1], k) + m[|m| - 1]
  }

  /** The moves from the k-th on make up for `c`, and from no later moment on do they take CV below it
      even from the very top. */
  ghost predicate Supports(m: seq<int>, pv: u32, k: nat, c: int)
    requires k <= |m|
  {
    c <= Net(m, k) && forall j :: k <= j <= |m| ==> c <= pv + Net(m, j)
  }

  /** A number that starts at zero, follows the moves and is held between 0 and `pv`. */
  function Held(pv: u32, m: seq<int>): (c: int)
    ensures 0 <= c <= pv
  {
    if m == [] then 0
    else
      var c := Held(pv, m[..|m| - 1]) + m[|m| - 1];
      if c < 0 then 0 else if c > pv then pv else c
  }

  lemma {:induction false} HeldIsSupported(pv: u32, m: seq<int>) returns (k: nat)
    requires forall i :: 0 <= i < |m| ==> m[i] == 1 || m[i] == -1
    ensures k <= |m| && Supports(m, pv, k, Held(pv, m))
    decreases |m|
  {
    k := 0;
    if m != [] {
      var n := |m| - 1;
      var before := m[..n];
      k := HeldIsSupported(pv, before);
      var c := Held(pv, before) + m[n];
      if c < 0 {
        k := n + 1;
      } else {
        forall j | k <= j <= |m|
          ensures Held(pv, m) <= pv + Net(m, j)
        {
          if j <= n {
            assert Held(pv, before) <= pv + Net(before, j);
          }
        }
      }
    }
  }

  lemma {:induction false} HeldIsLargest(pv: u32, m: seq<int>, k: nat, c: int)
    requires k <= |m| && Supports(m, pv, k, c)
    ensures c <= Held(pv, m)
    decreases |m|
  {
    assert c <= pv + Net(m, |m|);
    if k < |m| {
      var n := |m| - 1;
      var before := m[..n];
      forall j | k <= j <= n
        ensures c - m[n] <= pv + Net(before, j)
      {
        assert Net(m, j) == Net(before, j) + m[n];
      }
      HeldIsLargest(pv, before, k, c - m[n]);
    }
  }

  lemma {:induction false} CounterIsHeld(pv: u32, h: seq<Count>)
    requires pv < TWO_32 - 1
    ensures CounterAfter(Ctud, pv, h).cv == Held(pv, Moves(h))
    decreases |h|
  {
    hide CounterScan, Held;
    if h == [] {
      HeldOfNothing(pv);
    } else {
      var k := |h| - 1;
      CounterIsHeld(pv, h[..k]);
      CounterRemembers(Ctud, pv, h[..k]);
      var m := Moves(h[..k]);
      var up := if h[k].cu && !(k > 0 && h[k - 1].cu) then [1] else [];
      var down := if h[k].cd && !(k > 0 && h[k - 1].cd) then [-1] else [];
      HeldAfter(pv, m, up);
      HeldAfter(pv, m + up, down);
      ScanHolds(CounterAfter(Ctud, pv, h[..k]), pv, h[k].cu, h[k].cd);
    }
  }

  lemma HeldOfNothing(pv: u32)
    ensures Held(pv, []) == 0
  {
  }

  lemma CounterRemembers(kind: CounterKind, pv: u32, h: seq<Count>)
    ensures CounterAfter(kind, pv, h).cu == (h != [] && h[|h| - 1].cu) && CounterAfter(kind, pv, h).cd == (h != [] && h[|h| - 1].cd)
  {
  }

  lemma ScanHolds(c: Counter, pv: u32, cu: bool, cd: bool)
    requires pv < TWO_32 - 1 && c.cv <= pv
    ensures var up := if cu && !c.cu then (if c.cv < pv then c.cv + 1 else pv) else c.cv;
            CounterScan(c, Ctud, pv, cu, cd).cv == if cd && !c.cd then (if up > 0 then up - 1 else 0) else up
  {
  }

  lemma HeldAfter(pv: u32, m: seq<int>, last: seq<int>)
    requires |last| <= 1
    ensures last == [] ==> Held(pv, m + last) == Held(pv, m)
    ensures last == [1] ==> Held(pv, m + last) == if Held(pv, m) < pv then Held(pv, m) + 1 else pv
    ensures last == [-1] ==> Held(pv, m + last) == if Held(pv, m) > 0 then Held(pv, m) - 1 else 0
  {
    if last == [] {
      assert m + last == m;
    } else {
      assert (m + last)[..|m|] == m;
    }
  }

  /** CTUD in general: CV is the largest number that the moves since some moment support. With neither
      end ever hit that moment is the start, and with the lower end hit it is the last such hit. */
  lemma CountUpDownClosed(pv: u32, h: seq<Count>)
    requires pv < TWO_32 - 1
    ensures var cv, m := CounterAfter(Ctud, pv, h).cv, Moves(h);
            && (exists k :: 0 <= k <= |m| && Supports(m, pv, k, cv))
            && (forall k, c :: 0 <= k <= |m| && Supports(m, pv, k, c) ==> c <= cv)
  {
    var m := Moves(h);
    CounterIsHeld(pv, h);
    var k := HeldIsSupported(pv, m);
    forall k: nat, c: int | k <= |m| && Supports(m, pv, k, c)
      ensures c <= Held(pv, m)
    {
      HeldIsLargest(pv, m, k, c);
    }
  }

  // ----- edge detectors -----

  function EdgeAfter(kind: u8, clks: seq<bool>): Edge {
    if clks == [] then FreshEdge() else EdgeScan(EdgeAfter(kind, clks[..|clks| - 1]), kind, clks[|clks| - 1])
  }

  /** The clock before scan `i`; before the first scan it counts as false. */
  predicate ClkBefore(clks: seq<bool>, i: nat)
    requires i <= |clks|
  {
    i > 0 && clks[i - 1]
  }

  /** R_TRIG pulses exactly on rising transitions, F_TRIG on falling ones. */
  lemma EdgePulses(kind: u8, clks: seq<bool>, i: nat)
    requires i < |clks|
    ensures EdgeAfter(kind, clks[..i + 1]).lastClk == clks[i]
    ensures EdgeAfter(kind, clks[..i + 1]).q <==>
              (kind == 0 && clks[i] && !ClkBefore(clks, i)) || (kind == 1 && !clks[i] && ClkBefore(clks, i))
  {
    assert clks[..i + 1][..i] == clks[..i];
    if i > 0 {
      assert clks[..i][..i - 1] == clks[..i - 1];
    }
  }

  /** No detector pulses in two consecutive scans. */
  lemma NoDoublePulse(kind: u8, clks: seq<bool>, i: nat)
    requires i + 1 < |clks|
    ensures !(EdgeAfter(kind, clks[..i + 1]).q && EdgeAfter(kind, clks[..i + 2]).q)
  {
    hide EdgeAfter;
    EdgePulses(kind, clks, i);
    EdgePulses(kind, clks, i + 1);
  }

  // ----- bistables -----

  datatype Latch = Latch(s1: bool, r: bool)

  function BistableAfter(kind: BistableKind, h: seq<Latch>): Bistable {
    if h == [] then FreshBistable(kind) else BistableScan(BistableAfter(kind, h[..|h| - 1]), kind, h[|h| - 1].s1, h[|h| - 1].r)
  }

  /** Whether a scan sets, or resets, the output of the given kind of bistable. */
  predicate Sets(kind: BistableKind, x: Latch) { x.s1 && (kind == Sr || !x.r) }
  predicate Resets(kind: BistableKind, x: Latch) { x.r && (kind == Rs || !x.s1) }

  ghost predicate SetAndNotResetSince(kind: BistableKind, h: seq<Latch>) {
    exists i :: 0 <= i < |h| && Sets(kind, h[i]) && forall j :: i < j < |h| ==> !Resets(kind, h[j])
  }

  /** Q1 is on exactly when some scan set it and none reset it since. */
  lemma {:induction false} BistableRemembers(kind: BistableKind, h: seq<Latch>)
    ensures BistableAfter(kind, h).q1 <==> SetAndNotResetSince(kind, h)
    decreases |h|
  {
    if h != [] {
      var k := |h| - 1;
      BistableRemembers(kind, h[..k]);
      if Sets(kind, h[k]) {
        assert SetAndNotResetSince(kind, h);
      } else {
        if i :| 0 <= i < |h| && Sets(kind, h[i]) && forall j :: i < j < |h| ==> !Resets(kind, h[j]) {
          assert i < k && h[..k][i] == h[i] && !Resets(kind, h[k]);
          assert forall j :: i < j < k ==> !Resets(kind, h[..k][j]);
        }
        if i :| 0 <= i < k && Sets(kind, h[..k][i]) && forall j :: i < j < k ==> !Resets(kind, h[..k][j]) {
          assert Sets(kind, h[i]);
          if !Resets(kind, h[k]) {
            forall j | i < j < |h|
              ensures !Resets(kind, h[j])
            {
              assert j < k ==> h[..k][j] == h[j];
            }
          }
        }
      }
    }
  }

  ghost predicate ResetAndNotSetSince(kind: BistableKind, h: seq<Latch>) {
    exists i :: 0 <= i < |h| && Resets(kind, h[i]) && forall j :: i < j < |h| ==> !Sets(kind, h[j])
  }

  /** Q2 is on exactly when some scan reset the output and none set it since. */
  lemma {:induction false} BistableRemembersReset(kind: BistableKind, h: seq<Latch>)
    ensures BistableAfter(kind, h).q2 <==> ResetAndNotSetSince(kind, h)
    decreases |h|
  {
    if h != [] {
      var k := |h| - 1;
      BistableRemembersReset(kind, h[..k]);
      if Resets(kind, h[k]) {
        assert ResetAndNotSetSince(kind, h);
      } else {
        if i :| 0 <= i < |h| && Resets(kind, h[i]) && forall j :: i < j < |h| ==> !Sets(kind, h[j]) {
          assert i < k && h[..k][i] == h[i] && !Sets(kind, h[k]);
          assert forall j :: i < j < k ==> !Sets(kind, h[..k][j]);
        }
        if i :| 0 <= i < k && Resets(kind, h[..k][i]) && forall j :: i < j < k ==> !Sets(kind, h[..k][j]) {
          assert Resets(kind, h[i]);
          if !Sets(kind, h[k]) {
            forall j | i < j < |h|
              ensures !Sets(kind, h[j])
            {
              assert j < k ==> h[..k][j] == h[j];
            }
          }
        }
      }
    }
  }
}

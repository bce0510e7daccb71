/**
 State of the standard function blocks of section 2.5.2.3 of IEC 61131-3:2003
 (timers, counters, bistables, edge detectors) and one scan of each.
 */
module Blocks {
  import opened Values

  datatype TimerKind = Ton | Tof | Tp
  datatype Timer = Timer(kind: TimerKind, input: bool, elapsed: u64, q: bool, preset: u64)

  datatype CounterKind = Ctu | Ctd | Ctud
  datatype Counter = Counter(kind: CounterKind, cu: bool, cd: bool, cv: u32, pv: u32, q: bool, qu: bool, qd: bool)

  datatype BistableKind = Sr | Rs
  datatype Bistable = Bistable(kind: BistableKind, s1: bool, r: bool, q1: bool, q2: bool)

  /** Edge detector: kind 0 is R_TRIG, kind 1 is F_TRIG, any other kind never pulses. */
  datatype Edge = Edge(kind: u8, lastClk: bool, q: bool)

  /** The four block tables; they survive a reset of the machine. */
  datatype Tables = Tables(timers: seq<Timer>, counters: seq<Counter>, bistables: seq<Bistable>, edges: seq<Edge>)

  function FreshTimer(kind: TimerKind): Timer { Timer(kind, false, 0, false, 0) }
  function FreshCounter(): Counter { Counter(Ctu, false, false, 0, 0, false, false, false) }
  function FreshBistable(kind: BistableKind): Bistable { Bistable(kind, false, false, false, false) }
  function FreshEdge(): Edge { Edge(0, false, false) }

  /** Tables grow on demand, so that index `i` exists. */
  function Grow<T>(table: seq<T>, i: nat, blank: T): (r: seq<T>)
    ensures i < |r| && |table| <= |r|
    ensures forall j :: 0 <= j < |table| ==> r[j] == table[j]
    ensures forall j :: |table| <= j < |r| ==> r[j] == blank
  {
    if i < |table| then table else table + seq(i + 1 - |table|, _ => blank)
  }

  function SaturatingAdd(a: u64, b: u64): u64 {
    if a + b < TWO_64 then a + b else TWO_64 - 1
  }

  /** Counts `cycle` more milliseconds; `q` becomes `done` once the preset is reached. */
  function Count(t: Timer, cycle: u64, done: bool): Timer {
    var e := SaturatingAdd(t.elapsed, cycle);
    if e >= t.preset then t.(elapsed := t.preset, q := done) else t.(elapsed := e)
  }

  /** One TimerRun: set preset and kind, run the state machine, remember the input. */
  function TimerScan(t0: Timer, kind: TimerKind, preset: u64, input: bool, cycle: u64): Timer {
    var t := t0.(preset := preset, kind := kind);
    var t' :=
      match kind
      case Ton =>
        if !input then t.(q := false, elapsed := 0)
        else if t.elapsed >= t.preset then t.(q := true)
        else Count(t, cycle, true)
      case Tof =>
        if input then t.(q := true, elapsed := 0)
        else if t.q then Count(t, cycle, false)
        else t
      case Tp =>
        var started := if input && !t.input then t.(q := true, elapsed := 0) else t;
        if started.q then
          var counted := Count(started, cycle, false);
          if input then counted else counted.(q := false)
        else started;
    t'.(input := input)
  }

  function Increment(cv: u32, pv: u32): u32 {
    var next := WrapU32(cv + 1);
    if next < pv then next else pv
  }

  function Decrement(cv: u32): u32 { if cv == 0 then 0 else cv - 1 }

  /** One CounterRun. */
  function CounterScan(c: Counter, kind: CounterKind, pv: u32, cu: bool, cd: bool): Counter {
    var up := if kind != Ctd && cu && !c.cu then Increment(c.cv, pv) else c.cv;
    var cv := if kind != Ctu && cd && !c.cd then Decrement(up) else up;
    match kind
    case Ctu => c.(kind := kind, pv := pv, cu := cu, cd := cd, cv := cv, q := cv >= pv)
    case Ctd => c.(kind := kind, pv := pv, cu := cu, cd := cd, cv := cv, q := cv <= 0)
    case Ctud => c.(kind := kind, pv := pv, cu := cu, cd := cd, cv := cv, qu := cv >= pv, qd := cv <= 0, q := cv >= pv)
  }

  /** One SrRun: S1 wins in SR, R wins in RS. */
  function BistableScan(b: Bistable, kind: BistableKind, s1: bool, r: bool): Bistable {
    var q := if kind == Sr then (if s1 then (true, false) else if r then (false, true) else (b.q1, b.q2))
             else (if r then (false, true) else if s1 then (true, false) else (b.q1, b.q2));
    Bistable(kind, s1, r, q.0, q.1)
  }

  /** One EdgeRun. */
  function EdgeScan(e: Edge, kind: u8, clk: bool): Edge {
    Edge(kind, clk, if kind == 0 then clk && !e.lastClk else if kind == 1 then !clk && e.lastClk else false)
  }
}

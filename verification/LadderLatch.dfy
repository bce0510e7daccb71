/**
 Latching coils over many scans: a Set rung above a Reset rung is the reset-dominant
 RS block of the virtual machine, a Reset rung above a Set rung the set-dominant SR block.
 */
module LadderLatch {
  import opened Options
  import opened Blocks
  import opened LadderGraph
  import opened LadderFlow
  import opened LadderScan

  /** The last coil of a rung that writes `q`. */
  function LastCoil(coils: seq<Coil>, q: string): Option<CoilKind> {
    if coils == [] then None
    else
      var k := |coils| - 1;
      if coils[k].v == q then Some(coils[k].kind) else LastCoil(coils[..k], q)
  }

  lemma {:induction false} ApplyCoilsSnoc(coils: seq<Coil>, c: Coil, power: bool, held: Snapshot, vars: Snapshot)
    ensures ApplyCoils(coils + [c], power, held, vars)
         == ApplyCoils(coils, power, held, vars)[c.v := CoilValue(c.kind, power, GetBool(held, c.v))]
    decreases |coils|
  {
    if coils == [] {
      assert coils + [c] == [c] && [c][1..] == [];
    } else {
      assert (coils + [c])[1..] == coils[1..] + [c] && (coils + [c])[0] == coils[0];
      ApplyCoilsSnoc(coils[1..], c, power, held, vars[coils[0].v := CoilValue(coils[0].kind, power, GetBool(held, coils[0].v))]);
    }
  }

  /** On one variable, the coils of a rung act as the last coil that writes it. */
  lemma {:induction false} LastCoilDecides(coils: seq<Coil>, power: bool, held: Snapshot, vars: Snapshot, q: string)
    ensures GetBool(ApplyCoils(coils, power, held, vars), q)
         == var last := LastCoil(coils, q); if last.None? then GetBool(vars, q) else CoilValue(last.value, power, GetBool(held, q))
    ensures var last, after := LastCoil(coils, q), GetBool(ApplyCoils(coils, power, held, vars), q);
            && (last == Some(Out) ==> (after <==> power))
            && (last == Some(Negated) ==> (after <==> !power))
            && (last == Some(SetCoil) ==> (after <==> power || GetBool(held, q)))
            && (last == Some(ResetCoil) ==> (after <==> !power && GetBool(held, q)))
    decreases |coils|
  {
    if coils != [] {
      var k := |coils| - 1;
      assert coils == coils[..k] + [coils[k]];
      ApplyCoilsSnoc(coils[..k], coils[k], power, held, vars);
      LastCoilDecides(coils[..k], power, held, vars, q);
    }
  }

  /** Rung `a` latches with `first`, rung `b` below it with `second`, no other rung writes `q`. */
  ghost predicate LatchPair(rungs: seq<Rung>, q: string, a: nat, first: CoilKind, b: nat, second: CoilKind) {
    && a < b < |rungs|
    && (forall i :: 0 <= i < |rungs| ==> ValidRung(rungs[i]))
    && LastCoil(rungs[a].coils, q) == Some(first)
    && LastCoil(rungs[b].coils, q) == Some(second)
    && forall i :: 0 <= i < |rungs| && i != a && i != b ==> LastCoil(rungs[i].coils, q).None?
  }

  /** Power at the output of rung `i` during a scan of `vars`. */
  ghost predicate RungPower(rungs: seq<Rung>, i: nat, vars: Snapshot)
    requires i < |rungs| && forall j :: 0 <= j < |rungs| ==> ValidRung(rungs[j])
  {
    var s := RunRungs(rungs, i, Scan(vars, map[]));
    Powered(PowerFlow(rungs[i].graph, s.vars, s.prev), rungs[i].output)
  }

  lemma {:induction false} UntouchedBetween(rungs: seq<Rung>, q: string, j: nat, k: nat, s: Scan)
    requires j <= k <= |rungs| && forall i :: 0 <= i < |rungs| ==> ValidRung(rungs[i])
    requires forall i :: j <= i < k ==> LastCoil(rungs[i].coils, q).None?
    ensures GetBool(RunRungs(rungs, k, s).vars, q) == GetBool(RunRungs(rungs, j, s).vars, q)
    decreases k
  {
    hide PowerFlow, ApplyCoils, LastCoil, GetBool;
    if j < k {
      UntouchedBetween(rungs, q, j, k - 1, s);
      var t, r := RunRungs(rungs, k - 1, s), rungs[k - 1];
      LastCoilDecides(r.coils, Powered(PowerFlow(r.graph, t.vars, t.prev), r.output), t.vars, t.vars, q);
    }
  }

  /** What one scan does to `q`. */
  lemma LatchScan(rungs: seq<Rung>, q: string, a: nat, first: CoilKind, b: nat, second: CoilKind, vars: Snapshot)
    requires LatchPair(rungs, q, a, first, b, second)
    ensures GetBool(Cycle(rungs, vars), q)
         == CoilValue(second, RungPower(rungs, b, vars), CoilValue(first, RungPower(rungs, a, vars), GetBool(vars, q)))
  {
    hide PowerFlow, ApplyCoils, LastCoil, GetBool, ValidRung, CoilValue;
    var s := Scan(vars, map[]);
    UntouchedBetween(rungs, q, 0, a, s);
    var sa := RunRungs(rungs, a, s);
    LastCoilDecides(rungs[a].coils, RungPower(rungs, a, vars), sa.vars, sa.vars, q);
    UntouchedBetween(rungs, q, a + 1, b, s);
    var sb := RunRungs(rungs, b, s);
    LastCoilDecides(rungs[b].coils, RungPower(rungs, b, vars), sb.vars, sb.vars, q);
    UntouchedBetween(rungs, q, b + 1, |rungs|, s);
  }

  // ----- many scans -----

  /** Variables after `t` scans; `inputs[i]` are the values written from outside before scan `i`. */
  ghost function Scans(rungs: seq<Rung>, vars: Snapshot, inputs: seq<Snapshot>, t: nat): Snapshot
    requires t <= |inputs| && forall i :: 0 <= i < |rungs| ==> ValidRung(rungs[i])
  {
    if t == 0 then vars else Cycle(rungs, Scans(rungs, vars, inputs, t - 1) + inputs[t - 1])
  }

  /** A bistable block scanned with the power of rungs `setter` and `resetter` in each of those scans. */
  ghost function LatchBlock(kind: BistableKind, setter: nat, resetter: nat, rungs: seq<Rung>, vars: Snapshot, inputs: seq<Snapshot>, t: nat, start: Bistable): Bistable
    requires t <= |inputs| && setter < |rungs| && resetter < |rungs| && forall i :: 0 <= i < |rungs| ==> ValidRung(rungs[i])
  {
    if t == 0 then start
    else
      var scanned := Scans(rungs, vars, inputs, t - 1) + inputs[t - 1];
      BistableScan(LatchBlock(kind, setter, resetter, rungs, vars, inputs, t - 1, start), kind,
        RungPower(rungs, setter, scanned), RungPower(rungs, resetter, scanned))
  }

  ghost predicate NotDriven(inputs: seq<Snapshot>, q: string) { forall i :: 0 <= i < |inputs| ==> q !in inputs[i] }

  /** Set above Reset is reset-dominant, scan by scan. */
  lemma {:induction false} SetThenResetIsRs(rungs: seq<Rung>, q: string, a: nat, b: nat, vars: Snapshot, inputs: seq<Snapshot>, t: nat, start: Bistable)
    requires LatchPair(rungs, q, a, SetCoil, b, ResetCoil) && NotDriven(inputs, q) && t <= |inputs| && start.q1 == GetBool(vars, q)
    ensures GetBool(Scans(rungs, vars, inputs, t), q) == LatchBlock(Rs, a, b, rungs, vars, inputs, t, start).q1
    decreases t
  {
    hide Cycle, RungPower, LatchPair;
    assert forall i :: 0 <= i < |rungs| ==> ValidRung(rungs[i]) by { PairValid(rungs, q, a, SetCoil, b, ResetCoil); }
    if t > 0 {
      SetThenResetIsRs(rungs, q, a, b, vars, inputs, t - 1, start);
      LatchScan(rungs, q, a, SetCoil, b, ResetCoil, Scans(rungs, vars, inputs, t - 1) + inputs[t - 1]);
    }
  }

  /** Reset above Set is set-dominant, scan by scan. */
  lemma {:induction false} ResetThenSetIsSr(rungs: seq<Rung>, q: string, a: nat, b: nat, vars: Snapshot, inputs: seq<Snapshot>, t: nat, start: Bistable)
    requires LatchPair(rungs, q, a, ResetCoil, b, SetCoil) && NotDriven(inputs, q) && t <= |inputs| && start.q1 == GetBool(vars, q)
    ensures GetBool(Scans(rungs, vars, inputs, t), q) == LatchBlock(Sr, b, a, rungs, vars, inputs, t, start).q1
    decreases t
  {
    hide Cycle, RungPower, LatchPair;
    assert forall i :: 0 <= i < |rungs| ==> ValidRung(rungs[i]) by { PairValid(rungs, q, a, ResetCoil, b, SetCoil); }
    if t > 0 {
      ResetThenSetIsSr(rungs, q, a, b, vars, inputs, t - 1, start);
      LatchScan(rungs, q, a, ResetCoil, b, SetCoil, Scans(rungs, vars, inputs, t - 1) + inputs[t - 1]);
    }
  }

  lemma PairValid(rungs: seq<Rung>, q: string, a: nat, first: CoilKind, b: nat, second: CoilKind)
    requires LatchPair(rungs, q, a, first, b, second)
    ensures forall i :: 0 <= i < |rungs| ==> ValidRung(rungs[i])
  {
  }

  // ----- a latch nobody reads influences nothing else -----

  ghost predicate AgreeExcept(x: Snapshot, y: Snapshot, q: string) {
    forall v :: v != q ==> GetBool(x, v) == GetBool(y, v)
  }

  ghost predicate ReadsNot(g: Graph, q: string) { forall i :: 0 <= i < |g.edges| ==> g.edges[i].contact.v != q }

  lemma {:induction false} FlowEdgesAgree(g: Graph, outs: seq<nat>, x: Snapshot, y: Snapshot, f: Flow, q: string)
    requires ValidOuts(g, outs) && ReadsNot(g, q) && AgreeExcept(x, y, q)
    ensures FlowEdges(g, outs, x, f) == FlowEdges(g, outs, y, f)
    decreases |outs|
  {
    if outs != [] {
      assert FlowEdge(g.edges[outs[0]], x, f) == FlowEdge(g.edges[outs[0]], y, f);
      FlowEdgesAgree(g, outs[1..], x, y, FlowEdge(g.edges[outs[0]], x, f), q);
    }
  }

  lemma {:induction false} FlowOverAgrees(g: Graph, order: seq<nat>, k: nat, x: Snapshot, y: Snapshot, f: Flow, q: string)
    requires k <= |order| && ReadsNot(g, q) && AgreeExcept(x, y, q)
    ensures FlowOver(g, order, k, x, f) == FlowOver(g, order, k, y, f)
    decreases k
  {
    if k > 0 {
      FlowOverAgrees(g, order, k - 1, x, y, f, q);
      FlowEdgesAgree(g, Outgoing(g.edges, order[k - 1]), x, y, FlowOver(g, order, k - 1, x, f), q);
    }
  }

  lemma CoilsAgree(coils: seq<Coil>, power: bool, x: Snapshot, y: Snapshot, q: string)
    requires AgreeExcept(x, y, q)
    ensures AgreeExcept(ApplyCoils(coils, power, x, x), ApplyCoils(coils, power, y, y), q)
  {
    forall v | v != q
      ensures GetBool(ApplyCoils(coils, power, x, x), v) == GetBool(ApplyCoils(coils, power, y, y), v)
    {
      LastCoilDecides(coils, power, x, x, v);
      LastCoilDecides(coils, power, y, y, v);
    }
  }

  /** When no contact reads `q`, its value changes neither the power of any rung nor any other variable. */
  lemma {:induction false} UnreadVariableInfluencesNothing(rungs: seq<Rung>, q: string, k: nat, x: Snapshot, y: Snapshot)
    requires k <= |rungs| && AgreeExcept(x, y, q)
    requires forall i :: 0 <= i < |rungs| ==> ValidRung(rungs[i]) && ReadsNot(rungs[i].graph, q)
    ensures var sx, sy := RunRungs(rungs, k, Scan(x, map[])), RunRungs(rungs, k, Scan(y, map[]));
            AgreeExcept(sx.vars, sy.vars, q) && sx.prev == sy.prev
    ensures k < |rungs| ==> RungPower(rungs, k, x) == RungPower(rungs, k, y)
    decreases k
  {
    hide ApplyCoils, GetBool, ValidRung, AgreeExcept, ReadsNot, FlowOver, Topo;
    if k > 0 {
      UnreadVariableInfluencesNothing(rungs, q, k - 1, x, y);
      var sx, sy := RunRungs(rungs, k - 1, Scan(x, map[])), RunRungs(rungs, k - 1, Scan(y, map[]));
      FlowAgrees(rungs[k - 1], sx.vars, sy.vars, sx.prev, q);
      CoilsAgree(rungs[k - 1].coils, RungPower(rungs, k - 1, x), sx.vars, sy.vars, q);
    }
    if k < |rungs| {
      var sx, sy := RunRungs(rungs, k, Scan(x, map[])), RunRungs(rungs, k, Scan(y, map[]));
      FlowAgrees(rungs[k], sx.vars, sy.vars, sx.prev, q);
    }
  }

  lemma FlowAgrees(r: Rung, x: Snapshot, y: Snapshot, prev: Snapshot, q: string)
    requires ValidRung(r) && ReadsNot(r.graph, q) && AgreeExcept(x, y, q)
    ensures PowerFlow(r.graph, x, prev) == PowerFlow(r.graph, y, prev)
  {
    FlowOverAgrees(r.graph, Topo(r.graph), |Topo(r.graph)|, x, y, StartFlow(r.graph.rail.value, prev), q);
  }
}

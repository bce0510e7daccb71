/**
 Serial networks of any contacts, transition contacts included: contacts are evaluated
 from the rail on, as far as power reaches, and share one memory. What that makes of
 transition contacts over many evaluations, within one network and within one scan.
 */
module LadderEdges {
  import opened Options
  import opened LadderGraph
  import opened LadderFlow
  import opened LadderScan

  // ----- the order of a chain -----

  function UpTo(n: nat): seq<nat> { seq(n, i => i) }

  lemma {:induction false} OrderPrefix(contacts: seq<Contact>, order: seq<nat>, j: nat)
    requires j <= |order| && Distinct(order) && Topological(SerialGraph(contacts), order)
    requires forall v :: v in order ==> v < |contacts| + 1
    ensures order[..j] == UpTo(j)
    decreases j
  {
    if j > 0 {
      OrderPrefix(contacts, order, j - 1);
      var g, v := SerialGraph(contacts), order[j - 1];
      assert order[..j] == order[..j - 1] + [v];
      assert v in order;
      assert forall i :: 0 <= i < j - 1 ==> order[i] == order[..j - 1][i] == i;
      if v > 0 {
        assert g.edges[v - 1].target == v && g.edges[v - 1].source == v - 1;
        assert v - 1 in order[..j - 1];
        assert v <= j - 1;
      }
      DistinctAt(order, v, j - 1);
      assert v == j - 1;
    }
  }

  lemma DistinctAt(s: seq<nat>, i: nat, j: nat)
    requires Distinct(s) && j < |s|
    ensures i < j ==> s[i] != s[j]
  {
  }

  lemma {:induction false} AllListed(contacts: seq<Contact>, order: seq<nat>, v: nat)
    requires ValidGraph(SerialGraph(contacts)) && Complete(SerialGraph(contacts), order) && v <= |contacts|
    ensures v in order
    decreases v
  {
    var g := SerialGraph(contacts);
    if v == 0 {
      assert Seeds(g) == [0];
    } else {
      AllListed(contacts, order, v - 1);
      assert g.edges[v - 1].target == v;
    }
  }

  /** A chain is visited from the rail to its end. */
  lemma SerialOrder(contacts: seq<Contact>)
    ensures ValidGraph(SerialGraph(contacts)) && RailNeverReturns(SerialGraph(contacts))
    ensures Topo(SerialGraph(contacts)) == UpTo(|contacts| + 1)
  {
    hide Topo, SortRun;
    var g := SerialGraph(contacts);
    SerialGraphShape(contacts);
    SourceRailNeverReturns(g);
    TopoComplete(g);
    var order := Topo(g);
    OrderPrefix(contacts, order, |order|);
    assert order[..|order|] == order;
    AllListed(contacts, order, |contacts|);
    assert order[|order| - 1] in order && order[|order| - 1] == UpTo(|order|)[|order| - 1];
  }

  lemma {:induction false} ChainOutgoing(contacts: seq<Contact>, k: nat, m: nat)
    requires m <= |contacts|
    ensures Outgoing(SerialGraph(contacts).edges[..m], k) == if k < m then [k] else []
    decreases m
  {
    if m > 0 {
      ChainOutgoing(contacts, k, m - 1);
      assert SerialGraph(contacts).edges[..m][..m - 1] == SerialGraph(contacts).edges[..m - 1];
    }
  }

  // ----- evaluation -----

  /** Whether power passes the first `k` contacts, and the memory after evaluating those it reaches. */
  function InOrder(contacts: seq<Contact>, k: nat, snapshot: Snapshot, prev: Snapshot): (bool, Snapshot)
    requires k <= |contacts|
  {
    if k == 0 then (true, prev)
    else
      var (power, memory) := InOrder(contacts, k - 1, snapshot, prev);
      if power then ContactPower(contacts[k - 1], snapshot, memory) else (false, memory)
  }

  lemma {:induction false} ChainFlow(contacts: seq<Contact>, k: nat, snapshot: Snapshot, prev: Snapshot)
    requires k <= |contacts|
    ensures var f := FlowOver(SerialGraph(contacts), UpTo(|contacts| + 1), k, snapshot, StartFlow(0, prev));
            && (Powered(f, k), f.prev) == InOrder(contacts, k, snapshot, prev)
            && forall v :: v > k ==> !Powered(f, v)
    decreases k
  {
    hide ContactPower, SerialGraph;
    if k > 0 {
      ChainFlow(contacts, k - 1, snapshot, prev);
      ChainStep(contacts, k - 1, snapshot, FlowOver(SerialGraph(contacts), UpTo(|contacts| + 1), k - 1, snapshot, StartFlow(0, prev)));
    }
  }

  lemma ChainStep(contacts: seq<Contact>, k: nat, snapshot: Snapshot, f: Flow)
    requires k < |contacts| && forall v :: v > k ==> !Powered(f, v)
    ensures var r := FlowNode(SerialGraph(contacts), k, snapshot, f);
            && (if Powered(f, k) then (Powered(r, k + 1), r.prev) == ContactPower(contacts[k], snapshot, f.prev) else r == f)
            && forall v :: v > k + 1 ==> !Powered(r, v)
  {
    hide ContactPower;
    var g := SerialGraph(contacts);
    ChainOutgoing(contacts, k, |contacts|);
    assert g.edges[..|contacts|] == g.edges;
    assert g.edges[k] == Edge(k, k + 1, contacts[k]);
    assert [k][1..] == [];
    if Powered(f, k) {
      var r := FlowEdge(g.edges[k], snapshot, f);
      assert FlowEdges(g, [], snapshot, r) == r;
      forall v | v > k + 1
        ensures !Powered(r, v)
      {
        assert !Powered(f, v);
      }
    }
  }

  /** A serial network of any contacts evaluates them in order. */
  lemma {:induction false} SerialEvaluatesInOrder(contacts: seq<Contact>, snapshot: Snapshot, prev: Snapshot)
    ensures ValidRung(Rung(SerialGraph(contacts), |contacts|, []))
    ensures var f := PowerFlow(SerialGraph(contacts), snapshot, prev);
            (Powered(f, |contacts|), f.prev) == InOrder(contacts, |contacts|, snapshot, prev)
  {
    hide InOrder, FlowNode, Topo, RailNeverReturns;
    var g, n := SerialGraph(contacts), |contacts|;
    SerialOrder(contacts);
    ChainFlow(contacts, n, snapshot, prev);
    var f := FlowOver(g, UpTo(n + 1), n, snapshot, StartFlow(0, prev));
    LastNode(contacts, snapshot, f);
  }

  lemma LastNode(contacts: seq<Contact>, snapshot: Snapshot, f: Flow)
    ensures FlowNode(SerialGraph(contacts), |contacts|, snapshot, f) == f
  {
    ChainOutgoing(contacts, |contacts|, |contacts|);
    assert SerialGraph(contacts).edges[..|contacts|] == SerialGraph(contacts).edges;
  }

  // ----- levels -----

  predicate True(snapshot: Snapshot, x: string) { x in snapshot && snapshot[x] }

  predicate IsLevel(c: Contact) { c.No? || c.Nc? }

  /** Normally open contacts pass when their variable is TRUE, normally closed ones when it is FALSE or
      missing; a chain of both conducts when all of them pass. */
  lemma SerialOfLevels(contacts: seq<Contact>, snapshot: Snapshot, prev: Snapshot)
    requires forall i :: 0 <= i < |contacts| ==> IsLevel(contacts[i])
    ensures ValidRung(Rung(SerialGraph(contacts), |contacts|, []))
    ensures Powered(PowerFlow(SerialGraph(contacts), snapshot, prev), |contacts|) <==>
              forall i :: 0 <= i < |contacts| ==> (if contacts[i].No? then True(snapshot, contacts[i].v) else !True(snapshot, contacts[i].v))
  {
    hide PowerFlow, ValidRung, RailNeverReturns, Powered, ContactPower;
    SerialEvaluatesInOrder(contacts, snapshot, prev);
    LevelsInOrder(contacts, |contacts|, snapshot, prev);
  }

  lemma {:induction false} LevelsInOrder(contacts: seq<Contact>, k: nat, snapshot: Snapshot, prev: Snapshot)
    requires k <= |contacts| && forall i :: 0 <= i < |contacts| ==> IsLevel(contacts[i])
    ensures InOrder(contacts, k, snapshot, prev).0 <==>
              forall i :: 0 <= i < k ==> (if contacts[i].No? then True(snapshot, contacts[i].v) else !True(snapshot, contacts[i].v))
    decreases k
  {
    if k > 0 {
      LevelsInOrder(contacts, k - 1, snapshot, prev);
      assert IsLevel(contacts[k - 1]);
    }
  }

  // ----- one transition contact, evaluated again and again -----

  /** The memory after the evaluations of a one-contact network on `snapshots`, from an empty one. */
  function MemoryAfter(c: Contact, snapshots: seq<Snapshot>): Snapshot {
    if snapshots == [] then map[]
    else
      var k := |snapshots| - 1;
      SerialOrder([c]);
      PowerFlow(SerialGraph([c]), snapshots[k], MemoryAfter(c, snapshots[..k])).prev
  }

  /** The network conducts in evaluation `k`. */
  predicate ConductsAt(c: Contact, snapshots: seq<Snapshot>, k: nat)
    requires k < |snapshots|
  {
    SerialOrder([c]);
    Powered(PowerFlow(SerialGraph([c]), snapshots[k], MemoryAfter(c, snapshots[..k])), 1)
  }

  lemma OneContact(c: Contact, snapshot: Snapshot, prev: Snapshot)
    ensures ValidGraph(SerialGraph([c]))
    ensures var f := PowerFlow(SerialGraph([c]), snapshot, prev);
            (Powered(f, 1), f.prev) == ContactPower(c, snapshot, prev)
  {
    hide PowerFlow, ContactPower, ValidGraph, RailNeverReturns;
    SerialEvaluatesInOrder([c], snapshot, prev);
    assert InOrder([c], 0, snapshot, prev) == (true, prev);
    assert InOrder([c], 1, snapshot, prev) == ContactPower(c, snapshot, prev);
    RungGraphValid(c);
  }

  lemma RungGraphValid(c: Contact)
    ensures ValidGraph(SerialGraph([c]))
  {
    hide RailNeverReturns;
    SerialOrder([c]);
  }

  lemma {:induction false} MemoryIsLast(c: Contact, snapshots: seq<Snapshot>)
    requires c.PosEdge? || c.NegEdge?
    ensures True(MemoryAfter(c, snapshots), c.v) <==> snapshots != [] && True(snapshots[|snapshots| - 1], c.v)
  {
    hide PowerFlow, ValidGraph, RailNeverReturns;
    if snapshots != [] {
      var k := |snapshots| - 1;
      OneContact(c, snapshots[k], MemoryAfter(c, snapshots[..k]));
    }
  }

  /** Over any sequence of evaluations, a P contact conducts exactly when its variable has become TRUE
      since the evaluation before, and an N contact exactly when it has become FALSE; before the first
      evaluation it counts as FALSE. */
  lemma TransitionsConductOnChange(x: string, snapshots: seq<Snapshot>, k: nat)
    requires k < |snapshots|
    ensures ConductsAt(PosEdge(x), snapshots, k) <==> True(snapshots[k], x) && !(k > 0 && True(snapshots[k - 1], x))
    ensures ConductsAt(NegEdge(x), snapshots, k) <==> !True(snapshots[k], x) && k > 0 && True(snapshots[k - 1], x)
  {
    hide PowerFlow, ValidGraph, RailNeverReturns, MemoryAfter;
    MemoryIsLast(PosEdge(x), snapshots[..k]);
    MemoryIsLast(NegEdge(x), snapshots[..k]);
    OneContact(PosEdge(x), snapshots[k], MemoryAfter(PosEdge(x), snapshots[..k]));
    OneContact(NegEdge(x), snapshots[k], MemoryAfter(NegEdge(x), snapshots[..k]));
  }

  // ----- shared memory -----

  /** The memory is per variable, not per contact: behind another transition contact on the same variable,
      in the same evaluation, a transition contact never passes. */
  lemma SecondTransitionNeverPasses(first: Contact, second: Contact, snapshot: Snapshot, prev: Snapshot)
    requires (first.PosEdge? || first.NegEdge?) && (second.PosEdge? || second.NegEdge?) && first.v == second.v
    ensures ValidRung(Rung(SerialGraph([first, second]), 2, []))
    ensures !Powered(PowerFlow(SerialGraph([first, second]), snapshot, prev), 2)
  {
    hide PowerFlow, ValidRung, RailNeverReturns;
    var cs := [first, second];
    SerialEvaluatesInOrder(cs, snapshot, prev);
    assert InOrder(cs, 0, snapshot, prev) == (true, prev);
    var (power, memory) := ContactPower(first, snapshot, prev);
    assert InOrder(cs, 1, snapshot, prev) == (power, memory);
    assert InOrder(cs, 2, snapshot, prev) == if power then ContactPower(second, snapshot, memory) else (false, memory);
  }

  /** A scan starts with an empty memory, so in a scan a rung with one transition contact is no edge
      detector: P passes whenever its variable is TRUE, N never. */
  lemma ScanForgetsTransitions(x: string, y: string, vars: Snapshot)
    ensures var rise, fall := Rung(SerialGraph([PosEdge(x)]), 1, [Coil(y, Out)]), Rung(SerialGraph([NegEdge(x)]), 1, [Coil(y, Out)]);
            && ValidRung(rise) && ValidRung(fall)
            && (forall i :: 0 <= i < 1 ==> ValidRung([rise][i])) && (forall i :: 0 <= i < 1 ==> ValidRung([fall][i]))
            && Cycle([rise], vars) == vars[y := True(vars, x)] && Cycle([fall], vars) == vars[y := false]
  {
    hide PowerFlow, RailNeverReturns, ValidGraph;
    SerialOrder([PosEdge(x)]);
    SerialOrder([NegEdge(x)]);
    OneContact(PosEdge(x), vars, map[]);
    OneContact(NegEdge(x), vars, map[]);
    ScanOfOne(Rung(SerialGraph([PosEdge(x)]), 1, [Coil(y, Out)]), vars, y);
    ScanOfOne(Rung(SerialGraph([NegEdge(x)]), 1, [Coil(y, Out)]), vars, y);
  }

  lemma ScanOfOne(r: Rung, vars: Snapshot, y: string)
    requires ValidRung(r) && r.coils == [Coil(y, Out)]
    ensures Cycle([r], vars) == vars[y := Powered(PowerFlow(r.graph, vars, map[]), r.output)]
  {
    hide PowerFlow, ValidGraph, RailNeverReturns;
    var s := Scan(vars, map[]);
    assert RunRungs([r], 0, s) == s && RunRungs([r], 1, s) == RunRung(r, s);
    var power := Powered(PowerFlow(r.graph, vars, map[]), r.output);
    assert r.coils[1..] == [] && ApplyCoils([], power, vars, vars[y := power]) == vars[y := power];
  }
}

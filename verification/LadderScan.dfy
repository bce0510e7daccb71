/**
 Rungs, coils and one scan of a ladder program, and what the two network
 builders denote.
 */
module LadderScan {
  import opened Options
  import opened LadderGraph
  import opened LadderFlow

  datatype CoilKind = Out | SetCoil | ResetCoil | Negated
  datatype Coil = Coil(v: string, kind: CoilKind)

  datatype Rung = Rung(graph: Graph, output: nat, coils: seq<Coil>)

  ghost predicate ValidRung(r: Rung) {
    ValidGraph(r.graph) && r.graph.rail.Some? && RailNeverReturns(r.graph)
  }

  /** New value of a coil's variable; latching coils keep the held value without power. */
  function CoilValue(kind: CoilKind, power: bool, held: bool): bool {
    match kind
    case Out => power
    case Negated => !power
    case SetCoil => power || held
    case ResetCoil => !power && held
  }

  /** Coils are evaluated against the store before the rung and applied in order. */
  function ApplyCoils(coils: seq<Coil>, power: bool, held: Snapshot, vars: Snapshot): Snapshot
    decreases |coils|
  {
    if coils == [] then vars
    else ApplyCoils(coils[1..], power, held, vars[coils[0].v := CoilValue(coils[0].kind, power, GetBool(held, coils[0].v))])
  }

  /** Variable store and transition memory within a scan. */
  datatype Scan = Scan(vars: Snapshot, prev: Snapshot)

  ghost function RunRung(r: Rung, s: Scan): Scan
    requires ValidRung(r)
  {
    var f := PowerFlow(r.graph, s.vars, s.prev);
    Scan(ApplyCoils(r.coils, Powered(f, r.output), s.vars, s.vars), f.prev)
  }

  /** The first `k` rungs, top to bottom; each sees the coils of the rungs above it. */
  ghost function RunRungs(rungs: seq<Rung>, k: nat, s: Scan): Scan
    requires k <= |rungs| && forall i :: 0 <= i < |rungs| ==> ValidRung(rungs[i])
  {
    if k == 0 then s else RunRung(rungs[k - 1], RunRungs(rungs, k - 1, s))
  }

  /** One scan; transition memory starts empty in every scan. */
  ghost function Cycle(rungs: seq<Rung>, vars: Snapshot): Snapshot
    requires forall i :: 0 <= i < |rungs| ==> ValidRung(rungs[i])
  {
    RunRungs(rungs, |rungs|, Scan(vars, map[])).vars
  }

  // ----- serial networks -----

  function SerialGraph(contacts: seq<Contact>): Graph {
    Graph(|contacts| + 1, seq(|contacts|, i requires 0 <= i < |contacts| => Edge(i, i + 1, contacts[i])), Some(0))
  }

  ghost predicate AllPlain(contacts: seq<Contact>) { forall i :: 0 <= i < |contacts| ==> Plain(contacts[i]) }

  ghost predicate AllClosed(contacts: seq<Contact>, snapshot: Snapshot) {
    forall i :: 0 <= i < |contacts| ==> Closed(contacts[i], snapshot)
  }

  lemma SerialGraphShape(contacts: seq<Contact>)
    ensures ValidGraph(SerialGraph(contacts)) && RailIsSource(SerialGraph(contacts)) && SourcesFed(SerialGraph(contacts))
    ensures Ranks(SerialGraph(contacts), v => v)
    ensures AllPlain(contacts) ==> PlainGraph(SerialGraph(contacts))
  {
    var g := SerialGraph(contacts);
    forall i | 0 <= i < |g.edges|
      ensures g.rail == Some(g.edges[i].source) || HasEdgeInto(g, g.edges[i].source)
    {
      if i > 0 {
        assert g.edges[i - 1].target == g.edges[i].source;
      }
    }
  }

  /** A closed path to the k-th node of a chain has closed the first k contacts. */
  lemma {:induction false} ChainClosed(contacts: seq<Contact>, snapshot: Snapshot, path: seq<nat>, k: nat)
    requires k <= |contacts| && ClosedPath(SerialGraph(contacts), snapshot, path, k)
    ensures forall i :: 0 <= i < k ==> Closed(contacts[i], snapshot)
    decreases |path|
  {
    var g, n := SerialGraph(contacts), |path|;
    if n > 1 {
      assert ClosedStep(g, snapshot, path[n - 2], path[n - 1]);
      assert path[n - 2] == k - 1;
      ChainClosed(contacts, snapshot, path[..n - 1], k - 1);
    }
  }

  lemma SerialConducts(contacts: seq<Contact>, snapshot: Snapshot)
    ensures Conducts(SerialGraph(contacts), snapshot, |contacts|) <==> AllClosed(contacts, snapshot)
  {
    var g, n := SerialGraph(contacts), |contacts|;
    if AllClosed(contacts, snapshot) {
      var path := seq(n + 1, i => i);
      forall i | 0 <= i < n
        ensures ClosedStep(g, snapshot, path[i], path[i + 1])
      {
        assert g.edges[i] == Edge(i, i + 1, contacts[i]);
      }
      assert ClosedPath(g, snapshot, path, n);
    }
    if path :| ClosedPath(g, snapshot, path, n) {
      ChainClosed(contacts, snapshot, path, n);
    }
  }

  /** A serial network conducts exactly when all its contacts are closed. */
  lemma SerialIsConjunction(contacts: seq<Contact>, snapshot: Snapshot, prev: Snapshot)
    requires AllPlain(contacts)
    ensures ValidRung(Rung(SerialGraph(contacts), |contacts|, []))
    ensures Powered(PowerFlow(SerialGraph(contacts), snapshot, prev), |contacts|) <==> AllClosed(contacts, snapshot)
    ensures PowerFlow(SerialGraph(contacts), snapshot, prev).prev == prev
  {
    hide PowerFlow, Powered, AllClosed, Conducts;
    SerialGraphShape(contacts);
    SourceRailNeverReturns(SerialGraph(contacts));
    PowerFlowExact(SerialGraph(contacts), snapshot, prev, |contacts|);
    PowerFlowIsReachability(SerialGraph(contacts), v => v, snapshot, prev, |contacts|);
    SerialConducts(contacts, snapshot);
  }

  // ----- parallel networks -----

  /** The edges of one branch from node 0 to node 1 through fresh nodes n, n+1, ... */
  function BranchEdges(n: nat, branch: seq<Contact>): (r: seq<Edge>)
    ensures |r| == |branch|
  {
    seq(|branch|, i requires 0 <= i < |branch| =>
      Edge(if i == 0 then 0 else n + i - 1, if i == |branch| - 1 then 1 else n + i, branch[i]))
  }

  function AddBranch(g: Graph, branch: seq<Contact>): Graph {
    if branch == [] then g else Graph(g.n + |branch| - 1, g.edges + BranchEdges(g.n, branch), g.rail)
  }

  function ParallelGraph(branches: seq<seq<Contact>>): (g: Graph)
    ensures g.n >= 2 && g.rail == Some(0)
  {
    if branches == [] then Graph(2, [], Some(0))
    else AddBranch(ParallelGraph(branches[..|branches| - 1]), branches[|branches| - 1])
  }

  /** Node 0 is the rail, node 1 ends all branches, other nodes are numbered along their branch. */
  ghost predicate BranchShape(g: Graph) {
    && g.n >= 2 && g.rail == Some(0) && ValidGraph(g) && PlainGraph(g) && SourcesFed(g)
    && forall i :: 0 <= i < |g.edges| ==> ForwardEdge(g.edges[i])
  }

  ghost predicate ForwardEdge(e: Edge) {
    e.source != 1 && e.target != 0 && (e.target == 1 || e.source < e.target)
  }

  lemma BranchShapeRanks(g: Graph)
    requires BranchShape(g)
    ensures Ranks(g, v => if v == 1 then g.n else v) && RailIsSource(g)
  {
    forall i | 0 <= i < |g.edges|
      ensures ForwardEdge(g.edges[i]) && g.edges[i].source < g.n
    {
    }
  }

  lemma AddBranchShape(g: Graph, branch: seq<Contact>)
    requires BranchShape(g) && AllPlain(branch)
    ensures BranchShape(AddBranch(g, branch))
  {
    var h, k := AddBranch(g, branch), |g.edges|;
    forall i | 0 <= i < |h.edges|
      ensures h.edges[i].source < h.n && h.edges[i].target < h.n && Plain(h.edges[i].contact) && ForwardEdge(h.edges[i])
      ensures h.rail == Some(h.edges[i].source) || HasEdgeInto(h, h.edges[i].source)
    {
      if i < k {
        assert h.edges[i] == g.edges[i];
        if HasEdgeInto(g, g.edges[i].source) {
          var j :| 0 <= j < |g.edges| && g.edges[j].target == g.edges[i].source;
          assert h.edges[j] == g.edges[j];
        }
      } else {
        assert h.edges[i] == BranchEdges(g.n, branch)[i - k];
        if i > k {
          assert h.edges[i - 1] == BranchEdges(g.n, branch)[i - k - 1];
        }
      }
    }
  }

  ghost predicate AllBranchesPlain(branches: seq<seq<Contact>>) {
    forall i :: 0 <= i < |branches| ==> AllPlain(branches[i])
  }

  lemma {:induction false} ParallelShape(branches: seq<seq<Contact>>)
    requires AllBranchesPlain(branches)
    ensures BranchShape(ParallelGraph(branches))
  {
    if branches != [] {
      ParallelShape(branches[..|branches| - 1]);
      AddBranchShape(ParallelGraph(branches[..|branches| - 1]), branches[|branches| - 1]);
    }
  }

  /** A closed step in a network with a new branch is a step of the old network or of the branch. */
  lemma AddedStep(g: Graph, branch: seq<Contact>, snapshot: Snapshot, u: nat, v: nat) returns (i: nat)
    requires BranchShape(g) && branch != [] && ClosedStep(AddBranch(g, branch), snapshot, u, v)
    requires !ClosedStep(g, snapshot, u, v)
    ensures i < |branch| && BranchEdges(g.n, branch)[i] == Edge(u, v, branch[i]) && Closed(branch[i], snapshot)
  {
    var h := AddBranch(g, branch);
    var j :| 0 <= j < |h.edges| && h.edges[j].source == u && h.edges[j].target == v && Closed(h.edges[j].contact, snapshot);
    if j < |g.edges| {
      assert false;
    } else {
      i := j - |g.edges|;
      assert h.edges[j] == BranchEdges(g.n, branch)[i];
    }
  }

  /** Paths to old inner nodes stay in the old network. */
  lemma {:induction false} OldPath(g: Graph, branch: seq<Contact>, snapshot: Snapshot, path: seq<nat>, v: nat)
    requires BranchShape(g) && branch != [] && ClosedPath(AddBranch(g, branch), snapshot, path, v) && v < g.n && v != 1
    ensures ClosedPath(g, snapshot, path, v)
    decreases |path|
  {
    hide AddBranch;
    var n := |path|;
    if n > 1 {
      var u, shorter := path[n - 2], path[..n - 1];
      assert ClosedStep(AddBranch(g, branch), snapshot, u, v);
      if !ClosedStep(g, snapshot, u, v) {
        var i := AddedStep(g, branch, snapshot, u, v);
        assert false;
      }
      StepShape(g, snapshot, u, v);
      assert ClosedPath(AddBranch(g, branch), snapshot, shorter, u) by {
        PathPrefix(AddBranch(g, branch), snapshot, path, v);
      }
      OldPath(g, branch, snapshot, shorter, u);
      PathExtend(g, snapshot, shorter, u, v);
      assert shorter + [v] == path;
    } else {
      SameRail(g, branch);
    }
  }

  lemma SameRail(g: Graph, branch: seq<Contact>)
    ensures AddBranch(g, branch).rail == g.rail
  {
  }

  lemma StepShape(g: Graph, snapshot: Snapshot, u: nat, v: nat)
    requires BranchShape(g) && ClosedStep(g, snapshot, u, v)
    ensures u < g.n && v < g.n && u != 1 && v != 0
  {
  }

  /** A closed path to the i-th node of a new branch has closed the branch up to there. */
  lemma {:induction false} BranchPath(g: Graph, branch: seq<Contact>, snapshot: Snapshot, path: seq<nat>, i: nat)
    requires BranchShape(g) && i + 1 < |branch| && ClosedPath(AddBranch(g, branch), snapshot, path, g.n + i)
    ensures forall j :: 0 <= j <= i ==> Closed(branch[j], snapshot)
    decreases i
  {
    hide AddBranch;
    SameRail(g, branch);
    var h, v := AddBranch(g, branch), g.n + i;
    PathPrefix(h, snapshot, path, v);
    var u := path[|path| - 2];
    if ClosedStep(g, snapshot, u, v) {
      StepShape(g, snapshot, u, v);
      assert false;
    } else {
      var k := AddedStep(g, branch, snapshot, u, v);
      if i > 0 {
        BranchPath(g, branch, snapshot, path[..|path| - 1], i - 1);
      }
    }
  }

  lemma BranchConducts(g: Graph, branch: seq<Contact>, snapshot: Snapshot)
    requires BranchShape(g) && branch != [] && AllClosed(branch, snapshot)
    ensures Conducts(AddBranch(g, branch), snapshot, 1)
  {
    var h, m := AddBranch(g, branch), |branch|;
    var path := seq(m + 1, i => if i == 0 then 0 else if i == m then 1 else g.n + i - 1);
    forall i | 0 <= i < m
      ensures ClosedStep(h, snapshot, path[i], path[i + 1])
    {
      assert h.edges[|g.edges| + i] == BranchEdges(g.n, branch)[i];
    }
    assert ClosedPath(h, snapshot, path, 1);
  }

  lemma OldConducts(g: Graph, branch: seq<Contact>, snapshot: Snapshot, path: seq<nat>)
    requires ClosedPath(g, snapshot, path, 1)
    ensures Conducts(AddBranch(g, branch), snapshot, 1)
  {
    var h := AddBranch(g, branch);
    forall i | 0 <= i < |path| - 1
      ensures ClosedStep(h, snapshot, path[i], path[i + 1])
    {
      assert ClosedStep(g, snapshot, path[i], path[i + 1]);
      var j :| 0 <= j < |g.edges| && g.edges[j].source == path[i] && g.edges[j].target == path[i + 1] && Closed(g.edges[j].contact, snapshot);
      assert h.edges[j] == g.edges[j];
    }
    assert ClosedPath(h, snapshot, path, 1);
  }

  lemma AddBranchConducts(g: Graph, branch: seq<Contact>, snapshot: Snapshot)
    requires BranchShape(g) && branch != []
    ensures Conducts(AddBranch(g, branch), snapshot, 1) <==> Conducts(g, snapshot, 1) || AllClosed(branch, snapshot)
  {
    hide AddBranch, BranchShape, AllClosed, ClosedStep;
    SameRail(g, branch);
    var h, m := AddBranch(g, branch), |branch|;
    if AllClosed(branch, snapshot) {
      BranchConducts(g, branch, snapshot);
    }
    if path :| ClosedPath(g, snapshot, path, 1) {
      OldConducts(g, branch, snapshot, path);
    }
    if path :| ClosedPath(h, snapshot, path, 1) {
      NewPath(g, branch, snapshot, path);
    }
  }

  lemma NewPath(g: Graph, branch: seq<Contact>, snapshot: Snapshot, path: seq<nat>)
    requires BranchShape(g) && branch != [] && ClosedPath(AddBranch(g, branch), snapshot, path, 1)
    ensures Conducts(g, snapshot, 1) || AllClosed(branch, snapshot)
  {
    hide AddBranch;
    SameRail(g, branch);
    var h, u := AddBranch(g, branch), path[|path| - 2];
    PathPrefix(h, snapshot, path, 1);
    if ClosedStep(g, snapshot, u, 1) {
      StepShape(g, snapshot, u, 1);
      OldPath(g, branch, snapshot, path[..|path| - 1], u);
      PathExtend(g, snapshot, path[..|path| - 1], u, 1);
    } else {
      var i := AddedStep(g, branch, snapshot, u, 1);
      if i > 0 {
        BranchPath(g, branch, snapshot, path[..|path| - 1], i - 1);
      }
    }
  }

  /** Some non-empty branch has all its contacts closed. */
  ghost predicate SomeBranchClosed(branches: seq<seq<Contact>>, snapshot: Snapshot) {
    exists i :: 0 <= i < |branches| && branches[i] != [] && AllClosed(branches[i], snapshot)
  }

  lemma {:induction false} ParallelConducts(branches: seq<seq<Contact>>, snapshot: Snapshot)
    requires AllBranchesPlain(branches)
    ensures Conducts(ParallelGraph(branches), snapshot, 1) <==> SomeBranchClosed(branches, snapshot)
  {
    hide AddBranch, AllClosed;
    var k := |branches| - 1;
    if branches == [] {
      EmptyParallel(snapshot);
    } else {
      ParallelConducts(branches[..k], snapshot);
      ParallelShape(branches[..k]);
      SplitBranches(branches, snapshot);
      if branches[k] == [] {
        AddNothing(ParallelGraph(branches[..k]));
      } else {
        AddBranchConducts(ParallelGraph(branches[..k]), branches[k], snapshot);
      }
    }
  }

  lemma AddNothing(g: Graph)
    ensures AddBranch(g, []) == g
  {
  }

  lemma SplitBranches(branches: seq<seq<Contact>>, snapshot: Snapshot)
    requires branches != []
    ensures var k := |branches| - 1;
            SomeBranchClosed(branches, snapshot) <==>
              SomeBranchClosed(branches[..k], snapshot) || (branches[k] != [] && AllClosed(branches[k], snapshot))
  {
    hide AllClosed;
    var k := |branches| - 1;
    if i :| 0 <= i < |branches| && branches[i] != [] && AllClosed(branches[i], snapshot) {
      if i < k {
        assert branches[..k][i] == branches[i];
      }
    }
    if i :| 0 <= i < k && branches[..k][i] != [] && AllClosed(branches[..k][i], snapshot) {
      assert branches[..k][i] == branches[i];
    }
  }

  lemma EmptyParallel(snapshot: Snapshot)
    ensures !Conducts(Graph(2, [], Some(0)), snapshot, 1)
  {
    var g := Graph(2, [], Some(0));
    if path :| ClosedPath(g, snapshot, path, 1) {
      PathPrefix(g, snapshot, path, 1);
      assert false;
    }
  }

  /** A parallel network conducts exactly when some non-empty branch has all its contacts closed. */
  lemma ParallelIsDisjunction(branches: seq<seq<Contact>>, snapshot: Snapshot, prev: Snapshot)
    requires AllBranchesPlain(branches)
    ensures ValidRung(Rung(ParallelGraph(branches), 1, []))
    ensures Powered(PowerFlow(ParallelGraph(branches), snapshot, prev), 1) <==> SomeBranchClosed(branches, snapshot)
    ensures PowerFlow(ParallelGraph(branches), snapshot, prev).prev == prev
  {
    hide PowerFlow, Powered, ParallelGraph, SomeBranchClosed;
    var g := ParallelGraph(branches);
    ParallelShape(branches);
    BranchShapeRanks(g);
    SourceRailNeverReturns(g);
    PowerFlowExact(g, snapshot, prev, 1);
    PowerFlowIsReachability(g, v => if v == 1 then g.n else v, snapshot, prev, 1);
    ParallelConducts(branches, snapshot);
  }
}

/**
 Contact networks as mutable objects with a cached visiting order, the power-flow
 evaluator, the network builders and the scan over a list of rungs.
 */
module LadderNetwork {
  import opened Options
  import opened LadderGraph
  import opened LadderFlow
  import opened LadderScan

  class ContactNetwork {
    var nodeCount: nat
    var edges: seq<Edge>
    var leftRail: Option<nat>
    var outputNode: Option<nat>
    /** For each node, the indices of its outgoing edges. */
    var outgoing: seq<seq<nat>>
    var topoOrder: seq<nat>
    var dirty: bool

    ghost function View(): Graph
      reads this`nodeCount, this`edges, this`leftRail
    {
      Graph(nodeCount, edges, leftRail)
    }

    /** The adjacency lists index the edges by source, and the cached order lists nodes. */
    ghost predicate Adjacent()
      reads this`nodeCount, this`edges, this`outgoing, this`topoOrder
    {
      && |outgoing| == nodeCount
      && (forall i :: 0 <= i < |edges| ==> edges[i].source < nodeCount)
      && (forall v :: 0 <= v < nodeCount ==> outgoing[v] == Outgoing(edges, v))
      && (forall k :: 0 <= k < |topoOrder| ==> topoOrder[k] < nodeCount)
    }

    /** All nodes that edges and the rail name exist, as a query demands. */
    ghost predicate Valid()
      reads this`nodeCount, this`edges, this`leftRail, this`outgoing, this`topoOrder
    {
      Adjacent() && ValidGraph(View())
    }

    /** A clean cache holds what a fresh computation would give. */
    ghost predicate Coherent()
      reads this
      requires Valid()
    {
      !dirty ==> topoOrder == Topo(View())
    }

    constructor ()
      ensures Valid() && Coherent() && View() == Graph(0, [], None) && outputNode == None && !dirty
    {
      nodeCount, edges, leftRail, outputNode, outgoing, topoOrder, dirty := 0, [], None, None, [], [], false;
    }

    method AddNode() returns (id: nat)
      requires Adjacent()
      modifies this
      ensures Adjacent() && dirty && (old(Valid()) ==> Valid() && Coherent())
      ensures id == old(nodeCount) && View() == old(View()).(n := old(nodeCount) + 1)
      ensures outputNode == old(outputNode)
    {
      id := nodeCount;
      nodeCount := nodeCount + 1;
      outgoing := outgoing + [[]];
      dirty := true;
      NoOutgoing(edges, id);
    }

    /** The target need not exist before the next query. */
    method AddEdge(source: nat, target: nat, contact: Contact)
      requires Adjacent() && source < nodeCount
      modifies this
      ensures Adjacent() && dirty
      ensures old(Valid()) && target < nodeCount ==> Valid() && Coherent()
      ensures target >= nodeCount ==> !Valid()
      ensures View() == old(View()).(edges := old(edges) + [Edge(source, target, contact)])
      ensures outputNode == old(outputNode)
    {
      edges := edges + [Edge(source, target, contact)];
      var i := |edges| - 1;
      assert edges[..i] == old(edges);
      assert edges[i].target == target;
      outgoing := outgoing[source := outgoing[source] + [i]];
      dirty := true;
    }

    /** Does not mark the cache dirty: a clean cache stays right only if the rail was this node
        already, or there was none and this is the only node without incoming edges. */
    method SetLeftRail(node: nat)
      requires Adjacent()
      modifies this`leftRail
      ensures Adjacent() && View() == old(View()).(rail := Some(node))
      ensures old(Valid()) && node < nodeCount ==> Valid()
      ensures old(Valid()) && node < nodeCount && old(Coherent()) ==>
                (Coherent() <==> dirty || old(leftRail) == Some(node) || (old(leftRail).None? && OnlySource(View(), node)))
    {
      hide Topo, OnlySource;
      if ValidGraph(View()) && node < nodeCount {
        RailChangeKeepsOrder(View(), node);
        OnlySourceIgnoresRail(View(), node);
      }
      leftRail := Some(node);
    }

    method SetOutputNode(node: nat)
      modifies this`outputNode
      ensures outputNode == Some(node)
    {
      outputNode := Some(node);
    }

    /** The cached order, recomputed when the network has changed. */
    method TopologicalOrder() returns (order: seq<nat>)
      requires Valid() && (dirty ==> RailNeverReturns(View()))
      modifies this`topoOrder, this`dirty
      ensures Valid() && !dirty && order == topoOrder
      ensures topoOrder == if old(dirty) then Topo(View()) else old(topoOrder)
      ensures old(Coherent()) ==> Coherent()
    {
      if dirty {
        RebuildTopo();
      }
      order := topoOrder;
    }

    method CountDegrees() returns (degree: array<nat>)
      requires Valid()
      ensures fresh(degree) && degree[..] == Degrees(View())
    {
      degree := new nat[nodeCount](_ => 0);
      for k := 0 to |edges|
        invariant fresh(degree) && degree.Length == nodeCount
        invariant forall v :: 0 <= v < nodeCount ==> degree[v] == InDegree(edges[..k], v)
      {
        var t := edges[k].target;
        assert edges[..k + 1][..k] == edges[..k];
        degree[t] := degree[t] + 1;
      }
      assert edges[..|edges|] == edges;
    }

    /** Adjacency alone, which the sort does not touch. */
    ghost predicate Listed()
      reads this`nodeCount, this`edges, this`outgoing, this`leftRail
    {
      ValidGraph(View()) && |outgoing| == nodeCount && forall v :: 0 <= v < nodeCount ==> outgoing[v] == Outgoing(edges, v)
    }

    lemma ListedValid()
      ensures Valid() ==> Listed()
      ensures Listed() ==> ValidGraph(View()) && |outgoing| == nodeCount
      ensures Listed() && (forall k :: 0 <= k < |topoOrder| ==> topoOrder[k] < nodeCount) ==> Valid()
    {
    }

    /** Ends because the rail never returns. */
    method RebuildTopo()
      requires Valid() && RailNeverReturns(View())
      modifies this`topoOrder, this`dirty
      ensures Valid() && !dirty && topoOrder == Topo(View())
    {
      hide SortInv, SortRun, Visit, RelaxAll, Outgoing, Degrees, RailNeverReturns, Valid, Adjacent, Listed;
      ListedValid();
      ghost var g := View();
      var degree := CountDegrees();
      var queue;
      if leftRail.Some? {
        queue := [leftRail.value];
      } else {
        queue := CollectSources(degree);
      }
      topoOrder := [];
      ghost var s := StartSort(g);
      StartInv(g);
      while queue != []
        invariant Listed() && View() == g
        invariant fresh(degree) && s == Sort(queue, degree[..], topoOrder) && SortInv(g, s, [])
        invariant |s.degree| == g.n && |topoOrder| <= g.n
        invariant SortRun(g, s, g.n - |topoOrder|) == SortRun(g, StartSort(g), g.n)
        decreases g.n - |topoOrder|
      {
        RoomLeft(g, s);
        SortRunStep(g, s, g.n - |topoOrder|);
        VisitInv(g, s);
        VisitIs(g, s);
        var node := queue[|queue| - 1];
        queue := queue[..|queue| - 1];
        topoOrder := topoOrder + [node];
        queue := RelaxEdges(node, queue, degree);
        s := Visit(g, s);
      }
      SortRunDone(g, s, g.n - |topoOrder|);
      InvInRange(g, s);
      ListedValid();
      dirty := false;
    }

    /** Lowers the degrees of the targets of `node` and pushes those that reach zero. */
    method RelaxEdges(node: nat, stack: seq<nat>, degree: array<nat>) returns (queue: seq<nat>)
      requires Listed() && node < nodeCount && degree.Length == nodeCount
      modifies degree
      ensures var r := RelaxAll(View(), Outgoing(edges, node), Sort(stack, old(degree[..]), topoOrder));
              queue == r.stack && degree[..] == r.degree && topoOrder == r.order
    {
      queue := stack;
      ghost var g, outs := View(), Outgoing(edges, node);
      ghost var start := Sort(stack, degree[..], topoOrder);
      for j := 0 to |outgoing[node]|
        invariant RelaxAll(g, outs[j..], Sort(queue, degree[..], topoOrder)) == RelaxAll(g, outs, start)
      {
        ghost var s := Sort(queue, degree[..], topoOrder);
        var t := edges[outgoing[node][j]].target;
        assert outs[j..][0] == outs[j] && outs[j..][1..] == outs[j + 1..];
        degree[t] := if degree[t] > 0 then degree[t] - 1 else 0;
        if degree[t] == 0 {
          queue := queue + [t];
        }
        assert Sort(queue, degree[..], topoOrder) == Relax(t, s);
      }
    }
  }

  method CollectSources(degree: array<nat>) returns (queue: seq<nat>)
    ensures queue == Sources(degree[..], 0)
  {
    queue := [];
    for i := 0 to degree.Length
      invariant queue + Sources(degree[..], i) == Sources(degree[..], 0)
    {
      if degree[i] == 0 {
        queue := queue + [i];
      }
    }
  }

  lemma {:induction false} NoOutgoing(edges: seq<Edge>, v: nat)
    requires forall i :: 0 <= i < |edges| ==> edges[i].source != v
    ensures Outgoing(edges, v) == []
    decreases |edges|
  {
    if edges != [] {
      NoOutgoing(edges[..|edges| - 1], v);
    }
  }

  lemma InvInRange(g: Graph, s: Sort)
    requires SortInv(g, s, [])
    ensures forall k :: 0 <= k < |s.order| ==> s.order[k] < g.n
  {
    forall k | 0 <= k < |s.order|
      ensures s.order[k] < g.n
    {
      assert s.order[k] in s.order + s.stack;
    }
  }

  lemma SortRunStep(g: Graph, s: Sort, k: nat)
    requires ValidGraph(g) && |s.degree| == g.n && k > 0 && s.stack != []
    ensures SortRun(g, s, k) == SortRun(g, Visit(g, s), k - 1)
  {
  }

  lemma SortRunDone(g: Graph, s: Sort, k: nat)
    requires ValidGraph(g) && |s.degree| == g.n && s.stack == []
    ensures SortRun(g, s, k) == s
  {
  }

  lemma VisitIs(g: Graph, s: Sort)
    requires ValidGraph(g) && |s.degree| == g.n && s.stack != []
    ensures var last := |s.stack| - 1;
            Visit(g, s) == RelaxAll(g, Outgoing(g.edges, s.stack[last]), Sort(s.stack[..last], s.degree, s.order + [s.stack[last]]))
  {
  }

  lemma VisitedWithoutRail()
    ensures ValidGraph(Graph(2, [], None)) && 1 in Topo(Graph(2, [], None))
  {
    hide Topo;
    var g := Graph(2, [], None);
    SourceRailNeverReturns(g);
    TopoComplete(g);
    assert Degrees(g)[1] == InDegree([], 1) == 0;
    assert 1 in Seeds(g);
  }

  lemma UnvisitedWithRail()
    ensures ValidGraph(Graph(2, [], Some(0))) && 1 !in Topo(Graph(2, [], Some(0)))
  {
    hide Topo, Degrees;
    var h := Graph(2, [], Some(0));
    SourceRailNeverReturns(h);
    TopoComplete(h);
    assert Seeds(h) == [0] && !HasEdgeInto(h, 1);
  }

  /** Setting the rail of a clean network leaves a stale order behind. */
  method StaleOrder() returns (net: ContactNetwork, order: seq<nat>)
    ensures fresh(net) && net.Valid() && RailIsSource(net.View())
    ensures !net.dirty && order == net.topoOrder && order != Topo(net.View())
  {
    hide Topo;
    SourceRailNeverReturns(Graph(2, [], None));
    net := new ContactNetwork();
    var a := net.AddNode();
    var b := net.AddNode();
    assert net.View() == Graph(2, [], None);
    VisitedWithoutRail();
    UnvisitedWithRail();
    order := net.TopologicalOrder();
    net.SetLeftRail(a);
    assert net.View() == Graph(2, [], Some(0));
    order := net.TopologicalOrder();
  }

  // ----- evaluation -----

  /** Values of transition contacts in the previous evaluation. */
  class EdgeState {
    var prev: Snapshot

    constructor ()
      ensures prev == map[]
    {
      prev := map[];
    }

    method IsRising(x: string, snapshot: Snapshot) returns (r: bool)
      modifies this
      ensures r <==> GetBool(snapshot, x) && !GetBool(old(prev), x)
      ensures prev == old(prev)[x := GetBool(snapshot, x)]
      ensures (r, prev) == ContactPower(PosEdge(x), snapshot, old(prev))
    {
      var curr, was := GetBool(snapshot, x), GetBool(prev, x);
      prev := prev[x := curr];
      r := !was && curr;
    }

    method IsFalling(x: string, snapshot: Snapshot) returns (r: bool)
      modifies this
      ensures r <==> !GetBool(snapshot, x) && GetBool(old(prev), x)
      ensures prev == old(prev)[x := GetBool(snapshot, x)]
      ensures (r, prev) == ContactPower(NegEdge(x), snapshot, old(prev))
    {
      var curr, was := GetBool(snapshot, x), GetBool(prev, x);
      prev := prev[x := curr];
      r := was && !curr;
    }
  }

  method EvaluateContact(c: Contact, snapshot: Snapshot, state: EdgeState) returns (passes: bool)
    modifies state
    ensures (passes, state.prev) == ContactPower(c, snapshot, old(state.prev))
  {
    match c
    case No(x) => passes := GetBool(snapshot, x);
    case Nc(x) => passes := !GetBool(snapshot, x);
    case PosEdge(x) => passes := state.IsRising(x, snapshot);
    case NegEdge(x) => passes := state.IsFalling(x, snapshot);
  }

  /** Power at the output node of a network; a stale order is followed as it stands. */
  method EvaluatePowerFlow(net: ContactNetwork, snapshot: Snapshot, state: EdgeState) returns (power: bool)
    requires net.Valid() && (net.dirty ==> RailNeverReturns(net.View()))
    requires net.leftRail.Some? && net.outputNode.Some?
    modifies net`topoOrder, net`dirty, state
    ensures net.Valid() && !net.dirty && net.topoOrder == if old(net.dirty) then Topo(net.View()) else old(net.topoOrder)
    ensures var order := net.topoOrder;
            var f := FlowOver(net.View(), order, |order|, snapshot, StartFlow(net.leftRail.value, old(state.prev)));
            power == Powered(f, net.outputNode.value) && state.prev == f.prev
    ensures old(net.Coherent()) ==>
              var f := PowerFlow(net.View(), snapshot, old(state.prev));
              net.Coherent() && power == Powered(f, net.outputNode.value) && state.prev == f.prev
  {
    hide Topo, FlowNode, RailNeverReturns;
    var rail, output := net.leftRail.value, net.outputNode.value;
    ghost var g, start := net.View(), StartFlow(rail, state.prev);
    var topo := net.TopologicalOrder();
    var nodePower := map[rail := true];
    for k := 0 to |topo|
      invariant net.Valid() && net.View() == g && !net.dirty && net.topoOrder == topo
      invariant Flow(nodePower, state.prev) == FlowOver(g, topo, k, snapshot, start)
    {
      nodePower := PropagateNode(net, topo[k], nodePower, snapshot, state);
    }
    power := output in nodePower && nodePower[output];
  }

  /** Passes power on along the edges of a powered node. */
  method PropagateNode(net: ContactNetwork, node: nat, power: map<nat, bool>, snapshot: Snapshot, state: EdgeState)
    returns (nodePower: map<nat, bool>)
    requires net.Valid() && node < net.nodeCount
    modifies state
    ensures Flow(nodePower, state.prev) == FlowNode(net.View(), node, snapshot, Flow(power, old(state.prev)))
  {
    hide ContactPower;
    nodePower := power;
    if node !in nodePower || !nodePower[node] {
      return;
    }
    ghost var g, outs := net.View(), Outgoing(net.edges, node);
    ghost var start := Flow(power, state.prev);
    for j := 0 to |net.outgoing[node]|
      invariant FlowEdges(g, outs[j..], snapshot, Flow(nodePower, state.prev)) == FlowEdges(g, outs, snapshot, start)
    {
      var e := net.edges[net.outgoing[node][j]];
      assert outs[j..][0] == outs[j] && outs[j..][1..] == outs[j + 1..];
      var passes := EvaluateContact(e.contact, snapshot, state);
      var existing := e.target in nodePower && nodePower[e.target];
      nodePower := nodePower[e.target := existing || passes];
    }
  }

  // ----- builders -----

  method BuildSerialNetwork(contacts: seq<Contact>) returns (net: ContactNetwork)
    ensures fresh(net) && net.Valid() && net.Coherent()
    ensures net.View() == SerialGraph(contacts) && net.outputNode == Some(|contacts|)
  {
    net := new ContactNetwork();
    var left := net.AddNode();
    net.SetLeftRail(left);
    var prev := left;
    for i := 0 to |contacts|
      invariant net.Valid() && net.dirty && fresh(net)
      invariant prev == i && net.View() == SerialGraph(contacts[..i])
    {
      var next := net.AddNode();
      net.AddEdge(prev, next, contacts[i]);
      prev := next;
    }
    assert contacts[..|contacts|] == contacts;
    net.SetOutputNode(prev);
  }

  method BuildParallelNetwork(branches: seq<seq<Contact>>) returns (net: ContactNetwork)
    ensures fresh(net) && net.Valid() && net.Coherent()
    ensures net.View() == ParallelGraph(branches) && net.outputNode == Some(1)
  {
    hide AddBranch;
    net := new ContactNetwork();
    var left := net.AddNode();
    net.SetLeftRail(left);
    var output := net.AddNode();
    net.SetOutputNode(output);
    for b := 0 to |branches|
      invariant net.Valid() && net.dirty && fresh(net) && net.outputNode == Some(1)
      invariant net.View() == ParallelGraph(branches[..b])
    {
      BuildBranch(net, left, output, branches[b]);
      assert branches[..b + 1][..b] == branches[..b];
    }
    assert branches[..|branches|] == branches;
  }

  method BuildBranch(net: ContactNetwork, left: nat, output: nat, branch: seq<Contact>)
    requires net.Valid() && net.dirty && left == 0 && output == 1 && net.nodeCount >= 2
    modifies net
    ensures net.Valid() && net.dirty && net.View() == AddBranch(old(net.View()), branch)
    ensures net.outputNode == old(net.outputNode)
  {
    var prev, len := left, |branch|;
    ghost var g := net.View();
    for i := 0 to len
      invariant net.Valid() && net.dirty && net.outputNode == old(net.outputNode)
      invariant prev == if i == 0 then 0 else if i == len then 1 else g.n + i - 1
      invariant net.nodeCount == if i == len && len > 0 then g.n + len - 1 else g.n + i
      invariant net.leftRail == g.rail && net.edges == g.edges + BranchEdges(g.n, branch)[..i]
    {
      var next := output;
      if i != len - 1 {
        next := net.AddNode();
      }
      net.AddEdge(prev, next, branch[i]);
      prev := next;
    }
    assert BranchEdges(g.n, branch)[..len] == BranchEdges(g.n, branch);
  }

  // ----- scan -----

  class VarStore {
    var values: Snapshot

    constructor (initial: Snapshot)
      ensures values == initial
    {
      values := initial;
    }
  }

  datatype RungDef = RungDef(network: ContactNetwork, coils: seq<Coil>)

  /** A rung object in working order, with its value. */
  ghost predicate Represents(r: RungDef, view: Rung)
    reads r.network
  {
    var net := r.network;
    && net.Valid() && net.Coherent() && RailNeverReturns(net.View()) && net.leftRail.Some?
    && net.View() == view.graph && net.outputNode == Some(view.output) && r.coils == view.coils
  }

  ghost predicate AllRepresent(rungs: seq<RungDef>, views: seq<Rung>)
    reads set i | 0 <= i < |rungs| :: rungs[i].network
  {
    |views| == |rungs| && forall i :: 0 <= i < |rungs| ==> Represents(rungs[i], views[i])
  }

  lemma RepresentedRungsValid(rungs: seq<RungDef>, views: seq<Rung>)
    requires AllRepresent(rungs, views)
    ensures AllValid(views)
  {
    hide RailNeverReturns, ValidGraph;
    forall i | 0 <= i < |views|
      ensures ValidRung(views[i])
    {
      assert Represents(rungs[i], views[i]);
    }
  }

  /** What a scan reports of one rung: its contacts as closed or open, its coils as energised or not. */
  datatype RungState = RungState(closed: seq<bool>, energized: seq<bool>)

  /** Reported state of a contact; transition contacts are reported by level, not by transition. */
  function ReportedClosed(c: Contact, snapshot: Snapshot): bool {
    if c.No? || c.PosEdge? then GetBool(snapshot, c.v) else !GetBool(snapshot, c.v)
  }

  /** A report agrees with a rung evaluated on `s`: levels of the contacts, values the coils receive. */
  ghost predicate Reports(state: RungState, r: Rung, s: Scan)
    requires ValidRung(r)
  {
    && |state.closed| == |r.graph.edges|
    && (forall i :: 0 <= i < |state.closed| ==> state.closed[i] == ReportedClosed(r.graph.edges[i].contact, s.vars))
    && Energized(state.energized, r.coils, Powered(PowerFlow(r.graph, s.vars, s.prev), r.output), s.vars)
  }

  ghost predicate Energized(on: seq<bool>, coils: seq<Coil>, power: bool, held: Snapshot) {
    |on| == |coils| && forall j :: 0 <= j < |on| ==> on[j] == CoilValue(coils[j].kind, power, GetBool(held, coils[j].v))
  }

  /** Names of the energised coils, in order. */
  function PoweredCoils(coils: seq<Coil>, on: seq<bool>): seq<string> {
    if coils == [] then []
    else
      var k := |coils| - 1;
      PoweredCoils(coils[..k], on) + if k < |on| && on[k] then [coils[k].v] else []
  }

  ghost function AllPowered(views: seq<Rung>, reports: seq<RungState>): seq<string>
    requires |reports| <= |views|
    decreases |reports|
  {
    if reports == [] then []
    else
      var k := |reports| - 1;
      AllPowered(views, reports[..k]) + PoweredCoils(views[k].coils, reports[k].energized)
  }

  ghost predicate AllValid(views: seq<Rung>) { forall i :: 0 <= i < |views| ==> ValidRung(views[i]) }

  ghost predicate AllReport(reports: seq<RungState>, views: seq<Rung>, start: Scan)
    requires AllValid(views) && |reports| <= |views|
  {
    forall i :: 0 <= i < |reports| ==> Reports(reports[i], views[i], RunRungs(views, i, start))
  }

  /** Rungs top to bottom; every coil of a rung is evaluated before any of them is written. */
  method EvaluateCycle(rungs: seq<RungDef>, vars: VarStore, ghost views: seq<Rung>)
    returns (reports: seq<RungState>, powered: seq<string>)
    requires AllRepresent(rungs, views)
    modifies set i | 0 <= i < |rungs| :: rungs[i].network
    modifies vars
    ensures AllRepresent(rungs, views) && AllValid(views)
    ensures vars.values == Cycle(views, old(vars.values))
    ensures |reports| == |views| && AllReport(reports, views, Scan(old(vars.values), map[]))
    ensures powered == AllPowered(views, reports)
  {
    hide PowerFlow, ValidRung, Represents, Reports, AllReport, RunRungs, AllPowered, RunRung, PoweredCoils;
    EmptyReport(views, Scan(vars.values, map[]));
    RepresentedRungsValid(rungs, views);
    var state := new EdgeState();
    ghost var start := Scan(vars.values, map[]);
    reports, powered := [], [];
    for k := 0 to |rungs|
      invariant fresh(state)
      invariant AllRepresent(rungs, views)
      invariant Scan(vars.values, state.prev) == RunRungs(views, k, start)
      invariant |reports| == k && AllReport(reports, views, start)
      invariant powered == AllPowered(views, reports)
    {
      ghost var before := reports;
      var report, names := EvaluateOne(rungs, k, vars, state, views);
      reports := reports + [report];
      powered := powered + names;
      MoreReports(before, report, views, start);
    }
  }

  lemma EmptyReport(views: seq<Rung>, start: Scan)
    ensures AllPowered(views, []) == []
    ensures AllValid(views) ==> AllReport([], views, start) && RunRungs(views, 0, start) == start
  {
  }

  lemma MoreReports(reports: seq<RungState>, report: RungState, views: seq<Rung>, start: Scan)
    requires AllValid(views) && |reports| < |views| && AllReport(reports, views, start)
    requires Reports(report, views[|reports|], RunRungs(views, |reports|, start))
    ensures AllReport(reports + [report], views, start)
    ensures AllPowered(views, reports + [report]) == AllPowered(views, reports) + PoweredCoils(views[|reports|].coils, report.energized)
    ensures RunRungs(views, |reports| + 1, start) == RunRung(views[|reports|], RunRungs(views, |reports|, start))
  {
    hide Reports, ValidRung, RunRung, PoweredCoils;
    assert (reports + [report])[..|reports|] == reports;
  }

  /** One rung of the scan: its network, its report and its coils. */
  method EvaluateOne(rungs: seq<RungDef>, k: nat, vars: VarStore, state: EdgeState, ghost views: seq<Rung>)
    returns (report: RungState, names: seq<string>)
    requires k < |rungs| && AllRepresent(rungs, views)
    modifies rungs[k].network, vars, state
    ensures AllRepresent(rungs, views) && ValidRung(views[k])
    ensures Scan(vars.values, state.prev) == RunRung(views[k], old(Scan(vars.values, state.prev)))
    ensures Reports(report, views[k], old(Scan(vars.values, state.prev)))
    ensures names == PoweredCoils(views[k].coils, report.energized)
  {
    hide PowerFlow, ValidGraph, RailNeverReturns, Topo, Energized, ReportedClosed, ApplyCoils, PoweredCoils;
    assert Represents(rungs[k], views[k]);
    SameParts(rungs[k], views[k]);
    var snapshot := vars.values;
    var power := EvaluateRung(rungs, k, snapshot, state, views);
    label Evaluated:
    var closed := ReportContacts(rungs[k].network, snapshot);
    var energized;
    energized, names := EvaluateCoils(rungs[k].coils, power, vars);
    report := RungState(closed, energized);
    forall i | 0 <= i < |rungs|
      ensures Represents(rungs[i], views[i])
    {
      assert old@Evaluated(Represents(rungs[i], views[i]));
    }
  }

  lemma SameParts(r: RungDef, view: Rung)
    requires Represents(r, view)
    ensures r.coils == view.coils && r.network.edges == view.graph.edges
  {
  }

  method ReportContacts(net: ContactNetwork, snapshot: Snapshot) returns (closed: seq<bool>)
    ensures |closed| == |net.edges|
    ensures forall i :: 0 <= i < |closed| ==> closed[i] == ReportedClosed(net.edges[i].contact, snapshot)
    ensures forall i :: 0 <= i < |closed| ==>
              var c := net.edges[i].contact;
              if c.No? || c.PosEdge? then closed[i] == GetBool(snapshot, c.v) else closed[i] == !GetBool(snapshot, c.v)
  {
    closed := [];
    for i := 0 to |net.edges|
      invariant |closed| == i
      invariant forall j :: 0 <= j < i ==> closed[j] == ReportedClosed(net.edges[j].contact, snapshot)
    {
      var c;
      match net.edges[i].contact {
        case No(v) => c := GetBool(snapshot, v);
        case Nc(v) => c := !GetBool(snapshot, v);
        case PosEdge(v) => c := GetBool(snapshot, v);
        case NegEdge(v) => c := !GetBool(snapshot, v);
      }
      closed := closed + [c];
    }
  }

  method EvaluateRung(rungs: seq<RungDef>, k: nat, snapshot: Snapshot, state: EdgeState, ghost views: seq<Rung>) returns (power: bool)
    requires k < |rungs| && AllRepresent(rungs, views)
    modifies rungs[k].network`topoOrder, rungs[k].network`dirty, state
    ensures AllRepresent(rungs, views) && ValidRung(views[k])
    ensures var f := PowerFlow(views[k].graph, snapshot, old(state.prev));
            power == Powered(f, views[k].output) && state.prev == f.prev
  {
    hide PowerFlow, FlowOver, RailNeverReturns, ValidGraph, Topo;
    assert Represents(rungs[k], views[k]);
    power := EvaluatePowerFlow(rungs[k].network, snapshot, state);
    forall i | 0 <= i < |rungs|
      ensures Represents(rungs[i], views[i])
    {
      assert old(Represents(rungs[i], views[i]));
    }
  }

  lemma {:induction false} PoweredCoilsPrefix(coils: seq<Coil>, on: seq<bool>, more: seq<bool>)
    requires on <= more && |on| == |coils|
    ensures PoweredCoils(coils, on) == PoweredCoils(coils, more)
    decreases |coils|
  {
    if coils != [] {
      var k := |coils| - 1;
      PoweredCoilsPrefix(coils[..k], on[..k], more);
      PoweredCoilsPrefix(coils[..k], on[..k], on);
    }
  }

  /** The values a rung's coils receive, against the store before the rung. */
  method ComputeCoils(coils: seq<Coil>, power: bool, vars: VarStore) returns (energized: seq<bool>, powered: seq<string>)
    ensures Energized(energized, coils, power, vars.values) && powered == PoweredCoils(coils, energized)
  {
    energized, powered := [], [];
    for i := 0 to |coils|
      invariant Energized(energized, coils[..i], power, vars.values)
      invariant powered == PoweredCoils(coils[..i], energized)
    {
      ghost var before := energized;
      var held := GetBool(vars.values, coils[i].v);
      var on;
      match coils[i].kind {
        case Out => on := power;
        case Negated => on := !power;
        case SetCoil => on := if power then true else held;
        case ResetCoil => on := if power then false else held;
      }
      if on {
        powered := powered + [coils[i].v];
      }
      energized := energized + [on];
      PoweredCoilsPrefix(coils[..i], before, energized);
      assert coils[..i + 1][..i] == coils[..i];
    }
    assert coils[..|coils|] == coils;
  }

  method EvaluateCoils(coils: seq<Coil>, power: bool, vars: VarStore) returns (energized: seq<bool>, powered: seq<string>)
    modifies vars
    ensures vars.values == ApplyCoils(coils, power, old(vars.values), old(vars.values))
    ensures Energized(energized, coils, power, old(vars.values)) && powered == PoweredCoils(coils, energized)
  {
    hide PoweredCoils;
    energized, powered := ComputeCoils(coils, power, vars);
    ghost var held := vars.values;
    for i := 0 to |coils|
      invariant ApplyCoils(coils[i..], power, held, vars.values) == ApplyCoils(coils, power, held, held)
    {
      assert coils[i..][0] == coils[i] && coils[i..][1..] == coils[i + 1..];
      vars.values := vars.values[coils[i].v := energized[i]];
    }
  }
}

/**
 Power flow through a contact network: the propagation over a visiting order, and
 the theorem that it computes reachability through closed contacts.
 */
module LadderFlow {
  import opened Options
  import opened LadderGraph

  type Snapshot = map<string, bool>

  function GetBool(m: Snapshot, x: string): bool { x in m && m[x] }

  /** Powered nodes so far, and the previous values recorded by transition contacts. */
  datatype Flow = Flow(power: map<nat, bool>, prev: Snapshot)

  /** Whether a contact passes power; transition contacts compare with, and then record, the variable. */
  function ContactPower(c: Contact, snapshot: Snapshot, prev: Snapshot): (bool, Snapshot) {
    var now := GetBool(snapshot, c.v);
    match c
    case No(_) => (now, prev)
    case Nc(_) => (!now, prev)
    case PosEdge(x) => (!GetBool(prev, x) && now, prev[x := now])
    case NegEdge(x) => (GetBool(prev, x) && !now, prev[x := now])
  }

  predicate Powered(f: Flow, v: nat) { v in f.power && f.power[v] }

  function FlowEdge(e: Edge, snapshot: Snapshot, f: Flow): Flow {
    var (passes, prev) := ContactPower(e.contact, snapshot, f.prev);
    Flow(f.power[e.target := Powered(f, e.target) || passes], prev)
  }

  function FlowEdges(g: Graph, outs: seq<nat>, snapshot: Snapshot, f: Flow): Flow
    requires ValidOuts(g, outs)
    decreases |outs|
  {
    if outs == [] then f else FlowEdges(g, outs[1..], snapshot, FlowEdge(g.edges[outs[0]], snapshot, f))
  }

  function FlowNode(g: Graph, node: nat, snapshot: Snapshot, f: Flow): Flow {
    if Powered(f, node) then FlowEdges(g, Outgoing(g.edges, node), snapshot, f) else f
  }

  /** Propagation over the first `k` nodes of an order. */
  function FlowOver(g: Graph, order: seq<nat>, k: nat, snapshot: Snapshot, f: Flow): Flow
    requires k <= |order|
  {
    if k == 0 then f else FlowNode(g, order[k - 1], snapshot, FlowOver(g, order, k - 1, snapshot, f))
  }

  function StartFlow(rail: nat, prev: Snapshot): Flow { Flow(map[rail := true], prev) }

  /** Propagation over the whole network from its rail. */
  function PowerFlow(g: Graph, snapshot: Snapshot, prev: Snapshot): Flow
    requires ValidGraph(g) && g.rail.Some?
  {
    FlowOver(g, Topo(g), |Topo(g)|, snapshot, StartFlow(g.rail.value, prev))
  }

  // ----- closed paths -----

  predicate Plain(c: Contact) { c.No? || c.Nc? }

  ghost predicate PlainGraph(g: Graph) { forall i :: 0 <= i < |g.edges| ==> Plain(g.edges[i].contact) }

  predicate Closed(c: Contact, snapshot: Snapshot) {
    if c.No? then GetBool(snapshot, c.v) else c.Nc? && !GetBool(snapshot, c.v)
  }

  /** A closed contact leads from u to v. */
  ghost predicate ClosedStep(g: Graph, snapshot: Snapshot, u: nat, v: nat) {
    exists i :: 0 <= i < |g.edges| && g.edges[i].source == u && g.edges[i].target == v && Closed(g.edges[i].contact, snapshot)
  }

  /** `path` runs from the rail to `v` through closed contacts. */
  ghost predicate ClosedPath(g: Graph, snapshot: Snapshot, path: seq<nat>, v: nat) {
    && path != [] && g.rail == Some(path[0]) && path[|path| - 1] == v
    && forall i :: 0 <= i < |path| - 1 ==> ClosedStep(g, snapshot, path[i], path[i + 1])
  }

  ghost predicate Conducts(g: Graph, snapshot: Snapshot, v: nat) { exists path :: ClosedPath(g, snapshot, path, v) }

  /** All nodes of the path but the last are listed. */
  ghost predicate Inside(path: seq<nat>, order: seq<nat>) {
    forall i :: 0 <= i < |path| - 1 ==> path[i] in order
  }

  lemma PathPrefix(g: Graph, snapshot: Snapshot, path: seq<nat>, v: nat)
    requires ClosedPath(g, snapshot, path, v) && |path| > 1
    ensures ClosedPath(g, snapshot, path[..|path| - 1], path[|path| - 2])
    ensures ClosedStep(g, snapshot, path[|path| - 2], v)
  {
    var shorter := path[..|path| - 1];
    forall i | 0 <= i < |shorter| - 1
      ensures ClosedStep(g, snapshot, shorter[i], shorter[i + 1])
    {
      assert ClosedStep(g, snapshot, path[i], path[i + 1]);
    }
    assert ClosedStep(g, snapshot, path[|path| - 2], path[|path| - 2 + 1]);
  }

  lemma PathExtend(g: Graph, snapshot: Snapshot, path: seq<nat>, u: nat, v: nat)
    requires ClosedPath(g, snapshot, path, u) && ClosedStep(g, snapshot, u, v)
    ensures ClosedPath(g, snapshot, path + [v], v)
  {
  }

  // ----- propagation over the edges of one node -----

  lemma {:induction false} FlowEdgesPlain(g: Graph, outs: seq<nat>, snapshot: Snapshot, f: Flow)
    requires ValidOuts(g, outs) && PlainGraph(g)
    ensures FlowEdges(g, outs, snapshot, f).prev == f.prev
    ensures forall v :: Powered(FlowEdges(g, outs, snapshot, f), v) <==>
              Powered(f, v) || exists k :: 0 <= k < |outs| && g.edges[outs[k]].target == v && Closed(g.edges[outs[k]].contact, snapshot)
    decreases |outs|
  {
    if outs != [] {
      var e := g.edges[outs[0]];
      var f' := FlowEdge(e, snapshot, f);
      assert Plain(e.contact);
      FlowEdgesPlain(g, outs[1..], snapshot, f');
      forall v
        ensures Powered(FlowEdges(g, outs, snapshot, f), v) <==>
                  Powered(f, v) || exists k :: 0 <= k < |outs| && g.edges[outs[k]].target == v && Closed(g.edges[outs[k]].contact, snapshot)
      {
        assert Powered(f', v) <==> Powered(f, v) || (e.target == v && Closed(e.contact, snapshot));
        if k :| 0 <= k < |outs[1..]| && g.edges[outs[1..][k]].target == v && Closed(g.edges[outs[1..][k]].contact, snapshot) {
          assert outs[1..][k] == outs[k + 1];
        }
        if k :| 0 <= k < |outs| && g.edges[outs[k]].target == v && Closed(g.edges[outs[k]].contact, snapshot) {
          if k > 0 {
            assert outs[1..][k - 1] == outs[k];
          }
        }
      }
    }
  }

  /** Visiting a powered node powers exactly the nodes one closed contact away. */
  lemma FlowNodePlain(g: Graph, node: nat, snapshot: Snapshot, f: Flow)
    requires PlainGraph(g)
    ensures FlowNode(g, node, snapshot, f).prev == f.prev
    ensures forall v :: Powered(FlowNode(g, node, snapshot, f), v) <==>
              Powered(f, v) || (Powered(f, node) && ClosedStep(g, snapshot, node, v))
  {
    if Powered(f, node) {
      var outs := Outgoing(g.edges, node);
      FlowEdgesPlain(g, outs, snapshot, f);
      forall v
        ensures ClosedStep(g, snapshot, node, v) <==>
          exists k :: 0 <= k < |outs| && g.edges[outs[k]].target == v && Closed(g.edges[outs[k]].contact, snapshot)
      {
        if ClosedStep(g, snapshot, node, v) {
          var i :| 0 <= i < |g.edges| && g.edges[i].source == node && g.edges[i].target == v && Closed(g.edges[i].contact, snapshot);
          OutgoingComplete(g.edges, node, i);
          var k :| 0 <= k < |outs| && outs[k] == i;
        }
      }
    }
  }

  // ----- soundness and completeness along an order -----

  /** Powered nodes are reached by closed paths through visited nodes. */
  lemma {:induction false} FlowSound(g: Graph, order: seq<nat>, k: nat, snapshot: Snapshot, prev: Snapshot, v: nat) returns (path: seq<nat>)
    requires PlainGraph(g) && k <= |order| && g.rail.Some?
    requires Powered(FlowOver(g, order, k, snapshot, StartFlow(g.rail.value, prev)), v)
    ensures ClosedPath(g, snapshot, path, v) && Inside(path, order[..k])
    decreases k
  {
    var f0 := StartFlow(g.rail.value, prev);
    if k == 0 {
      path := [v];
    } else {
      var f, node := FlowOver(g, order, k - 1, snapshot, f0), order[k - 1];
      FlowNodePlain(g, node, snapshot, f);
      assert forall u :: u in order[..k - 1] ==> u in order[..k];
      if Powered(f, v) {
        path := FlowSound(g, order, k - 1, snapshot, prev, v);
      } else {
        var p := FlowSound(g, order, k - 1, snapshot, prev, node);
        path := p + [v];
        assert order[..k][k - 1] == node;
      }
    }
  }

  lemma {:induction false} FlowMonotone(g: Graph, order: seq<nat>, j: nat, k: nat, snapshot: Snapshot, f: Flow, v: nat)
    requires PlainGraph(g) && j <= k <= |order| && Powered(FlowOver(g, order, j, snapshot, f), v)
    ensures Powered(FlowOver(g, order, k, snapshot, f), v)
    decreases k
  {
    if j < k {
      FlowMonotone(g, order, j, k - 1, snapshot, f, v);
      FlowNodePlain(g, order[k - 1], snapshot, FlowOver(g, order, k - 1, snapshot, f));
    }
  }

  /** In an edge order, a path to the j-th node gives one through earlier nodes only: cut it at the rail. */
  lemma {:induction false} PathRunsForward(g: Graph, snapshot: Snapshot, order: seq<nat>, path: seq<nat>, j: nat)
    returns (short: seq<nat>)
    requires Topological(g, order) && j < |order| && ClosedPath(g, snapshot, path, order[j])
    ensures ClosedPath(g, snapshot, short, order[j]) && Inside(short, order[..j]) && |short| <= |path|
    decreases |path|
  {
    var n, v := |path|, order[j];
    if g.rail == Some(v) {
      short := [v];
    } else {
      PathPrefix(g, snapshot, path, v);
      assert AllSourcesIn(g, v, order[..j]);
      var i :| 0 <= i < j && order[i] == path[n - 2];
      var p := PathRunsForward(g, snapshot, order, path[..n - 1], i);
      PathExtend(g, snapshot, p, order[i], v);
      short := p + [v];
      forall a | 0 <= a < |short| - 1
        ensures short[a] in order[..j]
      {
        if a < |p| - 1 {
          assert p[a] in order[..i];
          var b :| 0 <= b < i && order[b] == p[a];
          assert order[..j][b] == p[a];
        } else {
          assert order[..j][i] == short[a];
        }
      }
    }
  }

  /** The end of a closed path through visited nodes is powered. */
  lemma {:induction false} FlowFinds(g: Graph, order: seq<nat>, k: nat, snapshot: Snapshot, prev: Snapshot, path: seq<nat>, v: nat)
    requires PlainGraph(g) && Topological(g, order) && k <= |order|
    requires ClosedPath(g, snapshot, path, v) && Inside(path, order[..k])
    ensures Powered(FlowOver(g, order, k, snapshot, StartFlow(g.rail.value, prev)), v)
    decreases |path|
  {
    var f0, n := StartFlow(g.rail.value, prev), |path|;
    if n == 1 {
      assert Powered(FlowOver(g, order, 0, snapshot, f0), v);
      FlowMonotone(g, order, 0, k, snapshot, f0, v);
    } else {
      var u := path[n - 2];
      var j :| 0 <= j < k && order[j] == u;
      PathPrefix(g, snapshot, path, v);
      var short := PathRunsForward(g, snapshot, order, path[..n - 1], j);
      FlowFinds(g, order, j, snapshot, prev, short, u);
      FlowNodePlain(g, u, snapshot, FlowOver(g, order, j, snapshot, f0));
      FlowMonotone(g, order, j + 1, k, snapshot, f0, v);
    }
  }

  /** Propagation is exact for every network whose sort ends: a node is powered exactly when a
      closed path leads to it through nodes that Kahn's algorithm visits. */
  lemma PowerFlowExact(g: Graph, snapshot: Snapshot, prev: Snapshot, v: nat)
    requires ValidGraph(g) && g.rail.Some? && RailNeverReturns(g) && PlainGraph(g)
    ensures PowerFlow(g, snapshot, prev).prev == prev
    ensures Powered(PowerFlow(g, snapshot, prev), v) <==>
              exists path :: ClosedPath(g, snapshot, path, v) && Inside(path, Topo(g))
  {
    var order := Topo(g);
    var k := |order|;
    assert order[..k] == order;
    TopoComplete(g);
    FlowKeepsPrev(g, order, k, snapshot, StartFlow(g.rail.value, prev));
    if Powered(PowerFlow(g, snapshot, prev), v) {
      var path := FlowSound(g, order, k, snapshot, prev, v);
    }
    if path :| ClosedPath(g, snapshot, path, v) && Inside(path, order) {
      FlowFinds(g, order, k, snapshot, prev, path, v);
    }
  }

  lemma {:induction false} FlowKeepsPrev(g: Graph, order: seq<nat>, k: nat, snapshot: Snapshot, f: Flow)
    requires PlainGraph(g) && k <= |order|
    ensures FlowOver(g, order, k, snapshot, f).prev == f.prev
    decreases k
  {
    if k > 0 {
      FlowKeepsPrev(g, order, k - 1, snapshot, f);
      FlowNodePlain(g, order[k - 1], snapshot, FlowOver(g, order, k - 1, snapshot, f));
    }
  }

  // ----- acyclic networks -----

  /** `rank` increases along every edge. */
  ghost predicate Ranks(g: Graph, rank: nat -> nat) {
    forall i :: 0 <= i < |g.edges| ==> rank(g.edges[i].source) < rank(g.edges[i].target)
  }

  /** Every node with an outgoing edge is the rail or has an incoming edge. */
  ghost predicate SourcesFed(g: Graph) {
    forall i :: 0 <= i < |g.edges| ==> g.rail == Some(g.edges[i].source) || HasEdgeInto(g, g.edges[i].source)
  }

  /** `path` runs from the rail to `v` along edges, closed or not. */
  ghost predicate EdgePath(g: Graph, path: seq<nat>, v: nat) {
    && path != [] && g.rail == Some(path[0]) && path[|path| - 1] == v
    && forall i :: 0 < i < |path| ==> exists e :: 0 <= e < |g.edges| && g.edges[e].source == path[i - 1] && g.edges[e].target == path[i]
  }

  /** In particular every edge source is fed when it is reachable from the rail. */
  lemma ReachableSourcesAreFed(g: Graph)
    requires forall i :: 0 <= i < |g.edges| ==> exists path :: EdgePath(g, path, g.edges[i].source)
    ensures SourcesFed(g)
  {
    forall i | 0 <= i < |g.edges|
      ensures g.rail == Some(g.edges[i].source) || HasEdgeInto(g, g.edges[i].source)
    {
      var path :| EdgePath(g, path, g.edges[i].source);
      if |path| > 1 {
        var e :| 0 <= e < |g.edges| && g.edges[e].source == path[|path| - 2] && g.edges[e].target == path[|path| - 1];
      }
    }
  }

  /** On an acyclic network fed from the rail no edge can enter the rail. */
  lemma {:induction false} NothingBeforeRail(g: Graph, rank: nat -> nat, i: nat)
    requires g.rail.Some? && Ranks(g, rank) && SourcesFed(g) && i < |g.edges|
    ensures rank(g.rail.value) <= rank(g.edges[i].source)
    decreases rank(g.edges[i].source)
  {
    var u := g.edges[i].source;
    if g.rail != Some(u) {
      var j :| 0 <= j < |g.edges| && g.edges[j].target == u;
      NothingBeforeRail(g, rank, j);
    }
  }

  lemma FedRailIsSource(g: Graph, rank: nat -> nat)
    requires g.rail.Some? && Ranks(g, rank) && SourcesFed(g)
    ensures RailIsSource(g) && RailNeverReturns(g)
  {
    forall i | 0 <= i < |g.edges|
      ensures g.edges[i].target != g.rail.value
    {
      NothingBeforeRail(g, rank, i);
    }
    SourceRailNeverReturns(g);
  }

  lemma {:induction false} SourceVisited(g: Graph, rank: nat -> nat, i: nat)
    requires ValidGraph(g) && g.rail.Some? && Ranks(g, rank) && SourcesFed(g) && i < |g.edges|
    ensures g.edges[i].source in Topo(g)
    decreases rank(g.edges[i].source)
  {
    FedRailIsSource(g, rank);
    TopoComplete(g);
    var u := g.edges[i].source;
    if g.rail != Some(u) {
      forall j | 0 <= j < |g.edges| && g.edges[j].target == u
        ensures g.edges[j].source in Topo(g)
      {
        SourceVisited(g, rank, j);
      }
    }
  }

  /** On an acyclic network whose edges are all fed from the rail, power flow is reachability. */
  lemma PowerFlowIsReachability(g: Graph, rank: nat -> nat, snapshot: Snapshot, prev: Snapshot, v: nat)
    requires ValidGraph(g) && g.rail.Some? && PlainGraph(g) && Ranks(g, rank) && SourcesFed(g)
    ensures Powered(PowerFlow(g, snapshot, prev), v) <==> Conducts(g, snapshot, v)
  {
    FedRailIsSource(g, rank);
    PowerFlowExact(g, snapshot, prev, v);
    if path :| ClosedPath(g, snapshot, path, v) {
      forall a | 0 <= a < |path| - 1
        ensures path[a] in Topo(g)
      {
        assert ClosedStep(g, snapshot, path[a], path[a + 1]);
        var i :| 0 <= i < |g.edges| && g.edges[i].source == path[a] && g.edges[i].target == path[a + 1] && Closed(g.edges[i].contact, snapshot);
        SourceVisited(g, rank, i);
      }
    }
  }

  function UnfedExample(x: string): Graph {
    Graph(4, [Edge(0, 1, No(x)), Edge(1, 2, No(x)), Edge(3, 1, No(x))], Some(0))
  }

  /** Without that condition it is not: an unfed edge into a node keeps Kahn's algorithm
      from visiting it, and power stops there although a closed path goes through. */
  lemma UnfedEdgeBlocksPower(snapshot: Snapshot, x: string)
    requires GetBool(snapshot, x)
    ensures var g := UnfedExample(x);
            && ValidGraph(g) && RailIsSource(g) && PlainGraph(g)
            && Conducts(g, snapshot, 2) && !Powered(PowerFlow(g, snapshot, map[]), 2)
  {
    hide Topo, PowerFlow;
    var g := UnfedExample(x);
    UnfedPath(snapshot, x);
    SourceRailNeverReturns(g);
    PowerFlowExact(g, snapshot, map[], 2);
    UnfedUnvisited(x);
    if path :| ClosedPath(g, snapshot, path, 2) && Inside(path, Topo(g)) {
      UnfedLastStep(snapshot, x, path);
      assert false;
    }
  }

  lemma UnfedLastStep(snapshot: Snapshot, x: string, path: seq<nat>)
    requires ClosedPath(UnfedExample(x), snapshot, path, 2)
    ensures |path| > 1 && path[|path| - 2] == 1
  {
    assert ClosedStep(UnfedExample(x), snapshot, path[|path| - 2], path[|path| - 1]);
  }

  lemma UnfedPath(snapshot: Snapshot, x: string)
    requires GetBool(snapshot, x)
    ensures Conducts(UnfedExample(x), snapshot, 2)
  {
    var g := UnfedExample(x);
    assert g.edges[0] == Edge(0, 1, No(x)) && g.edges[1] == Edge(1, 2, No(x));
    assert ClosedStep(g, snapshot, 0, 1) && ClosedStep(g, snapshot, 1, 2);
    assert ClosedPath(g, snapshot, [0, 1, 2], 2);
  }

  lemma UnfedUnvisited(x: string)
    ensures ValidGraph(UnfedExample(x)) && 1 !in Topo(UnfedExample(x))
  {
    hide Topo;
    var g := UnfedExample(x);
    SourceRailNeverReturns(g);
    TopoComplete(g);
    assert NoEdgeInto(g, 3) && 3 !in Seeds(g) && !HasEdgeInto(g, 3);
    assert g.edges[2] == Edge(3, 1, No(x)) && !AllSourcesIn(g, 1, Topo(g));
  }
}

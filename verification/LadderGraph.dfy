/**
 Contact networks of Ladder Diagram rungs (section 4.2 of IEC 61131-3:2003) as
 directed graphs, the order in which Kahn's algorithm visits them, and what that
 order guarantees.
 */
module LadderGraph {
  import opened Options

  datatype Contact = No(v: string) | Nc(v: string) | PosEdge(v: string) | NegEdge(v: string)

  datatype Edge = Edge(source: nat, target: nat, contact: Contact)

  /** Nodes are 0 to n-1; power enters at the rail. */
  datatype Graph = Graph(n: nat, edges: seq<Edge>, rail: Option<nat>)

  ghost predicate ValidGraph(g: Graph) {
    && (forall i :: 0 <= i < |g.edges| ==> g.edges[i].source < g.n && g.edges[i].target < g.n)
    && (g.rail.Some? ==> g.rail.value < g.n)
  }

  ghost predicate NoEdgeInto(g: Graph, v: nat) {
    forall i :: 0 <= i < |g.edges| ==> g.edges[i].target != v
  }

  /** The rail, if there is one, has no incoming edge. */
  ghost predicate RailIsSource(g: Graph) { g.rail.Some? ==> NoEdgeInto(g, g.rail.value) }

  ghost predicate Linked(g: Graph, u: nat, v: nat) {
    exists i :: 0 <= i < |g.edges| && g.edges[i].source == u && g.edges[i].target == v
  }

  /** No seed lies in `shut`, and a node of `shut` with incoming edges has one from `shut`:
      the sort can enter such a set nowhere. */
  ghost predicate Starved(g: Graph, shut: set<nat>) {
    forall v :: v in shut ==> v !in Seeds(g) && (HasEdgeInto(g, v) ==> exists u :: u in shut && Linked(g, u, v))
  }

  /** A starved set with an edge into the rail, if the rail has incoming edges at all. */
  ghost predicate HoldsRail(g: Graph, shut: set<nat>) {
    && Starved(g, shut)
    && (g.rail.Some? && HasEdgeInto(g, g.rail.value) ==> exists u :: u in shut && Linked(g, u, g.rail.value))
  }

  /** The rail is not pushed a second time. */
  ghost predicate RailNeverReturns(g: Graph) { exists shut: set<nat> :: HoldsRail(g, shut) }

  /** Indices of the edges leaving a node, in the order in which they were added. */
  function Outgoing(edges: seq<Edge>, node: nat): (r: seq<nat>)
    ensures forall k :: 0 <= k < |r| ==> r[k] < |edges| && edges[r[k]].source == node
  {
    if edges == [] then []
    else
      var k := |edges| - 1;
      if edges[k].source == node then Outgoing(edges[..k], node) + [k] else Outgoing(edges[..k], node)
  }

  ghost predicate ValidOuts(g: Graph, outs: seq<nat>) {
    forall k :: 0 <= k < |outs| ==> outs[k] < |g.edges|
  }

  function InDegree(edges: seq<Edge>, v: nat): nat {
    if edges == [] then 0
    else InDegree(edges[..|edges| - 1], v) + if edges[|edges| - 1].target == v then 1 else 0
  }

  // ----- Kahn's algorithm -----

  /** Working state: the stack of nodes to visit, the open in-degrees and the order so far. */
  datatype Sort = Sort(stack: seq<nat>, degree: seq<nat>, order: seq<nat>)

  function Degrees(g: Graph): seq<nat> { seq(g.n, v requires 0 <= v < g.n => InDegree(g.edges, v)) }

  /** Nodes without incoming edges, in ascending order. */
  function Sources(degree: seq<nat>, i: nat): (r: seq<nat>)
    requires i <= |degree|
    ensures forall v :: v in r <==> i <= v < |degree| && degree[v] == 0
    decreases |degree| - i
  {
    if i == |degree| then [] else (if degree[i] == 0 then [i] else []) + Sources(degree, i + 1)
  }

  function Seeds(g: Graph): seq<nat> {
    if g.rail.Some? then [g.rail.value] else Sources(Degrees(g), 0)
  }

  function StartSort(g: Graph): Sort { Sort(Seeds(g), Degrees(g), []) }

  /** One outgoing edge: lower the target's degree, and push the target when it reaches zero. */
  function Relax(t: nat, s: Sort): Sort
    requires t < |s.degree|
  {
    var d := if s.degree[t] > 0 then s.degree[t] - 1 else 0;
    s.(degree := s.degree[t := d], stack := if d == 0 then s.stack + [t] else s.stack)
  }

  function RelaxAll(g: Graph, outs: seq<nat>, s: Sort): (r: Sort)
    requires ValidGraph(g) && |s.degree| == g.n && ValidOuts(g, outs)
    ensures |r.degree| == g.n && r.order == s.order
    decreases |outs|
  {
    if outs == [] then s else RelaxAll(g, outs[1..], Relax(g.edges[outs[0]].target, s))
  }

  /** Visit the top of the stack. */
  function Visit(g: Graph, s: Sort): (r: Sort)
    requires ValidGraph(g) && |s.degree| == g.n && s.stack != []
    ensures |r.degree| == g.n && |r.order| == |s.order| + 1
  {
    var node := s.stack[|s.stack| - 1];
    RelaxAll(g, Outgoing(g.edges, node), Sort(s.stack[..|s.stack| - 1], s.degree, s.order + [node]))
  }

  /** At most `k` visits. */
  function SortRun(g: Graph, s: Sort, k: nat): Sort
    requires ValidGraph(g) && |s.degree| == g.n
    decreases k
  {
    if k == 0 || s.stack == [] then s else SortRun(g, Visit(g, s), k - 1)
  }

  /** The order Kahn's algorithm computes; `TopoComplete` shows that it has finished by then. */
  function Topo(g: Graph): seq<nat>
    requires ValidGraph(g)
  {
    SortRun(g, StartSort(g), g.n).order
  }

  // ----- invariant -----

  ghost predicate Distinct(s: seq<nat>) { forall i, j :: 0 <= i < j < |s| ==> s[i] != s[j] }

  /** Edges into `v` whose source has not been visited. */
  function Pending(edges: seq<Edge>, visited: seq<nat>, v: nat): nat {
    if edges == [] then 0
    else
      var e := edges[|edges| - 1];
      Pending(edges[..|edges| - 1], visited, v) + if e.target == v && e.source !in visited then 1 else 0
  }

  /** Edges among `outs` that lead to `v`. */
  function Remaining(g: Graph, outs: seq<nat>, v: nat): nat
    requires ValidOuts(g, outs)
  {
    if outs == [] then 0 else (if g.edges[outs[0]].target == v then 1 else 0) + Remaining(g, outs[1..], v)
  }

  ghost predicate AllSourcesIn(g: Graph, v: nat, visited: seq<nat>) {
    forall i :: 0 <= i < |g.edges| && g.edges[i].target == v ==> g.edges[i].source in visited
  }

  ghost predicate HasEdgeInto(g: Graph, v: nat) { exists i :: 0 <= i < |g.edges| && g.edges[i].target == v }

  /** Every edge into a listed node other than the rail comes from a node listed earlier. */
  ghost predicate Topological(g: Graph, order: seq<nat>) {
    forall j :: 0 <= j < |order| ==> g.rail == Some(order[j]) || AllSourcesIn(g, order[j], order[..j])
  }

  /** The rail has no incoming edge, or one of them is still open. */
  ghost predicate RailOpen(g: Graph, s: Sort) {
    g.rail.Some? && g.rail.value < |s.degree| && HasEdgeInto(g, g.rail.value) ==> s.degree[g.rail.value] > 0
  }

  /** Invariant of the sort until the rail returns, while edges `outs` of the node visited last are still open. */
  ghost predicate SortInv(g: Graph, s: Sort, outs: seq<nat>) {
    && ValidGraph(g) && RailOpen(g, s) && |s.degree| == g.n
    && ValidOuts(g, outs)
    && Distinct(s.order + s.stack)
    && (forall v :: v in s.order + s.stack ==> v < g.n)
    && (forall v :: 0 <= v < g.n ==> s.degree[v] == Pending(g.edges, s.order, v) + Remaining(g, outs, v))
    && (forall v :: 0 <= v < g.n ==>
          (v in s.order + s.stack <==> v in Seeds(g) || (HasEdgeInto(g, v) && s.degree[v] == 0)))
    && Topological(g, s.order)
  }

  // ----- counting lemmas -----

  lemma {:induction false} PendingZero(edges: seq<Edge>, visited: seq<nat>, v: nat)
    ensures Pending(edges, visited, v) == 0 <==>
            forall i :: 0 <= i < |edges| && edges[i].target == v ==> edges[i].source in visited
    decreases |edges|
  {
    if edges != [] {
      var k := |edges| - 1;
      PendingZero(edges[..k], visited, v);
      assert forall i :: 0 <= i < k ==> edges[..k][i] == edges[i];
    }
  }

  lemma {:induction false} PendingOfNothing(edges: seq<Edge>, v: nat)
    ensures Pending(edges, [], v) == InDegree(edges, v)
    decreases |edges|
  {
    if edges != [] {
      PendingOfNothing(edges[..|edges| - 1], v);
    }
  }

  /** Visiting a node turns its outgoing edges from pending into remaining. */
  lemma {:induction false} PendingVisit(g: Graph, k: nat, visited: seq<nat>, node: nat, v: nat)
    requires k <= |g.edges| && node !in visited
    ensures ValidOuts(g, Outgoing(g.edges[..k], node))
    ensures Pending(g.edges[..k], visited, v)
         == Pending(g.edges[..k], visited + [node], v) + Remaining(g, Outgoing(g.edges[..k], node), v)
    decreases k
  {
    if k > 0 {
      var e := g.edges[k - 1];
      assert g.edges[..k][..k - 1] == g.edges[..k - 1];
      PendingVisit(g, k - 1, visited, node, v);
      if e.source == node {
        RemainingSnoc(g, Outgoing(g.edges[..k - 1], node), k - 1, v);
      }
    }
  }

  lemma {:induction false} RemainingSnoc(g: Graph, outs: seq<nat>, i: nat, v: nat)
    requires ValidOuts(g, outs) && i < |g.edges|
    ensures Remaining(g, outs + [i], v) == Remaining(g, outs, v) + if g.edges[i].target == v then 1 else 0
    decreases |outs|
  {
    if outs == [] {
      assert outs + [i] == [i];
    } else {
      assert (outs + [i])[1..] == outs[1..] + [i] && (outs + [i])[0] == outs[0];
      RemainingSnoc(g, outs[1..], i, v);
    }
  }

  lemma {:induction false} InDegreeZero(edges: seq<Edge>, v: nat)
    ensures InDegree(edges, v) == 0 <==> forall i :: 0 <= i < |edges| ==> edges[i].target != v
    decreases |edges|
  {
    if edges != [] {
      var k := |edges| - 1;
      InDegreeZero(edges[..k], v);
      assert forall i :: 0 <= i < k ==> edges[..k][i] == edges[i];
    }
  }

  lemma {:induction false} SourcesDistinct(degree: seq<nat>, i: nat)
    requires i <= |degree|
    ensures Distinct(Sources(degree, i))
    decreases |degree| - i
  {
    if i < |degree| {
      SourcesDistinct(degree, i + 1);
    }
  }

  // ----- the invariant holds throughout -----

  lemma StartInv(g: Graph)
    requires ValidGraph(g)
    ensures SortInv(g, StartSort(g), [])
  {
    var s := StartSort(g);
    if g.rail.None? {
      SourcesDistinct(Degrees(g), 0);
    } else {
      InDegreeZero(g.edges, g.rail.value);
    }
    assert s.order + s.stack == s.stack;
    forall v | 0 <= v < g.n
      ensures s.degree[v] == Pending(g.edges, s.order, v) + Remaining(g, [], v)
      ensures v in s.stack <==> v in Seeds(g) || (HasEdgeInto(g, v) && s.degree[v] == 0)
    {
      PendingOfNothing(g.edges, v);
      InDegreeZero(g.edges, v);
    }
  }

  /** One edge of the node visited last, unless it returns to the rail. */
  lemma RelaxInv(g: Graph, s: Sort, outs: seq<nat>)
    requires SortInv(g, s, outs) && outs != []
    requires RailOpen(g, Relax(g.edges[outs[0]].target, s))
    ensures SortInv(g, Relax(g.edges[outs[0]].target, s), outs[1..])
  {
    var t := g.edges[outs[0]].target;
    var r := Relax(t, s);
    assert s.degree[t] > 0;
    assert HasEdgeInto(g, t);
    if r.degree[t] == 0 {
      assert g.rail != Some(t);
      SeedsAreOpen(g, t);
      assert t !in s.order + s.stack;
      assert r.order + r.stack == (s.order + s.stack) + [t];
    }
    forall v | 0 <= v < g.n
      ensures v in r.order + r.stack <==> v in Seeds(g) || (HasEdgeInto(g, v) && r.degree[v] == 0)
    {
      assert v in r.order + r.stack <==> v in s.order + s.stack || (v == t && r.degree[t] == 0);
    }
  }

  /** A seed with an incoming edge is the rail. */
  lemma SeedsAreOpen(g: Graph, v: nat)
    requires ValidGraph(g) && HasEdgeInto(g, v) && v < g.n && g.rail != Some(v)
    ensures v !in Seeds(g)
  {
    InDegreeZero(g.edges, v);
  }

  /** The edges of one node: the first pass goes on, or it has come back to the rail. */
  lemma {:induction false} RelaxAllInv(g: Graph, s: Sort, outs: seq<nat>)
    requires SortInv(g, s, outs)
    ensures SortInv(g, RelaxAll(g, outs, s), []) || (Circles(g, RelaxAll(g, outs, s)) && !RailNeverReturns(g))
    decreases |outs|
  {
    hide SortInv, Circling, RailOpen, RailNeverReturns;
    if outs != [] {
      InvBasics(g, s, outs);
      var t := g.edges[outs[0]].target;
      if RailOpen(g, Relax(t, s)) {
        RelaxInv(g, s, outs);
        RelaxAllInv(g, Relax(t, s), outs[1..]);
      } else {
        RailReturns(g, s, outs);
        CirclingRelaxAll(g, Relax(t, s), outs[1..]);
        RailStaysOpen(g, s, outs);
      }
    }
  }

  /** A starved set is never entered. */
  lemma {:induction false} StarvedUnvisited(g: Graph, s: Sort, outs: seq<nat>, shut: set<nat>, j: nat)
    requires SortInv(g, s, outs) && Starved(g, shut) && j < |s.order|
    ensures s.order[j] !in shut
    decreases j
  {
    var v := s.order[j];
    if v in shut {
      assert v in s.order + s.stack;
      var u :| u in shut && Linked(g, u, v);
      assert u in s.order[..j];
      var i :| 0 <= i < j && s.order[i] == u;
      StarvedUnvisited(g, s, outs, shut, i);
    }
  }

  lemma RailStaysOpen(g: Graph, s: Sort, outs: seq<nat>)
    requires SortInv(g, s, outs) && outs != []
    ensures RailNeverReturns(g) ==> RailOpen(g, Relax(g.edges[outs[0]].target, s))
  {
    if RailNeverReturns(g) && g.rail.Some? && HasEdgeInto(g, g.rail.value) {
      var rail := g.rail.value;
      var shut :| HoldsRail(g, shut);
      var u :| u in shut && Linked(g, u, rail);
      if u in s.order {
        var j :| 0 <= j < |s.order| && s.order[j] == u;
        StarvedUnvisited(g, s, outs, shut, j);
      }
      PendingZero(g.edges, s.order, rail);
    }
  }

  // ----- a rail that returns -----

  /** `path` is a cycle of edges. */
  ghost predicate Circuit(g: Graph, path: seq<nat>) {
    path != [] && forall i :: 0 <= i < |path| ==> Linked(g, path[i], path[if i + 1 < |path| then i + 1 else 0])
  }

  /** No node of the circuit has an open edge left, and one of them is on the stack. */
  ghost predicate Circling(g: Graph, s: Sort, path: seq<nat>) {
    && |s.degree| == g.n && Circuit(g, path)
    && (forall i :: 0 <= i < |path| ==> path[i] < g.n && s.degree[path[i]] == 0)
    && exists i :: 0 <= i < |path| && path[i] in s.stack
  }

  ghost predicate Circles(g: Graph, s: Sort) { exists path :: Circling(g, s, path) }

  /** Every visited node hangs on the rail by visited nodes. */
  lemma {:induction false} PathFromRail(g: Graph, s: Sort, outs: seq<nat>, j: nat) returns (path: seq<nat>)
    requires SortInv(g, s, outs) && g.rail.Some? && j < |s.order|
    ensures path != [] && path[0] == g.rail.value && path[|path| - 1] == s.order[j]
    ensures forall i :: 0 <= i < |path| ==> path[i] in s.order
    ensures forall i :: 0 < i < |path| ==> Linked(g, path[i - 1], path[i])
    decreases j
  {
    var v := s.order[j];
    if v == g.rail.value {
      path := [v];
    } else {
      assert v in s.order + s.stack;
      var e :| 0 <= e < |g.edges| && g.edges[e].target == v;
      var u := g.edges[e].source;
      assert u in s.order[..j];
      var i :| 0 <= i < j && s.order[i] == u;
      var p := PathFromRail(g, s, outs, i);
      path := p + [v];
      assert Linked(g, u, v);
    }
  }

  lemma RailReturns(g: Graph, s: Sort, outs: seq<nat>)
    requires SortInv(g, s, outs) && outs != []
    requires !RailOpen(g, Relax(g.edges[outs[0]].target, s))
    ensures Circles(g, Relax(g.edges[outs[0]].target, s))
  {
    var e, rail := g.edges[outs[0]], g.rail.value;
    var r := Relax(e.target, s);
    assert e.target == rail;
    PendingZero(g.edges, s.order, rail);
    assert e.source in s.order;
    var j :| 0 <= j < |s.order| && s.order[j] == e.source;
    var path := PathFromRail(g, s, outs, j);
    assert Linked(g, e.source, rail);
    forall i | 0 <= i < |path|
      ensures path[i] < g.n && r.degree[path[i]] == 0
    {
      assert path[i] in s.order + s.stack;
    }
    assert path[0] in r.stack;
    forall i | 0 <= i < |path|
      ensures Linked(g, path[i], path[if i + 1 < |path| then i + 1 else 0])
    {
      if i + 1 < |path| {
        assert Linked(g, path[i + 1 - 1], path[i + 1]);
      }
    }
    assert Circling(g, r, path);
  }

  lemma {:induction false} CirclingRelaxAll(g: Graph, s: Sort, outs: seq<nat>)
    requires ValidGraph(g) && |s.degree| == g.n && ValidOuts(g, outs) && Circles(g, s)
    ensures Circles(g, RelaxAll(g, outs, s))
    decreases |outs|
  {
    if outs != [] {
      var path :| Circling(g, s, path);
      assert Circling(g, Relax(g.edges[outs[0]].target, s), path);
      CirclingRelaxAll(g, Relax(g.edges[outs[0]].target, s), outs[1..]);
    }
  }

  /** Relaxing an edge to a node without open edges pushes that node, and what is on the stack stays there. */
  lemma {:induction false} RelaxAllPushes(g: Graph, s: Sort, outs: seq<nat>, path: seq<nat>, v: nat)
    requires ValidGraph(g) && |s.degree| == g.n && ValidOuts(g, outs) && v in path
    requires forall i :: 0 <= i < |path| ==> path[i] < g.n && s.degree[path[i]] == 0
    requires v in s.stack || exists k :: 0 <= k < |outs| && g.edges[outs[k]].target == v
    ensures v in RelaxAll(g, outs, s).stack
    ensures forall i :: 0 <= i < |path| ==> RelaxAll(g, outs, s).degree[path[i]] == 0
    decreases |outs|
  {
    if outs != [] {
      var r := Relax(g.edges[outs[0]].target, s);
      if v !in r.stack {
        var k :| 0 <= k < |outs| && g.edges[outs[k]].target == v;
        assert k > 0 && outs[1..][k - 1] == outs[k];
      }
      RelaxAllPushes(g, r, outs[1..], path, v);
    }
  }

  lemma {:induction false} OutgoingComplete(edges: seq<Edge>, node: nat, i: nat)
    requires i < |edges| && edges[i].source == node
    ensures i in Outgoing(edges, node)
    decreases |edges|
  {
    var k := |edges| - 1;
    if i < k {
      OutgoingComplete(edges[..k], node, i);
    }
  }

  /** Visiting a node of the circuit pushes the next one. */
  lemma CirclingVisit(g: Graph, s: Sort)
    requires ValidGraph(g) && |s.degree| == g.n && s.stack != [] && Circles(g, s)
    ensures Circles(g, Visit(g, s))
  {
    var path :| Circling(g, s, path);
    var i :| 0 <= i < |path| && path[i] in s.stack;
    var last := |s.stack| - 1;
    var node := s.stack[last];
    var outs := Outgoing(g.edges, node);
    var mid := Sort(s.stack[..last], s.degree, s.order + [node]);
    var k := if i + 1 < |path| then i + 1 else 0;
    if path[i] == node {
      assert Linked(g, path[i], path[k]);
      var e :| 0 <= e < |g.edges| && g.edges[e].source == node && g.edges[e].target == path[k];
      OutgoingComplete(g.edges, node, e);
      var m :| 0 <= m < |outs| && outs[m] == e;
      RelaxAllPushes(g, mid, outs, path, path[k]);
      assert path[k] in Visit(g, s).stack;
    } else {
      RelaxAllPushes(g, mid, outs, path, path[i]);
      assert path[i] in Visit(g, s).stack;
    }
    assert Circling(g, Visit(g, s), path);
  }

  lemma InvBasics(g: Graph, s: Sort, outs: seq<nat>)
    requires SortInv(g, s, outs)
    ensures ValidGraph(g) && |s.degree| == g.n && ValidOuts(g, outs)
  {
  }

  lemma VisitInv(g: Graph, s: Sort)
    requires SortInv(g, s, []) && s.stack != []
    ensures SortInv(g, Visit(g, s), []) || (Circles(g, Visit(g, s)) && !RailNeverReturns(g))
  {
    var last := |s.stack| - 1;
    var node := s.stack[last];
    var mid := Sort(s.stack[..last], s.degree, s.order + [node]);
    PopInv(g, s);
    RelaxAllInv(g, mid, Outgoing(g.edges, node));
  }

  /** Moving the top of the stack to the order opens its outgoing edges. */
  lemma PopInv(g: Graph, s: Sort)
    requires SortInv(g, s, []) && s.stack != []
    ensures var last := |s.stack| - 1;
            var node := s.stack[last];
            SortInv(g, Sort(s.stack[..last], s.degree, s.order + [node]), Outgoing(g.edges, node))
  {
    var last := |s.stack| - 1;
    var node := s.stack[last];
    assert node in s.order + s.stack;
    PopDistinct(s);
    PopMembers(s);
    PopDegrees(g, s, node);
    if g.rail != Some(node) {
      NodeReady(g, s, node);
    }
    PopTopological(g, s.order, node);
  }

  lemma PopMembers(s: Sort)
    requires s.stack != []
    ensures var last := |s.stack| - 1;
            forall v :: v in s.order + [s.stack[last]] + s.stack[..last] <==> v in s.order + s.stack
  {
    var last := |s.stack| - 1;
    assert s.stack == s.stack[..last] + [s.stack[last]];
  }

  lemma PopDegrees(g: Graph, s: Sort, node: nat)
    requires |s.degree| == g.n && node !in s.order
    requires forall v :: 0 <= v < g.n ==> s.degree[v] == Pending(g.edges, s.order, v)
    ensures forall v :: 0 <= v < g.n ==>
              s.degree[v] == Pending(g.edges, s.order + [node], v) + Remaining(g, Outgoing(g.edges, node), v)
  {
    forall v | 0 <= v < g.n
      ensures s.degree[v] == Pending(g.edges, s.order + [node], v) + Remaining(g, Outgoing(g.edges, node), v)
    {
      assert g.edges[..|g.edges|] == g.edges;
      PendingVisit(g, |g.edges|, s.order, node, v);
    }
  }

  lemma PopTopological(g: Graph, order: seq<nat>, node: nat)
    requires Topological(g, order) && (g.rail == Some(node) || AllSourcesIn(g, node, order))
    ensures Topological(g, order + [node])
  {
    forall j | 0 <= j < |order + [node]|
      ensures g.rail == Some((order + [node])[j]) || AllSourcesIn(g, (order + [node])[j], (order + [node])[..j])
    {
      if j < |order| {
        assert (order + [node])[..j] == order[..j];
      } else {
        assert (order + [node])[..j] == order;
      }
    }
  }

  lemma PopDistinct(s: Sort)
    requires s.stack != [] && Distinct(s.order + s.stack)
    ensures var last := |s.stack| - 1;
            && s.stack[last] !in s.order
            && Distinct(s.order + [s.stack[last]] + s.stack[..last])
  {
    var last := |s.stack| - 1;
    var all := s.order + s.stack;
    var node := s.stack[last];
    assert all[|all| - 1] == node;
    forall i | 0 <= i < |s.order|
      ensures s.order[i] != node
    {
      assert all[i] == s.order[i];
    }
    var moved := s.order + [node] + s.stack[..last];
    forall i, j | 0 <= i < j < |moved|
      ensures moved[i] != moved[j]
    {
      var o := |s.order|;
      assert i != o ==> moved[i] == all[if i < o then i else i - 1];
      assert j != o ==> moved[j] == all[if j < o then j else j - 1];
    }
  }

  /** A node on the stack other than the rail has all its sources visited. */
  lemma NodeReady(g: Graph, s: Sort, node: nat)
    requires SortInv(g, s, []) && node in s.order + s.stack && g.rail != Some(node)
    ensures AllSourcesIn(g, node, s.order)
  {
    PendingZero(g.edges, s.order, node);
    if HasEdgeInto(g, node) {
      SeedsAreOpen(g, node);
    }
  }

  // ----- termination -----

  /** Pigeonhole: distinct numbers below n are at most n. */
  lemma {:induction false} DistinctBounded(s: seq<nat>, n: nat)
    requires Distinct(s) && forall v :: v in s ==> v < n
    ensures |s| <= n
    decreases n
  {
    if s != [] {
      assert s[0] in s;
      if i :| 0 <= i < |s| && s[i] == n - 1 {
        var t := s[..i] + s[i + 1..];
        forall v | v in t
          ensures v < n - 1
        {
          var j :| 0 <= j < |t| && t[j] == v;
          var j' := if j < i then j else j + 1;
          assert v == s[j'] && s[j'] != s[i] && s[j'] in s;
        }
        DistinctBounded(t, n - 1);
      } else {
        DistinctBounded(s, n - 1);
      }
    }
  }

  lemma {:induction false} SortRunInv(g: Graph, s: Sort, k: nat)
    requires SortInv(g, s, []) && g.n <= |s.order| + k && RailNeverReturns(g)
    ensures SortInv(g, SortRun(g, s, k), []) && SortRun(g, s, k).stack == []
    decreases k
  {
    hide SortInv, RailNeverReturns, Visit;
    InvBasics(g, s, []);
    if s.stack != [] {
      RoomLeft(g, s);
      VisitInv(g, s);
      SortRunInv(g, Visit(g, s), k - 1);
    }
  }

  lemma RoomLeft(g: Graph, s: Sort)
    requires SortInv(g, s, []) && s.stack != []
    ensures |s.order| < g.n && |s.degree| == g.n && ValidGraph(g)
    ensures s.stack[|s.stack| - 1] < g.n
  {
    var all := s.order + s.stack;
    assert all[|all| - 1] == s.stack[|s.stack| - 1] && all[|all| - 1] in all;
    assert all[|s.order|] == s.stack[0];
    DistinctBounded(all, g.n);
  }

  /** When the sort stops, the nodes it has not visited form a starved set that holds the rail. */
  lemma StoppedHoldsRail(g: Graph, s: Sort)
    requires SortInv(g, s, []) && s.stack == []
    ensures RailNeverReturns(g)
  {
    var shut := set v | 0 <= v < g.n && v !in s.order;
    assert s.order + s.stack == s.order;
    forall v | 0 <= v < g.n && HasEdgeInto(g, v) && s.degree[v] > 0
      ensures exists u :: u in shut && Linked(g, u, v)
    {
      PendingZero(g.edges, s.order, v);
      var i :| 0 <= i < |g.edges| && g.edges[i].target == v && g.edges[i].source !in s.order;
      assert g.edges[i].source in shut && Linked(g, g.edges[i].source, v);
    }
    assert HoldsRail(g, shut);
  }

  /** Otherwise the stack never runs empty. */
  lemma {:induction false} NeverStops(g: Graph, s: Sort, k: nat)
    requires ValidGraph(g) && |s.degree| == g.n && !RailNeverReturns(g)
    requires SortInv(g, s, []) || Circles(g, s)
    ensures SortRun(g, s, k).stack != []
    decreases k
  {
    hide SortInv, RailNeverReturns, Visit;
    if Circles(g, s) {
      assert s.stack != [];
    } else if s.stack == [] {
      StoppedHoldsRail(g, s);
    }
    if k > 0 {
      if Circles(g, s) {
        CirclingVisit(g, s);
      } else {
        VisitInv(g, s);
      }
      NeverStops(g, Visit(g, s), k - 1);
    }
  }

  ghost predicate SortEnds(g: Graph)
    requires ValidGraph(g)
  {
    exists k: nat :: SortRun(g, StartSort(g), k).stack == []
  }

  /** Kahn's algorithm ends exactly when the rail has no incoming edge, or one of them comes
      from a set of nodes that the sort cannot enter. */
  lemma SortEndsExactlyWhenRailIsHeld(g: Graph)
    requires ValidGraph(g)
    ensures SortEnds(g) <==> RailNeverReturns(g)
    ensures SortEnds(g) ==> SortRun(g, StartSort(g), g.n).stack == []
  {
    hide SortInv, RailNeverReturns;
    StartInv(g);
    if RailNeverReturns(g) {
      SortRunInv(g, StartSort(g), g.n);
    } else {
      forall k: nat
        ensures SortRun(g, StartSort(g), k).stack != []
      {
        NeverStops(g, StartSort(g), k);
      }
    }
  }

  /** In particular it ends when no edge enters the rail. */
  lemma SourceRailNeverReturns(g: Graph)
    requires RailIsSource(g)
    ensures RailNeverReturns(g)
  {
    assert HoldsRail(g, {});
  }

  /** A node is visited exactly when it is a seed, or has incoming edges and all of them come from visited nodes. */
  ghost predicate Complete(g: Graph, order: seq<nat>)
    requires ValidGraph(g)
  {
    forall v :: 0 <= v < g.n ==> (v in order <==> v in Seeds(g) || (HasEdgeInto(g, v) && AllSourcesIn(g, v, order)))
  }

  /** A sort that ends takes at most n visits, lists each node at most once and in edge order. */
  lemma TopoComplete(g: Graph)
    requires ValidGraph(g) && RailNeverReturns(g)
    ensures SortRun(g, StartSort(g), g.n).stack == []
    ensures Distinct(Topo(g)) && (forall v :: v in Topo(g) ==> v < g.n)
    ensures Topological(g, Topo(g)) && Complete(g, Topo(g))
  {
    StartInv(g);
    SortRunInv(g, StartSort(g), g.n);
    var s := SortRun(g, StartSort(g), g.n);
    assert s.order + s.stack == s.order;
    forall v | 0 <= v < g.n
      ensures v in s.order <==> v in Seeds(g) || (HasEdgeInto(g, v) && AllSourcesIn(g, v, s.order))
    {
      PendingZero(g.edges, s.order, v);
    }
  }

  /** The cycle 0 -> 1 -> 0 with rail 0: the sort never ends. */
  lemma RailOnCycleDiverges(c: Contact)
    ensures var g := Graph(2, [Edge(0, 1, c), Edge(1, 0, c)], Some(0));
            ValidGraph(g) && !SortEnds(g)
  {
    hide SortEnds;
    var g := Graph(2, [Edge(0, 1, c), Edge(1, 0, c)], Some(0));
    SortEndsExactlyWhenRailIsHeld(g);
    forall shut: set<nat>
      ensures !HoldsRail(g, shut)
    {
      assert g.edges[1].target == 0;
      assert g.edges[0].target == 1;
      assert Seeds(g) == [0];
    }
  }

  /** With a third edge 2 -> 0 the cycle stays, but node 2 holds the rail and the sort ends. */
  lemma HeldRailOnCycleEnds(c: Contact)
    ensures var g := Graph(3, [Edge(0, 1, c), Edge(1, 0, c), Edge(2, 0, c)], Some(0));
            ValidGraph(g) && !RailIsSource(g) && SortEnds(g)
  {
    hide SortEnds;
    var g := Graph(3, [Edge(0, 1, c), Edge(1, 0, c), Edge(2, 0, c)], Some(0));
    SortEndsExactlyWhenRailIsHeld(g);
    assert g.edges[1].target == 0;
    assert g.edges[2].source == 2 && g.edges[2].target == 0;
    assert Linked(g, 2, 0);
    assert Seeds(g) == [0];
    assert HoldsRail(g, {2});
  }

  // ----- another rail -----

  lemma {:induction false} OrderGrows(g: Graph, s: Sort, k: nat)
    requires ValidGraph(g) && |s.degree| == g.n
    ensures s.order <= SortRun(g, s, k).order
    decreases k
  {
    if k > 0 && s.stack != [] {
      OrderGrows(g, Visit(g, s), k - 1);
    }
  }

  /** The order starts with the seed on top of the stack. */
  lemma FirstVisited(g: Graph)
    requires ValidGraph(g)
    ensures Seeds(g) == [] ==> Topo(g) == []
    ensures Seeds(g) != [] ==> Topo(g) != [] && Topo(g)[0] == Seeds(g)[|Seeds(g)| - 1]
  {
    var s := StartSort(g);
    if s.stack != [] {
      assert s.stack[|s.stack| - 1] in s.stack;
      assert g.n > 0;
      OrderGrows(g, Visit(g, s), g.n - 1);
    }
  }

  lemma {:induction false} SameRelaxAll(g: Graph, h: Graph, s: Sort, outs: seq<nat>)
    requires ValidGraph(g) && ValidGraph(h) && h == g.(rail := h.rail) && |s.degree| == g.n && ValidOuts(g, outs)
    ensures RelaxAll(g, outs, s) == RelaxAll(h, outs, s)
    decreases |outs|
  {
    if outs != [] {
      SameRelaxAll(g, h, Relax(g.edges[outs[0]].target, s), outs[1..]);
    }
  }

  /** Apart from the seeds the rail plays no part in the sort. */
  lemma {:induction false} SameSortRun(g: Graph, h: Graph, s: Sort, k: nat)
    requires ValidGraph(g) && ValidGraph(h) && h == g.(rail := h.rail) && |s.degree| == g.n
    ensures SortRun(g, s, k) == SortRun(h, s, k)
    decreases k
  {
    hide ValidGraph, RelaxAll, Outgoing;
    if k > 0 && s.stack != [] {
      var last := |s.stack| - 1;
      SameRelaxAll(g, h, Sort(s.stack[..last], s.degree, s.order + [s.stack[last]]), Outgoing(g.edges, s.stack[last]));
      SameSortRun(g, h, Visit(g, s), k - 1);
    }
  }

  ghost predicate OnlySource(g: Graph, node: nat) {
    NoEdgeInto(g, node) && forall v :: 0 <= v < g.n && NoEdgeInto(g, v) ==> v == node
  }

  lemma OnlySourceIgnoresRail(g: Graph, node: nat)
    ensures OnlySource(g, node) <==> OnlySource(g.(rail := Some(node)), node)
  {
    var h := g.(rail := Some(node));
    assert forall v :: NoEdgeInto(g, v) <==> NoEdgeInto(h, v);
  }

  lemma SingletonSeq(s: seq<nat>, v: nat)
    requires Distinct(s) && v in s && forall i :: 0 <= i < |s| ==> s[i] == v
    ensures s == [v]
  {
    if |s| > 1 {
      FirstTwoDiffer(s);
      assert false;
    }
  }

  lemma FirstTwoDiffer(s: seq<nat>)
    requires Distinct(s) && |s| > 1
    ensures s[0] != s[1]
  {
  }

  lemma OnlySourceIsOnlySeed(g: Graph, node: nat)
    requires ValidGraph(g) && g.rail.None? && node < g.n && OnlySource(g, node)
    ensures Seeds(g) == [node]
  {
    var seeds := Seeds(g);
    forall v | 0 <= v < g.n
      ensures v in seeds <==> v == node
    {
      InDegreeZero(g.edges, v);
      assert NoEdgeInto(g, v) <==> Degrees(g)[v] == 0;
    }
    SourcesDistinct(Degrees(g), 0);
    assert node in seeds;
    assert forall i :: 0 <= i < |seeds| ==> seeds[i] in seeds;
    SingletonSeq(seeds, node);
  }

  /** Giving a network another rail keeps its order exactly when the rail was that node already,
      or there was none and the node is the only one without incoming edges. */
  lemma RailChangeKeepsOrder(g: Graph, node: nat)
    requires ValidGraph(g) && node < g.n
    ensures Topo(g.(rail := Some(node))) == Topo(g) <==>
              g.rail == Some(node) || (g.rail.None? && OnlySource(g, node))
  {
    hide Topo, SortRun;
    var h := g.(rail := Some(node));
    FirstVisited(g);
    FirstVisited(h);
    if g.rail.None? && OnlySource(g, node) {
      OnlySourceIsOnlySeed(g, node);
      SameTopo(g, h);
    } else if g.rail.None? && Seeds(g) != [] && Seeds(g)[|Seeds(g)| - 1] == node {
      assert node in Seeds(g);
      InDegreeZero(g.edges, node);
      var v :| 0 <= v < g.n && NoEdgeInto(g, v) && v != node;
      OtherSourceDropped(g, node, v);
    }
  }

  /** Without a rail all sources are visited, with a rail no other source is. */
  lemma OtherSourceDropped(g: Graph, node: nat, v: nat)
    requires ValidGraph(g) && g.rail.None? && node < g.n && NoEdgeInto(g, node)
    requires v < g.n && v != node && NoEdgeInto(g, v)
    ensures v in Topo(g) && v !in Topo(g.(rail := Some(node)))
  {
    hide Topo;
    var h := g.(rail := Some(node));
    InDegreeZero(g.edges, v);
    SourceRailNeverReturns(g);
    SourceRailNeverReturns(h);
    TopoComplete(g);
    TopoComplete(h);
  }

  lemma SameTopo(g: Graph, h: Graph)
    requires ValidGraph(g) && ValidGraph(h) && h == g.(rail := h.rail) && Seeds(g) == Seeds(h)
    ensures Topo(g) == Topo(h)
  {
    SameSortRun(g, h, StartSort(g), g.n);
  }
}

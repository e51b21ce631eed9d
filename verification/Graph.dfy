/** The node graph of a pipeline: edges that would close a cycle are refused, and Kahn's algorithm orders the rest. */
module Graph {
  import opened Statuses

  type Id = string

  type Edges = map<Id, set<Id>>

  function Sinks(e: Edges, u: Id): set<Id> {
    if u in e then e[u] else {}
  }

  predicate Edge(e: Edges, u: Id, v: Id) {
    v in Sinks(e, u)
  }

  function Sources(e: Edges, v: Id): set<Id> {
    set u | u in e && v in e[u]
  }

  /** A walk along edges, given by the nodes it visits. */
  predicate Walk(e: Edges, p: seq<Id>) {
    p != [] && forall i :: 0 <= i < |p| - 1 ==> Edge(e, p[i], p[i + 1])
  }

  predicate Cycle(e: Edges, p: seq<Id>) {
    Walk(e, p) && |p| > 1 && p[0] == p[|p| - 1]
  }

  ghost predicate Acyclic(e: Edges) {
    forall p :: !Cycle(e, p)
  }

  ghost predicate Reaches(e: Edges, u: Id, v: Id) {
    exists p :: Walk(e, p) && p[0] == u && p[|p| - 1] == v
  }

  predicate Distinct(s: seq<Id>) {
    forall i, j :: 0 <= i < j < |s| ==> s[i] != s[j]
  }

  function Elements(s: seq<Id>): set<Id> {
    set x | x in s
  }

  /** Every edge inside the node list runs from an earlier to a later place of the order. */
  predicate Forward(e: Edges, order: seq<Id>) {
    forall i :: 0 <= i < |order| ==> Sources(e, order[i]) <= Elements(order[..i])
  }

  predicate IsOrder(e: Edges, nodes: seq<Id>, order: seq<Id>) {
    Distinct(order) && Elements(order) == Elements(nodes) && |order| == |nodes| && Forward(e, order)
  }

  /** The nodes of the graph are distinct, and its edges join them. */
  ghost predicate Closed(e: Edges, nodes: seq<Id>) {
    && Distinct(nodes)
    && forall u, v :: Edge(e, u, v) ==> u in nodes && v in nodes
  }

  // ---------------------------------------------------------------- orders and cycles

  lemma ForwardEdge(e: Edges, order: seq<Id>, u: Id, j: nat) returns (i: nat)
    requires Forward(e, order) && j < |order| && Edge(e, u, order[j])
    ensures i < j && order[i] == u
  {
    assert u in Sources(e, order[j]);
    assert u in order[..j];
    i :| 0 <= i < j && order[..j][i] == u;
  }

  /** Along a walk that ends at place `j` of an order, the first node stands no later than the last. */
  lemma {:induction false} WalkGoesForward(e: Edges, order: seq<Id>, p: seq<Id>, j: nat) returns (i: nat)
    requires Forward(e, order) && Walk(e, p) && j < |order| && p[|p| - 1] == order[j]
    ensures i + |p| <= j + 1 && order[i] == p[0]
  {
    if |p| == 1 {
      i := j;
    } else {
      var q := p[..|p| - 1];
      assert Edge(e, p[|p| - 2], p[|p| - 1]);
      var k := ForwardEdge(e, order, p[|p| - 2], j);
      i := WalkGoesForward(e, order, q, k);
    }
  }

  lemma OrderMeansAcyclic(e: Edges, nodes: seq<Id>, order: seq<Id>)
    requires Closed(e, nodes) && IsOrder(e, nodes, order)
    ensures Acyclic(e)
  {
    forall p | Cycle(e, p)
      ensures false
    {
      var last := |p| - 1;
      assert Edge(e, p[last - 1], p[last]);
      assert p[last] in Elements(order);
      var j :| 0 <= j < |order| && order[j] == p[last];
      var i := WalkGoesForward(e, order, p, j);
    }
  }

  lemma {:induction false} Pigeonhole(s: seq<Id>, pool: set<Id>) returns (i: nat, j: nat)
    requires (forall x :: x in s ==> x in pool) && |s| > |pool|
    ensures i < j < |s| && s[i] == s[j]
  {
    var x := s[0];
    assert x in pool;
    if x in s[1..] {
      i := 0;
      j :| 0 < j < |s| && s[j] == x;
    } else {
      var k, l := Pigeonhole(s[1..], pool - {x});
      i, j := k + 1, l + 1;
    }
  }

  /** A set whose every node has a source inside the set carries walks of any length. */
  lemma {:induction false} BackwardWalk(e: Edges, left: set<Id>, n: nat) returns (p: seq<Id>)
    requires left != {} && forall v :: v in left ==> Sources(e, v) * left != {}
    ensures Walk(e, p) && |p| == n + 1 && forall x :: x in p ==> x in left
  {
    if n == 0 {
      var v :| v in left;
      p := [v];
    } else {
      var q := BackwardWalk(e, left, n - 1);
      assert q[0] in left;
      var u :| u in Sources(e, q[0]) * left;
      p := [u] + q;
      forall i | 0 <= i < |p| - 1
        ensures Edge(e, p[i], p[i + 1])
      {
        if i > 0 { assert p[i] == q[i - 1] && p[i + 1] == q[i]; }
      }
    }
  }

  /** If every node left over waits for another one left over, the graph has a cycle. */
  lemma StuckMeansCycle(e: Edges, left: set<Id>)
    requires left != {} && forall v :: v in left ==> Sources(e, v) * left != {}
    ensures !Acyclic(e)
  {
    var p := BackwardWalk(e, left, |left|);
    var i, j := Pigeonhole(p, left);
    assert Cycle(e, p[i..j + 1]);
  }

  // ---------------------------------------------------------------- a new edge

  function WithEdge(e: Edges, u: Id, v: Id): Edges {
    e[u := Sinks(e, u) + {v}]
  }

  lemma WithEdgeIs(e: Edges, u: Id, v: Id)
    ensures forall a, b :: Edge(WithEdge(e, u, v), a, b) <==> Edge(e, a, b) || (a == u && b == v)
  {
  }

  /** A walk from the sink of a new edge to its source that may use the edge can be cut so that it does not. */
  lemma {:induction false} CutNewEdge(e: Edges, u: Id, v: Id, p: seq<Id>)
    requires Walk(WithEdge(e, u, v), p) && p[0] == v && p[|p| - 1] == u
    ensures Reaches(e, v, u)
    decreases |p|
  {
    WithEdgeIs(e, u, v);
    if Walk(e, p) {
    } else {
      var i :| 0 <= i < |p| - 1 && !Edge(e, p[i], p[i + 1]);
      CutNewEdge(e, u, v, p[..i + 1]);
    }
  }

  /** A cycle through the new edge, cut open at that edge, walks from its sink back to its source. */
  lemma OpenCycle(f: Edges, p: seq<Id>, i: nat) returns (q: seq<Id>)
    requires Cycle(f, p) && i < |p| - 1
    ensures Walk(f, q) && q[0] == p[i + 1] && q[|q| - 1] == p[i]
  {
    q := p[i + 1..] + p[1..i + 1];
    var n := |p| - 1 - i;
    forall k | 0 <= k < |q| - 1
      ensures Edge(f, q[k], q[k + 1])
    {
      if k < n - 1 {
        assert Edge(f, p[i + 1 + k], p[i + 2 + k]);
      } else if k == n - 1 {
        assert Edge(f, p[0], p[1]);
      } else {
        assert Edge(f, p[k - n + 1], p[k - n + 2]);
      }
    }
  }

  lemma ReachableMeansCycle(e: Edges, u: Id, v: Id)
    requires Reaches(e, v, u)
    ensures !Acyclic(WithEdge(e, u, v))
  {
    WithEdgeIs(e, u, v);
    var p :| Walk(e, p) && p[0] == v && p[|p| - 1] == u;
    var q := [u] + p;
    forall i | 0 <= i < |q| - 1
      ensures Edge(WithEdge(e, u, v), q[i], q[i + 1])
    {
      if i > 0 { assert q[i] == p[i - 1] && q[i + 1] == p[i]; }
    }
    assert Cycle(WithEdge(e, u, v), q);
  }

  /** A new edge closes a cycle exactly when its source was reachable from its sink. */
  lemma NewEdgeCloses(e: Edges, u: Id, v: Id)
    requires Acyclic(e)
    ensures Acyclic(WithEdge(e, u, v)) <==> !Reaches(e, v, u)
  {
    var f := WithEdge(e, u, v);
    if Reaches(e, v, u) {
      ReachableMeansCycle(e, u, v);
    } else if !Acyclic(f) {
      WithEdgeIs(e, u, v);
      var p :| Cycle(f, p);
      assert !Cycle(e, p);
      var i :| 0 <= i < |p| - 1 && !Edge(e, p[i], p[i + 1]);
      var q := OpenCycle(f, p, i);
      CutNewEdge(e, u, v, q);
    }
  }

  // ---------------------------------------------------------------- the graph object

  /** The sources of `v` that a partial order has not placed yet. */
  function Unplaced(e: Edges, v: Id, placed: set<Id>): set<Id> {
    Sources(e, v) - placed
  }

  /**
   * What the algorithm knows when it has placed `placed`: exactly the nodes with no unplaced source are queued or
   * placed.
   */
  ghost predicate Counted(e: Edges, nodes: seq<Id>, indegree: map<Id, nat>, placed: set<Id>) {
    && (forall v :: v in nodes ==> v in indegree)
    && (forall v :: v in nodes ==> indegree[v] == |Unplaced(e, v, placed)|)
  }

  lemma {:induction false} DistinctSize(s: seq<Id>)
    requires Distinct(s)
    ensures |Elements(s)| == |s|
  {
    if s != [] {
      DistinctSize(s[1..]);
      assert Elements(s) == {s[0]} + Elements(s[1..]);
    }
  }

  lemma SubsetSize(a: set<Id>, b: set<Id>)
    requires a <= b
    ensures |a| <= |b| && (|a| == |b| ==> a == b)
  {
    assert b == a + (b - a);
    if |a| == |b| { assert |b - a| == 0; }
  }

  lemma PlacedFits(nodes: seq<Id>, placed: seq<Id>)
    requires Distinct(nodes) && Distinct(placed) && forall v :: v in placed ==> v in nodes
    ensures |placed| <= |nodes|
    ensures |placed| == |nodes| <==> Elements(placed) == Elements(nodes)
  {
    DistinctSize(nodes);
    DistinctSize(placed);
    SubsetSize(Elements(placed), Elements(nodes));
  }

  /** Two maps with the same edges have the same cycles, even if one of them holds an extra empty entry. */
  lemma SameEdges(e: Edges, f: Edges)
    requires forall u, v :: Edge(e, u, v) <==> Edge(f, u, v)
    ensures Acyclic(e) <==> Acyclic(f)
  {
    forall p
      ensures Cycle(e, p) <==> Cycle(f, p)
    {
    }
  }

  lemma NoEdges()
    ensures Acyclic(map[])
  {
    forall p: seq<Id>
      ensures !Cycle(map[], p)
    {
      if |p| > 1 { assert !Edge(map[], p[0], p[1]); }
    }
  }

  /** When the queue runs empty, either every node is placed or those left over hold a cycle. */
  lemma Exhausted(e: Edges, nodes: seq<Id>, indegree: map<Id, nat>, order: seq<Id>)
    requires Closed(e, nodes) && Distinct(order) && Forward(e, order)
    requires Counted(e, nodes, indegree, Elements(order))
    requires forall v :: v in order <==> v in nodes && indegree[v] == 0
    ensures |order| == |nodes| ==> IsOrder(e, nodes, order) && Acyclic(e)
    ensures |order| != |nodes| ==> !Acyclic(e)
  {
    PlacedFits(nodes, order);
    if |order| == |nodes| {
      OrderMeansAcyclic(e, nodes, order);
    } else {
      var left := Elements(nodes) - Elements(order);
      forall v | v in left
        ensures Sources(e, v) * left != {}
      {
        assert indegree[v] != 0;
        var u :| u in Unplaced(e, v, Elements(order));
        assert Edge(e, u, v);
        assert u in Sources(e, v) * left;
      }
      StuckMeansCycle(e, left);
    }
  }

  lemma SourceCounted(e: Edges, nodes: seq<Id>, u: Id, todo: set<Id>)
    requires u in todo && u in e
    ensures forall v :: v in nodes ==>
              |Unplaced(e, v, todo - {u})| == |Unplaced(e, v, todo)| + if v in e[u] then 1 else 0
  {
    forall v | v in nodes
      ensures |Unplaced(e, v, todo - {u})| == |Unplaced(e, v, todo)| + if v in e[u] then 1 else 0
    {
      if v in e[u] {
        assert Unplaced(e, v, todo - {u}) == Unplaced(e, v, todo) + {u};
      } else {
        assert Unplaced(e, v, todo - {u}) == Unplaced(e, v, todo);
      }
    }
  }

  lemma OneUnplaced(e: Edges, placed: set<Id>, current: Id, v: Id)
    requires current !in placed
    ensures |Unplaced(e, v, placed)| == |Unplaced(e, v, placed + {current})| + if Edge(e, current, v) then 1 else 0
  {
    if Edge(e, current, v) {
      assert Unplaced(e, v, placed) == Unplaced(e, v, placed + {current}) + {current};
    } else {
      assert Unplaced(e, v, placed) == Unplaced(e, v, placed + {current});
    }
  }

  lemma SinkReleased(e: Edges, nodes: seq<Id>, indegree: map<Id, nat>, order: seq<Id>, current: Id)
    requires Closed(e, nodes) && Counted(e, nodes, indegree, Elements(order))
    requires current !in Elements(order)
    requires current in nodes && indegree[current] == 0
    ensures forall v :: v in nodes ==>
              |Unplaced(e, v, Elements(order))|
              == |Unplaced(e, v, Elements(order + [current]))| + if Edge(e, current, v) then 1 else 0
    ensures forall v :: Edge(e, current, v) ==> indegree[v] > 0
    ensures Sources(e, current) <= Elements(order)
  {
    assert Elements(order + [current]) == Elements(order) + {current};
    forall v | v in nodes
      ensures |Unplaced(e, v, Elements(order))|
              == |Unplaced(e, v, Elements(order + [current]))| + if Edge(e, current, v) then 1 else 0
    {
      OneUnplaced(e, Elements(order), current, v);
    }
    forall v | Edge(e, current, v)
      ensures indegree[v] > 0
    {
      OneUnplaced(e, Elements(order), current, v);
    }
    assert Unplaced(e, current, Elements(order)) == {};
  }

  lemma PlacedForward(e: Edges, order: seq<Id>, current: Id)
    requires Forward(e, order) && Sources(e, current) <= Elements(order)
    ensures Forward(e, order + [current])
  {
    var longer := order + [current];
    forall i | 0 <= i < |longer|
      ensures Sources(e, longer[i]) <= Elements(longer[..i])
    {
      assert longer[..i] == order[..i];
      if i == |order| { assert order[..i] == order; }
    }
  }

  lemma NotPlaced(order: seq<Id>, ready: seq<Id>)
    requires Distinct(order + ready) && ready != []
    ensures ready[0] !in Elements(order)
  {
    forall i | 0 <= i < |order|
      ensures order[i] != ready[0]
    {
      assert (order + ready)[i] == order[i] && (order + ready)[|order|] == ready[0];
    }
  }

  class MediaGraph {
    var nodes: seq<Id>
    var nodeSet: set<Id>
    var edges: Edges

    ghost predicate Valid()
      reads this
    {
      nodeSet == Elements(nodes) && Closed(edges, nodes) && Acyclic(edges)
    }

    constructor ()
      ensures Valid() && nodes == [] && edges == map[]
    {
      nodes, nodeSet, edges := [], {}, map[];
      NoEdges();
    }

    method AddNode(id: Id) returns (status: StatusCode)
      requires Valid()
      modifies this
      ensures Valid() && edges == old(edges)
      ensures status == if id == "" then InvalidArgument else if id in old(nodes) then AlreadyExists else OkStatus
      ensures nodes == if status == OkStatus then old(nodes) + [id] else old(nodes)
    {
      if id == "" {
        return InvalidArgument;
      }
      if id in nodeSet {
        return AlreadyExists;
      }
      nodeSet := nodeSet + {id};
      nodes := nodes + [id];
      return OkStatus;
    }

    /** One more source for every sink of `u`. */
    method CountSinks(indegree: map<Id, nat>, u: Id) returns (indegree': map<Id, nat>)
      requires u in edges && Closed(edges, nodes) && forall v :: v in nodes ==> v in indegree
      ensures forall v :: v in nodes ==> v in indegree'
      ensures forall v :: v in nodes ==> indegree'[v] == indegree[v] + if v in edges[u] then 1 else 0
    {
      indegree' := indegree;
      var left := edges[u];
      while left != {}
        invariant left <= edges[u]
        invariant forall v :: v in nodes ==> v in indegree'
        invariant forall v :: v in nodes ==> indegree'[v] == indegree[v] + if v in edges[u] - left then 1 else 0
        decreases |left|
      {
        var v :| v in left;
        assert Edge(edges, u, v);
        indegree' := indegree'[v := indegree'[v] + 1];
        left := left - {v};
      }
    }

    /** The number of sources of every node. */
    method CountIndegrees() returns (indegree: map<Id, nat>)
      requires Closed(edges, nodes)
      ensures Counted(edges, nodes, indegree, {})
    {
      indegree := map v | v in Elements(nodes) :: 0;
      var todo := edges.Keys;
      assert forall v :: Unplaced(edges, v, todo) == {};
      while todo != {}
        invariant todo <= edges.Keys
        invariant Counted(edges, nodes, indegree, todo)
        decreases |todo|
      {
        var u :| u in todo;
        SourceCounted(edges, nodes, u, todo);
        indegree := CountSinks(indegree, u);
        todo := todo - {u};
      }
    }

    /** One source fewer for every sink of `current`; those left without any join the queue. */
    method ReleaseSinks(indegree: map<Id, nat>, ready: seq<Id>, ghost order: seq<Id>, current: Id)
      returns (indegree': map<Id, nat>, ready': seq<Id>)
      requires Closed(edges, nodes) && Distinct(order + ready)
      requires forall v :: v in nodes ==> v in indegree
      requires forall v :: Edge(edges, current, v) ==> indegree[v] > 0
      requires forall v :: v in order + ready <==> v in nodes && indegree[v] == 0
      ensures forall v :: v in nodes ==> v in indegree'
      ensures forall v :: v in nodes ==> indegree[v] == indegree'[v] + if Edge(edges, current, v) then 1 else 0
      ensures Distinct(order + ready')
      ensures forall v :: v in order + ready' <==> v in nodes && indegree'[v] == 0
    {
      indegree', ready' := indegree, ready;
      var left := Sinks(edges, current);
      while left != {}
        invariant left <= Sinks(edges, current)
        invariant forall v :: v in nodes ==> v in indegree'
        invariant forall v :: v in nodes ==>
                    indegree[v] == indegree'[v] + if v in Sinks(edges, current) - left then 1 else 0
        invariant Distinct(order + ready')
        invariant forall v :: v in order + ready' <==> v in nodes && indegree'[v] == 0
        decreases |left|
      {
        var sink :| sink in left;
        assert Edge(edges, current, sink);
        indegree' := indegree'[sink := indegree'[sink] - 1];
        left := left - {sink};
        if indegree'[sink] == 0 {
          assert order + (ready' + [sink]) == (order + ready') + [sink];
          ready' := ready' + [sink];
        }
      }
    }

    /** Moves the head of the queue to the order and queues the nodes that waited for nothing else. */
    method PlaceNext(indegree: map<Id, nat>, ready: seq<Id>, order: seq<Id>)
      returns (indegree': map<Id, nat>, ready': seq<Id>, order': seq<Id>)
      requires Closed(edges, nodes) && ready != []
      requires Distinct(order + ready) && Forward(edges, order)
      requires Counted(edges, nodes, indegree, Elements(order))
      requires forall v :: v in order + ready <==> v in nodes && indegree[v] == 0
      ensures order' == order + [ready[0]]
      ensures Distinct(order' + ready') && Forward(edges, order')
      ensures Counted(edges, nodes, indegree', Elements(order'))
      ensures forall v :: v in order' + ready' <==> v in nodes && indegree'[v] == 0
    {
      var current := ready[0];
      order' := order + [current];
      assert order' + ready[1..] == order + ready;
      assert current in order + ready;
      NotPlaced(order, ready);
      SinkReleased(edges, nodes, indegree, order, current);
      PlacedForward(edges, order, current);
      indegree', ready' := ReleaseSinks(indegree, ready[1..], order', current);
    }

    /** Kahn's algorithm: an order in which every edge runs forward, or a refusal exactly when there is a cycle. */
    method TopologicalOrder() returns (r: Result<seq<Id>>)
      requires nodeSet == Elements(nodes) && Closed(edges, nodes)
      ensures r.Success? <==> Acyclic(edges)
      ensures r.Success? ==> IsOrder(edges, nodes, r.value)
      ensures r.Failure? ==> r.code == InvalidArgument
    {
      var indegree := CountIndegrees();
      var ready: seq<Id> := [];
      var i := 0;
      while i < |nodes|
        invariant 0 <= i <= |nodes|
        invariant Distinct(ready)
        invariant forall v :: v in ready <==> v in nodes[..i] && indegree[v] == 0
      {
        if indegree[nodes[i]] == 0 {
          ready := ready + [nodes[i]];
        }
        i := i + 1;
      }
      assert nodes[..i] == nodes;
      var order: seq<Id> := [];
      assert Elements(order) == {};
      while ready != []
        invariant Distinct(order + ready) && Forward(edges, order)
        invariant Counted(edges, nodes, indegree, Elements(order))
        invariant forall v :: v in order + ready <==> v in nodes && indegree[v] == 0
        decreases |nodes| - |order|
      {
        PlacedFits(nodes, order + ready);
        indegree, ready, order := PlaceNext(indegree, ready, order);
      }
      assert order + [] == order;
      Exhausted(edges, nodes, indegree, order);
      if |order| != |nodes| {
        return Failure(InvalidArgument);
      }
      return Success(order);
    }

    /** Adds an edge unless it would close a cycle; whatever the refusal, the edge relation stays what it was. */
    method Connect(source: Id, sink: Id) returns (status: StatusCode)
      requires Valid()
      modifies this
      ensures Valid() && nodes == old(nodes)
      ensures status ==
                if source !in nodes || sink !in nodes then NotFound
                else if source == sink then InvalidArgument
                else if Edge(old(edges), source, sink) then AlreadyExists
                else if Reaches(old(edges), sink, source) then InvalidArgument
                else OkStatus
      ensures forall u, v :: Edge(edges, u, v) <==>
                Edge(old(edges), u, v) || (status == OkStatus && u == source && v == sink)
    {
      if source !in nodeSet || sink !in nodeSet {
        return NotFound;
      }
      if source == sink {
        return InvalidArgument;
      }
      if Edge(edges, source, sink) {
        return AlreadyExists;
      }
      NewEdgeCloses(edges, source, sink);
      WithEdgeIs(edges, source, sink);
      edges := WithEdge(edges, source, sink);
      var order := TopologicalOrder();
      if order.Failure? {
        edges := edges[source := edges[source] - {sink}];
        assert forall u, v :: Edge(edges, u, v) <==> Edge(old(edges), u, v);
        SameEdges(edges, old(edges));
        return InvalidArgument;
      }
      return OkStatus;
    }
  }
}

/** The graph of the reference pipeline: its edges admit one order only, the one in which the chain is modelled. */
module ChainOrder {
  import opened Statuses
  import opened Graph
  import opened HookCalls
  import opened Lifecycle

  const NAMES: seq<Id> := ["source", "processor", "encoder", "sink"]

  lemma NamesDiffer()
    ensures Distinct(NAMES)
  {
    assert |NAMES[0]| == 6 && |NAMES[1]| == 9 && |NAMES[2]| == 7 && |NAMES[3]| == 4;
  }

  /** Edges run from each of the first `n` nodes to the next one, and nowhere else. */
  ghost predicate Chained(e: Edges, n: nat)
    requires n < |NAMES|
  {
    forall u, v :: Edge(e, u, v) <==> exists k :: 0 <= k < n && u == NAMES[k] && v == NAMES[k + 1]
  }

  lemma ChainEdge(e: Edges, n: nat, k: nat)
    requires k < n < |NAMES| && Chained(e, n)
    ensures Edge(e, NAMES[k], NAMES[k + 1])
  {
  }

  /** The chain has one order: source, processor, encoder, sink. */
  lemma ChainHasOneOrder(e: Edges, order: seq<Id>)
    requires Chained(e, 3)
    ensures IsOrder(e, NAMES, order) <==> order == NAMES
  {
    NamesDiffer();
    if IsOrder(e, NAMES, order) {
      assert NAMES[3] in Elements(order);
      var sink :| 0 <= sink < |order| && order[sink] == NAMES[3];
      ChainEdge(e, 3, 2);
      var encoder := ForwardEdge(e, order, NAMES[2], sink);
      ChainEdge(e, 3, 1);
      var processor := ForwardEdge(e, order, NAMES[1], encoder);
      ChainEdge(e, 3, 0);
      var source := ForwardEdge(e, order, NAMES[0], processor);
      assert source == 0 && processor == 1 && encoder == 2 && sink == 3;
    } else if order == NAMES {
      forall i | 0 <= i < |order|
        ensures Sources(e, order[i]) <= Elements(order[..i])
      {
        forall u | u in Sources(e, order[i])
          ensures u in order[..i]
        {
          assert Edge(e, u, order[i]);
          var k :| 0 <= k < 3 && u == NAMES[k] && order[i] == NAMES[k + 1];
          assert order[..i][k] == u;
        }
      }
    }
  }

  lemma FirstEdge(e: Edges, p: seq<Id>)
    requires Walk(e, p) && |p| > 1
    ensures Edge(e, p[0], p[1])
  {
  }

  /** Where no edge leaves, no walk leads on. */
  lemma DeadEnd(e: Edges, v: Id, u: Id)
    requires u != v && forall w :: !Edge(e, v, w)
    ensures !Reaches(e, v, u)
  {
    forall p | Walk(e, p) && p[0] == v
      ensures |p| == 1
    {
      if |p| > 1 { FirstEdge(e, p); }
    }
  }

  lemma NextIsFree(e: Edges, k: nat)
    requires k + 1 < |NAMES| && Chained(e, k)
    ensures NAMES[k] != NAMES[k + 1] && !Edge(e, NAMES[k], NAMES[k + 1]) && !Reaches(e, NAMES[k + 1], NAMES[k])
  {
    NamesDiffer();
    var last := NAMES[k + 1];
    DeadEnd(e, last, NAMES[k]);
  }

  lemma ChainGrows(e: Edges, f: Edges, k: nat)
    requires k + 1 < |NAMES| && Chained(e, k)
    requires forall u, v :: Edge(f, u, v) <==> Edge(e, u, v) || (u == NAMES[k] && v == NAMES[k + 1])
    ensures Chained(f, k + 1)
  {
  }

  lemma NoEdgeYet()
    ensures Chained(map[], 0)
  {
  }

  /** The pipeline has the first `n` nodes, and edges between the first `k` of them and the next ones. */
  ghost predicate BuiltUpTo(pipeline: MediaPipeline, n: nat, k: nat)
    requires n <= |NAMES| && k < |NAMES|
    reads pipeline, pipeline.graph, pipeline.nodes, pipeline.drainOrder
  {
    && pipeline.Valid() && pipeline.Agrees() && pipeline.state.Created?
    && pipeline.graph.nodes == NAMES[..n] && Chained(pipeline.graph.edges, k)
  }

  lemma Empty(pipeline: MediaPipeline)
    requires pipeline.Valid() && pipeline.Agrees() && pipeline.state.Created?
    requires pipeline.graph.nodes == [] && pipeline.graph.edges == map[]
    ensures BuiltUpTo(pipeline, 0, 0)
  {
    NoEdgeYet();
  }

  method AddNext(pipeline: MediaPipeline, n: nat) returns (status: StatusCode)
    requires n < |NAMES| && BuiltUpTo(pipeline, n, 0)
    modifies pipeline, pipeline.graph
    ensures status.OkStatus? && BuiltUpTo(pipeline, n + 1, 0)
  {
    hide Chained, Acyclic, Topological, Wired, Closed;
    NamesDiffer();
    assert NAMES[n] !in NAMES[..n] && NAMES[..n] + [NAMES[n]] == NAMES[..n + 1];
    var node := new MediaNode(NAMES[n], pipeline.hooks);
    status := pipeline.AddNode(node);
  }

  method ConnectNext(pipeline: MediaPipeline, k: nat) returns (status: StatusCode)
    requires k + 1 < |NAMES| && BuiltUpTo(pipeline, |NAMES|, k)
    modifies pipeline.graph
    ensures status.OkStatus? && BuiltUpTo(pipeline, |NAMES|, k + 1)
  {
    hide Chained, Acyclic, Topological, Reaches;
    ghost var before := pipeline.graph.edges;
    NextIsFree(before, k);
    status := pipeline.Connect(NAMES[k], NAMES[k + 1]);
    ChainGrows(before, pipeline.graph.edges, k);
  }

  /** Adds and connects the four nodes; nothing is refused. */
  method BuildPipeline() returns (status: StatusCode, pipeline: MediaPipeline)
    ensures status.OkStatus? && fresh(pipeline) && BuiltUpTo(pipeline, |NAMES|, 3)
  {
    hide BuiltUpTo, MediaPipeline.Valid, MediaPipeline.Agrees;
    var hooks := new NodeHooks();
    pipeline := new MediaPipeline(hooks);
    assert BuiltUpTo(pipeline, 0, 0) by { Empty(pipeline); }
    status := AddNext(pipeline, 0);
    status := AddNext(pipeline, 1);
    status := AddNext(pipeline, 2);
    status := AddNext(pipeline, 3);
    status := ConnectNext(pipeline, 0);
    status := ConnectNext(pipeline, 1);
    status := ConnectNext(pipeline, 2);
  }
}

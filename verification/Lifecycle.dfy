/**
 * The lifecycle of a pipeline over arbitrary nodes: every hook may answer any status, so what is proved
 * here holds for whatever nodes the pipeline owns.
 */
module Lifecycle {
  import opened Statuses
  import opened NodeStates
  import opened Graph
  import opened HookCalls

  /** A stop asks the node itself: it has been prepared at least, and has not stopped. */
  predicate Active(s: NodeState) {
    !s.Created? && !s.Stopped?
  }

  class MediaNode {
    const id: Id
    const hooks: NodeHooks
    var state: NodeState

    constructor (id: Id, hooks: NodeHooks)
      ensures this.id == id && this.hooks == hooks && state == NodeState.Created
    {
      this.id, this.hooks := id, hooks;
      state := NodeState.Created;
    }

    /** What asking for one hook adds to the record. */
    function Call(hook: Hook, answer: StatusCode): seq<HookCall> {
      [HookCall(id, hook, answer)]
    }

    method Prepare() returns (status: StatusCode)
      modifies this, hooks
      ensures hooks.calls
           == old(hooks.calls) + if old(state).Created? || old(state).Stopped? then Call(OnPrepare, status) else []
      ensures old(state).Prepared? ==> status == OkStatus && state == old(state)
      ensures old(state).Created? || old(state).Stopped? ==> state == AfterPrepare(status)
      ensures !old(state).Prepared? && !old(state).Created? && !old(state).Stopped? ==>
                status == InvalidState && state == old(state)
    {
      if state == NodeState.Prepared {
        return OkStatus;
      }
      if state != NodeState.Created && state != NodeState.Stopped {
        return InvalidState;
      }
      status := hooks.Ask(id, OnPrepare);
      state := AfterPrepare(status);
    }

    method Start() returns (status: StatusCode)
      modifies this, hooks
      ensures hooks.calls == old(hooks.calls) + if old(state).Prepared? then Call(OnStart, status) else []
      ensures old(state).Running? ==> status == OkStatus && state == old(state)
      ensures old(state).Prepared? ==> state == AfterStart(status)
      ensures !old(state).Running? && !old(state).Prepared? ==> status == InvalidState && state == old(state)
    {
      if state == NodeState.Running {
        return OkStatus;
      }
      if state != NodeState.Prepared {
        return InvalidState;
      }
      status := hooks.Ask(id, OnStart);
      state := AfterStart(status);
    }

    method Stop() returns (status: StatusCode, ghost answer: StatusCode)
      modifies this, hooks
      ensures hooks.calls == old(hooks.calls) + if Active(old(state)) then Call(OnStop, answer) else []
      ensures Active(old(state)) ==> status == AfterStop(answer).0
      ensures state == if status.OkStatus? then NodeState.Stopped
                       else if TemporarilyEmpty(status) then NodeState.Draining else NodeState.Error
      ensures old(state).Stopped? || old(state).Created? ==> status == OkStatus
    {
      answer := OkStatus;
      if state == NodeState.Stopped {
        return OkStatus, answer;
      }
      if state == NodeState.Created {
        state := NodeState.Stopped;
        return OkStatus, answer;
      }
      if state != NodeState.Draining {
        state := NodeState.Draining;
      }
      status := hooks.Ask(id, OnStop);
      answer := status;
      if status == OkStatus || status == EndOfStream {
        state := NodeState.Stopped;
        return OkStatus, answer;
      }
      if TemporarilyEmpty(status) {
        return;
      }
      state := NodeState.Error;
    }

    method Reset() returns (status: StatusCode)
      modifies this, hooks
      ensures hooks.calls == old(hooks.calls) + if old(state).Created? then [] else Call(OnReset, status)
      ensures state == AfterReset(status)
      ensures old(state).Created? ==> status == OkStatus
    {
      if state == NodeState.Created {
        return OkStatus;
      }
      status := hooks.Ask(id, OnReset);
      state := AfterReset(status);
    }

    method Tick() returns (status: StatusCode)
      modifies this, hooks
      ensures hooks.calls == old(hooks.calls) + if old(state).Running? then Call(OnTick, status) else []
      ensures old(state).Running? ==> state == AfterTick(status)
      ensures !old(state).Running? ==> status == InvalidState && state == old(state)
    {
      if state != NodeState.Running {
        return InvalidState;
      }
      status := hooks.Ask(id, OnTick);
      state := AfterTick(status);
    }
  }

  /** The nodes of a pipeline record what is asked of them in one place. */
  predicate Share(order: seq<MediaNode>, hooks: NodeHooks) {
    forall i :: 0 <= i < |order| ==> order[i].hooks == hooks
  }

  function Ids(order: seq<MediaNode>): seq<Id> {
    seq(|order|, k requires 0 <= k < |order| => order[k].id)
  }

  function AreCreated(order: seq<MediaNode>): seq<bool>
    reads order
  {
    seq(|order|, k requires 0 <= k < |order| reads order => order[k].state.Created?)
  }

  function States(order: seq<MediaNode>): seq<NodeState>
    reads order
  {
    seq(|order|, k requires 0 <= k < |order| reads order => order[k].state)
  }

  /** The nodes from place `i` on that run, in this order. */
  function Runners(ids: seq<Id>, states: seq<NodeState>, i: nat): seq<Id>
    requires i <= |ids| == |states|
    decreases |ids| - i
  {
    if i == |ids| then []
    else if states[i].Running? then [ids[i]] + Runners(ids, states, i + 1)
    else Runners(ids, states, i + 1)
  }

  lemma {:induction false} RunnersAreAll(ids: seq<Id>, states: seq<NodeState>, i: nat)
    requires i <= |ids| == |states| && forall k :: i <= k < |ids| ==> states[k].Running?
    ensures Runners(ids, states, i) == ids[i..]
    decreases |ids| - i
  {
    if i < |ids| {
      RunnersAreAll(ids, states, i + 1);
      assert ids[i..] == [ids[i]] + ids[i + 1..];
    }
  }

  lemma NoRunner(ids: seq<Id>, states: seq<NodeState>, i: nat)
    requires i < |ids| == |states| && !states[i].Running?
    ensures Runners(ids, states, i) == Runners(ids, states, i + 1)
  {
  }

  lemma NoneLeft(ids: seq<Id>, states: seq<NodeState>, all: seq<Id>, n: nat)
    requires |ids| == |states| && n <= |all| && all[n..] == Runners(ids, states, |ids|)
    ensures n == |all|
  {
  }

  lemma NextRunner(ids: seq<Id>, states: seq<NodeState>, i: nat, all: seq<Id>, n: nat)
    requires i < |ids| == |states| && n <= |all| && all[n..] == Runners(ids, states, i) && states[i].Running?
    ensures n < |all| && all[n] == ids[i] && all[n + 1..] == Runners(ids, states, i + 1)
  {
    assert all[n..][0] == all[n] && all[n..][1..] == all[n + 1..];
  }

  /** Nodes that were created already were not asked to reset. */
  predicate SparedAreOk(created: seq<bool>, answers: seq<StatusCode>) {
    && |answers| <= |created|
    && forall k :: 0 <= k < |answers| && created[|created| - 1 - k] ==> answers[k].OkStatus?
  }

  lemma SparedMeans(created: seq<bool>, answers: seq<StatusCode>)
    requires SparedAreOk(created, answers)
    ensures forall k :: 0 <= k < |answers| && created[|created| - 1 - k] ==> answers[k].OkStatus?
  {
  }

  lemma SparedOneMore(created: seq<bool>, answers: seq<StatusCode>, answer: StatusCode)
    requires SparedAreOk(created, answers) && |answers| < |created|
    requires created[|created| - 1 - |answers|] ==> answer.OkStatus?
    ensures SparedAreOk(created, answers + [answer])
  {
  }

  ghost predicate NoneCreated(order: seq<MediaNode>)
    reads order
  {
    forall i :: 0 <= i < |order| ==> !order[i].state.Created?
  }

  /** The nodes that a reset asks. */
  ghost function NotCreated(nodes: seq<MediaNode>): set<Id>
    reads nodes
  {
    set n | n in nodes && !n.state.Created? :: n.id
  }

  /** The states of a drain that has reached place `k` of the order. */
  ghost predicate DrainedUpTo(order: seq<MediaNode>, k: nat)
    reads order
  {
    && (forall i :: 0 <= i < k && i < |order| ==> order[i].state.Stopped?)
    && (forall i :: k < i < |order| ==> order[i].state.Running?)
  }

  /** Every node has been reset, last first, with these answers. */
  ghost predicate ResetInReverse(order: seq<MediaNode>, answers: seq<StatusCode>)
    reads order
  {
    && |answers| == |order|
    && forall k :: 0 <= k < |order| ==> order[k].state == AfterReset(answers[|order| - 1 - k])
  }

  /** The nodes from place `i` on have been reset with these answers; those before are as they were. */
  ghost predicate ResetFrom(order: seq<MediaNode>, i: nat, created: seq<bool>, answers: seq<StatusCode>)
    reads order
  {
    && i <= |order| == |created| && |answers| == |order| - i
    && (forall k :: i <= k < |order| ==> order[k].state == AfterReset(answers[|order| - 1 - k]))
    && (forall k :: 0 <= k < i ==> order[k].state.Created? == created[k])
  }

  lemma NoneResetYet(order: seq<MediaNode>, created: seq<bool>)
    requires created == AreCreated(order)
    ensures ResetFrom(order, |order|, created, []) && SparedAreOk(created, [])
  {
  }

  lemma AllAreReset(order: seq<MediaNode>, created: seq<bool>, answers: seq<StatusCode>)
    requires ResetFrom(order, 0, created, answers)
    ensures ResetInReverse(order, answers)
  {
  }

  /** Neither prepared nor running: all that a failed start may leave behind. */
  predicate AtRest(s: NodeState) {
    s.Created? || s.Error?
  }

  lemma ResetLeaves(order: seq<MediaNode>, answers: seq<StatusCode>)
    requires ResetInReverse(order, answers)
    ensures FirstFailure(answers).OkStatus? <==> forall n :: n in order ==> n.state.Created?
    ensures forall n :: n in order ==> AtRest(n.state)
  {
    hide FirstFailure;
    OkIffNoFailure(answers);
    forall k | 0 <= k < |order|
      ensures order[k].state.Created? <==> answers[|order| - 1 - k].OkStatus?
    {
    }
    if forall n :: n in order ==> n.state.Created? {
      forall j | 0 <= j < |answers|
        ensures answers[j].OkStatus?
      {
        assert order[|order| - 1 - j] in order;
      }
    }
  }

  ghost predicate Wired(ids: seq<Id>, nodes: seq<MediaNode>, nodesById: map<Id, MediaNode>) {
    && |nodes| == |ids|
    && (forall i :: 0 <= i < |nodes| ==> nodes[i].id == ids[i])
    && (forall id :: id in nodesById <==> id in ids)
    && (forall n :: n in nodes ==> nodesById[n.id] == n)
  }

  lemma WiredOneMore(ids: seq<Id>, nodes: seq<MediaNode>, nodesById: map<Id, MediaNode>, node: MediaNode)
    requires Wired(ids, nodes, nodesById) && node.id !in ids
    ensures Wired(ids + [node.id], nodes + [node], nodesById[node.id := node])
  {
  }

  ghost predicate Within(order: seq<MediaNode>, nodes: seq<MediaNode>) {
    && (forall i :: 0 <= i < |order| ==> order[i] in nodes)
    && (forall i, j :: 0 <= i < j < |order| ==> order[i] != order[j])
  }

  /** `order` lists every node once, each after all nodes that feed it. */
  ghost predicate Topological(edges: Edges, nodes: seq<MediaNode>, order: seq<MediaNode>) {
    && Within(order, nodes) && |order| == |nodes|
    && (forall n :: n in nodes ==> n in order)
    && (forall i, u :: 0 <= i < |order| && Edge(edges, u, order[i].id) ==> exists j :: 0 <= j < i && order[j].id == u)
  }

  class MediaPipeline {
    var state: PipelineState
    const hooks: NodeHooks
    const graph: MediaGraph
    var nodes: seq<MediaNode>
    var nodesById: map<Id, MediaNode>
    var drainOrder: seq<MediaNode>
    var drainIndex: nat

    /** The graph, the node list and the table of nodes describe the same nodes. */
    ghost predicate Valid()
      reads this`nodes, this`nodesById, this`drainOrder, graph
    {
      && graph.Valid() && Wired(graph.nodes, nodes, nodesById) && Within(drainOrder, nodes)
      && Share(nodes, hooks)
    }

    /** A drain about to stop its current node, or past the last one. */
    ghost predicate Draining()
      reads this, graph, nodes, drainOrder
    {
      && Valid() && state.Draining? && Topological(graph.edges, nodes, drainOrder) && drainIndex <= |drainOrder|
      && DrainedUpTo(drainOrder, drainIndex)
      && (drainIndex < |drainOrder| ==>
            drainOrder[drainIndex].state.Running? || drainOrder[drainIndex].state.Draining?)
    }

    /** The state of the pipeline and the states of its nodes agree. */
    ghost predicate Agrees()
      reads this, graph, nodes, drainOrder
    {
      match state
      case Created => forall n :: n in nodes ==> n.state.Created?
      case Stopped => forall n :: n in nodes ==> n.state.Created?
      case Running =>
        && Topological(graph.edges, nodes, drainOrder) && drainOrder != []
        && forall n :: n in nodes ==> n.state.Running?
      case Draining =>
        && Topological(graph.edges, nodes, drainOrder) && drainIndex < |drainOrder|
        && DrainedUpTo(drainOrder, drainIndex) && drainOrder[drainIndex].state.Draining?
      case Error => drainOrder != [] ==> forall n :: n in nodes && n !in drainOrder ==> n.state.Created?
    }

    constructor (hooks: NodeHooks)
      ensures Valid() && Agrees() && state == PipelineState.Created && nodes == [] && this.hooks == hooks
      ensures fresh(graph) && graph.nodes == [] && graph.edges == map[]
    {
      this.hooks, state := hooks, PipelineState.Created;
      graph := new MediaGraph();
      nodes, nodesById, drainOrder, drainIndex := [], map[], [], 0;
    }

    lemma WithinShare(order: seq<MediaNode>)
      requires Share(nodes, hooks) && Within(order, nodes)
      ensures Share(order, hooks)
    {
      forall i | 0 <= i < |order|
        ensures order[i].hooks == hooks
      {
        var j :| 0 <= j < |nodes| && nodes[j] == order[i];
      }
    }

    /** The nodes of the last order, or all nodes as they were added if there is none. */
    function Owned(): seq<MediaNode>
      reads this
    {
      if drainOrder == [] then nodes else drainOrder
    }

    lemma OwnedAreWithin()
      requires Valid() && Agrees()
      ensures Within(Owned(), nodes) && forall n :: n in nodes && n !in Owned() ==> n.state.Created?
    {
      assert Distinct(graph.nodes);
      forall i, j | 0 <= i < j < |nodes|
        ensures nodes[i] != nodes[j]
      {
        assert nodes[i].id == graph.nodes[i] && nodes[j].id == graph.nodes[j];
      }
    }

    ghost predicate HasStopped(id: Id)
      reads this, nodes
    {
      id in nodesById && nodesById[id] in nodes && nodesById[id].state.Stopped?
    }

    /** Every node from which the edges lead to `v` has stopped. */
    ghost predicate AncestorsStopped(v: MediaNode)
      reads this, graph, nodes
    {
      forall p :: Walk(graph.edges, p) && |p| > 1 && p[|p| - 1] == v.id ==> HasStopped(p[0])
    }

    /** Along a walk that ends at a place the drain has reached, the first node has stopped. */
    lemma {:induction false} WalkStopped(p: seq<Id>, i: nat)
      requires Valid() && Topological(graph.edges, nodes, drainOrder)
      requires DrainedUpTo(drainOrder, drainIndex) && i <= drainIndex && i < |drainOrder|
      requires Walk(graph.edges, p) && |p| > 1 && p[|p| - 1] == drainOrder[i].id
      ensures HasStopped(p[0])
    {
      var last := |p| - 1;
      assert Edge(graph.edges, p[last - 1], p[last]);
      var j :| 0 <= j < i && drainOrder[j].id == p[last - 1];
      assert drainOrder[j] in nodes;
      if last > 1 {
        WalkStopped(p[..last], j);
      }
    }

    /** Whenever the drain turns to a node, everything upstream of that node has stopped. */
    lemma CurrentAfterAncestors()
      requires Draining() && drainIndex < |drainOrder|
      ensures AncestorsStopped(drainOrder[drainIndex])
    {
      forall p | Walk(graph.edges, p) && |p| > 1 && p[|p| - 1] == drainOrder[drainIndex].id
        ensures HasStopped(p[0])
      {
        WalkStopped(p, drainIndex);
      }
    }

    /** Between the turns of a drain, no node is stopped or stopping before everything upstream of it has stopped. */
    lemma StopsAfterAncestors(v: MediaNode)
      requires Valid() && Agrees() && state.Draining?
      requires v in nodes && (v.state.Draining? || v.state.Stopped?)
      ensures AncestorsStopped(v)
    {
      var i :| 0 <= i < |drainOrder| && drainOrder[i] == v;
      forall p | Walk(graph.edges, p) && |p| > 1 && p[|p| - 1] == v.id
        ensures HasStopped(p[0])
      {
        WalkStopped(p, i);
      }
    }

    /** The nodes of a pipeline record their calls in the place where it does. */
    method AddNode(node: MediaNode) returns (status: StatusCode)
      requires Valid() && Agrees() && node.hooks == hooks
      modifies this, graph
      ensures Valid() && state == old(state) && graph.edges == old(graph.edges)
      ensures status ==
                if old(state).Running? || old(state).Draining? then InvalidState
                else if node.id == "" then InvalidArgument
                else if node.id in old(graph.nodes) then AlreadyExists
                else OkStatus
      ensures nodes == if status == OkStatus then old(nodes) + [node] else old(nodes)
      ensures graph.nodes == if status == OkStatus then old(graph.nodes) + [node.id] else old(graph.nodes)
      ensures status != OkStatus || node.state.Created? ==> Agrees()
    {
      hide Wired, Closed, Acyclic, Topological;
      if state == PipelineState.Running || state == PipelineState.Draining {
        return InvalidState;
      }
      status := graph.AddNode(node.id);
      if status != OkStatus {
        return;
      }
      WiredOneMore(old(graph.nodes), nodes, nodesById, node);
      nodesById := nodesById[node.id := node];
      nodes := nodes + [node];
    }

    method Connect(source: Id, sink: Id) returns (status: StatusCode)
      requires Valid() && Agrees()
      modifies graph
      ensures Valid() && Agrees()
      ensures old(state).Running? || old(state).Draining? ==> status == InvalidState && graph.edges == old(graph.edges)
      ensures !old(state).Running? && !old(state).Draining? ==>
                (status == OkStatus <==>
                 && source in graph.nodes && sink in graph.nodes && source != sink
                 && !Edge(old(graph.edges), source, sink) && !Reaches(old(graph.edges), sink, source))
      ensures forall u, v :: Edge(graph.edges, u, v) <==>
                Edge(old(graph.edges), u, v) || (status == OkStatus && u == source && v == sink)
    {
      if state == PipelineState.Running || state == PipelineState.Draining {
        return InvalidState;
      }
      status := graph.Connect(source, sink);
    }

    lemma NodeOf(id: Id)
      requires Wired(graph.nodes, nodes, nodesById) && id in graph.nodes
      ensures id in nodesById && nodesById[id] in nodes && nodesById[id].id == id
    {
      var i :| 0 <= i < |graph.nodes| && graph.nodes[i] == id;
      assert nodes[i] in nodes;
    }

    lemma OrderIsTopological(ids: seq<Id>, order: seq<MediaNode>)
      requires Valid() && IsOrder(graph.edges, graph.nodes, ids)
      requires |order| == |ids| && forall k :: 0 <= k < |ids| ==> order[k] in nodes && order[k].id == ids[k]
      ensures Topological(graph.edges, nodes, order)
    {
      forall n | n in nodes
        ensures n in order
      {
        var i :| 0 <= i < |nodes| && nodes[i] == n;
        assert n.id in Elements(ids);
        var k :| 0 <= k < |ids| && ids[k] == n.id;
        assert order[k] == nodesById[n.id] == n;
      }
      forall i, u | 0 <= i < |order| && Edge(graph.edges, u, order[i].id)
        ensures exists j :: 0 <= j < i && order[j].id == u
      {
        var j := ForwardEdge(graph.edges, ids, u, i);
        assert order[j].id == u;
      }
    }

    /** The nodes in an order in which the graph lists them; the graph is acyclic, so there always is one. */
    method OrderedNodes() returns (order: seq<MediaNode>)
      requires Valid()
      ensures Topological(graph.edges, nodes, order)
    {
      var ids := graph.TopologicalOrder();
      assert ids.Success?;
      order := [];
      var i := 0;
      while i < |ids.value|
        invariant 0 <= i <= |ids.value| == |nodes| && |order| == i
        invariant forall k :: 0 <= k < i ==> order[k] in nodes && order[k].id == ids.value[k]
      {
        assert ids.value[i] in Elements(graph.nodes);
        NodeOf(ids.value[i]);
        order := order + [nodesById[ids.value[i]]];
        i := i + 1;
      }
      OrderIsTopological(ids.value, order);
    }

    /** Takes one node out of use, whatever its hooks answer. */
    method StopAndReset(node: MediaNode) returns (ghost asked: seq<HookCall>)
      requires node.hooks == hooks
      modifies node, hooks
      ensures hooks.calls == old(hooks.calls) + asked && AtRest(node.state)
      ensures Active(old(node.state)) ==> Undone(node.id, asked)
    {
      var stopped, reset;
      ghost var answer;
      stopped, answer := node.Stop();
      asked := if Active(old(node.state)) then node.Call(OnStop, answer) else [];
      reset := node.Reset();
      asked := asked + node.Call(OnReset, reset);
    }

    /** Stops and resets the first `count` nodes of an order in reverse, whatever their hooks answer. */
    method StopNodesReverse(order: seq<MediaNode>, count: nat) returns (ghost undone: seq<HookCall>)
      requires count <= |order| && forall i, j :: 0 <= i < j < |order| ==> order[i] != order[j]
      requires Share(order, hooks)
      modifies order, hooks
      ensures forall i :: 0 <= i < count ==> AtRest(order[i].state)
      ensures forall i :: count <= i < |order| ==> order[i].state == old(order[i].state)
      ensures hooks.calls == old(hooks.calls) + undone
      ensures (forall i :: 0 <= i < count ==> Active(old(order[i].state))) ==> RolledBack(Ids(order)[..count], undone)
    {
      hide RolledBack;
      ghost var ids := Ids(order)[..count];
      NothingUndone();
      assert ids[count..] == [];
      undone := [];
      var i := count;
      while i > 0
        invariant 0 <= i <= count
        invariant forall k :: i <= k < count ==> AtRest(order[k].state)
        invariant forall k :: 0 <= k < |order| && !(i <= k < count) ==> order[k].state == old(order[k].state)
        invariant hooks.calls == old(hooks.calls) + undone
        invariant (forall k :: i <= k < count ==> Active(old(order[k].state))) ==> RolledBack(ids[i..], undone)
      {
        i := i - 1;
        ghost var asked := StopAndReset(order[i]);
        if forall k :: i <= k < count ==> Active(old(order[k].state)) {
          RollsBackOneMore(ids, i, undone, asked);
        }
        undone := undone + asked;
      }
    }

    method ResetNext(order: seq<MediaNode>, i: nat, ghost created: seq<bool>, ghost answers: seq<StatusCode>)
      returns (status: StatusCode)
      requires forall i, j :: 0 <= i < j < |order| ==> order[i] != order[j]
      requires i < |order| == |created| && |answers| == |order| - 1 - i
      requires order[i].hooks == hooks && ResetFrom(order, i + 1, created, answers)
      modifies order[i], hooks
      ensures ResetFrom(order, i, created, answers + [status])
      ensures hooks.calls == old(hooks.calls) + if created[i] then [] else [HookCall(order[i].id, OnReset, status)]
      ensures created[i] ==> status.OkStatus?
    {
      status := order[i].Reset();
    }

    /** Resets an order in reverse, whatever the nodes answer, and keeps the first failure. */
    method ResetNodesReverse(order: seq<MediaNode>) returns (firstFailure: StatusCode, ghost answers: seq<StatusCode>)
      requires forall i, j :: 0 <= i < j < |order| ==> order[i] != order[j]
      requires Share(order, hooks)
      modifies order, hooks
      ensures ResetInReverse(order, answers) && firstFailure == FirstFailure(answers) && |answers| == |order|
      ensures firstFailure == OkStatus <==> forall n :: n in order ==> n.state.Created?
      ensures forall n :: n in order ==> AtRest(n.state)
      ensures hooks.calls == old(hooks.calls) + Resets(Ids(order), old(AreCreated(order)), answers)
      ensures SparedAreOk(old(AreCreated(order)), answers)
    {
      hide Resets, FirstFailure, SparedAreOk, ResetFrom;
      firstFailure, answers := OkStatus, [];
      NoFailure([]);
      ghost var ids, created := Ids(order), AreCreated(order);
      NothingReset(ids, created);
      NoneResetYet(order, created);
      var i := |order|;
      while i > 0
        invariant 0 <= i <= |order| == |answers| + i && ResetFrom(order, i, created, answers)
        invariant firstFailure == FirstFailure(answers)
        invariant hooks.calls == old(hooks.calls) + Resets(ids, created, answers)
        invariant SparedAreOk(created, answers)
      {
        i := i - 1;
        var status := ResetNext(order, i, created, answers);
        ResetsOneMore(ids, created, answers, status);
        SparedOneMore(created, answers, status);
        OneMoreAnswer(answers, status);
        answers := answers + [status];
        if firstFailure == OkStatus && status != OkStatus {
          firstFailure := status;
        }
      }
      AllAreReset(order, created, answers);
      ResetLeaves(order, answers);
    }

    method PrepareAll(order: seq<MediaNode>) returns (status: StatusCode, ghost c: StartCalls)
      requires forall i, j :: 0 <= i < j < |order| ==> order[i] != order[j]
      requires forall n :: n in order ==> n.state.Created?
      requires Share(order, hooks)
      modifies order, hooks
      ensures status == OkStatus ==> forall n :: n in order ==> n.state.Prepared?
      ensures status != OkStatus ==> forall n :: n in order ==> AtRest(n.state)
      ensures hooks.calls == old(hooks.calls) + c.prepared + c.undone && c.started == []
      ensures AskedInTurn(Ids(order), OnPrepare, c.prepared, status)
      ensures if status.OkStatus? then c.undone == [] else RolledBack(Ids(order)[..|c.prepared| - 1], c.undone)
    {
      hide PassedSoFar, EndedBy, RolledBack;
      ghost var ids := Ids(order);
      NothingAsked(ids, OnPrepare);
      c := NOT_STARTED;
      var i := 0;
      while i < |order|
        invariant 0 <= i <= |order|
        invariant forall k :: 0 <= k < i ==> order[k].state.Prepared?
        invariant forall k :: i <= k < |order| ==> order[k].state.Created?
        invariant |c.prepared| == i && PassedSoFar(ids, OnPrepare, c.prepared) && c.started == [] == c.undone
        invariant hooks.calls == old(hooks.calls) + c.prepared
      {
        ghost var prepared := c.prepared;
        status := order[i].Prepare();
        c := c.(prepared := prepared + order[i].Call(OnPrepare, status));
        if status != OkStatus {
          OneEnds(ids, OnPrepare, prepared, status);
          ghost var undone := StopNodesReverse(order, i);
          c := c.(undone := undone);
          return;
        }
        OnePasses(ids, OnPrepare, prepared, status);
        i := i + 1;
      }
      status := OkStatus;
    }

    method StartAll(order: seq<MediaNode>) returns (status: StatusCode, ghost started: seq<HookCall>,
                                                    ghost undone: seq<HookCall>)
      requires forall i, j :: 0 <= i < j < |order| ==> order[i] != order[j]
      requires forall n :: n in order ==> n.state.Prepared?
      requires Share(order, hooks)
      modifies order, hooks
      ensures status == OkStatus ==> forall n :: n in order ==> n.state.Running?
      ensures status != OkStatus ==> forall n :: n in order ==> AtRest(n.state)
      ensures hooks.calls == old(hooks.calls) + started + undone
      ensures AskedInTurn(Ids(order), OnStart, started, status)
      ensures if status.OkStatus? then undone == [] else RolledBack(Ids(order), undone)
    {
      hide PassedSoFar, EndedBy, RolledBack;
      ghost var ids := Ids(order);
      NothingAsked(ids, OnStart);
      started, undone := [], [];
      var i := 0;
      while i < |order|
        invariant 0 <= i <= |order|
        invariant forall k :: 0 <= k < i ==> order[k].state.Running?
        invariant forall k :: i <= k < |order| ==> order[k].state.Prepared?
        invariant |started| == i && PassedSoFar(ids, OnStart, started)
        invariant hooks.calls == old(hooks.calls) + started
      {
        ghost var before := started;
        status := order[i].Start();
        started := before + order[i].Call(OnStart, status);
        if status != OkStatus {
          OneEnds(ids, OnStart, before, status);
          undone := StopNodesReverse(order, |order|);
          assert ids[..|order|] == ids;
          return;
        }
        OnePasses(ids, OnStart, before, status);
        i := i + 1;
      }
      status := OkStatus;
    }

    method StartNodes() returns (status: StatusCode, ghost c: StartCalls)
      requires forall i, j :: 0 <= i < j < |drainOrder| ==> drainOrder[i] != drainOrder[j]
      requires forall n :: n in drainOrder ==> n.state.Created?
      requires Share(drainOrder, hooks)
      modifies drainOrder, hooks
      ensures forall n :: n in drainOrder ==> if status == OkStatus then n.state.Running? else AtRest(n.state)
      ensures hooks.calls == old(hooks.calls) + c.prepared + c.started + c.undone
      ensures StartTurn(Ids(drainOrder), c, status)
    {
      hide PassedSoFar, RolledBack;
      status, c := PrepareAll(drainOrder);
      if status != OkStatus {
        NotBoth(Ids(drainOrder), OnPrepare, c.prepared, status);
        return;
      }
      ghost var started, undone;
      status, started, undone := StartAll(drainOrder);
      c := c.(started := started, undone := undone);
    }

    lemma AllInOrder()
      requires Topological(graph.edges, nodes, drainOrder)
      ensures forall n :: n in nodes <==> n in drainOrder
    {
    }

    lemma RunningAgrees()
      requires state.Running? && Topological(graph.edges, nodes, drainOrder) && drainOrder != []
      requires forall n :: n in drainOrder ==> n.state.Running?
      ensures Agrees()
    {
      AllInOrder();
    }

    lemma OrderSound()
      requires Valid()
      ensures Within(drainOrder, nodes) && Share(drainOrder, hooks)
      ensures forall i :: 0 <= i < |drainOrder| ==> drainOrder[i] in nodes
      ensures forall i, j :: 0 <= i < j < |drainOrder| ==> drainOrder[i] != drainOrder[j]
    {
      WithinShare(drainOrder);
    }

    lemma OrderHasAll(order: seq<MediaNode>)
      requires Topological(graph.edges, nodes, order)
      ensures Within(order, nodes) && |order| == |nodes|
    {
    }

    lemma NoneWithin()
      ensures Within([], nodes)
    {
    }

    method Remember(order: seq<MediaNode>)
      requires Valid() && Within(order, nodes)
      modifies this`drainOrder, this`drainIndex
      ensures Valid() && drainOrder == order && drainIndex == 0
    {
      drainOrder, drainIndex := order, 0;
    }

    method StartAgain() returns (status: StatusCode, ghost order: seq<MediaNode>, ghost c: StartCalls)
      requires Valid() && forall n :: n in nodes ==> n.state.Created?
      modifies this, nodes, hooks
      ensures Valid() && Agrees() && nodes == old(nodes)
      ensures state == if status == OkStatus then PipelineState.Running else PipelineState.Error
      ensures status != OkStatus ==> forall n :: n in nodes ==> AtRest(n.state)
      ensures hooks.calls == old(hooks.calls) + c.prepared + c.started + c.undone
      ensures Topological(graph.edges, nodes, order)
      ensures if nodes == [] then status == InvalidState && c == NOT_STARTED else StartTurn(Ids(order), c, status)
    {
      NoneWithin();
      hide Valid, Topological, StartTurn, Within;
      Remember([]);
      c := NOT_STARTED;
      var listed := OrderedNodes();
      order := listed;
      OrderHasAll(listed);
      if listed == [] {
        state := PipelineState.Error;
        return InvalidState, order, c;
      }
      Remember(listed);
      OrderSound();
      AllInOrder();
      status, c := StartNodes();
      if status == OkStatus {
        state := PipelineState.Running;
        RunningAgrees();
      } else {
        state := PipelineState.Error;
      }
    }

    /**
     * Either every node runs, or the pipeline is in error and no node is left prepared or running. The nodes are
     * asked in topological order, and after a failure those that were prepared are taken back, last first.
     */
    method Start() returns (status: StatusCode, ghost order: seq<MediaNode>, ghost c: StartCalls)
      requires Valid() && Agrees()
      modifies this, nodes, hooks
      ensures Valid() && Agrees() && nodes == old(nodes)
      ensures status == OkStatus <==> state == PipelineState.Running
      ensures status != OkStatus && (old(state).Created? || old(state).Stopped?) ==>
                state == PipelineState.Error && forall n :: n in nodes ==> AtRest(n.state)
      ensures old(state).Running? || old(state).Draining? || old(state).Error? ==>
                state == old(state) && c == NOT_STARTED && forall n :: n in nodes ==> n.state == old(n.state)
      ensures hooks.calls == old(hooks.calls) + c.prepared + c.started + c.undone
      ensures old(state).Created? || old(state).Stopped? ==>
                && Topological(graph.edges, nodes, order)
                && if nodes == [] then status == InvalidState && c == NOT_STARTED else StartTurn(Ids(order), c, status)
    {
      c, order := NOT_STARTED, [];
      if state == PipelineState.Running {
        return OkStatus, order, c;
      }
      if state == PipelineState.Draining {
        return InvalidState, order, c;
      }
      if state == PipelineState.Error {
        return InvalidState, order, c;
      }
      status, order, c := StartAgain();
    }

    /** Ticks the nodes after place `current` that still run; only a hard failure changes a node state. */
    method TickRunningDownstream(current: nat) returns (status: StatusCode, ghost made: seq<HookCall>)
      requires current < |drainOrder| && Share(drainOrder, hooks)
      requires forall i, j :: 0 <= i < j < |drainOrder| ==> drainOrder[i] != drainOrder[j]
      modifies drainOrder, hooks
      ensures status == OkStatus ==> States(drainOrder) == old(States(drainOrder))
      ensures status == OkStatus && old(DrainedUpTo(drainOrder, current)) ==> DrainedUpTo(drainOrder, current)
      ensures status == OkStatus ==> drainOrder[current].state == old(drainOrder[current].state)
      ensures old(NoneCreated(drainOrder)) ==> NoneCreated(drainOrder)
      ensures hooks.calls == old(hooks.calls) + made
      ensures AskedInTurn(Runners(Ids(drainOrder), old(States(drainOrder)), current + 1), OnTick, made, status)
    {
      hide PassedSoFar, EndedBy, Runners;
      ghost var ids, states := Ids(drainOrder), States(drainOrder);
      ghost var all := Runners(ids, states, current + 1);
      NothingAsked(all, OnTick);
      made := [];
      var i := current + 1;
      while i < |drainOrder|
        invariant current < i <= |drainOrder|
        invariant forall k :: 0 <= k < |drainOrder| ==> drainOrder[k].state == states[k]
        invariant |made| <= |all| && all[|made|..] == Runners(ids, states, i) && PassedSoFar(all, OnTick, made)
        invariant hooks.calls == old(hooks.calls) + made
      {
        if drainOrder[i].state == NodeState.Running {
          NextRunner(ids, states, i, all, |made|);
          ghost var before := made;
          status := drainOrder[i].Tick();
          made := before + drainOrder[i].Call(OnTick, status);
          if !Benign(status) {
            OneEnds(all, OnTick, before, status);
            return;
          }
          OnePasses(all, OnTick, before, status);
        } else {
          NoRunner(ids, states, i);
        }
        i := i + 1;
      }
      NoneLeft(ids, states, all, |made|);
      return OkStatus, made;
    }

    /** What every stop leaves behind once its drain has begun. */
    ghost predicate Settled(status: StatusCode)
      reads this, drainOrder
    {
      && (status == OkStatus <==> state == PipelineState.Stopped)
      && (state.Draining? ==> status == WouldBlock)
      && state in {PipelineState.Stopped, PipelineState.Draining, PipelineState.Error}
      && (state.Error? ==> forall n :: n in drainOrder ==> AtRest(n.state))
    }

    /** An order that has all the nodes that are not created. */
    lemma ActiveAre(order: seq<MediaNode>)
      requires Valid() && Within(order, nodes) && forall n :: n in nodes && n !in order ==> n.state.Created?
      ensures Distinct(Ids(order)) && ActiveFrom(Ids(order), AreCreated(order), 0) == NotCreated(nodes)
    {
      var ids, created := Ids(order), AreCreated(order);
      forall i, j | 0 <= i < j < |ids|
        ensures ids[i] != ids[j]
      {
        assert order[i] in nodes && order[j] in nodes;
      }
      forall n | n in nodes && !n.state.Created?
        ensures n.id in ActiveFrom(ids, created, 0)
      {
        var k :| 0 <= k < |order| && order[k] == n;
        assert ids[k] == n.id && !created[k];
      }
    }

    lemma OrderWithin(order: seq<MediaNode>)
      requires Valid() && Within(order, nodes)
      ensures Share(order, hooks)
      ensures forall i :: 0 <= i < |order| ==> order[i] in nodes
      ensures forall i, j :: 0 <= i < j < |order| ==> order[i] != order[j]
    {
      WithinShare(order);
    }

    lemma FailedAgrees(status: StatusCode)
      requires state.Error? && status != OkStatus && Topological(graph.edges, nodes, drainOrder)
      requires forall n :: n in nodes ==> AtRest(n.state)
      ensures Agrees() && Settled(status)
    {
      AllInOrder();
    }

    lemma StoppedRests()
      requires Agrees() && state.Stopped?
      ensures forall n :: n in nodes ==> AtRest(n.state)
    {
    }

    lemma ErrorAgrees()
      requires state.Error? && (drainOrder != [] ==> forall n :: n in nodes && n !in drainOrder ==> n.state.Created?)
      ensures Agrees()
    {
    }

    lemma StoppedAgrees()
      requires state.Stopped? && forall n :: n in nodes ==> n.state.Created?
      ensures Agrees() && Settled(OkStatus)
    {
    }

    lemma PausedAgrees()
      requires state.Draining? && Topological(graph.edges, nodes, drainOrder) && drainIndex < |drainOrder|
      requires DrainedUpTo(drainOrder, drainIndex) && drainOrder[drainIndex].state.Draining?
      ensures Agrees() && Settled(WouldBlock)
    {
    }

    lemma BeginsDraining()
      requires Valid() && state.Draining? && Topological(graph.edges, nodes, drainOrder) && drainIndex == 0
      requires drainOrder != [] && forall n :: n in nodes ==> n.state.Running?
      ensures Draining()
    {
      AllInOrder();
    }

    lemma GoesOnDraining()
      requires Valid() && Agrees() && state.Draining?
      ensures Draining()
    {
    }

    /** A failed pipeline is not drained: its nodes are reset. */
    method LeaveError() returns (status: StatusCode, ghost resets: seq<HookCall>)
      requires Valid() && state.Error? && forall n :: n in nodes && n !in drainOrder ==> n.state.Created?
      modifies this`state, nodes, hooks
      ensures Valid() && Agrees() && Settled(status) && !state.Draining?
      ensures hooks.calls == old(hooks.calls) + resets && ResetOnce(old(NotCreated(nodes)), resets, status)
    {
      hide ResetOnce, Resets, ResetInReverse, FirstFailure;
      ghost var answers, ids, created := [], Ids(drainOrder), AreCreated(drainOrder);
      ActiveAre(drainOrder);
      WithinShare(drainOrder);
      status, answers := ResetNodesReverse(drainOrder);
      resets := Resets(ids, created, answers);
      ResetsAreOnce(ids, created, answers);
      state := if status == OkStatus then PipelineState.Stopped else PipelineState.Error;
    }

    method AskToStop() returns (status: StatusCode, ghost answer: StatusCode)
      requires Draining() && drainIndex < |drainOrder|
      modifies drainOrder[drainIndex], hooks
      ensures Valid() && Topological(graph.edges, nodes, drainOrder) && DrainedUpTo(drainOrder, drainIndex)
      ensures status == OkStatus ==> drainOrder[drainIndex].state.Stopped?
      ensures TemporarilyEmpty(status) ==> drainOrder[drainIndex].state.Draining?
      ensures NoneCreated(drainOrder)
      ensures hooks.calls == old(hooks.calls) + drainOrder[drainIndex].Call(OnStop, answer)
      ensures status == AfterStop(answer).0
    {
      hide Valid, Topological, Share;
      OrderSound();
      status, answer := drainOrder[drainIndex].Stop();
    }

    /** Everything upstream of the current node has stopped before its hook is asked. */
    method StopCurrent() returns (status: StatusCode, ghost answer: StatusCode)
      requires Draining() && drainIndex < |drainOrder|
      modifies drainOrder[drainIndex], hooks
      ensures old(AncestorsStopped(drainOrder[drainIndex]))
      ensures Valid() && Topological(graph.edges, nodes, drainOrder) && DrainedUpTo(drainOrder, drainIndex)
      ensures status == OkStatus ==> drainOrder[drainIndex].state.Stopped?
      ensures TemporarilyEmpty(status) ==> drainOrder[drainIndex].state.Draining?
      ensures NoneCreated(drainOrder)
      ensures hooks.calls == old(hooks.calls) + drainOrder[drainIndex].Call(OnStop, answer)
      ensures status == AfterStop(answer).0
    {
      hide AncestorsStopped, Draining, Valid, Topological, DrainedUpTo, NoneCreated;
      CurrentAfterAncestors();
      status, answer := AskToStop();
    }

    method Advance()
      requires Valid() && state.Draining? && Topological(graph.edges, nodes, drainOrder)
      requires drainIndex < |drainOrder| && DrainedUpTo(drainOrder, drainIndex)
      requires drainOrder[drainIndex].state.Stopped?
      modifies this`drainIndex
      ensures Draining() && drainIndex == old(drainIndex) + 1
    {
      drainIndex := drainIndex + 1;
    }

    /** Resets nodes none of which is created, so that each of them is asked. */
    method ResetAll(order: seq<MediaNode>) returns (status: StatusCode, ghost resets: seq<HookCall>)
      requires forall i, j :: 0 <= i < j < |order| ==> order[i] != order[j]
      requires Share(order, hooks) && NoneCreated(order)
      modifies order, hooks
      ensures status == OkStatus <==> forall n :: n in order ==> n.state.Created?
      ensures forall n :: n in order ==> AtRest(n.state)
      ensures hooks.calls == old(hooks.calls) + resets
      ensures AllReset(Ids(order), resets) && status == FirstFailure(Answers(resets))
    {
      hide ResetInReverse, FirstFailure, Resets;
      ghost var answers, ids, created := [], Ids(order), AreCreated(order);
      status, answers := ResetNodesReverse(order);
      NoneSpared(ids, created, answers);
      resets := Resets(ids, created, answers);
      assert Answers(resets) == answers;
    }

    /** Resets the nodes of the drain, which are all nodes, last first. */
    method ResetDrained() returns (status: StatusCode, ghost resets: seq<HookCall>)
      requires Valid() && Topological(graph.edges, nodes, drainOrder)
      requires NoneCreated(drainOrder)
      modifies nodes, hooks
      ensures status == OkStatus <==> forall n :: n in nodes ==> n.state.Created?
      ensures forall n :: n in nodes ==> AtRest(n.state)
      ensures hooks.calls == old(hooks.calls) + resets
      ensures AllReset(Ids(drainOrder), resets) && status == FirstFailure(Answers(resets))
    {
      hide Valid, Topological, AllReset, FirstFailure, NoneCreated, Share;
      OrderSound();
      AllInOrder();
      status, resets := ResetAll(drainOrder);
    }

    method FailDrain(status: StatusCode) returns (ghost resets: seq<HookCall>)
      requires Valid() && status != OkStatus && Topological(graph.edges, nodes, drainOrder)
      requires NoneCreated(drainOrder)
      modifies this`state, nodes, hooks
      ensures Valid() && Agrees() && state == PipelineState.Error && Settled(status)
      ensures hooks.calls == old(hooks.calls) + resets && AllReset(Ids(drainOrder), resets)
    {
      hide Valid, Topological, NoneCreated, AllReset;
      var ignored;
      ignored, resets := ResetDrained();
      state := PipelineState.Error;
      FailedAgrees(status);
    }

    lemma NoneIsCreated()
      requires DrainedUpTo(drainOrder, drainIndex)
      requires drainIndex < |drainOrder| ==> !drainOrder[drainIndex].state.Created?
      ensures NoneCreated(drainOrder)
    {
    }

    /** The nodes behind the one that still drains have their turn. */
    method PauseDrain(ghost from: nat, ghost stops: seq<HookCall>, ghost answer: StatusCode)
      returns (status: StatusCode, ghost d: DrainCalls)
      requires Valid() && state.Draining? && Topological(graph.edges, nodes, drainOrder) && drainIndex < |drainOrder|
      requires DrainedUpTo(drainOrder, drainIndex) && drainOrder[drainIndex].state.Draining?
      requires from + |stops| == drainIndex + 1 && EndedBy(Ids(drainOrder)[from..], OnStop, stops, answer)
      requires TemporarilyEmpty(answer)
      modifies this`state, nodes, hooks
      ensures Valid() && Agrees() && Settled(status) && status != OkStatus
      ensures d.stops == stops && hooks.calls == old(hooks.calls) + d.ticks + d.resets
      ensures DrainTurn(Ids(drainOrder), from, d, status)
    {
      hide EndedBy, PassedSoFar, AllReset, DrainTurn, NoneCreated, Valid, Topological, Agrees, Settled, Share;
      NoneIsCreated();
      OrderSound();
      RunnersAreAll(Ids(drainOrder), States(drainOrder), drainIndex + 1);
      ghost var ticks;
      status, ticks := TickRunningDownstream(drainIndex);
      if status != OkStatus {
        ghost var resets := FailDrain(status);
        TurnTickFails(Ids(drainOrder), from, stops, ticks, resets, answer, status);
        d := DrainCalls(stops, ticks, resets);
        return;
      }
      TurnPauses(Ids(drainOrder), from, stops, ticks, answer);
      PausedAgrees();
      return WouldBlock, DrainCalls(stops, ticks, []);
    }

    method FinishDrain() returns (status: StatusCode, ghost resets: seq<HookCall>)
      requires Valid() && Topological(graph.edges, nodes, drainOrder)
      requires NoneCreated(drainOrder)
      modifies this, nodes, hooks
      ensures Valid() && Agrees() && nodes == old(nodes) && Settled(status) && !state.Draining?
      ensures hooks.calls == old(hooks.calls) + resets
      ensures AllReset(Ids(old(drainOrder)), resets) && status == FirstFailure(Answers(resets))
    {
      NoneWithin();
      hide Valid, Topological, NoneCreated, AllReset, FirstFailure, Agrees, Settled, Within;
      status, resets := ResetDrained();
      if status != OkStatus {
        state := PipelineState.Error;
        FailedAgrees(status);
        return;
      }
      state := PipelineState.Stopped;
      Remember([]);
      StoppedAgrees();
    }

    /** Stops the nodes in turn, up to the first that has not stopped yet. */
    method StopInTurn() returns (status: StatusCode, ghost stops: seq<HookCall>, ghost answer: StatusCode)
      requires Draining()
      modifies this`drainIndex, drainOrder, hooks
      ensures Valid() && Topological(graph.edges, nodes, drainOrder) && NoneCreated(drainOrder)
      ensures DrainedUpTo(drainOrder, drainIndex) && old(drainIndex) <= drainIndex <= |drainOrder|
      ensures hooks.calls == old(hooks.calls) + stops
      ensures if status.OkStatus? then
                && drainIndex == |drainOrder| && |stops| == drainIndex - old(drainIndex)
                && PassedSoFar(Ids(drainOrder)[old(drainIndex)..], OnStop, stops)
              else
                && drainIndex < |drainOrder| && |stops| == drainIndex + 1 - old(drainIndex)
                && EndedBy(Ids(drainOrder)[old(drainIndex)..], OnStop, stops, answer) && status == answer
      ensures TemporarilyEmpty(status) ==> drainOrder[drainIndex].state.Draining?
    {
      hide Topological, Valid, PassedSoFar, EndedBy, AncestorsStopped, NoneCreated;
      stops, answer := [], OkStatus;
      ghost var rest := Ids(drainOrder)[drainIndex..];
      NothingAsked(rest, OnStop);
      while drainIndex < |drainOrder|
        invariant Draining() && drainOrder == old(drainOrder) && nodes == old(nodes)
        invariant old(drainIndex) <= drainIndex
        invariant |stops| == drainIndex - old(drainIndex) && PassedSoFar(rest, OnStop, stops)
        invariant hooks.calls == old(hooks.calls) + stops
        decreases |drainOrder| - drainIndex
      {
        ghost var before := stops;
        status, answer := StopCurrent();
        assert rest[|before|] == drainOrder[drainIndex].id;
        stops := before + drainOrder[drainIndex].Call(OnStop, answer);
        if status != OkStatus {
          OneEnds(rest, OnStop, before, answer);
          return;
        }
        OnePasses(rest, OnStop, before, answer);
        Advance();
      }
      NoneIsCreated();
      status := OkStatus;
    }

    method DrainNodes() returns (status: StatusCode, ghost d: DrainCalls)
      requires Draining()
      modifies this, nodes, hooks
      ensures Valid() && Agrees() && nodes == old(nodes) && Settled(status)
      ensures state == PipelineState.Draining ==> drainOrder == old(drainOrder) && old(drainIndex) <= drainIndex
      ensures hooks.calls == old(hooks.calls) + All(d) && DrainTurn(Ids(old(drainOrder)), old(drainIndex), d, status)
    {
      hide Topological, Valid, Settled, PassedSoFar, EndedBy, AllReset, DrainTurn, FirstFailure;
      hide DrainedUpTo, NoneCreated, Agrees;
      ghost var ids, from, stops, answer := Ids(drainOrder), drainIndex, [], OkStatus;
      OrderSound();
      status, stops, answer := StopInTurn();
      if TemporarilyEmpty(status) {
        status, d := PauseDrain(from, stops, answer);
      } else if status != OkStatus {
        ghost var resets := FailDrain(status);
        TurnFails(ids, from, stops, resets, answer);
        d := DrainCalls(stops, [], resets);
      } else {
        ghost var resets;
        status, resets := FinishDrain();
        TurnFinishes(ids, from, stops, resets);
        d := DrainCalls(stops, [], resets);
      }
      CallsOfTurn(old(hooks.calls), d);
    }

    /**
     * One turn of a resumable drain. It never goes back behind a node it has stopped; when it ends, either
     * everything is reset, or one node still drains with all before it stopped and all after it running, or
     * the pipeline is in error. A pipeline that has failed is reset at once.
     */
    method Stop() returns (status: StatusCode, ghost d: DrainCalls)
      requires Valid() && Agrees()
      modifies this, nodes, hooks
      ensures Valid() && Agrees() && nodes == old(nodes)
      ensures Settled(status)
      ensures state == PipelineState.Draining && old(state).Draining? ==>
                drainOrder == old(drainOrder) && old(drainIndex) <= drainIndex
      ensures hooks.calls == old(hooks.calls) + All(d)
      ensures old(state).Stopped? || old(state).Created? ==> d == NO_CALLS && status == OkStatus
      ensures old(state).Error? ==>
                d.stops == [] == d.ticks && ResetOnce(old(NotCreated(nodes)), d.resets, status)
      ensures old(state).Running? ==> DrainTurn(Ids(old(drainOrder)), 0, d, status)
      ensures old(state).Draining? ==> DrainTurn(Ids(old(drainOrder)), old(drainIndex), d, status)
    {
      hide DrainTurn, ResetOnce, Valid, Topological, DrainedUpTo;
      d := NO_CALLS;
      if state == PipelineState.Stopped {
        return OkStatus, d;
      }
      if state == PipelineState.Created {
        state := PipelineState.Stopped;
        return OkStatus, d;
      }
      if state != PipelineState.Draining {
        if drainOrder == [] {
          var listed := OrderedNodes();
          Remember(listed);
        }
        drainIndex := 0;
        if state == PipelineState.Error {
          ghost var resets;
          status, resets := LeaveError();
          d := DrainCalls([], [], resets);
          return;
        }
        state := PipelineState.Draining;
      }
      if old(state).Running? {
        BeginsDraining();
      } else {
        GoesOnDraining();
      }
      status, d := DrainNodes();
    }

    /** Resets the nodes of the last order, or all nodes in the order they were added if there is none. */
    method ResetOwned() returns (status: StatusCode, ghost answers: seq<StatusCode>)
      requires Valid() && Agrees()
      modifies nodes, hooks
      ensures status == OkStatus <==> forall n :: n in nodes ==> n.state.Created?
      ensures forall n :: n in nodes ==> AtRest(n.state)
      ensures drainOrder != [] ==> forall n :: n in nodes && n !in drainOrder ==> n.state.Created?
      ensures |answers| == |Owned()| && status == FirstFailure(answers)
      ensures hooks.calls == old(hooks.calls) + Resets(Ids(Owned()), old(AreCreated(Owned())), answers)
      ensures ResetOnce(old(NotCreated(nodes)), Resets(Ids(Owned()), old(AreCreated(Owned())), answers), status)
    {
      hide ResetOnce, Resets, ResetInReverse, FirstFailure, Valid, Agrees, Within, Share, SparedAreOk;
      ghost var ids, created := Ids(Owned()), AreCreated(Owned());
      OwnedAreWithin();
      ActiveAre(Owned());
      var order := if drainOrder == [] then nodes else drainOrder;
      assert order == Owned();
      OrderWithin(order);
      status, answers := ResetNodesReverse(order);
      SparedMeans(created, answers);
      ResetsAreOnce(ids, created, answers);
    }

    /** Drops whatever is in flight: every node ends at rest, and all of them reset unless one refuses. */
    method Cancel() returns (status: StatusCode, ghost answers: seq<StatusCode>, ghost resets: seq<HookCall>)
      requires Valid() && Agrees()
      modifies this, nodes, hooks
      ensures Valid() && Agrees() && nodes == old(nodes)
      ensures state == if status == OkStatus then PipelineState.Stopped else PipelineState.Error
      ensures forall n :: n in nodes ==> AtRest(n.state)
      ensures hooks.calls == old(hooks.calls) + resets
      ensures if old(state).Stopped? then status == OkStatus && resets == []
              else
                && ResetOnce(old(NotCreated(nodes)), resets, status)
                && |answers| == |old(Owned())|
                && resets == Resets(Ids(old(Owned())), old(AreCreated(Owned())), answers)
    {
      NoneWithin();
      hide ResetOnce, Resets, FirstFailure, Valid, Within, Agrees;
      answers, resets := [], [];
      if state == PipelineState.Stopped {
        StoppedRests();
        return OkStatus, answers, resets;
      }
      status, answers := ResetOwned();
      resets := Resets(Ids(Owned()), old(AreCreated(Owned())), answers);
      if status != OkStatus {
        state := PipelineState.Error;
        ErrorAgrees();
        return;
      }
      state := PipelineState.Stopped;
      Remember([]);
      StoppedAgrees();
    }

    /**
     * One turn: every node is asked to tick, in an order in which each comes after all that feed it, until one
     * fails, which leaves the pipeline in error.
     */
    method Tick() returns (status: StatusCode, ghost order: seq<MediaNode>, ghost made: seq<HookCall>)
      requires Valid() && Agrees()
      modifies this, nodes, hooks
      ensures Valid() && Agrees() && nodes == old(nodes)
      ensures !old(state).Running? ==> status == InvalidState && state == old(state)
      ensures old(state).Running? ==> state == if status == OkStatus then PipelineState.Running else PipelineState.Error
      ensures hooks.calls == old(hooks.calls) + made
      ensures if old(state).Running? then
                Topological(graph.edges, nodes, order) && AskedInTurn(Ids(order), OnTick, made, status)
              else made == []
    {
      hide PassedSoFar, EndedBy, Wired, Closed, Acyclic;
      order, made := [], [];
      if state != PipelineState.Running {
        return InvalidState, order, made;
      }
      var listed := OrderedNodes();
      order := listed;
      WithinShare(listed);
      NothingAsked(Ids(order), OnTick);
      var i := 0;
      while i < |listed|
        invariant 0 <= i <= |listed| && state.Running? && order == listed
        invariant nodes == old(nodes) && drainOrder == old(drainOrder) && Share(listed, hooks)
        invariant forall k :: 0 <= k < |listed| ==> listed[k] in nodes
        invariant Valid() && Topological(graph.edges, nodes, drainOrder) && Topological(graph.edges, nodes, listed)
        invariant forall n :: n in nodes ==> n.state.Running?
        invariant |made| == i && PassedSoFar(Ids(order), OnTick, made) && hooks.calls == old(hooks.calls) + made
      {
        ghost var before := made;
        status := listed[i].Tick();
        made := before + listed[i].Call(OnTick, status);
        if !Benign(status) {
          OneEnds(Ids(order), OnTick, before, status);
          state := PipelineState.Error;
          return;
        }
        OnePasses(Ids(order), OnTick, before, status);
        i := i + 1;
      }
      return OkStatus, order, made;
    }
  }
}

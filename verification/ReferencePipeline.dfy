/** The node objects of the reference pipeline and the pipeline that drives them, proved against Chain. */
module ReferencePipeline {
  import opened Statuses
  import opened Queues
  import opened Backends
  import opened BackendNodes
  import opened NodeStates
  import opened ReferenceChain

  class FrameSource {
    const output: OutputPort<Frame>
    var state: NodeState
    var budget: nat
    var nextPts: int
    var pending: Option<Frame>
    ghost var made: seq<Frame>

    constructor (output: OutputPort<Frame>)
      ensures this.output == output && state == NodeState.Created
      ensures budget == 0 && nextPts == 0 && pending == None && made == []
    {
      this.output := output;
      state := NodeState.Created;
      budget, nextPts, pending := 0, 0, None;
      made := [];
    }

    method SendPending() returns (status: StatusCode)
      requires output.Valid()
      modifies this`pending, output.connections
      ensures old(pending) == None ==> status == OkStatus && pending == None && output.View() == old(output.View())
      ensures old(pending).Some? ==>
                && (status, output.View()) == Sent(old(output.View()), old(pending).value)
                && pending == if status == OkStatus then None else old(pending)
    {
      if pending == None {
        return OkStatus;
      }
      status := output.Send(pending.value);
      if status == OkStatus {
        pending := None;
      }
    }

    method OnTick() returns (status: StatusCode)
      requires output.Valid()
      modifies this`pending, this`nextPts, this`budget, this`made, output.connections
      ensures old(pending) == None && old(budget) == 0 ==>
                status == OkStatus && pending == None && budget == 0 && nextPts == old(nextPts) && made == old(made)
                && output.View() == old(output.View())
      ensures old(pending).Some? ==> budget == old(budget) && nextPts == old(nextPts) && made == old(made)
      ensures old(pending) == None && old(budget) > 0 ==>
                && budget == old(budget) - 1 && nextPts == old(nextPts) + 1
                && made == old(made) + [Frame(old(nextPts), true)]
      ensures old(pending).Some? || old(budget) > 0 ==>
                var f := if old(pending).Some? then old(pending).value else Frame(old(nextPts), true);
                && (status, output.View()) == Sent(old(output.View()), f)
                && pending == if status == OkStatus then None else Some(f)
    {
      if pending.Some? {
        status := SendPending();
        return;
      }
      if budget == 0 {
        return OkStatus;
      }
      pending := Some(Frame(nextPts, true));
      made := made + [Frame(nextPts, true)];
      nextPts := nextPts + 1;
      budget := budget - 1;
      status := SendPending();
    }

    method OnReset()
      modifies this`pending, this`nextPts
      ensures pending == None && nextPts == 0
    {
      pending, nextPts := None, 0;
    }
  }

  class PacketSink {
    const input: BoundedQueue<Frame>
    var state: NodeState
    var encoded: nat
    ghost var consumed: seq<Frame>

    constructor (input: BoundedQueue<Frame>)
      ensures this.input == input && state == NodeState.Created && encoded == 0 && consumed == []
    {
      this.input := input;
      state := NodeState.Created;
      encoded := 0;
      consumed := [];
    }

    /** Takes the oldest packet, if there is one. */
    method ConsumeOne() returns (status: StatusCode)
      modifies this`encoded, this`consumed, input
      ensures status == OkStatus && input.View() == Popped(old(input.View())).1
      ensures consumed == if old(input.values) == [] then old(consumed) else old(consumed) + [old(input.values)[0]]
      ensures encoded == old(encoded) + |consumed| - |old(consumed)|
    {
      var packet := input.Pop();
      if packet.Failure? {
        return OkStatus;
      }
      encoded := encoded + 1;
      consumed := consumed + [packet.value];
      return OkStatus;
    }

    method OnStop() returns (status: StatusCode)
      modifies this`encoded, this`consumed, input
      ensures status == if old(input.values) == [] then OkStatus else WouldBlock
      ensures input.View() == Popped(old(input.View())).1
      ensures consumed == if old(input.values) == [] then old(consumed) else old(consumed) + [old(input.values)[0]]
      ensures encoded == old(encoded) + |consumed| - |old(consumed)|
    {
      if |input.values| == 0 {
        return OkStatus;
      }
      status := ConsumeOne();
      status := WouldBlock;
    }
  }

  lemma SentOne(q: Queue<Frame>, f: Frame)
    ensures Sent([q], f) == (Pushed(q, f).0, [Pushed(q, f).1])
  {
    assert SendCheck([q][1..]) == OkStatus;
    assert SendCheck([q]) == PushCheck(q);
    if SendCheck([q]).OkStatus? {
      assert Sent([q], f).1 == [Pushed(q, f).1];
    } else {
      assert Sent([q], f).1 == [q];
    }
  }

  lemma OneConsumer(output: OutputPort<Frame>)
    requires |output.connections| == 1
    ensures output.View() == [output.connections[0].View()]
  {
  }

  class Pipeline {
    const source: FrameSource
    const processor: BackendNode
    const encoder: BackendNode
    const sink: PacketSink
    var state: PipelineState
    var drainIndex: nat

    /** An output port and the queue of its one consumer. */
    static method NewLink() returns (output: OutputPort<Frame>, queue: BoundedQueue<Frame>)
      ensures fresh(output) && fresh(queue) && output.Valid() && output.connections == [queue]
      ensures queue.View() == EmptyPort()
    {
      output := new OutputPort<Frame>();
      var input := new InputPort<Frame>(PORT_CAPACITY, Block);
      var connected := Connect(output, input);
      queue := input.queue.value;
    }

    ghost predicate Valid()
      reads this, source, source.output, processor, processor.output, encoder, encoder.output, sink
    {
      && source.output.connections == [processor.input]
      && processor.output.connections == [encoder.input]
      && encoder.output.connections == [sink.input]
      && processor.input != encoder.input && encoder.input != sink.input && processor.input != sink.input
      && processor != encoder && processor.backend != encoder.backend
      && source.output != processor.output && processor.output != encoder.output && source.output != encoder.output
      && drainIndex <= 4 && sink.encoded == |sink.consumed|
    }

    ghost function View(): Chain
      reads this, source, processor, encoder, sink, processor.backend, encoder.backend
      reads processor.input, encoder.input, sink.input
    {
      Chain(state, drainIndex, [source.state, processor.state, encoder.state, sink.state],
                  source.budget, source.nextPts, source.pending,
                  processor.input.View(), processor.View(), encoder.input.View(), encoder.View(), sink.input.View(),
                  source.made, sink.consumed)
    }

    lemma StartsInitial(options: Options)
      requires state.Created? && drainIndex == 0
      requires source.state.Created? && processor.state.Created? && encoder.state.Created? && sink.state.Created?
      requires source.budget == 0 && source.nextPts == 0 && source.pending.None? && source.made == [] == sink.consumed
      requires processor.input.View() == encoder.input.View() == sink.input.View() == EmptyPort()
      requires processor.View() == FreshNode(ProcessorOptions(options)) && encoder.View() == FreshNode(options)
      ensures View() == Initial(options)
    {
      assert View().states == Initial(options).states;
    }

    /** Builds and connects the four nodes, each behind a queue of four frames that blocks its producer. */
    constructor (options: Options)
      ensures Valid() && View() == Initial(options)
    {
      var frames, q1 := NewLink();
      var processed, q2 := NewLink();
      var packets, q3 := NewLink();
      var processorBackend := new ReferenceBackend(ProcessorOptions(options));
      var encoderBackend := new ReferenceBackend(options);
      source := new FrameSource(frames);
      processor := new BackendNode(processorBackend, q1, processed);
      encoder := new BackendNode(encoderBackend, q2, packets);
      sink := new PacketSink(q3);
      state := PipelineState.Created;
      drainIndex := 0;
      new;
      StartsInitial(options);
    }

    ghost function Footprint(): set<object> {
      {this, source, processor, encoder, sink, processor.backend, encoder.backend,
       processor.input, encoder.input, sink.input}
    }

    // ------------------------------------------------------------ hooks

    method TickSource() returns (status: StatusCode)
      requires Valid()
      modifies source, processor.input
      ensures Valid()
      ensures (status, View()) == TickHook(old(View()), SOURCE)
    {
      OneConsumer(source.output);
      forall f { SentOne(processor.input.View(), f); }
      status := source.OnTick();
      OneConsumer(source.output);
    }

    method TickProcessor() returns (status: StatusCode)
      requires Valid()
      modifies processor, processor.backend, processor.input, encoder.input
      ensures Valid()
      ensures (status, View()) == TickHook(old(View()), PROCESSOR)
    {
      OneConsumer(processor.output);
      status := processor.OnTick();
      OneConsumer(processor.output);
    }

    method TickEncoder() returns (status: StatusCode)
      requires Valid()
      modifies encoder, encoder.backend, encoder.input, sink.input
      ensures Valid()
      ensures (status, View()) == TickHook(old(View()), ENCODER)
    {
      OneConsumer(encoder.output);
      status := encoder.OnTick();
      OneConsumer(encoder.output);
    }

    method TickSink() returns (status: StatusCode)
      requires Valid()
      modifies sink, sink.input
      ensures Valid()
      ensures (status, View()) == TickHook(old(View()), SINK)
    {
      status := sink.ConsumeOne();
    }

    method OnTick(k: nat) returns (status: StatusCode)
      requires Valid() && k < 4
      modifies Footprint()
      ensures Valid()
      ensures (status, View()) == TickHook(old(View()), k)
    {
      if k == SOURCE {
        status := TickSource();
      } else if k == PROCESSOR {
        status := TickProcessor();
      } else if k == ENCODER {
        status := TickEncoder();
      } else {
        status := TickSink();
      }
    }

    method StopSource() returns (status: StatusCode)
      requires Valid()
      modifies source, processor.input
      ensures Valid()
      ensures (status, View()) == StopHook(old(View()), SOURCE)
    {
      OneConsumer(source.output);
      forall f { SentOne(processor.input.View(), f); }
      status := source.SendPending();
      OneConsumer(source.output);
    }

    method StopProcessor() returns (status: StatusCode)
      requires Valid()
      modifies processor, processor.backend, processor.input, encoder.input
      ensures Valid()
      ensures (status, View()) == StopHook(old(View()), PROCESSOR)
    {
      OneConsumer(processor.output);
      status := processor.OnStop();
      OneConsumer(processor.output);
    }

    method StopEncoder() returns (status: StatusCode)
      requires Valid()
      modifies encoder, encoder.backend, encoder.input, sink.input
      ensures Valid()
      ensures (status, View()) == StopHook(old(View()), ENCODER)
    {
      OneConsumer(encoder.output);
      status := encoder.OnStop();
      OneConsumer(encoder.output);
    }

    method StopSink() returns (status: StatusCode)
      requires Valid()
      modifies sink, sink.input
      ensures Valid()
      ensures (status, View()) == StopHook(old(View()), SINK)
    {
      status := sink.OnStop();
    }

    method OnStop(k: nat) returns (status: StatusCode)
      requires Valid() && k < 4
      modifies Footprint()
      ensures Valid()
      ensures (status, View()) == StopHook(old(View()), k)
    {
      if k == SOURCE {
        status := StopSource();
      } else if k == PROCESSOR {
        status := StopProcessor();
      } else if k == ENCODER {
        status := StopEncoder();
      } else {
        status := StopSink();
      }
    }

    method OnReset(k: nat) returns (status: StatusCode)
      requires Valid() && k < 4
      modifies source, processor, processor.backend, encoder, encoder.backend
      ensures Valid()
      ensures (status, View()) == ResetHook(old(View()), k)
    {
      if k == SOURCE {
        source.OnReset();
        status := OkStatus;
      } else if k == PROCESSOR {
        status := processor.OnReset();
      } else if k == ENCODER {
        status := encoder.OnReset();
      } else {
        status := OkStatus;
      }
    }

    method OnPrepare(k: nat) returns (status: StatusCode)
      requires Valid() && k < 4
      modifies processor.backend, encoder.backend
      ensures Valid()
      ensures (status, View()) == PrepareHook(old(View()), k)
    {
      if k == PROCESSOR {
        status := processor.backend.Configure();
      } else if k == ENCODER {
        status := encoder.backend.Configure();
      } else {
        status := OkStatus;
      }
    }

    // ------------------------------------------------------------ node calls

    method NodeStateAt(k: nat) returns (s: NodeState)
      requires k < 4
      ensures s == View().states[k]
    {
      s := if k == SOURCE then source.state
           else if k == PROCESSOR then processor.state
           else if k == ENCODER then encoder.state else sink.state;
    }

    method SetNodeState(k: nat, s: NodeState)
      requires Valid() && k < 4
      modifies source`state, processor`state, encoder`state, sink`state
      ensures Valid()
      ensures View() == WithState(old(View()), k, s)
    {
      if k == SOURCE {
        source.state := s;
      } else if k == PROCESSOR {
        processor.state := s;
      } else if k == ENCODER {
        encoder.state := s;
      } else {
        sink.state := s;
      }
      assert View().states == old(View()).states[k := s];
    }

    method PrepareNode(k: nat) returns (status: StatusCode)
      requires Valid() && k < 4
      modifies Footprint()
      ensures Valid()
      ensures (status, View()) == ReferenceChain.PrepareNode(old(View()), k)
    {
      var s := NodeStateAt(k);
      if s == NodeState.Prepared {
        return OkStatus;
      }
      if s != NodeState.Created && s != NodeState.Stopped {
        return InvalidState;
      }
      status := OnPrepare(k);
      SetNodeState(k, AfterPrepare(status));
    }

    method StartNode(k: nat) returns (status: StatusCode)
      requires Valid() && k < 4
      modifies Footprint()
      ensures Valid()
      ensures (status, View()) == ReferenceChain.StartNode(old(View()), k)
    {
      var s := NodeStateAt(k);
      if s == NodeState.Running {
        return OkStatus;
      }
      if s != NodeState.Prepared {
        return InvalidState;
      }
      SetNodeState(k, AfterStart(OkStatus));
      return OkStatus;
    }

    method TickNode(k: nat) returns (status: StatusCode)
      requires Valid() && k < 4
      modifies Footprint()
      ensures Valid()
      ensures (status, View()) == ReferenceChain.TickNode(old(View()), k)
    {
      var s := NodeStateAt(k);
      if s != NodeState.Running {
        return InvalidState;
      }
      status := OnTick(k);
      SetNodeState(k, AfterTick(status));
    }

    method StopNode(k: nat) returns (status: StatusCode)
      requires Valid() && k < 4
      modifies Footprint()
      ensures Valid()
      ensures (status, View()) == ReferenceChain.StopNode(old(View()), k)
    {
      var s := NodeStateAt(k);
      if s == NodeState.Stopped {
        return OkStatus;
      }
      if s == NodeState.Created {
        SetNodeState(k, NodeState.Stopped);
        return OkStatus;
      }
      status := OnStop(k);
      SetNodeState(k, AfterStop(status).1);
      status := AfterStop(status).0;
    }

    method ResetNode(k: nat) returns (status: StatusCode)
      requires Valid() && k < 4
      modifies Footprint()
      ensures Valid()
      ensures (status, View()) == ReferenceChain.ResetNode(old(View()), k)
    {
      var s := NodeStateAt(k);
      if s == NodeState.Created {
        return OkStatus;
      }
      status := OnReset(k);
      SetNodeState(k, AfterReset(status));
    }

    // ------------------------------------------------------------ pipeline calls

    /** Resets every node in reverse order and reports the first failure. */
    method ResetNodesReverse() returns (firstFailure: StatusCode)
      requires Valid()
      modifies Footprint()
      ensures Valid()
      ensures (firstFailure, View()) == ResetBelow(old(View()), 4)
    {
      hide ReferenceChain.ResetNode, Footprint;
      firstFailure := OkStatus;
      var k := 4;
      while k > 0
        invariant 0 <= k <= 4 && Valid()
        invariant ResetBelow(old(View()), 4).1 == ResetBelow(View(), k).1
        invariant ResetBelow(old(View()), 4).0 ==
                  if firstFailure.OkStatus? then ResetBelow(View(), k).0 else firstFailure
      {
        k := k - 1;
        var status := ResetNode(k);
        if firstFailure == OkStatus && status != OkStatus {
          firstFailure := status;
        }
      }
    }

    /** Undoes the preparation of the first `count` nodes, whatever their hooks answer. */
    method StopNodesReverse(count: nat)
      requires Valid() && count <= 4
      modifies Footprint()
      ensures Valid()
      ensures View() == StopAndResetBelow(old(View()), count)
    {
      hide ReferenceChain.ResetNode, ReferenceChain.StopNode;
      var k := count;
      while k > 0
        invariant 0 <= k <= count && Valid()
        invariant StopAndResetBelow(old(View()), count) == StopAndResetBelow(View(), k)
      {
        k := k - 1;
        var stopped := StopNode(k);
        var reset := ResetNode(k);
      }
    }

    method Start() returns (status: StatusCode)
      requires Valid()
      modifies Footprint()
      ensures Valid()
      ensures (status, View()) == ReferenceChain.Start(old(View()))
    {
      hide ReferenceChain.PrepareNode, ReferenceChain.StartNode, StopAndResetBelow;
      if state == PipelineState.Running {
        return OkStatus;
      }
      if state == PipelineState.Draining || state == PipelineState.Error {
        return InvalidState;
      }
      drainIndex := 0;
      ghost var c := View();
      var k := 0;
      while k < 4
        invariant 0 <= k <= 4 && Valid()
        invariant PrepareFrom(c, 0) == PrepareFrom(View(), k)
      {
        status := PrepareNode(k);
        if status != OkStatus {
          StopNodesReverse(k);
          state := PipelineState.Error;
          return;
        }
        k := k + 1;
      }
      ghost var d := View();
      k := 0;
      while k < 4
        invariant 0 <= k <= 4 && Valid()
        invariant StartFrom(d, 0) == StartFrom(View(), k)
      {
        status := StartNode(k);
        if status != OkStatus {
          StopNodesReverse(4);
          state := PipelineState.Error;
          return;
        }
        k := k + 1;
      }
      state := PipelineState.Running;
      return OkStatus;
    }

    method Tick() returns (status: StatusCode)
      requires Valid()
      modifies Footprint()
      ensures Valid()
      ensures (status, View()) == ReferenceChain.Tick(old(View()))
    {
      hide ReferenceChain.TickNode;
      if state != PipelineState.Running {
        return InvalidState;
      }
      var k := 0;
      while k < 4
        invariant 0 <= k <= 4 && Valid()
        invariant TickFrom(old(View()), 0) == TickFrom(View(), k)
      {
        status := TickNode(k);
        if !Benign(status) {
          state := PipelineState.Error;
          return;
        }
        k := k + 1;
      }
      return OkStatus;
    }

    /** Ticks the nodes after the current one that still run. */
    method TickRunningDownstream(current: nat) returns (status: StatusCode)
      requires Valid() && current < 4
      modifies Footprint()
      ensures Valid()
      ensures (status, View()) == TickRunning(old(View()), current + 1)
    {
      hide ReferenceChain.TickNode;
      var k := current + 1;
      while k < 4
        invariant current < k <= 4 && Valid()
        invariant TickRunning(old(View()), current + 1) == TickRunning(View(), k)
      {
        var s := NodeStateAt(k);
        if s == NodeState.Running {
          status := TickNode(k);
          if !Benign(status) {
            return;
          }
        }
        k := k + 1;
      }
      return OkStatus;
    }

    /** Ends a drain that failed for good. */
    method FailDrain()
      requires Valid()
      modifies Footprint()
      ensures Valid()
      ensures forall status :: (status, View()) == Fail(status, old(View()))
    {
      var ignored := ResetNodesReverse();
      state := PipelineState.Error;
    }

    method PauseDrain() returns (status: StatusCode)
      requires Valid() && drainIndex < 4
      modifies Footprint()
      ensures Valid()
      ensures (status, View()) == Pause(old(View()))
    {
      hide TickRunning, ResetBelow;
      status := TickRunningDownstream(drainIndex);
      if status != OkStatus {
        FailDrain();
        return;
      }
      return WouldBlock;
    }

    method FinishDrain() returns (status: StatusCode)
      requires Valid()
      modifies Footprint()
      ensures Valid()
      ensures (status, View()) == Finish(old(View()))
    {
      hide ResetBelow;
      status := ResetNodesReverse();
      if status != OkStatus {
        state := PipelineState.Error;
        return;
      }
      state := PipelineState.Stopped;
      drainIndex := 0;
    }

    /** One drain turn: stops the nodes in order until one of them needs another turn. */
    method DrainOnce() returns (status: StatusCode)
      requires Valid()
      modifies Footprint()
      ensures Valid()
      ensures (status, View()) == Drain(old(View()))
    {
      hide ReferenceChain.StopNode, Pause, Fail, Finish;
      while drainIndex < 4
        invariant Valid()
        invariant Drain(old(View())) == Drain(View())
        decreases 4 - drainIndex
      {
        status := StopNode(drainIndex);
        if TemporarilyEmpty(status) {
          status := PauseDrain();
          return;
        }
        if status != OkStatus {
          FailDrain();
          return;
        }
        drainIndex := drainIndex + 1;
      }
      status := FinishDrain();
    }

    method Stop() returns (status: StatusCode)
      requires Valid()
      modifies Footprint()
      ensures Valid()
      ensures (status, View()) == ReferenceChain.Stop(old(View()))
    {
      hide Drain, ResetBelow;
      if state == PipelineState.Stopped {
        return OkStatus;
      }
      if state == PipelineState.Created {
        state := PipelineState.Stopped;
        return OkStatus;
      }
      if state != PipelineState.Draining {
        drainIndex := 0;
        if state == PipelineState.Error {
          status := ResetNodesReverse();
          state := if status == OkStatus then PipelineState.Stopped else PipelineState.Error;
          return;
        }
        state := PipelineState.Draining;
      }
      status := DrainOnce();
    }
  }
}

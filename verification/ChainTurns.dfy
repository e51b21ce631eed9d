/** One tick of a running pipeline whose queues and slots are empty, in closed form. */
module ChainTurns {
  import opened Statuses
  import opened Queues
  import opened Backends
  import opened BackendNodes
  import opened NodeStates
  import opened ReferenceChain
  import opened ChainSafety

  function Waiting(q: Queue<Frame>, values: seq<Frame>): Queue<Frame> {
    q.(values := values)
  }

  predicate SlotsEmpty(n: Node) {
    n.pendingIn.None? && n.pendingOut.None?
  }

  /** What a running backend with nothing pending hands out in one tick. */
  function Emitted(b: Backend): seq<Frame> {
    if |b.queue| > b.options.outputDelay then [b.queue[0]] else []
  }

  function Retained(b: Backend): seq<Frame> {
    b.queue[|Emitted(b)|..]
  }

  /** Whether the device of a backend outlives one more frame. */
  predicate Alive(b: Backend) {
    b.options.deviceLostAfter == 0 || b.submissions < b.options.deviceLostAfter
  }

  /** A node with empty slots passes one frame on and takes at most one in, as long as its backend has room. */
  lemma NodeTurn(n: Node, input: Queue<Frame>, q: Queue<Frame>)
    requires PortOk(q) && q.values == [] && Active(n) && Sound(n, input) && SlotsEmpty(n)
    requires |input.values| <= 1 && (input.values == [] || Alive(n.backend))
    requires |Retained(n.backend)| + |input.values| <= n.backend.options.queueCapacity
    ensures var t := Ticked(n, input, [q]);
            && t.status.OkStatus? && SlotsEmpty(t.node) && Active(t.node)
            && t.node.backend.queue == Retained(n.backend) + input.values
            && t.node.backend.submissions == n.backend.submissions + |input.values|
            && t.input == Waiting(input, [])
            && t.output == [Waiting(q, Emitted(n.backend))]
  {
    var (r, b) := Received(n.backend);
    var m := n.(backend := b);
    assert Flush(n, input, [q]) == Turn(OkStatus, n, input, [q]);
    if r.Success? {
      SendIsAtomic([q], r.value);
      SendCheckIff([q]);
      var u := Flush(m.(pendingOut := Some(r.value)), input, [q]);
      assert q.values + [r.value] == [r.value];
      assert u.output[0] == Waiting(q, [r.value]);
      assert u.status.OkStatus? && u.node == m && u.output == [Waiting(q, [r.value])];
    }
    if input.values != [] { assert input.values == [input.values[0]]; }
  }

  /** A node that can neither take its pending frame in nor hand anything out. */
  predicate Jammed(n: Node) {
    && n.pendingIn.Some? && n.pendingOut.None? && Active(n)
    && |n.backend.queue| == n.backend.options.queueCapacity <= n.backend.options.outputDelay
    && n.pendingIn.value.conforms && n.backend.options.deviceLostAfter == 0
  }

  /** The same tick when the backend keeps everything and is full: the frame stays in the pending slot. */
  lemma NodeJams(n: Node, input: Queue<Frame>, q: Queue<Frame>)
    requires PortOk(q) && Active(n) && Sound(n, input) && SlotsEmpty(n)
    requires input.values != [] && n.backend.options.deviceLostAfter == 0
    requires |n.backend.queue| == n.backend.options.queueCapacity <= n.backend.options.outputDelay
    ensures var t := Ticked(n, input, [q]); t.status.WouldBlock? && Jammed(t.node)
  {
    assert Flush(n, input, [q]) == Turn(OkStatus, n, input, [q]);
  }

  lemma JammedStays(n: Node, input: Queue<Frame>, output: Port<Frame>)
    requires Jammed(n)
    ensures Ticked(n, input, output) == Turn(WouldBlock, n, input, output)
    ensures StopTurn(n, input, output) == Turn(WouldBlock, n, input, output)
  {
  }

  /** Nothing waits in a queue or a slot; only the two backends hold frames. */
  predicate Plain(c: Chain) {
    && c.pending.None? && c.q1.values == [] && c.q2.values == [] && c.q3.values == []
    && SlotsEmpty(c.processor) && SlotsEmpty(c.encoder)
    && |c.processor.backend.queue| <= 1
  }

  /** The frame that the source makes in the next tick, if its budget allows one. */
  function Next(c: Chain): seq<Frame> {
    if c.budget > 0 then [Frame(c.nextPts, true)] else []
  }

  predicate Ready(c: Chain, o: Options) {
    Base(c, o) && Plain(c) && Staged(c, 0) && c.states == seq(4, _ => NodeState.Running)
  }

  lemma EmptyNode(n: Node)
    requires Inside(n) == []
    ensures n.pendingOut.None? && n.backend.queue == [] && n.pendingIn.None?
  {
    assert |Inside(n)| == |Slot(n.pendingOut)| + |n.backend.queue| + |Slot(n.pendingIn)|;
  }

  /** A pipeline that has just been started holds nothing. */
  lemma StartedIsReady(c: Chain, o: Options)
    requires Inv(c, o) && (c.pipeline.Created? || c.pipeline.Stopped?)
    ensures Ready(StartedChain(c), o)
    ensures StartedChain(c).processor.backend.submissions == 0 == StartedChain(c).encoder.backend.submissions
    ensures StartedChain(c).processor.backend.queue == [] && StartedChain(c).encoder.backend.queue == []
  {
    StartedKeeps(c, o);
    EmptyNode(c.processor);
    EmptyNode(c.encoder);
    hide Base, Sound, Inside;
  }

  lemma SourceTurn(c: Chain, o: Options)
    requires Ready(c, o)
    ensures TickNode(c, SOURCE) ==
              (OkStatus, c.(q1 := Waiting(c.q1, Next(c)), made := c.made + Next(c),
                            budget := if c.budget > 0 then c.budget - 1 else 0,
                            nextPts := c.nextPts + |Next(c)|))
  {
    assert c.states[0 := NodeState.Running] == c.states;
    assert c.made + [] == c.made && Waiting(c.q1, []) == c.q1;
    assert c.q1.values + Next(c) == Next(c);
  }

  lemma Passed(b: Backend)
    requires b.options.outputDelay == 0 && |b.queue| <= 1
    ensures Emitted(b) == b.queue && Retained(b) == []
  {
    if |b.queue| == 1 { assert b.queue == [b.queue[0]]; }
  }

  /** The pipeline after the source and the processor have had their part of a tick. */
  lemma ProcessorTurn(c: Chain, o: Options) returns (e: Chain)
    requires Ready(c, o) && o.queueCapacity >= 1 && (c.budget > 0 ==> Alive(c.processor.backend))
    ensures Base(e, o) && Staged(e, 0)
    ensures SlotsEmpty(e.processor) && e.processor.backend.queue == Next(c)
    ensures e.processor.backend.submissions == c.processor.backend.submissions + |Next(c)|
    ensures e == c.(q2 := Waiting(c.q2, c.processor.backend.queue), processor := e.processor,
                    made := c.made + Next(c), budget := if c.budget > 0 then c.budget - 1 else 0,
                    nextPts := c.nextPts + |Next(c)|)
    ensures TickFrom(c, 0) == TickFrom(e, ENCODER)
  {
    SourceTurn(c, o);
    var a := TickNode(c, SOURCE).1;
    TickNodeKeeps(c, o, 0, SOURCE);
    hide Flow;
    NodeTurn(a.processor, a.q1, a.q2);
    TickNodeKeeps(a, o, 0, PROCESSOR);
    e := TickNode(a, PROCESSOR).1;
    Passed(a.processor.backend);
    assert Waiting(a.q1, []) == c.q1;
    assert e.states == c.states;
  }

  lemma SinkTurn(c: Chain)
    requires Shaped(c) && |c.q3.values| <= 1
    ensures var d := TickHook(c, SINK).1;
            d == c.(q3 := Waiting(c.q3, []), consumed := c.consumed + c.q3.values)
  {
    if c.q3.values != [] { assert c.q3.values == [c.q3.values[0]]; } else { assert c.consumed + [] == c.consumed; }
  }

  /** One tick of a plain pipeline whose encoder has room is plain again, and moves every frame by one hop. */
  lemma PlainTurn(c: Chain, o: Options)
    requires Ready(c, o) && c.pipeline.Running? && o.queueCapacity >= 1
    requires c.budget > 0 ==> Alive(c.processor.backend)
    requires c.processor.backend.queue != [] ==> Alive(c.encoder.backend)
    requires |Retained(c.encoder.backend)| + |c.processor.backend.queue| <= o.queueCapacity
    ensures var (status, d) := Tick(c);
            && status.OkStatus? && Ready(d, o) && d.pipeline.Running?
            && d.processor.backend.queue == Next(c)
            && d.processor.backend.submissions == c.processor.backend.submissions + |Next(c)|
            && d.encoder.backend.queue == Retained(c.encoder.backend) + c.processor.backend.queue
            && d.encoder.backend.submissions == c.encoder.backend.submissions + |c.processor.backend.queue|
            && d.consumed == c.consumed + Emitted(c.encoder.backend)
            && d.made == c.made + Next(c)
            && d.budget == (if c.budget > 0 then c.budget - 1 else 0)
            && d.nextPts == c.nextPts + |Next(c)|
  {
    var e := ProcessorTurn(c, o);
    hide Flow;
    NodeTurn(e.encoder, e.q2, e.q3);
    TickNodeKeeps(e, o, 0, ENCODER);
    var f := TickNode(e, ENCODER).1;
    assert f.states == c.states;
    TickNodeKeeps(f, o, 0, SINK);
    var g := TickNode(f, SINK).1;
    assert g.states == c.states;
    assert f.q3.values == Emitted(c.encoder.backend);
    SinkTurn(f);
    assert TickFrom(g, 4) == (OkStatus, g);
    assert TickFrom(f, SINK) == (OkStatus, g);
    assert TickFrom(e, ENCODER) == (OkStatus, g);
  }

  /** A node whose device has taken all it outlives loses it with the next frame. */
  lemma NodeLoses(n: Node, input: Queue<Frame>, q: Queue<Frame>)
    requires PortOk(q) && q.values == [] && Active(n) && Sound(n, input) && SlotsEmpty(n)
    requires input.values != [] && 0 < n.backend.options.deviceLostAfter == n.backend.submissions
    ensures var t := Ticked(n, input, [q]);
            && t.status.DeviceLost? && t.node.backend.state.Error? && t.node.backend.queue == []
            && t.node.backend.options == n.backend.options && t.input == Waiting(input, input.values[1..])
            && t.output == [Waiting(q, Emitted(n.backend))]
  {
    var (r, b) := Received(n.backend);
    var m := n.(backend := b);
    assert Flush(n, input, [q]) == Turn(OkStatus, n, input, [q]);
    assert input.values[0] in input.values;
    if r.Success? {
      SendIsAtomic([q], r.value);
      SendCheckIff([q]);
      var u := Flush(m.(pendingOut := Some(r.value)), input, [q]);
      assert q.values + [r.value] == [r.value];
      assert u.output[0] == Waiting(q, [r.value]);
      assert u.status.OkStatus? && u.node == m && u.output == [Waiting(q, [r.value])];
    }
  }

  /**
   * The tick in which the processor loses its device: the source has made its frame, the pipeline and the node are
   * in error, and nothing reaches the sink.
   */
  lemma LossTurn(c: Chain, o: Options)
    requires Ready(c, o) && c.pipeline.Running? && c.budget > 0
    requires 0 < o.deviceLostAfter == c.processor.backend.submissions
    ensures var (status, d) := Tick(c);
            && status.DeviceLost? && d.pipeline.Error? && d.states == c.states[PROCESSOR := NodeState.Error]
            && d.made == c.made + Next(c) && d.consumed == c.consumed
            && d.processor.backend.state.Error? && d.processor.backend.queue == [] && d.encoder == c.encoder
            && d.processor.backend.options == c.processor.backend.options && d.drainIndex == c.drainIndex
            && d.q1.values == [] && d.q2 == Waiting(c.q2, c.processor.backend.queue) && d.q3 == c.q3
  {
    SourceTurn(c, o);
    var a := TickNode(c, SOURCE).1;
    TickNodeKeeps(c, o, 0, SOURCE);
    hide Flow;
    NodeLoses(a.processor, a.q1, a.q2);
    Passed(a.processor.backend);
    assert TickFrom(a, PROCESSOR) == TickNode(a, PROCESSOR);
  }

  /** With no room in the encoder, the tick jams it. */
  lemma JamTurn(c: Chain, o: Options)
    requires Ready(c, o) && c.pipeline.Running? && o.deviceLostAfter == 0 && c.processor.backend.queue != []
    requires 1 <= |c.encoder.backend.queue| == o.queueCapacity <= o.outputDelay
    ensures var (status, d) := Tick(c);
            status.OkStatus? && d.pipeline.Running? && Inv(d, o) && Jammed(d.encoder)
  {
    var e := ProcessorTurn(c, o);
    TickKeeps(c, o);
    hide Flow;
    NodeJams(e.encoder, e.q2, e.q3);
    TickNodeKeeps(e, o, 0, ENCODER);
    var f := TickNode(e, ENCODER).1;
    assert f.states == c.states;
    TickNodeKeeps(f, o, 0, SINK);
    var g := TickNode(f, SINK).1;
    assert TickFrom(g, 4) == (OkStatus, g);
    assert TickFrom(f, SINK) == (OkStatus, g);
    assert TickFrom(e, ENCODER) == (OkStatus, g);
  }

  lemma IdleEncoder(c: Chain, o: Options)
    requires Base(c, o) && Active(c.encoder) && SlotsEmpty(c.encoder) && o.queueCapacity == 0
    requires c.states[ENCODER].Running?
    requires c.q2.values == []
    ensures var (status, d) := TickNode(c, ENCODER);
            status.OkStatus? && d.processor == c.processor && d.states == c.states
  {
  }

  /** Without any capacity the very first frame jams the processor. */
  lemma JamFirst(c: Chain, o: Options)
    requires Ready(c, o) && c.pipeline.Running? && o.deviceLostAfter == 0 && o.queueCapacity == 0 && c.budget > 0
    ensures var (status, d) := Tick(c);
            status.OkStatus? && d.pipeline.Running? && Inv(d, o) && Jammed(d.processor)
  {
    TickKeeps(c, o);
    SourceTurn(c, o);
    var a := TickNode(c, SOURCE).1;
    TickNodeKeeps(c, o, 0, SOURCE);
    hide Flow;
    NodeJams(a.processor, a.q1, a.q2);
    TickNodeKeeps(a, o, 0, PROCESSOR);
    var e := TickNode(a, PROCESSOR).1;
    assert e.states == c.states;
    IdleEncoder(e, o);
    var f := TickNode(e, ENCODER).1;
    assert f.states == c.states;
    var g := TickNode(f, SINK).1;
    assert TickFrom(g, 4) == (OkStatus, g);
    assert TickFrom(f, SINK) == (OkStatus, g);
    assert TickFrom(e, ENCODER) == (OkStatus, g);
    assert TickFrom(a, PROCESSOR) == (OkStatus, g);
  }
}

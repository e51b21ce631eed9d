/** What every run of the reference pipeline keeps: the frames in flight, and the modes of its nodes. */
module ChainSafety {
  import opened Statuses
  import opened Queues
  import opened Backends
  import opened BackendNodes
  import opened NodeStates
  import opened ReferenceChain

  /** Everything between the source and the sink, oldest first. */
  function InFlight(c: Chain): seq<Frame> {
    c.q3.values + Inside(c.encoder) + c.q2.values + Inside(c.processor) + c.q1.values + Slot(c.pending)
  }

  /** Nothing the source made was lost, copied or reordered on its way to the sink. */
  predicate Flow(c: Chain) {
    c.made == c.consumed + c.q3.values + Inside(c.encoder) + c.q2.values
              + Inside(c.processor) + c.q1.values + Slot(c.pending)
  }

  predicate PortOk(q: Queue<Frame>) {
    q.policy.Block? && q.capacity == PORT_CAPACITY && |q.values| <= PORT_CAPACITY
  }

  predicate Base(c: Chain, o: Options) {
    && Shaped(c) && c.drainIndex <= 4
    && PortOk(c.q1) && PortOk(c.q2) && PortOk(c.q3)
    && Sound(c.processor, c.q1) && Sound(c.encoder, c.q2)
    && c.processor.backend.options == ProcessorOptions(o)
    && c.encoder.backend.options == o
    && Conform(Slot(c.pending))
    && Flow(c)
  }

  // ---------------------------------------------------------------- hooks

  lemma Advance(pre: seq<Frame>, q: seq<Frame>, d: seq<Frame>, i: seq<Frame>, i': seq<Frame>,
                input: seq<Frame>, input': seq<Frame>)
    requires d + i' + input' == i + input
    ensures pre + (q + d) + i' + input' == pre + q + i + input
  {
    calc {
      pre + (q + d) + i' + input';
      pre + q + (d + i' + input');
      pre + q + (i + input);
      pre + q + i + input;
    }
  }

  lemma TickPort(n: Node, input: Queue<Frame>, q: Queue<Frame>)
    requires PortOk(q)
    ensures PortOk(Ticked(n, input, [q]).output[0])
    ensures |Ticked(n, input, [q]).input.values| <= |input.values|
  {
    var t := Flush(n, input, [q]);
    FlushShape(n, input, [q]);
    assert PortOk(t.output[0]);
    if t.status.OkStatus? {
      var (r, b) := Received(t.node.backend);
      if r.Success? {
        var u := Flush(t.node.(backend := b, pendingOut := Some(r.value)), input, t.output);
        assert PortOk(u.output[0]);
      }
    }
  }

  lemma EmitPort(n: Node, f: Frame, input: Queue<Frame>, output: Port<Frame>)
    requires |output| == 1 && PortOk(output[0])
    ensures |Emit(n, f, input, output).output| == 1 && PortOk(Emit(n, f, input, output).output[0])
  {
  }

  lemma StopPort(n: Node, input: Queue<Frame>, q: Queue<Frame>)
    requires PortOk(q)
    ensures PortOk(StopTurn(n, input, [q]).output[0])
    ensures |StopTurn(n, input, [q]).input.values| <= |input.values|
  {
    var t := Flush(n, input, [q]);
    FlushShape(n, input, [q]);
    assert PortOk(t.output[0]);
    forall m, f ensures PortOk(Emit(m, f, input, t.output).output[0]) {
      EmitPort(m, f, input, t.output);
    }
  }

  lemma SourceSend(c: Chain, o: Options)
    requires Base(c, o)
    ensures var (status, d) := SendFromSource(c);
            Base(d, o) && SameControl(c, d) && status in {OkStatus, WouldBlock}
            && (status.OkStatus? <==> d.pending.None?)
            && d == c.(q1 := d.q1, pending := d.pending)
  {
  }

  lemma SourceTick(c: Chain, o: Options)
    requires Base(c, o)
    ensures var (status, d) := TickSource(c);
            Base(d, o) && SameControl(c, d) && status in {OkStatus, WouldBlock}
            && d == c.(q1 := d.q1, pending := d.pending, made := d.made, budget := d.budget, nextPts := d.nextPts)
  {
    if c.pending.Some? {
      SourceSend(c, o);
    } else if c.budget > 0 {
      var f := Frame(c.nextPts, true);
      var e := c.(pending := Some(f), nextPts := c.nextPts + 1, budget := c.budget - 1, made := c.made + [f]);
      assert Slot(c.pending) == [] && Slot(e.pending) == [f];
      SourceSend(e, o);
    }
  }

  lemma ProcessorMoved(c: Chain, o: Options, t: Turn, e: seq<Frame>)
    requires Base(c, o) && Conserves(c.processor, c.q1, [c.q2], t, e)
    requires Sound(t.node, t.input) && Conform(e) && PortOk(t.output[0])
    requires |t.input.values| <= |c.q1.values|
    ensures Base(WithProcessor(c, t), o)
  {
    var d := WithProcessor(c, t);
    assert [c.q2][0] == c.q2;
    assert d.q2.values == c.q2.values + e;
    Advance(c.consumed + c.q3.values + Inside(c.encoder), c.q2.values, e,
            Inside(c.processor), Inside(t.node), c.q1.values, t.input.values);
    ConformSplits(c.q2.values, e);
    assert Flow(d);
  }

  lemma ProcessorTick(c: Chain, o: Options)
    requires Base(c, o) && Active(c.processor)
    ensures var (status, d) := TickHook(c, PROCESSOR);
            Benign(status) ==> Base(d, o) && SameControl(c, d) && Active(d.processor)
                               && d == c.(q1 := d.q1, processor := d.processor, q2 := d.q2)
  {
    var t := Ticked(c.processor, c.q1, [c.q2]);
    if Benign(t.status) {
      var e := TickKeepsMode(c.processor, c.q1, [c.q2]);
      TickPort(c.processor, c.q1, c.q2);
      ProcessorMoved(c, o, t, e);
    }
  }

  lemma EncoderMoved(c: Chain, o: Options, t: Turn, e: seq<Frame>)
    requires Base(c, o) && Conserves(c.encoder, c.q2, [c.q3], t, e)
    requires Sound(t.node, t.input) && Conform(e) && PortOk(t.output[0])
    requires |t.input.values| <= |c.q2.values|
    ensures Base(WithEncoder(c, t), o)
  {
    var d := WithEncoder(c, t);
    assert [c.q3][0] == c.q3;
    assert d.q3.values == c.q3.values + e;
    Advance(c.consumed, c.q3.values, e, Inside(c.encoder), Inside(t.node), c.q2.values, t.input.values);
    assert Flow(d);
  }

  lemma EncoderTick(c: Chain, o: Options)
    requires Base(c, o) && Active(c.encoder)
    ensures var (status, d) := TickHook(c, ENCODER);
            Benign(status) ==> Base(d, o) && SameControl(c, d) && Active(d.encoder)
                               && d == c.(q2 := d.q2, encoder := d.encoder, q3 := d.q3)
  {
    var t := Ticked(c.encoder, c.q2, [c.q3]);
    if Benign(t.status) {
      var e := TickKeepsMode(c.encoder, c.q2, [c.q3]);
      TickPort(c.encoder, c.q2, c.q3);
      EncoderMoved(c, o, t, e);
    }
  }

  lemma SinkTick(c: Chain, o: Options)
    requires Base(c, o)
    ensures var (status, d) := ConsumeOne(c);
            status.OkStatus? && Base(d, o) && SameControl(c, d)
            && d == c.(q3 := d.q3, consumed := d.consumed)
            && (c.q3.values == [] <==> d == c)
  {
  }

  lemma ProcessorStop(c: Chain, o: Options)
    requires Base(c, o) && Closing(c.processor, c.q1)
    ensures var (status, d) := StopHook(c, PROCESSOR);
            Benign(status) ==>
              && Base(d, o) && SameControl(c, d)
              && d == c.(q1 := d.q1, processor := d.processor, q2 := d.q2)
              && (if TemporarilyEmpty(status) then Closing(d.processor, d.q1) else Finished(d.processor, d.q1))
  {
    var t := StopTurn(c.processor, c.q1, [c.q2]);
    if Benign(t.status) {
      var e := StopKeepsMode(c.processor, c.q1, [c.q2]);
      StopPort(c.processor, c.q1, c.q2);
      ProcessorMoved(c, o, t, e);
    }
  }

  lemma EncoderStop(c: Chain, o: Options)
    requires Base(c, o) && Closing(c.encoder, c.q2)
    ensures var (status, d) := StopHook(c, ENCODER);
            Benign(status) ==>
              && Base(d, o) && SameControl(c, d)
              && d == c.(q2 := d.q2, encoder := d.encoder, q3 := d.q3)
              && (if TemporarilyEmpty(status) then Closing(d.encoder, d.q2) else Finished(d.encoder, d.q2))
  {
    var t := StopTurn(c.encoder, c.q2, [c.q3]);
    if Benign(t.status) {
      var e := StopKeepsMode(c.encoder, c.q2, [c.q3]);
      StopPort(c.encoder, c.q2, c.q3);
      EncoderMoved(c, o, t, e);
    }
  }

  // ---------------------------------------------------------------- modes

  /** A drain that has reached node `k`: the nodes before it are empty, the ones after it still run. */
  predicate Staged(c: Chain, k: nat) {
    && (k > SOURCE ==> c.pending.None?)
    && (if k < PROCESSOR then Active(c.processor)
        else if k == PROCESSOR then Closing(c.processor, c.q1) else Finished(c.processor, c.q1))
    && (if k < ENCODER then Active(c.encoder)
        else if k == ENCODER then Closing(c.encoder, c.q2) else Finished(c.encoder, c.q2))
    && (k > SINK ==> c.q3.values == [])
  }

  predicate StatesAt(c: Chain, k: nat) {
    && Shaped(c)
    && forall i :: 0 <= i < 4 && i != k ==> c.states[i] == if i < k then NodeState.Stopped else NodeState.Running
  }

  predicate Unused(n: Node) {
    && Inside(n) == [] && n.pendingOut.None? && n.pendingIn.None? && !n.drainStarted
    && n.backend.state.Created? && n.backend.submissions == 0
  }

  predicate Empty(c: Chain) {
    && c.pending.None? && c.q1.values == [] && c.q2.values == [] && c.q3.values == []
    && Inside(c.processor) == [] && Inside(c.encoder) == []
  }

  predicate Idle(c: Chain) {
    Empty(c) && c.states == seq(4, _ => NodeState.Created) && Unused(c.processor) && Unused(c.encoder)
  }

  /** The injected reset back-pressure fails the last step of a drain once, with nothing left in flight. */
  predicate Halted(c: Chain) {
    && Empty(c) && Unused(c.processor) && !c.encoder.drainStarted
    && c.states == [NodeState.Created, NodeState.Created, NodeState.Error, NodeState.Created]
    && c.encoder.backend.resetBlocked
  }

  /** A drain about to work on its current node, or past the last one. */
  predicate Draining(c: Chain, o: Options) {
    && Base(c, o) && c.pipeline.Draining? && Staged(c, c.drainIndex) && StatesAt(c, c.drainIndex)
    && (c.drainIndex < 4 ==> c.states[c.drainIndex].Running? || c.states[c.drainIndex].Draining?)
  }

  /** The invariant between two calls of the pipeline. */
  predicate Inv(c: Chain, o: Options) {
    && Base(c, o)
    && match c.pipeline
       case Created => Idle(c)
       case Stopped => Idle(c)
       case Running => Staged(c, 0) && c.states == seq(4, _ => NodeState.Running)
       case Draining => c.drainIndex < 4 && Staged(c, c.drainIndex) && StatesAt(c, c.drainIndex)
                        && c.states[c.drainIndex].Draining?
       case Error => Halted(c)
  }

  lemma InitialInv(o: Options)
    ensures Inv(Initial(o), o)
  {
  }

  lemma TickNodeKeeps(c: Chain, o: Options, k: nat, j: nat)
    requires Base(c, o) && Staged(c, k) && j < 4 && (k < j || k == 0)
    requires c.states[j].Running?
    ensures var (status, d) := TickNode(c, j);
            Benign(status) ==> Base(d, o) && Staged(d, k) && SameControl(c, d)
  {
    var (hook, after) := TickHook(c, j);
    assert c.states[j := NodeState.Running] == c.states;
    if j == SOURCE { SourceTick(c, o); }
    else if j == PROCESSOR { ProcessorTick(c, o); }
    else if j == ENCODER { EncoderTick(c, o); }
    else { SinkTick(c, o); }
    if Benign(hook) { assert after.states == c.states; }
  }

  lemma {:induction false} TickFromKeeps(c: Chain, o: Options, j: nat)
    requires Base(c, o) && Staged(c, 0) && j <= 4 && c.states == seq(4, _ => NodeState.Running)
    ensures var (status, d) := TickFrom(c, j);
            Benign(status) ==> status.OkStatus? && Base(d, o) && Staged(d, 0) && SameControl(c, d)
    decreases 4 - j
  {
    hide TickHook, Sound, Flow;
    if j < 4 {
      TickNodeKeeps(c, o, 0, j);
      var (status, d) := TickNode(c, j);
      if Benign(status) { TickFromKeeps(d, o, j + 1); }
    }
  }

  lemma {:induction false} TickRunningKeeps(c: Chain, o: Options, k: nat, j: nat)
    requires Base(c, o) && Staged(c, k) && k < j <= 4
    ensures var (status, d) := TickRunning(c, j);
            Benign(status) ==> status.OkStatus? && Base(d, o) && Staged(d, k) && SameControl(c, d)
    decreases 4 - j
  {
    hide TickHook, Sound, Flow;
    if j < 4 {
      if c.states[j].Running? {
        TickNodeKeeps(c, o, k, j);
        var (status, d) := TickNode(c, j);
        if Benign(status) { TickRunningKeeps(d, o, k, j + 1); }
      } else {
        TickRunningKeeps(c, o, k, j + 1);
      }
    }
  }

  /** The hook of the current node: it stays at its stage, or the next stage is reached. */
  lemma StopHookKeeps(c: Chain, o: Options, k: nat)
    requires Base(c, o) && k < 4 && Staged(c, k)
    ensures var (hook, d) := StopHook(c, k);
            && (TemporarilyEmpty(hook) ==> Base(d, o) && Staged(d, k))
            && (hook.OkStatus? || hook.EndOfStream? ==> Base(d, o) && Staged(d, k + 1))
  {
    hide StopTurn, Conform, Sound, Conserves;
    if k == SOURCE { SourceSend(c, o); }
    else if k == PROCESSOR { ProcessorStop(c, o); }
    else if k == ENCODER { EncoderStop(c, o); }
    else { SinkTick(c, o); }
  }

  /** The states of the nodes are not part of what is in flight. */
  lemma StateIsApart(c: Chain, o: Options, k: nat, s: NodeState)
    requires Base(c, o) && k < 4
    ensures Base(WithState(c, k, s), o)
    ensures forall j :: Staged(WithState(c, k, s), j) == Staged(c, j)
  {
    hide Sound;
  }

  lemma StopNodeKeeps(c: Chain, o: Options, k: nat)
    requires Base(c, o) && k < 4 && Staged(c, k)
    requires c.states[k].Running? || c.states[k].Draining?
    ensures var (status, d) := StopNode(c, k);
            && (status.OkStatus? ==>
                  Base(d, o) && Staged(d, k + 1) && d.states == c.states[k := NodeState.Stopped])
            && (TemporarilyEmpty(status) ==>
                  Base(d, o) && Staged(d, k) && d.states == c.states[k := NodeState.Draining])
            && d.pipeline == c.pipeline && d.drainIndex == c.drainIndex
  {
    StopHookKeeps(c, o, k);
    var (hook, after) := StopHook(c, k);
    hide StopHook, Base, Staged;
    if Base(after, o) { StateIsApart(after, o, k, AfterStop(hook).1); }
  }

  /** One node further back, whatever its hook answers. */
  lemma ResetStep(c: Chain, k: nat, status: StatusCode, after: Chain)
    requires Shaped(c) && k < 4 && !c.states[k].Created? && ResetHook(c, k) == (status, after)
    ensures var (rest, last) := ResetBelow(WithState(after, k, AfterReset(status)), k);
            ResetBelow(c, k + 1) == (if status.OkStatus? then rest else status, last)
  {
    hide ResetHook, AfterReset;
  }

  /** A finished node is as good as new, unless the injected back-pressure holds it up. */
  lemma ResetsNode(n: Node, input: Queue<Frame>)
    requires Finished(n, input) && Sound(n, input)
    ensures Inside(n) == [] && input.values == []
    ensures var (status, m) := ResetTurn(n);
            && Inside(m) == [] && Sound(m, input) && m.backend.options == n.backend.options && !m.drainStarted
            && (if n.backend.options.resetBlocksOnce && !n.backend.resetBlocked
                then status.WouldBlock?
                else status.OkStatus? && Unused(m))
            && (n.backend.options.resetBlocksOnce ==> m.backend.resetBlocked)
  {
  }

  /** What resetting every node makes of a chain whose nodes have stopped. */
  function ResetChain(c: Chain): Chain {
    c.(states := [NodeState.Created, NodeState.Created, AfterReset(ResetTurn(c.encoder).0), NodeState.Created],
       processor := ResetTurn(c.processor).1, encoder := ResetTurn(c.encoder).1, pending := None, nextPts := 0)
  }

  lemma ResetsTo(c: Chain)
    requires StatesAt(c, 4) && ResetTurn(c.processor).0.OkStatus?
    ensures ResetBelow(c, 4) == (ResetTurn(c.encoder).0, ResetChain(c))
  {
    hide ResetTurn;
    var (status, n) := ResetTurn(c.encoder);
    var c3 := WithState(c, 3, NodeState.Created);
    var c2 := WithState(c3.(encoder := n), 2, AfterReset(status));
    var c1 := WithState(c2.(processor := ResetTurn(c.processor).1), 1, NodeState.Created);
    var c0 := WithState(c1.(pending := None, nextPts := 0), 0, NodeState.Created);
    assert c0 == ResetChain(c);
    assert ResetBelow(c0, 0) == (OkStatus, c0);
    assert c.states[3].Stopped? && c3.states[2].Stopped? && c2.states[1].Stopped? && c1.states[0].Stopped?;
    hide ResetBelow, ResetChain, AfterReset, WithState, StatesAt;
    ResetStep(c, 3, OkStatus, c);
    ResetStep(c3, 2, status, c3.(encoder := n));
    ResetStep(c2, 1, OkStatus, c2.(processor := ResetTurn(c.processor).1));
    ResetStep(c1, 0, OkStatus, c1.(pending := None, nextPts := 0));
  }

  /** The last step of a drain resets every node, unless the injected back-pressure holds the encoder up once. */
  lemma ResetFinished(c: Chain, o: Options)
    requires Base(c, o) && Staged(c, 4) && StatesAt(c, 4)
    ensures var (status, d) := ResetBelow(c, 4);
            && Base(d, o)
            && d == c.(states := d.states, processor := d.processor, encoder := d.encoder, pending := None,
                        nextPts := 0)
            && (if o.resetBlocksOnce && !c.encoder.backend.resetBlocked then status.WouldBlock? && Halted(d)
                else status.OkStatus? && Idle(d))
            && (o.resetBlocksOnce ==> d.encoder.backend.resetBlocked)
  {
    ResetsNode(c.processor, c.q1);
    ResetsNode(c.encoder, c.q2);
    ResetsTo(c);
    hide ResetBelow, ResetTurn, Inside, Sound, Unused;
    assert c.pending == None;
  }

  lemma ResetHalted(c: Chain, o: Options)
    requires Base(c, o) && Halted(c)
    ensures var (status, d) := ResetBelow(c, 4);
            && status.OkStatus? && Base(d, o) && Idle(d)
            && d == c.(states := d.states, encoder := d.encoder)
  {
  }

  /** What a stop call leaves behind unless it failed for good. */
  predicate Settled(status: StatusCode, d: Chain, o: Options) {
    Benign(status) ==> Inv(d, o) && status in {OkStatus, WouldBlock} && (status.OkStatus? <==> d.pipeline.Stopped?)
  }

  /** A drain whose current node is not done is a drain again once the nodes after it have run. */
  lemma PausedInv(c: Chain, d: Chain, o: Options)
    requires c.pipeline.Draining? && c.drainIndex < 4 && StatesAt(c, c.drainIndex)
    requires c.states[c.drainIndex].Draining?
    requires SameControl(c, d) && Base(d, o) && Staged(d, c.drainIndex)
    ensures Inv(d, o)
  {
    hide Base, Staged;
  }

  lemma PauseKeeps(c: Chain, o: Options)
    requires Base(c, o) && c.pipeline.Draining? && c.drainIndex < 4 && Staged(c, c.drainIndex)
    requires StatesAt(c, c.drainIndex) && c.states[c.drainIndex].Draining?
    ensures Settled(Pause(c).0, Pause(c).1, o)
  {
    assert Shaped(c);
    hide TickRunning, ResetBelow, Base, Staged, StatesAt, Inv;
    TickRunningKeeps(c, o, c.drainIndex, c.drainIndex + 1);
    var (downstream, last) := TickRunning(c, c.drainIndex + 1);
    if Benign(downstream) { PausedInv(c, last, o); }
  }

  lemma FinishKeeps(c: Chain, o: Options)
    requires Base(c, o) && Staged(c, 4) && StatesAt(c, 4)
    ensures Settled(Finish(c).0, Finish(c).1, o)
  {
    ResetFinished(c, o);
  }

  lemma NextStage(c: Chain, o: Options)
    requires Draining(c, o) && c.drainIndex < 4
    ensures var (status, d) := StopNode(c, c.drainIndex);
            && (status.OkStatus? ==> Draining(d.(drainIndex := c.drainIndex + 1), o))
            && (TemporarilyEmpty(status) ==> Draining(d, o) && d.states[d.drainIndex].Draining?)
  {
    hide StopHook, Sound;
    StopNodeKeeps(c, o, c.drainIndex);
  }

  lemma {:induction false} DrainKeeps(c: Chain, o: Options)
    requires Draining(c, o)
    ensures Settled(Drain(c).0, Drain(c).1, o)
    decreases 4 - c.drainIndex
  {
    hide StopHook, TickHook, Sound, Flow;
    if c.drainIndex == 4 {
      FinishKeeps(c, o);
    } else {
      NextStage(c, o);
      var (status, after) := StopNode(c, c.drainIndex);
      if status.OkStatus? {
        DrainKeeps(after.(drainIndex := c.drainIndex + 1), o);
      } else if TemporarilyEmpty(status) {
        PauseKeeps(after, o);
      }
    }
  }

  lemma StopKeeps(c: Chain, o: Options)
    requires Inv(c, o)
    ensures Settled(Stop(c).0, Stop(c).1, o)
  {
    match c.pipeline
    case Running => DrainKeeps(c.(drainIndex := 0, pipeline := PipelineState.Draining), o);
    case Draining => DrainKeeps(c, o);
    case Error => ResetHalted(c.(drainIndex := 0), o);
    case Created =>
    case Stopped =>
  }

  /** A node whose backend has been configured, and nothing else changed. */
  function Configured(n: Node): Node {
    n.(backend := n.backend.(state := BackendState.Configured))
  }

  lemma ConfiguredIsActive(n: Node, input: Queue<Frame>)
    requires Unused(n) && Sound(n, input)
    ensures Active(Configured(n)) && Sound(Configured(n), input) && Inside(Configured(n)) == Inside(n)
  {
  }

  function ConfiguredHook(c: Chain, k: nat): Chain {
    if k == PROCESSOR then c.(processor := Configured(c.processor))
    else if k == ENCODER then c.(encoder := Configured(c.encoder)) else c
  }

  /** A created node whose backend was never configured prepares, and the pipeline goes on to the next. */
  lemma PrepareStep(c: Chain, k: nat)
    requires Shaped(c) && k < 4 && c.states[k].Created?
    requires c.processor.backend.state.Created? || k != PROCESSOR
    requires c.encoder.backend.state.Created? || k != ENCODER
    ensures PrepareFrom(c, k) == PrepareFrom(WithState(ConfiguredHook(c, k), k, NodeState.Prepared), k + 1)
  {
    assert PrepareHook(c, k) == (OkStatus, ConfiguredHook(c, k));
    hide PrepareHook, ConfiguredHook;
  }

  /** The chain that a successful preparation makes of `c`. */
  function PreparedChain(c: Chain): Chain {
    c.(states := seq(4, _ => NodeState.Prepared), processor := Configured(c.processor),
       encoder := Configured(c.encoder))
  }

  lemma PreparesAll(c: Chain)
    requires c.states == seq(4, _ => NodeState.Created)
    requires c.processor.backend.state.Created? && c.encoder.backend.state.Created?
    ensures PrepareFrom(c, 0) == (OkStatus, PreparedChain(c))
  {
    var c1 := WithState(c, 0, NodeState.Prepared);
    var c2 := WithState(ConfiguredHook(c1, 1), 1, NodeState.Prepared);
    var c3 := WithState(ConfiguredHook(c2, 2), 2, NodeState.Prepared);
    var c4 := WithState(c3, 3, NodeState.Prepared);
    assert c4.states == seq(4, _ => NodeState.Prepared);
    assert c4 == PreparedChain(c);
    assert PrepareFrom(c4, 4) == (OkStatus, c4);
    hide PrepareFrom;
    PrepareStep(c, 0);
    PrepareStep(c1, 1);
    PrepareStep(c2, 2);
    PrepareStep(c3, 3);
  }

  lemma StartsAll(c: Chain)
    requires c.states == seq(4, _ => NodeState.Prepared)
    ensures StartFrom(c, 0) == (OkStatus, c.(states := seq(4, _ => NodeState.Running)))
  {
    var c1 := StartNode(c, 0).1;
    var c2 := StartNode(c1, 1).1;
    var c3 := StartNode(c2, 2).1;
    var c4 := StartNode(c3, 3).1;
    assert StartFrom(c4, 4) == (OkStatus, c4);
    assert StartFrom(c3, 3) == (OkStatus, c4);
    assert StartFrom(c2, 2) == (OkStatus, c4);
    assert c4.states == seq(4, _ => NodeState.Running);
  }

  /** The running chain that a successful start makes of a created or stopped one. */
  function StartedChain(c: Chain): Chain {
    PreparedChain(c).(states := seq(4, _ => NodeState.Running), drainIndex := 0, pipeline := PipelineState.Running)
  }

  lemma StartsTo(c: Chain, o: Options)
    requires Inv(c, o) && (c.pipeline.Created? || c.pipeline.Stopped?)
    ensures Start(c) == (OkStatus, StartedChain(c))
  {
    PreparesAll(c.(drainIndex := 0));
    StartsAll(PreparedChain(c.(drainIndex := 0)));
    hide PrepareFrom, StartFrom, Base, Inv;
  }

  lemma StartedKeeps(c: Chain, o: Options)
    requires Inv(c, o) && (c.pipeline.Created? || c.pipeline.Stopped?)
    ensures Inv(StartedChain(c), o)
  {
    ConfiguredIsActive(c.processor, c.q1);
    ConfiguredIsActive(c.encoder, c.q2);
    hide Sound, Inside, Active;
  }

  lemma StartKeeps(c: Chain, o: Options)
    requires Inv(c, o)
    ensures var (status, d) := Start(c);
            && (Benign(status) ==> Inv(d, o) && d.pipeline.Running?)
            && (!Benign(status) ==> d == c)
  {
    if c.pipeline.Created? || c.pipeline.Stopped? {
      StartsTo(c, o);
      StartedKeeps(c, o);
    }
    hide PrepareFrom, StartFrom, Inv;
  }

  lemma TickKeeps(c: Chain, o: Options)
    requires Inv(c, o)
    ensures var (status, d) := Tick(c);
            Benign(status) ==> Inv(d, o) && d.pipeline.Running?
  {
    if c.pipeline.Running? { TickFromKeeps(c, o, 0); }
  }

  // ---------------------------------------------------------------- runs

  datatype Step = StartStep | TickStep | StopStep | RefillStep(budget: nat)

  function Apply(c: Chain, s: Step): (StatusCode, Chain)
    requires Shaped(c) && c.drainIndex <= 4
  {
    match s
    case StartStep => Start(c)
    case TickStep => Tick(c)
    case StopStep => Stop(c)
    case RefillStep(n) => (OkStatus, c.(budget := n))
  }

  /** The states after each step, whatever the steps answer. */
  predicate Applied(states: seq<Chain>, steps: seq<Step>) {
    && |states| == |steps| + 1
    && forall i :: 0 <= i < |steps| ==>
         && Shaped(states[i]) && states[i].drainIndex <= 4
         && Apply(states[i], steps[i]).1 == states[i + 1]
  }

  /** The states after each step of a run; a step may fail only by refusing, which changes nothing. */
  predicate Run(states: seq<Chain>, steps: seq<Step>) {
    && Applied(states, steps)
    && forall i :: 0 <= i < |steps| ==>
         Benign(Apply(states[i], steps[i]).0) || states[i + 1] == states[i]
  }

  lemma StepKeeps(c: Chain, o: Options, s: Step)
    requires Inv(c, o)
    ensures var (status, d) := Apply(c, s); Benign(status) ==> Inv(d, o)
  {
    match s
    case StartStep => StartKeeps(c, o);
    case TickStep => TickKeeps(c, o);
    case StopStep => StopKeeps(c, o);
    case RefillStep(n) =>
  }

  lemma FlowIsInFlight(c: Chain)
    requires Flow(c)
    ensures c.made == c.consumed + InFlight(c)
  {
  }

  /**
   * End-to-end conservation: after every run of start, tick, stop and refill steps, from the first to
   * the last, the frames made are those consumed followed by those in flight, in order; and once the
   * pipeline has stopped nothing is in flight, so the sink saw exactly what the source made.
   */
  lemma {:induction false} RunConserves(o: Options, states: seq<Chain>, steps: seq<Step>)
    requires Run(states, steps) && states[0] == Initial(o)
    ensures forall i :: 0 <= i < |states| ==> Inv(states[i], o)
    ensures var last := states[|steps|];
            && last.made == last.consumed + InFlight(last)
            && (last.pipeline.Stopped? ==> last.made == last.consumed)
  {
    var n := |steps|;
    if n == 0 {
      InitialInv(o);
    } else {
      assert Run(states[..n], steps[..n - 1]) by {
        assert forall i :: 0 <= i < n - 1 ==> steps[..n - 1][i] == steps[i];
      }
      RunConserves(o, states[..n], steps[..n - 1]);
      assert Inv(states[..n][n - 1], o);
      StepKeeps(states[n - 1], o, steps[n - 1]);
      forall i | 0 <= i < |states|
        ensures Inv(states[i], o)
      {
        if i < n { assert states[i] == states[..n][i]; }
      }
    }
    FlowIsInFlight(states[n]);
  }
}

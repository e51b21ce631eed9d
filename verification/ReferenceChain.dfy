/**
 * The reference pipeline: a frame source, a processor, an encoder and a packet sink, joined by three
 * bounded queues and driven by one pipeline whose order is source, processor, encoder, sink.
 */
module ReferenceChain {
  import opened Statuses
  import opened Queues
  import opened Backends
  import opened BackendNodes
  import opened NodeStates

  const PORT_CAPACITY := 4

  /**
   * `made` and `consumed` are histories: every frame the source created and every packet the sink took,
   * the counters of allocated and encoded frames being their lengths.
   */
  datatype Chain = Chain(
    pipeline: PipelineState, drainIndex: nat, states: seq<NodeState>,
    budget: nat, nextPts: int, pending: Option<Frame>,
    q1: Queue<Frame>, processor: Node, q2: Queue<Frame>, encoder: Node, q3: Queue<Frame>,
    made: seq<Frame>, consumed: seq<Frame>)

  const SOURCE: nat := 0
  const PROCESSOR: nat := 1
  const ENCODER: nat := 2
  const SINK: nat := 3

  function EmptyPort(): Queue<Frame> {
    Queue([], PORT_CAPACITY, Block, 0)
  }

  function FreshNode(o: Options): Node {
    Node(None, None, false, Backend(o, BackendState.Created, 0, false, []))
  }

  function Initial(o: Options): Chain {
    Chain(PipelineState.Created, 0, seq(4, _ => NodeState.Created), 0, 0, None,
          EmptyPort(), FreshNode(ProcessorOptions(o)), EmptyPort(), FreshNode(o), EmptyPort(), [], [])
  }

  predicate SameControl(c: Chain, d: Chain) {
    c.states == d.states && c.pipeline == d.pipeline && c.drainIndex == d.drainIndex
  }

  // ---------------------------------------------------------------- hooks

  function SendFromSource(c: Chain): (StatusCode, Chain) {
    if c.pending.None? then (OkStatus, c)
    else
      var (status, q) := Pushed(c.q1, c.pending.value);
      (status, c.(q1 := q, pending := if status.OkStatus? then None else c.pending))
  }

  function TickSource(c: Chain): (StatusCode, Chain) {
    if c.pending.Some? then SendFromSource(c)
    else if c.budget == 0 then (OkStatus, c)
    else
      var f := Frame(c.nextPts, true);
      SendFromSource(c.(pending := Some(f), nextPts := c.nextPts + 1, budget := c.budget - 1, made := c.made + [f]))
  }

  function ConsumeOne(c: Chain): (StatusCode, Chain) {
    var (r, q) := Popped(c.q3);
    match r
    case Success(f) => (OkStatus, c.(q3 := q, consumed := c.consumed + [f]))
    case Failure(code) => (if code.NotFound? then OkStatus else code, c.(q3 := q))
  }

  function StopSink(c: Chain): (StatusCode, Chain) {
    if c.q3.values == [] then (OkStatus, c)
    else
      var (status, after) := ConsumeOne(c);
      (if status.OkStatus? then WouldBlock else status, after)
  }

  function WithProcessor(c: Chain, t: Turn): Chain
    requires |t.output| == 1
  {
    c.(q1 := t.input, processor := t.node, q2 := t.output[0])
  }

  function WithEncoder(c: Chain, t: Turn): Chain
    requires |t.output| == 1
  {
    c.(q2 := t.input, encoder := t.node, q3 := t.output[0])
  }

  lemma OnePort(n: Node, input: Queue<Frame>, q: Queue<Frame>)
    ensures |Ticked(n, input, [q]).output| == 1
    ensures |StopTurn(n, input, [q]).output| == 1
  {
  }

  function TickHook(c: Chain, k: nat): (r: (StatusCode, Chain))
    requires k < 4
    ensures SameControl(r.1, c)
    ensures k != SOURCE ==> r.1.made == c.made
  {
    if k == SOURCE then TickSource(c)
    else if k == PROCESSOR then
      OnePort(c.processor, c.q1, c.q2);
      var t := Ticked(c.processor, c.q1, [c.q2]); (t.status, WithProcessor(c, t))
    else if k == ENCODER then
      OnePort(c.encoder, c.q2, c.q3);
      var t := Ticked(c.encoder, c.q2, [c.q3]); (t.status, WithEncoder(c, t))
    else ConsumeOne(c)
  }

  function StopHook(c: Chain, k: nat): (r: (StatusCode, Chain))
    requires k < 4
    ensures SameControl(r.1, c)
    ensures r.1.made == c.made
  {
    if k == SOURCE then SendFromSource(c)
    else if k == PROCESSOR then
      OnePort(c.processor, c.q1, c.q2);
      var t := StopTurn(c.processor, c.q1, [c.q2]); (t.status, WithProcessor(c, t))
    else if k == ENCODER then
      OnePort(c.encoder, c.q2, c.q3);
      var t := StopTurn(c.encoder, c.q2, [c.q3]); (t.status, WithEncoder(c, t))
    else StopSink(c)
  }

  function ResetHook(c: Chain, k: nat): (r: (StatusCode, Chain))
    requires k < 4
    ensures SameControl(r.1, c)
    ensures r.1.made == c.made
  {
    if k == SOURCE then (OkStatus, c.(pending := None, nextPts := 0))
    else if k == PROCESSOR then
      var (status, n) := ResetTurn(c.processor); (status, c.(processor := n))
    else if k == ENCODER then
      var (status, n) := ResetTurn(c.encoder); (status, c.(encoder := n))
    else (OkStatus, c)
  }

  function PrepareHook(c: Chain, k: nat): (StatusCode, Chain)
    requires k < 4
  {
    if k == PROCESSOR then
      var (status, b) := WasConfigured(c.processor.backend); (status, c.(processor := c.processor.(backend := b)))
    else if k == ENCODER then
      var (status, b) := WasConfigured(c.encoder.backend); (status, c.(encoder := c.encoder.(backend := b)))
    else (OkStatus, c)
  }

  // ---------------------------------------------------------------- node calls

  predicate Shaped(c: Chain) {
    |c.states| == 4
  }

  function WithState(c: Chain, k: nat, s: NodeState): Chain
    requires Shaped(c) && k < 4
  {
    c.(states := c.states[k := s])
  }

  function PrepareNode(c: Chain, k: nat): (r: (StatusCode, Chain))
    requires Shaped(c) && k < 4
    ensures Shaped(r.1)
    ensures r.1.drainIndex == c.drainIndex
  {
    if c.states[k].Prepared? then (OkStatus, c)
    else if !c.states[k].Created? && !c.states[k].Stopped? then (InvalidState, c)
    else
      var (hook, after) := PrepareHook(c, k);
      (hook, WithState(after, k, AfterPrepare(hook)))
  }

  function StartNode(c: Chain, k: nat): (r: (StatusCode, Chain))
    requires Shaped(c) && k < 4
    ensures Shaped(r.1)
    ensures r.1.drainIndex == c.drainIndex
  {
    if c.states[k].Running? then (OkStatus, c)
    else if !c.states[k].Prepared? then (InvalidState, c)
    else (OkStatus, WithState(c, k, AfterStart(OkStatus)))
  }

  function TickNode(c: Chain, k: nat): (r: (StatusCode, Chain))
    requires Shaped(c) && k < 4
    ensures Shaped(r.1)
    ensures r.1.drainIndex == c.drainIndex
    ensures k != SOURCE ==> r.1.made == c.made
  {
    if !c.states[k].Running? then (InvalidState, c)
    else
      var (hook, after) := TickHook(c, k);
      (hook, WithState(after, k, AfterTick(hook)))
  }

  function StopNode(c: Chain, k: nat): (r: (StatusCode, Chain))
    requires Shaped(c) && k < 4
    ensures Shaped(r.1) && r.1.drainIndex == c.drainIndex
    ensures r.1.made == c.made
  {
    if c.states[k].Stopped? then (OkStatus, c)
    else if c.states[k].Created? then (OkStatus, WithState(c, k, NodeState.Stopped))
    else
      var (hook, after) := StopHook(c, k);
      (AfterStop(hook).0, WithState(after, k, AfterStop(hook).1))
  }

  function ResetNode(c: Chain, k: nat): (r: (StatusCode, Chain))
    requires Shaped(c) && k < 4
    ensures Shaped(r.1)
    ensures r.1.drainIndex == c.drainIndex
    ensures r.1.made == c.made
  {
    if c.states[k].Created? then (OkStatus, c)
    else
      var (hook, after) := ResetHook(c, k);
      (hook, WithState(after, k, AfterReset(hook)))
  }

  // ---------------------------------------------------------------- pipeline calls

  /** Resets the nodes below `k` in reverse order and keeps the first failure. */
  function ResetBelow(c: Chain, k: nat): (r: (StatusCode, Chain))
    requires Shaped(c) && k <= 4
    ensures Shaped(r.1)
    ensures r.1.drainIndex == c.drainIndex
    ensures r.1.made == c.made
    decreases k
  {
    if k == 0 then (OkStatus, c)
    else
      var (status, after) := ResetNode(c, k - 1);
      var (rest, last) := ResetBelow(after, k - 1);
      (if status.OkStatus? then rest else status, last)
  }

  function StopAndResetBelow(c: Chain, k: nat): (r: Chain)
    requires Shaped(c) && k <= 4
    ensures Shaped(r)
    decreases k
  {
    if k == 0 then c else StopAndResetBelow(ResetNode(StopNode(c, k - 1).1, k - 1).1, k - 1)
  }

  function PrepareFrom(c: Chain, k: nat): (r: (StatusCode, Chain))
    requires Shaped(c) && k <= 4
    ensures Shaped(r.1)
    decreases 4 - k
  {
    if k == 4 then (OkStatus, c)
    else
      var (status, after) := PrepareNode(c, k);
      if status.OkStatus? then PrepareFrom(after, k + 1) else (status, StopAndResetBelow(after, k))
  }

  function StartFrom(c: Chain, k: nat): (r: (StatusCode, Chain))
    requires Shaped(c) && k <= 4
    ensures Shaped(r.1)
    decreases 4 - k
  {
    if k == 4 then (OkStatus, c)
    else
      var (status, after) := StartNode(c, k);
      if status.OkStatus? then StartFrom(after, k + 1) else (status, StopAndResetBelow(after, 4))
  }

  function Start(c: Chain): (StatusCode, Chain)
    requires Shaped(c)
  {
    if c.pipeline.Running? then (OkStatus, c)
    else if c.pipeline.Draining? || c.pipeline.Error? then (InvalidState, c)
    else
      var (prepared, d) := PrepareFrom(c.(drainIndex := 0), 0);
      if !prepared.OkStatus? then (prepared, d.(pipeline := PipelineState.Error))
      else
        var (started, e) := StartFrom(d, 0);
        (started, e.(pipeline := if started.OkStatus? then PipelineState.Running else PipelineState.Error))
  }

  function TickFrom(c: Chain, k: nat): (r: (StatusCode, Chain))
    requires Shaped(c) && k <= 4
    ensures Shaped(r.1)
    decreases 4 - k
  {
    if k == 4 then (OkStatus, c)
    else
      var (status, after) := TickNode(c, k);
      if Benign(status) then TickFrom(after, k + 1) else (status, after)
  }

  function Tick(c: Chain): (StatusCode, Chain)
    requires Shaped(c)
  {
    if !c.pipeline.Running? then (InvalidState, c)
    else
      var (status, after) := TickFrom(c, 0);
      (status, if status.OkStatus? then after else after.(pipeline := PipelineState.Error))
  }

  /** Ticks the nodes from `k` on that still run, as a drain does for the ones after its own. */
  function TickRunning(c: Chain, k: nat): (r: (StatusCode, Chain))
    requires Shaped(c) && k <= 4
    ensures Shaped(r.1)
    ensures r.1.drainIndex == c.drainIndex
    ensures k != SOURCE ==> r.1.made == c.made
    decreases 4 - k
  {
    if k == 4 then (OkStatus, c)
    else if !c.states[k].Running? then TickRunning(c, k + 1)
    else
      var (status, after) := TickNode(c, k);
      if Benign(status) then TickRunning(after, k + 1) else (status, after)
  }

  function Fail(status: StatusCode, c: Chain): (r: (StatusCode, Chain))
    requires Shaped(c)
    ensures Shaped(r.1)
    ensures r.1.drainIndex == c.drainIndex
    ensures r.1.made == c.made
  {
    (status, ResetBelow(c, 4).1.(pipeline := PipelineState.Error))
  }

  /** A drain whose current node is not done lets the nodes after it run and asks for another turn. */
  function Pause(c: Chain): (r: (StatusCode, Chain))
    requires Shaped(c) && c.drainIndex < 4
    ensures Shaped(r.1)
    ensures r.1.drainIndex == c.drainIndex
    ensures r.1.made == c.made
  {
    var (downstream, last) := TickRunning(c, c.drainIndex + 1);
    if downstream.OkStatus? then (WouldBlock, last) else Fail(downstream, last)
  }

  function Finish(c: Chain): (r: (StatusCode, Chain))
    requires Shaped(c) && c.drainIndex <= 4
    ensures Shaped(r.1)
    ensures r.1.drainIndex <= 4
    ensures r.1.made == c.made
  {
    var (status, after) := ResetBelow(c, 4);
    if status.OkStatus? then (status, after.(pipeline := PipelineState.Stopped, drainIndex := 0))
    else (status, after.(pipeline := PipelineState.Error))
  }

  function Drain(c: Chain): (r: (StatusCode, Chain))
    requires Shaped(c) && c.drainIndex <= 4
    ensures Shaped(r.1)
    ensures r.1.drainIndex <= 4
    ensures r.1.made == c.made
    decreases 4 - c.drainIndex
  {
    if c.drainIndex == 4 then Finish(c)
    else
      var (status, after) := StopNode(c, c.drainIndex);
      if TemporarilyEmpty(status) then Pause(after)
      else if !status.OkStatus? then Fail(status, after)
      else Drain(after.(drainIndex := c.drainIndex + 1))
  }

  /** One stop call; repeating it until it no longer answers would-block is the drain. It makes no frame. */
  function Stop(c: Chain): (r: (StatusCode, Chain))
    requires Shaped(c) && c.drainIndex <= 4
    ensures Shaped(r.1) && r.1.drainIndex <= 4 && r.1.made == c.made
  {
    match c.pipeline
    case Stopped => (OkStatus, c)
    case Created => (OkStatus, c.(pipeline := PipelineState.Stopped))
    case Error =>
      var (status, after) := ResetBelow(c.(drainIndex := 0), 4);
      (status, after.(pipeline := if status.OkStatus? then PipelineState.Stopped else PipelineState.Error))
    case Running => Drain(c.(drainIndex := 0, pipeline := PipelineState.Draining))
    case Draining => Drain(c)
  }
}

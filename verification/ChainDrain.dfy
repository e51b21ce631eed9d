/** When a drain of the reference pipeline ends, and by which measure. */
module ChainDrain {
  import opened Statuses
  import opened Queues
  import opened Backends
  import opened BackendNodes
  import opened NodeStates
  import opened ReferenceChain
  import opened ChainSafety

  /** A node load raised by the distance that every frame of the node still has to go after it. */
  function Raised(n: Node, input: Queue<Frame>, distance: nat): nat {
    Load(n, input) + distance * (|Inside(n)| + |input.values|)
  }

  /** One more while the injected reset back-pressure is still to come. */
  function Held(c: Chain): nat {
    if c.encoder.backend.options.resetBlocksOnce && !c.encoder.backend.resetBlocked then 1 else 0
  }

  /**
   * The frames in flight, each weighted by the number of hops between it and the sink, and one more
   * while the injected reset back-pressure is still to come.
   */
  function Weight(c: Chain): nat {
    |c.q3.values| + Raised(c.encoder, c.q2, 1) + Raised(c.processor, c.q1, 5) + 10 * |Slot(c.pending)|
    + Held(c)
  }

  lemma Count(n: Node, input: Queue<Frame>, output: Port<Frame>, t: Turn, d: seq<Frame>)
    requires Conserves(n, input, output, t, d)
    ensures |d| + |Inside(t.node)| + |t.input.values| == |Inside(n)| + |input.values|
  {
    assert |d + Inside(t.node) + t.input.values| == |Inside(n) + input.values|;
  }

  /** A full queue: the only thing that can hold a node up while its backend has room. */
  predicate Full(q: Queue<Frame>) {
    |q.values| == PORT_CAPACITY
  }

  lemma BlockedByFull(n: Node, q: Queue<Frame>)
    requires PortOk(q)
    ensures Blocked(n, [q]) ==> Full(q)
    ensures Connected([q])
  {
    SendCheckIff([q]);
  }

  lemma Spread(k: int, a: int, b: int, c: int, d: int)
    ensures k * (b + c) + k * (d + a) == k * (a + b + c) + k * d
  {
  }

  /** What leaves a node for the queue after it weighs less there, by what its load has lost. */
  lemma RaisedMoves(n: Node, input: Queue<Frame>, q: Queue<Frame>, t: Turn, moved: nat, distance: nat)
    requires |t.output| == 1 && |t.output[0].values| == |q.values| + moved
    requires moved + |Inside(t.node)| + |t.input.values| == |Inside(n)| + |input.values|
    ensures Raised(t.node, t.input, distance) + distance * |t.output[0].values|
            + (Load(n, input) - Load(t.node, t.input))
         == Raised(n, input, distance) + distance * |q.values|
  {
    hide Load, Inside;
    Spread(distance, moved, |Inside(t.node)|, |t.input.values|, |q.values|);
    Spread(distance, 0, |Inside(n)|, |input.values|, |q.values|);
  }

  /** A tick of a node never moves weight backwards, and moves some forward unless it is held up or has nothing. */
  lemma NodeTickWeighs(n: Node, input: Queue<Frame>, q: Queue<Frame>, distance: nat)
    requires PortOk(q) && Active(n) && Sound(n, input) && n.backend.options.deviceLostAfter == 0
    ensures var t := Ticked(n, input, [q]);
            && Benign(t.status) && t.node.backend.resetBlocked == n.backend.resetBlocked
            && t.node.backend.options == n.backend.options
            && Load(t.node, t.input) <= Load(n, input) && |t.output[0].values| >= |q.values|
            && (Roomy(n.backend.options) && Load(t.node, t.input) == Load(n, input) ==> Full(q) || input.values == [])
            && Raised(t.node, t.input, distance) + distance * |t.output[0].values|
               + (Load(n, input) - Load(t.node, t.input))
               == Raised(n, input, distance) + distance * |q.values|
  {
    hide Raised;
    var output := [q];
    BlockedByFull(n, q);
    TickProgress(n, input, output);
    var t := Ticked(n, input, output);
    var d := TickConserves(n, input, output);
    Count(n, input, output, t, d);
    assert t.output[0] == output[0].(values := output[0].values + d);
    RaisedMoves(n, input, q, t, |d|, distance);
  }

  lemma NodeStopWeighs(n: Node, input: Queue<Frame>, q: Queue<Frame>, distance: nat)
    requires PortOk(q) && Closing(n, input) && Sound(n, input) && n.backend.options.deviceLostAfter == 0
    ensures var t := StopTurn(n, input, [q]);
            && t.status in {WouldBlock, EndOfStream} && t.node.backend.resetBlocked == n.backend.resetBlocked
            && t.node.backend.options == n.backend.options
            && Load(t.node, t.input) <= Load(n, input)
            && (Roomy(n.backend.options) && t.status.WouldBlock? && Load(t.node, t.input) == Load(n, input) ==>
                  Full(q) && t.output[0] == q)
            && Raised(t.node, t.input, distance) + distance * |t.output[0].values|
               + (Load(n, input) - Load(t.node, t.input))
               == Raised(n, input, distance) + distance * |q.values|
  {
    hide Raised;
    var output := [q];
    BlockedByFull(n, q);
    StopProgress(n, input, output);
    var t := StopTurn(n, input, output);
    var d := StopConserves(n, input, output);
    Count(n, input, output, t, d);
    assert t.output[0] == output[0].(values := output[0].values + d);
    if Blocked(n, output) { assert Flush(n, input, output) == Turn(WouldBlock, n, input, output); }
    RaisedMoves(n, input, q, t, |d|, distance);
  }

  predicate TickLighter(c: Chain, o: Options, j: nat, d: Chain) {
    && Weight(d) <= Weight(c)
    && (Roomy(o) && Weight(d) == Weight(c) ==>
          && (j == PROCESSOR ==> c.q1.values == [] || Full(d.q2))
          && (j == ENCODER ==> c.q2.values == [] || Full(d.q3))
          && (j == SINK ==> c.q3.values == []))
  }

  lemma ProcessorTickWeighs(c: Chain, o: Options)
    requires Base(c, o) && Active(c.processor) && o.deviceLostAfter == 0
    ensures var (status, d) := TickHook(c, PROCESSOR); Benign(status) && TickLighter(c, o, PROCESSOR, d)
  {
    hide Ticked, Conform, Inside;
    NodeTickWeighs(c.processor, c.q1, c.q2, 5);
    TickPort(c.processor, c.q1, c.q2);
  }

  lemma EncoderTickWeighs(c: Chain, o: Options)
    requires Base(c, o) && Active(c.encoder) && o.deviceLostAfter == 0
    ensures var (status, d) := TickHook(c, ENCODER); Benign(status) && TickLighter(c, o, ENCODER, d)
  {
    hide Ticked, Conform, Inside;
    NodeTickWeighs(c.encoder, c.q2, c.q3, 1);
    TickPort(c.encoder, c.q2, c.q3);
  }

  lemma SinkTickWeighs(c: Chain, o: Options)
    requires Base(c, o)
    ensures var (status, d) := TickHook(c, SINK); Benign(status) && TickLighter(c, o, SINK, d)
  {
    hide Ticked, Conform, Inside;
  }

  lemma TickNodeWeighs(c: Chain, o: Options, k: nat, j: nat)
    requires Base(c, o) && Staged(c, k) && k < j < 4 && o.deviceLostAfter == 0
    requires c.states[j].Running?
    ensures var (status, d) := TickNode(c, j);
            && Benign(status) && Base(d, o) && Staged(d, k) && SameControl(c, d)
            && TickLighter(c, o, j, d)
  {
    TickNodeKeeps(c, o, k, j);
    hide TickHook, Sound, Conform, Inside;
    if j == PROCESSOR { ProcessorTickWeighs(c, o); }
    else if j == ENCODER { EncoderTickWeighs(c, o); }
    else { SinkTickWeighs(c, o); }
  }

  lemma {:induction false} TickRunningWeighs(c: Chain, o: Options, k: nat, j: nat)
    requires Base(c, o) && Staged(c, k) && k < j <= 4 && o.deviceLostAfter == 0
    ensures var (status, d) := TickRunning(c, j);
            status.OkStatus? && Weight(d) <= Weight(c)
    decreases 4 - j
  {
    hide TickHook, Sound, Flow, Weight;
    if j < 4 {
      if c.states[j].Running? {
        TickNodeWeighs(c, o, k, j);
        TickRunningWeighs(TickNode(c, j).1, o, k, j + 1);
      } else {
        TickRunningWeighs(c, o, k, j + 1);
      }
    }
  }

  predicate FullBefore(c: Chain, j: nat) {
    if j == PROCESSOR then Full(c.q1) else if j == ENCODER then Full(c.q2) else Full(c.q3)
  }

  /** A full queue cannot hold up a drain for good: the nodes after it make room within the same turn. */
  lemma {:induction false} FullQueueMoves(c: Chain, o: Options, k: nat, j: nat)
    requires Base(c, o) && Staged(c, k) && k < j < 4 && o.deviceLostAfter == 0 && Roomy(o)
    requires forall i :: j <= i < 4 ==> c.states[i].Running?
    requires FullBefore(c, j)
    ensures var (status, d) := TickRunning(c, j);
            status.OkStatus? && Weight(d) < Weight(c)
    decreases 4 - j
  {
    hide TickHook, Sound, Flow, Weight;
    TickNodeWeighs(c, o, k, j);
    var d := TickNode(c, j).1;
    if Weight(d) < Weight(c) {
      TickRunningWeighs(d, o, k, j + 1);
    } else {
      FullQueueMoves(d, o, k, j + 1);
    }
  }

  /**
   * Stopping node `k` never adds weight; if it asks for another turn without moving any, the queue after it is
   * full.
   */
  predicate NodeLighter(c: Chain, o: Options, k: nat, status: StatusCode, d: Chain) {
    && status in {OkStatus, WouldBlock, EndOfStream} && Weight(d) <= Weight(c)
    && (Roomy(o) && status.WouldBlock? && Weight(d) == Weight(c) ==> k < 3 && FullBefore(d, k + 1))
  }

  lemma Weightless(c: Chain, k: nat, s: NodeState)
    requires Shaped(c) && k < 4
    ensures Weight(WithState(c, k, s)) == Weight(c)
    ensures FullBefore(WithState(c, k, s), k + 1) == FullBefore(c, k + 1)
  {
  }

  lemma ProcessorStopWeighs(c: Chain, o: Options)
    requires Base(c, o) && Closing(c.processor, c.q1) && o.deviceLostAfter == 0
    ensures NodeLighter(c, o, PROCESSOR, StopHook(c, PROCESSOR).0, StopHook(c, PROCESSOR).1)
  {
    hide StopTurn, Conform, Inside;
    NodeStopWeighs(c.processor, c.q1, c.q2, 5);
  }

  lemma EncoderStopWeighs(c: Chain, o: Options)
    requires Base(c, o) && Closing(c.encoder, c.q2) && o.deviceLostAfter == 0
    ensures NodeLighter(c, o, ENCODER, StopHook(c, ENCODER).0, StopHook(c, ENCODER).1)
  {
    hide StopTurn, Conform, Inside;
    NodeStopWeighs(c.encoder, c.q2, c.q3, 1);
  }

  lemma SourceStopWeighs(c: Chain, o: Options)
    requires Base(c, o)
    ensures NodeLighter(c, o, SOURCE, StopHook(c, SOURCE).0, StopHook(c, SOURCE).1)
  {
    hide StopTurn, Conform, Inside;
  }

  lemma SinkStopWeighs(c: Chain, o: Options)
    requires Base(c, o)
    ensures NodeLighter(c, o, SINK, StopHook(c, SINK).0, StopHook(c, SINK).1)
  {
    hide StopTurn, Conform, Inside;
  }

  lemma StopNodeWeighs(c: Chain, o: Options)
    requires ChainSafety.Draining(c, o) && c.drainIndex < 4 && o.deviceLostAfter == 0
    ensures NodeLighter(c, o, c.drainIndex, StopNode(c, c.drainIndex).0, StopNode(c, c.drainIndex).1)
    ensures StopNode(c, c.drainIndex).0 in {OkStatus, WouldBlock}
  {
    hide StopHook, Sound, Flow, Weight;
    var k := c.drainIndex;
    if k == SOURCE { SourceStopWeighs(c, o); }
    else if k == PROCESSOR { ProcessorStopWeighs(c, o); }
    else if k == ENCODER { EncoderStopWeighs(c, o); }
    else { SinkStopWeighs(c, o); }
    var (hook, after) := StopHook(c, k);
    Weightless(after, k, AfterStop(hook).1);
  }

  lemma WeightBounds(c: Chain)
    ensures Weight(c) >= Held(c)
  {
  }

  lemma EmptyWeighs(c: Chain)
    requires Empty(c)
    ensures Weight(c) == Held(c)
  {
    assert |Inside(c.processor)| == 0 && |Inside(c.encoder)| == 0;
  }

  lemma FinishWeighs(c: Chain, o: Options)
    requires Base(c, o) && Staged(c, 4) && StatesAt(c, 4)
    ensures var (status, d) := Finish(c);
            && status in {OkStatus, WouldBlock} && Weight(d) <= Weight(c)
            && (status.WouldBlock? ==> Weight(d) < Weight(c))
  {
    ResetFinished(c, o);
    var (status, d) := ResetBelow(c, 4);
    EmptyWeighs(d);
    assert Weight(c) >= Held(c) by { WeightBounds(c); }
    assert c.encoder.backend.options == d.encoder.backend.options == o;
    hide ResetBelow, Weight, Base, Staged, StatesAt, Halted, Idle;
  }

  predicate Lighter(c: Chain, o: Options, status: StatusCode, d: Chain) {
    && status in {OkStatus, WouldBlock} && Weight(d) <= Weight(c)
    && (Roomy(o) && status.WouldBlock? ==> Weight(d) < Weight(c))
  }

  lemma PauseWeighs(c: Chain, o: Options, before: Chain)
    requires ChainSafety.Draining(c, o) && c.drainIndex < 4 && o.deviceLostAfter == 0
    requires c.states[c.drainIndex].Draining?
    requires Weight(c) <= Weight(before)
    requires Roomy(o) && Weight(c) == Weight(before) ==> c.drainIndex < 3 && FullBefore(c, c.drainIndex + 1)
    ensures Lighter(before, o, Pause(c).0, Pause(c).1)
  {
    hide TickHook, Sound, Flow, Weight;
    TickRunningWeighs(c, o, c.drainIndex, c.drainIndex + 1);
    if Roomy(o) && Weight(c) == Weight(before) {
      FullQueueMoves(c, o, c.drainIndex, c.drainIndex + 1);
    }
  }

  lemma {:induction false} DrainWeighs(c: Chain, o: Options)
    requires ChainSafety.Draining(c, o) && o.deviceLostAfter == 0
    ensures Lighter(c, o, Drain(c).0, Drain(c).1)
    decreases 4 - c.drainIndex
  {
    hide StopHook, TickHook, Sound, Flow, Raised;
    if c.drainIndex == 4 {
      FinishWeighs(c, o);
    } else {
      NextStage(c, o);
      StopNodeWeighs(c, o);
      var (status, after) := StopNode(c, c.drainIndex);
      if status.OkStatus? {
        DrainWeighs(after.(drainIndex := c.drainIndex + 1), o);
      } else {
        PauseWeighs(after, o, c);
      }
    }
  }

  lemma StopLighter(c: Chain, o: Options)
    requires Inv(c, o) && o.deviceLostAfter == 0
    ensures Lighter(c, o, Stop(c).0, Stop(c).1)
  {
    match c.pipeline
    case Running => DrainWeighs(c.(drainIndex := 0, pipeline := PipelineState.Draining), o);
    case Draining => DrainWeighs(c, o);
    case Error => ResetHalted(c.(drainIndex := 0), o);
    case Created =>
    case Stopped =>
  }

  /** A stop that asks for another turn strictly lowered the weight, provided the backends have room for the delay. */
  lemma StopWeighs(c: Chain, o: Options)
    requires Inv(c, o) && o.deviceLostAfter == 0
    ensures Inv(Stop(c).1, o) && Lighter(c, o, Stop(c).0, Stop(c).1)
    ensures Stop(c).0.OkStatus? <==> Stop(c).1.pipeline.Stopped?
  {
    StopLighter(c, o);
    StopKeeps(c, o);
  }

  function StopTimes(c: Chain, n: nat): (d: Chain)
    requires Shaped(c) && c.drainIndex <= 4
    decreases n
  {
    if n == 0 then c else StopTimes(Stop(c).1, n - 1)
  }

  lemma {:induction false} StoppedStays(c: Chain, n: nat)
    requires Shaped(c) && c.drainIndex <= 4 && c.pipeline.Stopped?
    ensures StopTimes(c, n) == c
  {
    if n > 0 { StoppedStays(c, n - 1); }
  }

  lemma StoppedIsEmpty(c: Chain, o: Options)
    requires Inv(c, o) && c.pipeline.Stopped?
    ensures c.consumed == c.made
  {
    FlowIsInFlight(c);
    assert InFlight(c) == [];
  }

  /** Repeated stop calls reach the stopped state within the weight of the pipeline plus one, with nothing lost. */
  lemma {:induction false} DrainEnds(c: Chain, o: Options, n: nat)
    requires Inv(c, o) && o.deviceLostAfter == 0 && Roomy(o) && n > Weight(c)
    ensures var d := StopTimes(c, n);
            d.pipeline.Stopped? && Inv(d, o) && d.consumed == c.made && d.made == c.made
    decreases n
  {
    hide Stop, Weight, Sound, Flow, Staged;
    StopWeighs(c, o);
    var (status, d) := Stop(c);
    if status.OkStatus? {
      StoppedStays(d, n - 1);
      StoppedIsEmpty(d, o);
    } else {
      DrainEnds(d, o, n - 1);
    }
  }

  // ---------------------------------------------------------------- every sequence of calls is a run

  lemma SourceTickBenign(c: Chain, o: Options)
    requires Base(c, o) && c.states[SOURCE].Running?
    ensures Benign(TickNode(c, SOURCE).0)
  {
    SourceTick(c, o);
  }

  lemma {:induction false} TickFromBenign(c: Chain, o: Options, j: nat)
    requires Base(c, o) && Staged(c, 0) && j <= 4 && c.states == seq(4, _ => NodeState.Running)
    requires o.deviceLostAfter == 0
    ensures TickFrom(c, j).0.OkStatus?
    decreases 4 - j
  {
    hide TickHook, Sound, Flow, Weight;
    if j < 4 {
      TickNodeKeeps(c, o, 0, j);
      if j == SOURCE { SourceTickBenign(c, o); } else { TickNodeWeighs(c, o, 0, j); }
      TickFromBenign(TickNode(c, j).1, o, j + 1);
    }
  }

  /** Unless the loss of a device is injected, a step either answers a benign status or refuses and changes nothing. */
  lemma NoStepFails(c: Chain, o: Options, s: Step)
    requires Inv(c, o) && o.deviceLostAfter == 0
    ensures var (status, d) := Apply(c, s); Benign(status) || d == c
  {
    hide Weight, Sound, Flow;
    match s
    case StartStep => StartKeeps(c, o);
    case TickStep => if c.pipeline.Running? { TickFromBenign(c, o, 0); }
    case StopStep => StopLighter(c, o);
    case RefillStep(_) =>
  }

  lemma AppliedPrefix(states: seq<Chain>, steps: seq<Step>)
    requires Applied(states, steps) && steps != []
    ensures Applied(states[..|steps|], steps[..|steps| - 1])
  {
    hide Apply;
    var before, done := states[..|steps|], steps[..|steps| - 1];
    forall i | 0 <= i < |done|
      ensures Shaped(before[i]) && before[i].drainIndex <= 4 && Apply(before[i], done[i]).1 == before[i + 1]
    {
      assert before[i] == states[i] && done[i] == steps[i] && before[i + 1] == states[i + 1];
    }
  }

  /** So the runs for which conservation and the end of a drain are proved are all there are. */
  lemma {:induction false} EverySequenceRuns(o: Options, states: seq<Chain>, steps: seq<Step>)
    requires Applied(states, steps) && states[0] == Initial(o) && o.deviceLostAfter == 0
    ensures Run(states, steps)
  {
    hide Apply, Inv;
    var n := |steps|;
    if n > 0 {
      var before, done := states[..n], steps[..n - 1];
      AppliedPrefix(states, steps);
      EverySequenceRuns(o, before, done);
      RunConserves(o, before, done);
      assert Inv(before[n - 1], o);
      NoStepFails(states[n - 1], o, steps[n - 1]);
      forall i | 0 <= i < n
        ensures Benign(Apply(states[i], steps[i]).0) || states[i + 1] == states[i]
      {
        if i < n - 1 { assert before[i] == states[i] && done[i] == steps[i] && before[i + 1] == states[i + 1]; }
      }
    }
  }
}

/** What an injected device loss does to the reference pipeline, and what it takes to stop and start it again. */
module ChainLoss {
  import opened Statuses
  import opened Backends
  import opened BackendNodes
  import opened NodeStates
  import opened ReferenceChain
  import opened ChainSafety
  import opened ChainDrain
  import opened ChainTurns
  import opened ChainThroughput

  /** How many more frames the devices take before they are lost. */
  lemma LeftToTake(start: Chain, o: Options, count: nat) returns (left: nat)
    requires Quiescent(start, o) && !Outlives(start, o, count)
    ensures left == o.deviceLostAfter - start.processor.backend.submissions && left < count
    ensures Outlives(start, o, Least(left, count))
  {
    left := o.deviceLostAfter - start.processor.backend.submissions;
  }

  lemma BeforeLoss(start: Chain, o: Options, count: nat, left: nat, c: Chain)
    requires !Outlives(start, o, count) && left < count && AfterTurns(start, o, count, left, c)
    requires left == o.deviceLostAfter - start.processor.backend.submissions
    ensures Ready(c, o) && c.pipeline.Running? && c.budget > 0
    ensures 0 < o.deviceLostAfter == c.processor.backend.submissions
    ensures c.processor.backend.queue == (if left == 0 then [] else [Frame(start.nextPts + left - 1, true)])
    ensures c.made == start.made + Frames(start.nextPts, left) && Next(c) == [Frame(start.nextPts + left, true)]
  {
    hide Ready, Frames, EncoderAfter;
  }

  predicate InError(c: Chain) {
    && Shaped(c) && c.pipeline.Error? && c.drainIndex <= 4 && !c.processor.backend.options.resetBlocksOnce
  }

  /** A pipeline whose processor lost its device while `held` waited behind it. */
  predicate Lost(c: Chain, held: seq<Frame>) {
    && InError(c) && c.states == seq(4, _ => NodeState.Running)[PROCESSOR := NodeState.Error]
    && c.q1.values == [] && c.q2.values == held && c.q3.values == []
  }

  /** The turn after `before`, the last that the devices outlive, loses the device of the processor. */
  predicate Loses(start: Chain, left: nat, before: Chain)
    requires Shaped(before)
  {
    var (status, d) := Tick(before);
    && status.DeviceLost? && Lost(d, if left == 0 then [] else [Frame(start.nextPts + left - 1, true)])
    && d.made == start.made + Frames(start.nextPts, left + 1) && d.consumed == before.consumed
  }

  /** The next turn loses the device of the processor, with the frame that it held passed on. */
  predicate LosesNow(c: Chain)
    requires Shaped(c)
  {
    var (status, d) := Tick(c);
    && status.DeviceLost? && Lost(d, c.processor.backend.queue)
    && d.made == c.made + Next(c) && d.consumed == c.consumed
  }

  lemma TickLoses(c: Chain, o: Options)
    requires Ready(c, o) && c.pipeline.Running? && c.budget > 0
    requires 0 < o.deviceLostAfter == c.processor.backend.submissions
    ensures Shaped(c) && LosesNow(c)
  {
    LossTurn(c, o);
    assert Base(c, o) && Shaped(c);
    hide Tick, Sound, Flow, Conform, Inside, Staged, Next;
  }

  lemma LosesNext(start: Chain, left: nat, before: Chain)
    requires Shaped(before) && LosesNow(before)
    requires before.made == start.made + Frames(start.nextPts, left)
    requires before.processor.backend.queue == (if left == 0 then [] else [Frame(start.nextPts + left - 1, true)])
    requires Next(before) == [Frame(start.nextPts + left, true)]
    ensures Loses(start, left, before)
  {
    FramesGrow(start.nextPts, left);
    hide Tick, Frames, Next, Lost;
    assert start.made + (Frames(start.nextPts, left) + Next(before)) == before.made + Next(before);
  }

  /**
   * A request for more frames than the devices outlive: they take all they can, and in the next turn the processor
   * loses its device. By then the source has made one frame more than the devices took, the sink has got no packet
   * in that turn, and what the processor handed on waits before the encoder.
   */
  lemma LossIsExact(start: Chain, o: Options, count: nat) returns (left: nat, before: Chain)
    requires Quiescent(start, o) && !Outlives(start, o, count)
    ensures left == o.deviceLostAfter - start.processor.backend.submissions && left < count
    ensures Shaped(start) && before == TickTimes(Refill(start, count), left)
    ensures AfterTurns(start, o, count, left, before) && Loses(start, left, before)
  {
    ReadyShape(start, o);
    left := LeftToTake(start, o, count);
    before := TickTimes(Refill(start, count), left);
    hide Tick, Ready, Quiescent, AfterTurns, TickTimes, Loses, LosesNow, Outlives;
    TurnsAreExact(start, o, count, left);
    BeforeLoss(start, o, count, left, before);
    TickLoses(before, o);
    LosesNext(start, left, before);
  }

  // ---- After a loss ----

  /** Every node was reset and the pipeline stopped, but the queues and histories are as they were. */
  function ResetByStop(c: Chain): Chain {
    c.(states := seq(4, _ => NodeState.Created), pipeline := PipelineState.Stopped, drainIndex := 0,
       pending := None, nextPts := 0, processor := ResetTurn(c.processor).1, encoder := ResetTurn(c.encoder).1)
  }

  /** The injected back-pressure holds up the next reset of the encoder. */
  predicate Waits(c: Chain) {
    c.encoder.backend.options.resetBlocksOnce && !c.encoder.backend.resetBlocked
  }

  lemma StopOfError(c: Chain)
    requires InError(c) && forall k :: 0 <= k < 4 ==> !c.states[k].Created?
    ensures var (status, d) := Stop(c);
            && d == (if Waits(c) then ResetByStop(c).(pipeline := PipelineState.Error,
                                                      states := [NodeState.Created, NodeState.Created,
                                                                 NodeState.Error, NodeState.Created])
                     else ResetByStop(c))
            && status == (if Waits(c) then WouldBlock else OkStatus)
  {
  }

  lemma StopsEncoder(d: Chain)
    requires Shaped(d) && d.pipeline.Error? && d.drainIndex <= 4
    requires d.states == [NodeState.Created, NodeState.Created, NodeState.Error, NodeState.Created]
    requires ResetTurn(d.encoder).0.OkStatus?
    ensures Stop(d) == (OkStatus, d.(states := seq(4, _ => NodeState.Created), pipeline := PipelineState.Stopped,
                                     drainIndex := 0, encoder := ResetTurn(d.encoder).1))
  {
    assert d.states[ENCODER := NodeState.Created] == seq(4, _ => NodeState.Created);
  }

  /** The second stop finds only the encoder not yet reset. */
  lemma StopOnceMore(c: Chain)
    requires InError(c) && Waits(c) && forall k :: 0 <= k < 4 ==> !c.states[k].Created?
    ensures var (status, d) := Stop(Stop(c).1);
            status.OkStatus? && d == ResetByStop(c).(encoder := ResetTurn(ResetTurn(c.encoder).1).1)
  {
    StopOfError(c);
    hide Stop, ResetTurn;
    var d := Stop(c).1;
    StopsEncoder(d);
  }

  function StopsNeeded(c: Chain): nat {
    if Waits(c) then 2 else 1
  }

  lemma StartsStopped(d: Chain)
    requires d.pipeline.Stopped? && d.states == seq(4, _ => NodeState.Created)
    requires d.processor.backend.state.Created? && d.encoder.backend.state.Created?
    ensures Start(d) == (OkStatus, StartedChain(d))
  {
    PreparesAll(d.(drainIndex := 0));
    StartsAll(PreparedChain(d.(drainIndex := 0)));
    hide PrepareFrom, StartFrom;
  }

  /**
   * A pipeline that lost a device stops with the first stop call, or with the second if the reset back-pressure was
   * still to come, and then starts again. But a reset empties no queue: what waited behind the processor is still
   * there, ahead of the frames of the new session.
   */
  lemma LostStops(c: Chain, held: seq<Frame>)
    requires Lost(c, held)
    ensures var d := StopTimes(c, StopsNeeded(c));
            && (Waits(c) ==> Stop(c).0.WouldBlock? && !Stop(c).1.pipeline.Stopped?)
            && d.pipeline.Stopped? && Shaped(d) && Start(d).0.OkStatus?
            && var e := Start(d).1;
               && e.pipeline.Running? && e.pending.None? && e.nextPts == 0 && e.q1.values == []
               && e.q2.values == held && e.made == c.made && e.consumed == c.consumed
               && e.processor.backend.submissions == 0 && e.processor.backend.queue == []
               && e.encoder.backend.submissions == 0 && e.encoder.backend.queue == []
  {
    StopOfError(c);
    if Waits(c) {
      StopOnceMore(c);
      assert StopTimes(c, 2) == Stop(Stop(c).1).1;
    } else {
      assert StopTimes(c, 1) == Stop(c).1;
    }
    hide Stop, StopTimes;
    var d := StopTimes(c, StopsNeeded(c));
    StartsStopped(d);
  }
}

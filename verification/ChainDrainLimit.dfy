/** Exactly which backend options let every drain of the reference pipeline end. */
module ChainDrainLimit {
  import opened Statuses
  import opened Backends
  import opened BackendNodes
  import opened NodeStates
  import opened ReferenceChain
  import opened ChainSafety
  import opened ChainDrain
  import opened ChainTurns

  ghost predicate Reachable(c: Chain, o: Options) {
    exists states: seq<Chain>, steps: seq<Step> ::
      Run(states, steps) && states[0] == Initial(o) && states[|steps|] == c
  }

  lemma ReachableInv(c: Chain, o: Options)
    requires Reachable(c, o)
    ensures Inv(c, o)
  {
    var states: seq<Chain>, steps: seq<Step> :|
      Run(states, steps) && states[0] == Initial(o) && states[|steps|] == c;
    RunConserves(o, states, steps);
  }

  lemma ReachStep(c: Chain, o: Options, s: Step)
    requires Reachable(c, o) && Inv(c, o) && Benign(Apply(c, s).0)
    ensures Reachable(Apply(c, s).1, o)
  {
    hide Apply, Sound, Flow;
    assert c.drainIndex <= 4 && Shaped(c);
    hide Inv, Shaped;
    var states: seq<Chain>, steps: seq<Step> :|
      Run(states, steps) && states[0] == Initial(o) && states[|steps|] == c;
    var longer, more := states + [Apply(c, s).1], steps + [s];
    assert Run(longer, more) by {
      forall i | 0 <= i < |more|
        ensures Shaped(longer[i]) && longer[i].drainIndex <= 4
                && Apply(longer[i], more[i]).1 == longer[i + 1]
                && (Benign(Apply(longer[i], more[i]).0) || longer[i + 1] == longer[i])
      {
        if i < |steps| { assert longer[i] == states[i] && more[i] == steps[i] && longer[i + 1] == states[i + 1]; }
      }
    }
  }

  // ---------------------------------------------------------------- a jam outlives every stop

  predicate KeepsJam(c: Chain, d: Chain) {
    && (Jammed(c.processor) ==> d.processor == c.processor)
    && (Jammed(c.encoder) ==> d.encoder == c.encoder)
  }

  predicate SomeJam(c: Chain) {
    Jammed(c.processor) || Jammed(c.encoder)
  }

  lemma TickNodeJam(c: Chain, j: nat)
    requires Shaped(c) && j < 4
    ensures KeepsJam(c, TickNode(c, j).1)
  {
  }

  lemma {:induction false} TickRunningJam(c: Chain, j: nat)
    requires Shaped(c) && j <= 4
    ensures KeepsJam(c, TickRunning(c, j).1)
    decreases 4 - j
  {
    hide TickHook, Jammed;
    if j < 4 {
      TickNodeJam(c, j);
      TickRunningJam(if c.states[j].Running? then TickNode(c, j).1 else c, j + 1);
    }
  }

  lemma StopNodeJam(c: Chain, k: nat)
    requires Shaped(c) && k < 4 && (c.states[k].Running? || c.states[k].Draining?)
    ensures KeepsJam(c, StopNode(c, k).1)
    ensures (k == PROCESSOR && Jammed(c.processor)) || (k == ENCODER && Jammed(c.encoder)) ==>
              StopNode(c, k).0.WouldBlock?
  {
    hide StopTurn, Jammed;
    if k == PROCESSOR {
      if Jammed(c.processor) { JammedStays(c.processor, c.q1, [c.q2]); }
    } else if k == ENCODER {
      if Jammed(c.encoder) { JammedStays(c.encoder, c.q2, [c.q3]); }
    }
  }

  lemma JamBeforeEnd(c: Chain, o: Options)
    requires ChainSafety.Draining(c, o) && SomeJam(c)
    ensures Jammed(c.processor) ==> c.drainIndex <= PROCESSOR
    ensures c.drainIndex <= ENCODER
  {
    if Jammed(c.processor) { assert c.processor.pendingIn.value in Inside(c.processor); }
    if Jammed(c.encoder) { assert c.encoder.pendingIn.value in Inside(c.encoder); }
  }

  /** A drain whose current node is not done asks for another turn, and a jam stays. */
  lemma PauseJam(c: Chain, o: Options)
    requires ChainSafety.Draining(c, o) && c.drainIndex < 4 && c.states[c.drainIndex].Draining?
    requires o.deviceLostAfter == 0
    ensures Pause(c).0.WouldBlock? && KeepsJam(c, Pause(c).1) && Pause(c).1.pipeline.Draining?
  {
    hide TickRunning, ResetBelow, Jammed, Sound, Flow, Weight;
    TickRunningJam(c, c.drainIndex + 1);
    TickRunningWeighs(c, o, c.drainIndex, c.drainIndex + 1);
    TickRunningKeeps(c, o, c.drainIndex, c.drainIndex + 1);
  }

  lemma JamStays(c: Chain, d: Chain, e: Chain)
    requires SomeJam(c) && KeepsJam(c, d)
    ensures SomeJam(d)
    ensures KeepsJam(d, e) ==> KeepsJam(c, e)
  {
  }

  /** The current node is not done with a failure, and the jam stays where it is. */
  lemma StopJam(c: Chain, o: Options)
    requires ChainSafety.Draining(c, o) && o.deviceLostAfter == 0 && SomeJam(c)
    ensures c.drainIndex < 4
    ensures var (status, d) := StopNode(c, c.drainIndex);
            && KeepsJam(c, d) && status in {OkStatus, WouldBlock}
            && (status.OkStatus? ==> ChainSafety.Draining(d.(drainIndex := c.drainIndex + 1), o))
            && (status.WouldBlock? ==> ChainSafety.Draining(d, o) && d.states[d.drainIndex].Draining?)
            && d.drainIndex == c.drainIndex
  {
    JamBeforeEnd(c, o);
    hide StopHook, TickHook, Jammed, Sound, Flow, Weight, Staged, NodeLighter;
    NextStage(c, o);
    StopNodeWeighs(c, o);
    StopNodeJam(c, c.drainIndex);
  }

  lemma SameNodes(c: Chain, d: Chain, e: Chain)
    requires KeepsJam(c, d) && d.processor == e.processor && d.encoder == e.encoder
    ensures KeepsJam(c, e)
  {
  }

  lemma DrainNext(c: Chain)
    requires Shaped(c) && c.drainIndex < 4
    ensures var (status, d) := StopNode(c, c.drainIndex);
            && (status.WouldBlock? ==> Drain(c) == Pause(d))
            && (status.OkStatus? ==> Drain(c) == Drain(d.(drainIndex := c.drainIndex + 1)))
  {
    hide StopNode, Pause;
  }

  lemma {:induction false} DrainJam(c: Chain, o: Options)
    requires ChainSafety.Draining(c, o) && o.deviceLostAfter == 0 && SomeJam(c)
    ensures Drain(c).0.WouldBlock? && KeepsJam(c, Drain(c).1) && Drain(c).1.pipeline.Draining?
    decreases 4 - c.drainIndex
  {
    assert Shaped(c);
    hide Drain, StopNode, Pause, SomeJam, KeepsJam, ChainSafety.Draining;
    StopJam(c, o);
    DrainNext(c);
    var (status, after) := StopNode(c, c.drainIndex);
    if status.OkStatus? {
      var next := after.(drainIndex := c.drainIndex + 1);
      assert SomeJam(next) && (KeepsJam(next, Drain(next).1) ==> KeepsJam(c, Drain(next).1)) by {
        assert KeepsJam(c, next) by { SameNodes(c, after, next); }
        JamStays(c, next, Drain(next).1);
      }
      DrainJam(next, o);
    } else {
      PauseJam(after, o);
      JamStays(c, after, Pause(after).1);
    }
  }

  lemma JamIsLive(c: Chain, o: Options)
    requires Inv(c, o) && SomeJam(c)
    ensures c.pipeline.Running? || c.pipeline.Draining?
  {
    if Jammed(c.processor) { assert c.processor.pendingIn.value in Inside(c.processor); }
    if Jammed(c.encoder) { assert c.encoder.pendingIn.value in Inside(c.encoder); }
  }

  lemma JamDraining(c: Chain, o: Options)
    requires Inv(c, o) && (c.pipeline.Running? || c.pipeline.Draining?)
    ensures ChainSafety.Draining(c.(drainIndex := if c.pipeline.Running? then 0 else c.drainIndex,
                                    pipeline := PipelineState.Draining), o)
  {
  }

  /** Once a node is jammed no number of stop calls ends the drain. */
  lemma {:induction false} JamForever(c: Chain, o: Options, n: nat)
    requires Inv(c, o) && o.deviceLostAfter == 0 && SomeJam(c)
    ensures !StopTimes(c, n).pipeline.Stopped?
    decreases n
  {
    hide Drain, Sound, Flow, Staged;
    JamIsLive(c, o);
    if n > 0 {
      var e := c.(drainIndex := if c.pipeline.Running? then 0 else c.drainIndex, pipeline := PipelineState.Draining);
      assert Base(e, o) && ChainSafety.Draining(e, o) by { JamDraining(c, o); }
      DrainJam(e, o);
      StopKeeps(c, o);
      JamForever(Stop(c).1, o, n - 1);
    }
  }

  // ---------------------------------------------------------------- reaching a jam

  lemma RefillKeeps(c: Chain, o: Options, frames: nat)
    requires Ready(c, o) && Inv(c, o)
    ensures Ready(c.(budget := frames), o) && Inv(c.(budget := frames), o)
  {
    hide Sound;
  }

  lemma InitialReachable(o: Options)
    ensures Reachable(Initial(o), o)
  {
    var states, steps: seq<Step> := [Initial(o)], [];
    assert Run(states, steps);
  }

  lemma Launch(o: Options, frames: nat) returns (c: Chain)
    requires o.deviceLostAfter == 0
    ensures Reachable(c, o) && Ready(c, o) && Inv(c, o) && c.pipeline.Running? && c.budget == frames
    ensures c.processor.backend.queue == [] && c.encoder.backend.queue == []
  {
    var c0, c1 := Initial(o), StartedChain(Initial(o));
    InitialReachable(o);
    InitialInv(o);
    StartsTo(c0, o);
    StartedKeeps(c0, o);
    StartedIsReady(c0, o);
    assert c1.pipeline.Running?;
    assert Apply(c0, StartStep) == (OkStatus, c1) && Shaped(c0) && Shaped(c1) && c1.drainIndex == 0 == c0.drainIndex;
    assert Apply(c1, RefillStep(frames)) == (OkStatus, c1.(budget := frames));
    hide Reachable, Inv, Apply, StartedChain, Initial, Ready;
    ReachStep(c0, o, StartStep);
    ReachStep(c1, o, RefillStep(frames));
    c := c1.(budget := frames);
    RefillKeeps(c1, o, frames);
  }

  lemma NeverLost(c: Chain, o: Options)
    requires Base(c, o) && o.deviceLostAfter == 0
    ensures Alive(c.processor.backend) && Alive(c.encoder.backend)
  {
  }

  lemma EncoderFits(c: Chain, o: Options)
    requires Base(c, o)
    ensures |c.encoder.backend.queue| <= o.queueCapacity
  {
  }

  lemma {:induction false} FillEncoder(c: Chain, o: Options) returns (d: Chain)
    requires Reachable(c, o) && Ready(c, o) && Inv(c, o) && c.pipeline.Running?
    requires 1 <= o.queueCapacity <= o.outputDelay && o.deviceLostAfter == 0
    requires c.processor.backend.queue != [] && c.budget + |c.encoder.backend.queue| >= o.queueCapacity
    ensures Reachable(d, o) && Inv(d, o) && SomeJam(d)
    decreases o.queueCapacity - |c.encoder.backend.queue|
  {
    hide Sound, Flow, Jammed;
    assert |c.encoder.backend.queue| <= o.queueCapacity by { EncoderFits(c, o); }
    NeverLost(c, o);
    if |c.encoder.backend.queue| == o.queueCapacity {
      JamTurn(c, o);
      ReachStep(c, o, TickStep);
      d := Tick(c).1;
    } else {
      PlainTurn(c, o);
      TickKeeps(c, o);
      ReachStep(c, o, TickStep);
      d := FillEncoder(Tick(c).1, o);
    }
  }

  lemma SomeRunJams(o: Options) returns (d: Chain)
    requires o.deviceLostAfter == 0 && !Roomy(o)
    ensures Reachable(d, o) && Inv(d, o) && SomeJam(d)
  {
    hide Jammed;
    var c := Launch(o, o.queueCapacity + 1);
    if o.queueCapacity == 0 {
      JamFirst(c, o);
      ReachStep(c, o, TickStep);
      d := Tick(c).1;
    } else {
      PlainTurn(c, o);
      TickKeeps(c, o);
      ReachStep(c, o, TickStep);
      d := FillEncoder(Tick(c).1, o);
    }
  }

  ghost predicate DrainsToEnd(c: Chain) {
    Shaped(c) && c.drainIndex <= 4 && exists n: nat :: StopTimes(c, n).pipeline.Stopped?
  }

  /**
   * Without injected device loss, every reachable pipeline can be drained by repeated stop calls if and
   * only if the backends have room for one frame more than the encoder holds back.
   */
  lemma DrainEndsIff(o: Options)
    requires o.deviceLostAfter == 0
    ensures (forall c :: Reachable(c, o) ==> DrainsToEnd(c)) <==> o.outputDelay < o.queueCapacity
  {
    if Roomy(o) {
      forall c | Reachable(c, o)
        ensures DrainsToEnd(c)
      {
        ReachableInv(c, o);
        DrainEnds(c, o, Weight(c) + 1);
      }
    } else {
      var d := SomeRunJams(o);
      forall n: nat
        ensures !StopTimes(d, n).pipeline.Stopped?
      {
        JamForever(d, o, n);
      }
      assert Reachable(d, o) && !DrainsToEnd(d);
    }
  }
}

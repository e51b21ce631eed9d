/** The platform call that asks the reference pipeline for a number of encoded frames. */
module ReferencePlatform {
  import opened Statuses
  import opened Backends
  import opened BackendNodes
  import opened NodeStates
  import opened ReferenceChain
  import opened ChainSafety
  import opened ChainDrain
  import opened ChainTurns
  import opened ChainThroughput
  import opened ChainLoss
  import opened ReferencePipeline

  /** The largest value of the 64-bit counters and sizes. */
  const MAXIMUM: nat := 0xFFFF_FFFF_FFFF_FFFF

  /** The number of turns after which a request gives up. */
  function MaximumTurns(o: Options, count: nat): nat {
    if o.queueCapacity + o.outputDelay + 4 >= MAXIMUM || count + o.queueCapacity + o.outputDelay + 4 > MAXIMUM
    then MAXIMUM
    else count + o.queueCapacity + o.outputDelay + 4
  }

  lemma DepartedCount(backlog: nat, delay: nat, count: nat, n: nat)
    requires backlog <= delay && count > 0
    ensures Departed(backlog, delay, count, n) <= count
    ensures Departed(backlog, delay, count, n) == count <==> n >= count + 2 && backlog == delay
  {
  }

  /** While the request runs, the sink has got exactly what has left the encoder. */
  lemma EncodedSoFar(start: Chain, o: Options, count: nat, n: nat)
    requires Quiescent(start, o) && count > 0 && Outlives(start, o, Least(n, count))
    ensures var got := |TickTimes(Refill(start, count), n).consumed| - |start.consumed|;
            && (got >= count <==> n >= count + 2 && |start.encoder.backend.queue| == o.outputDelay)
            && got <= count
  {
    TurnsAreExact(start, o, count, n);
    BacklogFits(start, o);
    hide Tick, Ready, Stream, TickTimes, Frames, SourceAfter;
    DepartedCount(|start.encoder.backend.queue|, o.outputDelay, count, n);
  }

  /** Turn `k` was still needed to reach `target` packets, and did not fail. */
  predicate Needed(start: Chain, count: nat, target: nat, k: nat)
    requires Shaped(start)
  {
    && |TickTimes(Refill(start, count), k).consumed| < target
    && Tick(TickTimes(Refill(start, count), k)).0.OkStatus?
  }

  /** `v` is the pipeline after `n` turns, all of them needed. */
  predicate After(v: Chain, start: Chain, count: nat, target: nat, n: nat) {
    && Shaped(start) && v == TickTimes(Refill(start, count), n)
    && forall k :: 0 <= k < n ==> Needed(start, count, target, k)
  }

  lemma IsAfter(v: Chain, start: Chain, count: nat, target: nat, n: nat)
    requires After(v, start, count, target, n)
    ensures v == TickTimes(Refill(start, count), n)
  {
  }

  lemma NoneYet(start: Chain, count: nat, target: nat)
    requires Shaped(start)
    ensures After(Refill(start, count), start, count, target, 0)
  {
  }

  lemma OneMore(v: Chain, start: Chain, count: nat, target: nat, n: nat)
    requires After(v, start, count, target, n) && |v.consumed| < target && Tick(v).0.OkStatus?
    ensures After(Tick(v).1, start, count, target, n + 1)
  {
    hide Tick;
    assert Needed(start, count, target, n);
  }

  /** No turn of a request fails that the devices outlive, if the pipeline was quiescent. */
  lemma TurnIsOk(start: Chain, o: Options, count: nat, n: nat)
    requires Quiescent(start, o) && Outlives(start, o, Least(n + 1, count))
    ensures Shaped(start) && Tick(TickTimes(Refill(start, count), n)).0.OkStatus?
  {
    ReadyShape(start, o);
    hide Tick, Ready, TickTimes, Quiescent, AfterTurns;
    TurnsAreExact(start, o, count, n);
    NextTurn(start, o, count, n, TickTimes(Refill(start, count), n));
  }

  lemma OneMoreIsOk(v: Chain, start: Chain, o: Options, count: nat, target: nat, n: nat)
    requires Quiescent(start, o) && Outlives(start, o, count) && After(v, start, count, target, n)
    ensures Tick(v).0.OkStatus?
  {
    hide Tick, Quiescent, TickTimes;
    TurnIsOk(start, o, count, n);
  }

  /**
   * How a request for `target` packets ends that has begun in `start`: with the target reached or the maximum of turns
   * used up, or with the first turn that failed.
   */
  predicate Ends(v: Chain, start: Chain, count: nat, target: nat, maximumTurns: nat, status: StatusCode, turns: nat)
    requires Shaped(start)
  {
    && turns <= maximumTurns
    && if status.OkStatus? then
         After(v, start, count, target, turns) && (|v.consumed| >= target || turns == maximumTurns)
       else
         var before := TickTimes(Refill(start, count), turns);
         && After(before, start, count, target, turns) && |before.consumed| < target && turns < maximumTurns
         && (status, v) == Tick(before)
  }

  /** The loop ends at turn `count + 2` or at the maximum, and leaves a quiescent pipeline. */
  lemma Outcome(start: Chain, o: Options, count: nat, n: nat)
    requires Quiescent(start, o) && 0 < count && Outlives(start, o, count)
    requires After(TickTimes(Refill(start, count), n), start, count, |start.consumed| + count, n)
    requires |TickTimes(Refill(start, count), n).consumed| >= |start.consumed| + count || n >= MaximumTurns(o, count)
    requires n <= MaximumTurns(o, count)
    ensures count + 2 <= MAXIMUM ==>
              var d := TickTimes(Refill(start, count), n);
              && Quiescent(d, o) && d.made == start.made + Frames(start.nextPts, count)
              && d.processor.backend.submissions == start.processor.backend.submissions + count
              && (if |start.encoder.backend.queue| == o.outputDelay
                  then n == count + 2 && |d.consumed| == |start.consumed| + count
                  else n == MaximumTurns(o, count) && |d.consumed| < |start.consumed| + count)
  {
    hide Tick, Quiescent, TickTimes;
    EncodedSoFar(start, o, count, n);
    if n > 0 {
      assert Needed(start, count, |start.consumed| + count, n - 1);
      EncodedSoFar(start, o, count, n - 1);
    }
    if count + 2 <= MAXIMUM && n >= count + 2 { ExactThroughput(start, o, count, n); }
  }

  /** What a request that was not refused answers: the first failure, or whether the sink got what was asked for. */
  predicate Answers(v: Chain, start: Chain, o: Options, count: nat, ended: StatusCode, status: StatusCode, turns: nat)
    requires Shaped(start)
  {
    var target := |start.consumed| + count;
    && Ends(v, start, count, target, MaximumTurns(o, count), ended, turns)
    && status == if ended.OkStatus? && |v.consumed| != target then WouldBlock else ended
  }

  /** What a request that the devices outlive comes to, from a quiescent pipeline. */
  predicate Fulfils(v: Chain, start: Chain, o: Options, count: nat, status: StatusCode, turns: nat)
    requires Shaped(start)
  {
    && v == TickTimes(Refill(start, count), turns) && Quiescent(v, o)
    && v.processor.backend.submissions == start.processor.backend.submissions + count
    && v.made == start.made + Frames(start.nextPts, count)
    && (if |start.encoder.backend.queue| == o.outputDelay
        then status == OkStatus && turns == count + 2 && |v.consumed| == |start.consumed| + count
        else status == WouldBlock && turns == MaximumTurns(o, count))
  }

  /**
   * What a request for more comes to: the processor loses its device in the turn after those in which the devices
   * took all that they outlive, when the source has made one frame more.
   */
  predicate LosesDevice(v: Chain, start: Chain, o: Options, count: nat, status: StatusCode, turns: nat) {
    && turns == o.deviceLostAfter - start.processor.backend.submissions < count
    && status == DeviceLost && v.pipeline.Error? && Shaped(v) && v.states[PROCESSOR].Error?
    && v.made == start.made + Frames(start.nextPts, turns + 1)
    && |v.consumed| == |start.consumed| + Departed(|start.encoder.backend.queue|, o.outputDelay, count, turns)
  }

  lemma DepartedSoFar(start: Chain, o: Options, count: nat, n: nat, c: Chain)
    requires AfterTurns(start, o, count, n, c)
    ensures |c.consumed| == |start.consumed| + Departed(|start.encoder.backend.queue|, o.outputDelay, count, n)
  {
    hide Ready, Stream, Departed, Arrived, SourceAfter;
  }

  lemma QuiescentLoses(v: Chain, start: Chain, o: Options, count: nat, ended: StatusCode, status: StatusCode,
                       turns: nat)
    requires Quiescent(start, o) && count + 2 <= MAXIMUM && !Outlives(start, o, count)
    requires Answers(v, start, o, count, ended, status, turns)
    ensures LosesDevice(v, start, o, count, status, turns)
  {
    hide Tick, Quiescent, TickTimes, AfterTurns, Frames, Departed;
    var left, before := LossIsExact(start, o, count);
    assert turns > left ==> Needed(start, count, |start.consumed| + count, left);
    if turns < left {
      EncodedSoFar(start, o, count, turns);
      TurnIsOk(start, o, count, turns);
    } else if turns == left {
      EncodedSoFar(start, o, count, turns);
      DepartedSoFar(start, o, count, turns, before);
    }
  }

  lemma QuiescentFulfils(v: Chain, start: Chain, o: Options, count: nat, status: StatusCode, turns: nat)
    requires Quiescent(start, o) && 0 < count && count + 2 <= MAXIMUM && Outlives(start, o, count)
    requires Answers(v, start, o, count, OkStatus, status, turns)
    ensures Fulfils(v, start, o, count, status, turns)
  {
    IsAfter(v, start, count, |start.consumed| + count, turns);
    Outcome(start, o, count, turns);
    hide TickTimes, Quiescent, After;
  }

  // ---- Any sequence of requests ----

  lemma {:induction false} TickRunningKeepsPipeline(c: Chain, j: nat)
    requires Shaped(c) && j <= 4
    ensures TickRunning(c, j).1.pipeline == c.pipeline
    decreases 4 - j
  {
    hide TickHook;
    if j < 4 {
      TickRunningKeepsPipeline(if c.states[j].Running? then TickNode(c, j).1 else c, j + 1);
    }
  }

  lemma {:induction false} DrainEndsRunning(c: Chain)
    requires Shaped(c) && c.drainIndex <= 4 && !c.pipeline.Running?
    ensures !Drain(c).1.pipeline.Running?
    decreases 4 - c.drainIndex
  {
    hide StopHook, TickRunning, ResetBelow;
    if c.drainIndex < 4 {
      var (status, after) := StopNode(c, c.drainIndex);
      if TemporarilyEmpty(status) {
        TickRunningKeepsPipeline(after, after.drainIndex + 1);
      } else if status.OkStatus? {
        DrainEndsRunning(after.(drainIndex := c.drainIndex + 1));
      }
    }
  }

  /** A pipeline that was asked to stop runs no more, whatever it answers. */
  lemma StopEndsRunning(c: Chain)
    requires Shaped(c) && c.drainIndex <= 4
    ensures !Stop(c).1.pipeline.Running?
  {
    hide Drain, ResetBelow;
    if c.pipeline.Running? {
      DrainEndsRunning(c.(drainIndex := 0, pipeline := PipelineState.Draining));
    } else if c.pipeline.Draining? {
      DrainEndsRunning(c);
    }
  }

  /** What a client asks of the platform between whole turns of the pipeline. */
  datatype Request = StartRequest | TickRequest(count: nat) | StopRequest

  /** Between two requests a running pipeline is quiescent. */
  predicate Between(c: Chain, o: Options) {
    Inv(c, o) && (c.pipeline.Running? ==> Quiescent(c, o))
  }

  /** How many turns a request from a quiescent pipeline takes. */
  function TurnsOf(c: Chain, o: Options, count: nat): nat {
    if |c.encoder.backend.queue| == o.outputDelay then count + 2 else MaximumTurns(o, count)
  }

  function Requested(c: Chain, o: Options, r: Request): Chain
    requires Shaped(c) && c.drainIndex <= 4
  {
    match r
    case StartRequest => Start(c).1
    case StopRequest => Stop(c).1
    case TickRequest(count) =>
      if !c.pipeline.Running? || count == 0 || |c.consumed| + count > MAXIMUM then c
      else TickTimes(Refill(c, count), TurnsOf(c, o, count))
  }

  lemma QuiescentInv(c: Chain, o: Options)
    requires Quiescent(c, o)
    ensures Between(c, o)
  {
    hide Base, Staged;
  }

  lemma NeverLost(c: Chain, o: Options, count: nat)
    requires o.deviceLostAfter == 0
    ensures Outlives(c, o, count)
  {
  }

  lemma RefusedStart(c: Chain)
    requires Shaped(c) && !c.pipeline.Created? && !c.pipeline.Stopped?
    ensures Start(c).1 == c
  {
  }

  lemma RequestKeeps(c: Chain, o: Options, r: Request)
    requires Between(c, o) && Roomy(o) && o.deviceLostAfter == 0 && (r.TickRequest? ==> r.count + 2 <= MAXIMUM)
    ensures Between(Requested(c, o, r), o)
  {
    assert Shaped(c) && c.drainIndex <= 4;
    NeverLost(c, o, if r.TickRequest? then r.count else 0);
    hide Quiescent, Inv, Start, Stop, TickTimes;
    match r
    case StartRequest =>
      StartKeeps(c, o);
      if c.pipeline.Created? || c.pipeline.Stopped? { StartIsQuiescent(c, o); } else { RefusedStart(c); }
    case StopRequest =>
      StopWeighs(c, o);
      StopEndsRunning(c);
    case TickRequest(count) =>
      if c.pipeline.Running? && 0 < count && |c.consumed| + count <= MAXIMUM {
        ExactThroughput(c, o, count, TurnsOf(c, o, count));
        QuiescentInv(TickTimes(Refill(c, count), TurnsOf(c, o, count)), o);
      }
  }

  lemma StartsBetween(o: Options)
    ensures Between(Initial(o), o)
  {
    InitialInv(o);
  }

  /**
   * However a client starts, asks for frames and stops, every state in which it may ask again is one from which
   * the number of turns and packets is exact.
   */
  lemma {:induction false} RequestsStayExact(o: Options, states: seq<Chain>, requests: seq<Request>)
    requires Roomy(o) && o.deviceLostAfter == 0
    requires |states| == |requests| + 1 && states[0] == Initial(o)
    requires forall i :: 0 <= i < |requests| ==>
               && Shaped(states[i]) && states[i].drainIndex <= 4
               && states[i + 1] == Requested(states[i], o, requests[i])
    requires forall i :: 0 <= i < |requests| && requests[i].TickRequest? ==> requests[i].count + 2 <= MAXIMUM
    ensures Between(states[|requests|], o)
  {
    hide Requested, Between;
    var n := |requests|;
    if n == 0 {
      StartsBetween(o);
    } else {
      RequestsStayExact(o, states[..n], requests[..n - 1]);
      RequestKeeps(states[n - 1], o, requests[n - 1]);
    }
  }

  class ReferenceMediaPlatform {
    const options: Options
    const pipeline: Pipeline

    ghost predicate Valid()
      reads this, pipeline, pipeline.source, pipeline.source.output, pipeline.processor, pipeline.processor.output
      reads pipeline.encoder, pipeline.encoder.output, pipeline.sink
    {
      pipeline.Valid()
    }

    constructor (options: Options)
      ensures Valid() && pipeline.View() == Initial(options) && this.options == options
    {
      this.options := options;
      pipeline := new Pipeline(options);
    }

    /** Runs turns until the sink has `target` packets, a turn fails or the maximum is reached. */
    method RunTurns(target: nat, maximumTurns: nat, ghost start: Chain, ghost count: nat)
      returns (status: StatusCode, ghost turns: nat)
      requires Valid() && Shaped(start) && pipeline.View() == Refill(start, count)
      modifies pipeline.Footprint()
      ensures Valid() && Ends(pipeline.View(), start, count, target, maximumTurns, status, turns)
      ensures Quiescent(start, options) && Outlives(start, options, count) ==> status == OkStatus
    {
      hide ReferenceChain.Tick, Quiescent, After, TickTimes;
      assert After(pipeline.View(), start, count, target, 0) by { NoneYet(start, count, target); }
      var turn := 0;
      turns := 0;
      while pipeline.sink.encoded < target && turn < maximumTurns
        invariant Valid() && 0 <= turn <= maximumTurns && turns == turn
        invariant After(pipeline.View(), start, count, target, turn)
        decreases maximumTurns - turn
      {
        ghost var before := pipeline.View();
        assert before == TickTimes(Refill(start, count), turn) by { IsAfter(before, start, count, target, turn); }
        if Quiescent(start, options) && Outlives(start, options, count) {
          OneMoreIsOk(before, start, options, count, target, turn);
        }
        status := pipeline.Tick();
        if status != OkStatus {
          return;
        }
        OneMore(before, start, count, target, turn);
        turn := turn + 1;
        turns := turns + 1;
      }
      status := OkStatus;
    }

    /**
     * Asks for `count` more encoded frames. From a quiescent pipeline this takes exactly `count + 2` turns
     * and succeeds when the encoder already holds back its full delay; otherwise it gives up after the
     * maximum number of turns. Either way the pipeline is quiescent again, so requests compose. From any other
     * running pipeline, the first turn that fails ends the request with its status; without one, the request
     * succeeds exactly if the sink has then got what was asked for.
     */
    method Tick(count: nat) returns (status: StatusCode, ghost ended: StatusCode, ghost turns: nat)
      requires Valid() && |pipeline.sink.consumed| <= MAXIMUM
      modifies pipeline.Footprint()
      ensures Valid()
      ensures old(pipeline.state) != PipelineState.Running ==>
                status == InvalidState && pipeline.View() == old(pipeline.View())
      ensures old(pipeline.state) == PipelineState.Running && count == 0 ==>
                status == OkStatus && pipeline.View() == old(pipeline.View())
      ensures old(pipeline.state) == PipelineState.Running && 0 < count
              && count > MAXIMUM - |old(pipeline.View()).consumed| ==>
                status == InvalidArgument && pipeline.View() == old(pipeline.View())
      ensures old(pipeline.state) == PipelineState.Running && 0 < count
              && count <= MAXIMUM - |old(pipeline.View()).consumed| ==>
                && Answers(pipeline.View(), old(pipeline.View()), options, count, ended, status, turns)
                && (Quiescent(old(pipeline.View()), options) && count + 2 <= MAXIMUM ==>
                      if Outlives(old(pipeline.View()), options, count)
                      then Fulfils(pipeline.View(), old(pipeline.View()), options, count, status, turns)
                      else LosesDevice(pipeline.View(), old(pipeline.View()), options, count, status, turns))
    {
      hide ReferenceChain.Tick, Quiescent, Outlives, TickTimes, Ends, Fulfils, LosesDevice;
      ended, turns := OkStatus, 0;
      if pipeline.state != PipelineState.Running {
        return InvalidState, ended, turns;
      }
      if count == 0 {
        return OkStatus, ended, turns;
      }
      ghost var start := pipeline.View();
      var initial := pipeline.sink.encoded;
      if count > MAXIMUM - initial {
        return InvalidArgument, ended, turns;
      }
      var target := initial + count;
      pipeline.source.budget := count;
      status, turns := RunTurns(target, MaximumTurns(options, count), start, count);
      ended := status;
      if status == OkStatus && pipeline.sink.encoded != target {
        status := WouldBlock;
      }
      if Quiescent(start, options) && count + 2 <= MAXIMUM {
        if Outlives(start, options, count) {
          QuiescentFulfils(pipeline.View(), start, options, count, status, turns);
        } else {
          QuiescentLoses(pipeline.View(), start, options, count, ended, status, turns);
        }
      }
    }
  }
}

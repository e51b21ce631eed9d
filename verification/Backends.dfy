/** The reference processor and encoder: a FIFO with a capacity, an output delay and injected faults. */
module Backends {
  import opened Statuses

  /** A frame or a packet: its presentation time, and whether its format meets the configuration. */
  datatype Frame = Frame(pts: int, conforms: bool)

  datatype BackendState = Created | Configured | Running | Draining | Stopped | Error

  /** A loss count of zero means that no device loss is injected. */
  datatype Options = Options(queueCapacity: nat, outputDelay: nat, deviceLostAfter: nat, resetBlocksOnce: bool)

  /** The processor reads the same options but has neither an output delay nor reset back-pressure. */
  function ProcessorOptions(o: Options): Options {
    o.(outputDelay := 0, resetBlocksOnce := false)
  }

  datatype Backend = Backend(options: Options, state: BackendState, submissions: nat,
                             resetBlocked: bool, queue: seq<Frame>)

  predicate CanSubmit(state: BackendState) {
    state.Configured? || state.Running?
  }

  predicate CanReceive(state: BackendState) {
    CanSubmit(state) || state.Draining? || state.Stopped?
  }

  function WasConfigured(b: Backend): (StatusCode, Backend) {
    if !b.state.Created? then (InvalidState, b)
    else (OkStatus, b.(state := BackendState.Configured))
  }

  function Submitted(b: Backend, f: Frame): (StatusCode, Backend) {
    if !CanSubmit(b.state) then (InvalidState, b)
    else if !f.conforms then (CapabilityMismatch, b)
    else if b.options.deviceLostAfter != 0 && b.submissions >= b.options.deviceLostAfter then
      (DeviceLost, b.(queue := [], state := BackendState.Error))
    else if |b.queue| >= b.options.queueCapacity then (WouldBlock, b)
    else (OkStatus, b.(queue := b.queue + [f], submissions := b.submissions + 1, state := BackendState.Running))
  }

  function Received(b: Backend): (Result<Frame>, Backend) {
    if !CanReceive(b.state) then (Failure(InvalidState), b)
    else if b.state.Stopped? then (Failure(EndOfStream), b)
    else if b.queue != [] && (b.state.Draining? || |b.queue| > b.options.outputDelay) then
      (Success(b.queue[0]), b.(queue := b.queue[1..]))
    else if b.state.Draining? then (Failure(EndOfStream), b.(state := BackendState.Stopped))
    else (Failure(WouldBlock), b)
  }

  function DrainBegun(b: Backend): (StatusCode, Backend) {
    if b.state.Stopped? || b.state.Draining? then (OkStatus, b)
    else if !CanSubmit(b.state) then (InvalidState, b)
    else (OkStatus, b.(state := BackendState.Draining))
  }

  function WasReset(b: Backend): (StatusCode, Backend) {
    if b.options.resetBlocksOnce && !b.resetBlocked then (WouldBlock, b.(resetBlocked := true))
    else (OkStatus, b.(queue := [], submissions := 0, state := BackendState.Created))
  }

  datatype BackendCall = ConfigureCall | SubmitCall(frame: Frame) | ReceiveCall | DrainCall | ResetCall

  /**
   * What a client saw of a backend since the last reset: whether it was configured, what was accepted and handed
   * out, whether a drain was granted and whether the device was lost. `heldUp` remembers a reset that would block.
   */
  datatype BackendRun = BackendRun(configured: bool, accepted: seq<Frame>, emitted: seq<Frame>, drained: bool,
                                   lost: bool, heldUp: bool, backend: Backend)

  function NewRun(o: Options): BackendRun {
    BackendRun(false, [], [], false, false, false, Backend(o, BackendState.Created, 0, false, []))
  }

  /** The history is updated by the call and its answer alone. */
  function RunCall(r: BackendRun, call: BackendCall): BackendRun {
    match call
    case ConfigureCall =>
      var (status, after) := WasConfigured(r.backend);
      r.(configured := r.configured || status.OkStatus?, backend := after)
    case SubmitCall(f) =>
      var (status, after) := Submitted(r.backend, f);
      r.(accepted := if status.OkStatus? then r.accepted + [f] else r.accepted,
         lost := r.lost || status.DeviceLost?, backend := after)
    case ReceiveCall =>
      var (out, after) := Received(r.backend);
      r.(emitted := if out.Success? then r.emitted + [out.value] else r.emitted, backend := after)
    case DrainCall =>
      var (status, after) := DrainBegun(r.backend);
      r.(drained := r.drained || status.OkStatus?, backend := after)
    case ResetCall =>
      var (status, after) := WasReset(r.backend);
      if status.OkStatus? then BackendRun(false, [], [], false, false, r.heldUp, after)
      else r.(heldUp := true, backend := after)
  }

  function RunCalls(r: BackendRun, calls: seq<BackendCall>): BackendRun
    decreases |calls|
  {
    if calls == [] then r else RunCall(RunCalls(r, calls[..|calls| - 1]), calls[|calls| - 1])
  }

  /** What the backend holds is what was accepted and not yet handed out, unless the device was lost. */
  predicate Accounts(r: BackendRun, o: Options) {
    && r.backend.options == o && r.emitted <= r.accepted
    && r.backend.queue == (if r.lost then [] else r.accepted[|r.emitted|..])
    && |r.accepted| - |r.emitted| <= o.queueCapacity
    && r.backend.submissions == |r.accepted|
    && (o.deviceLostAfter != 0 ==> |r.accepted| <= o.deviceLostAfter)
    && (r.lost ==> 0 < o.deviceLostAfter == |r.accepted|)
    && r.backend.resetBlocked == r.heldUp && (r.heldUp ==> o.resetBlocksOnce)
    && (!r.configured ==> r.accepted == [] && !r.drained && !r.lost)
  }

  /** The state of the backend says which calls were granted. */
  predicate StateTells(r: BackendRun) {
    var s := r.backend.state;
    if !r.configured then s.Created?
    else if r.lost then s.Error?
    else if r.drained then s.Draining? || (s.Stopped? && r.emitted == r.accepted)
    else CanSubmit(s)
  }

  lemma SubmitAccounts(r: BackendRun, o: Options, f: Frame)
    requires Accounts(r, o) && StateTells(r)
    ensures Accounts(RunCall(r, SubmitCall(f)), o) && StateTells(RunCall(r, SubmitCall(f)))
  {
    var k := |r.emitted|;
    assert r.emitted <= r.accepted + [f] && (r.accepted + [f])[k..] == r.accepted[k..] + [f];
  }

  lemma ReceiveAccounts(r: BackendRun, o: Options)
    requires Accounts(r, o) && StateTells(r)
    ensures Accounts(RunCall(r, ReceiveCall), o) && StateTells(RunCall(r, ReceiveCall))
  {
    var k := |r.emitted|;
    if Received(r.backend).0.Success? {
      assert r.accepted[k..][1..] == r.accepted[k + 1..] && r.emitted + [r.accepted[k]] == r.accepted[..k + 1];
    }
  }

  lemma CallAccounts(r: BackendRun, o: Options, call: BackendCall)
    requires Accounts(r, o) && StateTells(r)
    ensures Accounts(RunCall(r, call), o) && StateTells(RunCall(r, call))
  {
    match call
    case SubmitCall(f) => SubmitAccounts(r, o, f);
    case ReceiveCall => ReceiveAccounts(r, o);
    case ConfigureCall =>
    case DrainCall =>
    case ResetCall =>
  }

  lemma {:induction false} RunAccounts(o: Options, calls: seq<BackendCall>)
    ensures Accounts(RunCalls(NewRun(o), calls), o) && StateTells(RunCalls(NewRun(o), calls))
  {
    if calls != [] {
      hide RunCall, Accounts, StateTells;
      RunAccounts(o, calls[..|calls| - 1]);
      CallAccounts(RunCalls(NewRun(o), calls[..|calls| - 1]), o, calls[|calls| - 1]);
    }
  }

  /**
   * Whatever the calls, a backend hands out what it accepted, in order, and holds the rest until its device is
   * lost; it never accepts more frames than its device outlives, nor holds more than its capacity.
   */
  lemma BackendIsFifo(o: Options, calls: seq<BackendCall>)
    ensures var r := RunCalls(NewRun(o), calls);
            && r.emitted <= r.accepted
            && r.accepted == r.emitted + (if r.lost then r.accepted[|r.emitted|..] else r.backend.queue)
            && (r.lost ==> r.backend.queue == [])
            && (o.deviceLostAfter != 0 ==> |r.accepted| <= o.deviceLostAfter)
            && |r.accepted| - |r.emitted| <= o.queueCapacity
  {
    RunAccounts(o, calls);
  }

  /** What a submit answers after any calls: the device is lost exactly when it has taken all it outlives. */
  lemma SubmitAnswers(o: Options, calls: seq<BackendCall>, f: Frame)
    ensures var r := RunCalls(NewRun(o), calls);
            var (status, after) := Submitted(r.backend, f);
            && status == (if !r.configured || r.lost || r.drained then InvalidState
                          else if !f.conforms then CapabilityMismatch
                          else if 0 < o.deviceLostAfter == |r.accepted| then DeviceLost
                          else if |r.accepted| - |r.emitted| == o.queueCapacity then WouldBlock
                          else OkStatus)
            && (status.DeviceLost? ==> after.state.Error? && after.queue == [])
            && (status.OkStatus? ==> after.state.Running? && after.queue == r.backend.queue + [f])
            && (!status.DeviceLost? && !status.OkStatus? ==> after == r.backend)
  {
    RunAccounts(o, calls);
  }

  /** What a receive answers: the oldest frame beyond the delay, or of all once a drain was granted. */
  lemma ReceiveAnswers(o: Options, calls: seq<BackendCall>)
    ensures var r := RunCalls(NewRun(o), calls);
            && r.emitted <= r.accepted
            && var waiting := r.accepted[|r.emitted|..];
               Received(r.backend).0 ==
                 if !r.configured || r.lost then Failure(InvalidState)
                 else if r.drained then (if waiting == [] then Failure(EndOfStream) else Success(waiting[0]))
                 else if |waiting| > o.outputDelay then Success(waiting[0])
                 else Failure(WouldBlock)
  {
    RunAccounts(o, calls);
  }

  /** What the other calls answer: a backend is configured once, drained while it lives, and reset at any time. */
  lemma ControlAnswers(o: Options, calls: seq<BackendCall>)
    ensures var r := RunCalls(NewRun(o), calls);
            && WasConfigured(r.backend).0 == (if r.configured then InvalidState else OkStatus)
            && DrainBegun(r.backend).0 == (if !r.configured || r.lost then InvalidState else OkStatus)
            && WasReset(r.backend).0 == (if o.resetBlocksOnce && !r.heldUp then WouldBlock else OkStatus)
            && (WasReset(r.backend).0.OkStatus? ==>
                  WasReset(r.backend).1 == NewRun(o).backend.(resetBlocked := r.heldUp))
  {
    RunAccounts(o, calls);
  }

  function Receives(n: nat): seq<BackendCall> {
    seq(n, _ => ReceiveCall)
  }

  /** One more receive on top of those before it. */
  lemma OneMoreReceive(r: BackendRun, n: nat)
    requires n > 0
    ensures RunCalls(r, Receives(n)) == RunCall(RunCalls(r, Receives(n - 1)), ReceiveCall)
  {
    assert Receives(n)[..n - 1] == Receives(n - 1);
    assert Receives(n)[n - 1] == ReceiveCall;
  }

  /** What `n` receives of a draining backend come to: its oldest frames, and in the end its end of stream. */
  predicate DrainedBy(r: BackendRun, n: nat, d: BackendRun) {
    var left := |r.accepted| - |r.emitted|;
    && d.emitted == (if n <= left then r.accepted[..|r.emitted| + n] else r.accepted)
    && d.backend.queue == (if n <= left then r.accepted[|r.emitted| + n..] else [])
    && (d.backend.state.Draining? || (d.backend.state.Stopped? && d.backend.queue == []))
    && (n > left ==> d.backend.state.Stopped?)
  }

  lemma DrainsOneMore(r: BackendRun, n: nat, d: BackendRun)
    requires r.emitted <= r.accepted && DrainedBy(r, n, d)
    ensures DrainedBy(r, n + 1, RunCall(d, ReceiveCall))
  {
    var k := |r.emitted| + n;
    if k < |r.accepted| {
      assert r.accepted[..k + 1] == r.accepted[..k] + [r.accepted[k]] && r.accepted[k..][1..] == r.accepted[k + 1..];
    }
  }

  lemma {:induction false} ReceivesDrain(r: BackendRun, n: nat)
    requires r.emitted <= r.accepted && DrainedBy(r, 0, r)
    ensures DrainedBy(r, n, RunCalls(r, Receives(n)))
  {
    if n > 0 {
      hide DrainedBy;
      ReceivesDrain(r, n - 1);
      OneMoreReceive(r, n);
      DrainsOneMore(r, n - 1, RunCalls(r, Receives(n - 1)));
    }
  }

  /**
   * After any calls, once a drain was granted and the device holds, the delay no longer holds anything back: `n`
   * receives hand out the next `n` frames that were accepted, then the end of stream.
   */
  lemma DrainEmitsBacklog(o: Options, calls: seq<BackendCall>, n: nat)
    requires RunCalls(NewRun(o), calls).drained && !RunCalls(NewRun(o), calls).lost
    ensures var r := RunCalls(NewRun(o), calls);
            var d := RunCalls(r, Receives(n));
            var left := |r.accepted| - |r.emitted|;
            && r.emitted <= r.accepted
            && d.emitted == (if n <= left then r.accepted[..|r.emitted| + n] else r.accepted)
            && (n >= left ==> Received(d.backend).0 == Failure(EndOfStream))
            && (n > left ==> d.backend.state.Stopped?)
  {
    RunAccounts(o, calls);
    var r := RunCalls(NewRun(o), calls);
    assert r.accepted[..|r.emitted|] == r.emitted;
    hide RunCall;
    ReceivesDrain(r, n);
  }

  class ReferenceBackend {
    const options: Options
    var state: BackendState
    var submissions: nat
    var resetBlocked: bool
    var queue: seq<Frame>

    function View(): Backend
      reads this
    {
      Backend(options, state, submissions, resetBlocked, queue)
    }

    constructor (options: Options)
      ensures View() == Backend(options, BackendState.Created, 0, false, [])
    {
      this.options := options;
      state := BackendState.Created;
      submissions := 0;
      resetBlocked := false;
      queue := [];
    }

    method Configure() returns (status: StatusCode)
      modifies this
      ensures (status, View()) == WasConfigured(old(View()))
    {
      if state != BackendState.Created {
        return InvalidState;
      }
      state := BackendState.Configured;
      return OkStatus;
    }

    method Submit(f: Frame) returns (status: StatusCode)
      modifies this
      ensures (status, View()) == Submitted(old(View()), f)
    {
      if !CanSubmit(state) {
        return InvalidState;
      }
      if !f.conforms {
        return CapabilityMismatch;
      }
      if options.deviceLostAfter != 0 && submissions >= options.deviceLostAfter {
        queue := [];
        state := BackendState.Error;
        return DeviceLost;
      }
      if |queue| >= options.queueCapacity {
        return WouldBlock;
      }
      queue := queue + [f];
      submissions := submissions + 1;
      state := BackendState.Running;
      return OkStatus;
    }

    method Receive() returns (r: Result<Frame>)
      modifies this
      ensures (r, View()) == Received(old(View()))
    {
      if !CanReceive(state) {
        return Failure(InvalidState);
      }
      if state == BackendState.Stopped {
        return Failure(EndOfStream);
      }
      if queue != [] && (state == BackendState.Draining || |queue| > options.outputDelay) {
        r := Success(queue[0]);
        queue := queue[1..];
        return;
      }
      if state == BackendState.Draining {
        state := BackendState.Stopped;
        return Failure(EndOfStream);
      }
      return Failure(WouldBlock);
    }

    method BeginDrain() returns (status: StatusCode)
      modifies this
      ensures (status, View()) == DrainBegun(old(View()))
    {
      if state == BackendState.Stopped || state == BackendState.Draining {
        return OkStatus;
      }
      if state != BackendState.Configured && state != BackendState.Running {
        return InvalidState;
      }
      state := BackendState.Draining;
      return OkStatus;
    }

    method Reset() returns (status: StatusCode)
      modifies this
      ensures (status, View()) == WasReset(old(View()))
    {
      if options.resetBlocksOnce && !resetBlocked {
        resetBlocked := true;
        return WouldBlock;
      }
      queue := [];
      submissions := 0;
      state := BackendState.Created;
      return OkStatus;
    }
  }
}

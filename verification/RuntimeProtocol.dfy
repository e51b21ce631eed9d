/**
 * The start/stop/join protocol of the Linux runtime as a transition system: one reactor thread, any number
 * of threads that call start() and stop(), critical sections under the runtime mutex as single steps, and
 * the wake, the join and the close of the event loop as steps of their own outside it.
 */
module RuntimeProtocol {
  import opened Statuses

  datatype RuntimeState = Created | Starting | Running | Stopping | Stopped | Error

  datatype Loop = Uninitialized | Open | Closed

  /** The first failure of each kind; one of the media outweighs one of the reactor, and that one of an observer. */
  datatype Failures = Failures(media: StatusCode, reactor: StatusCode, observer: StatusCode)

  const NO_FAILURES := Failures(OkStatus, OkStatus, OkStatus)

  datatype Reactor =
    | NotSpawned
    | Startup
    | StartupFailed(f: Failures)
    | Polling
    | Exiting(f: Failures)
    | AwaitingWakes(f: Failures)
    | Draining(f: Failures)
    | Closing(f: Failures)
    | Finishing(f: Failures)
    | Ending
    | Done

  /** What a caller answers once the reactor thread is joined. */
  datatype Reply = StopResult | SavedStopResult(status: StatusCode) | StartResult(status: StatusCode)

  datatype Caller =
    | Idle
    | InStop
    | WakeClaimed
    | WakeDone(wake: StatusCode)
    | AwaitingStartup
    | Joining(reply: Reply)
    | JoinOwner(reply: Reply)
    | Joined(reply: Reply)
    | Replying(reply: Reply)

  /**
   * `thrown`, `joinOwner`, `joins` and `stopAnswers` are histories: whether an exception has ended the reactor's
   * work, who holds the join claim, how often the thread was joined, what every finished stop() answered, and what
   * every start() answered that had created the thread.
   */
  datatype Runtime = Runtime(
    state: RuntimeState, startupCompleted: bool, threadExited: bool, stopRequested: bool,
    reactorExiting: bool, wakeInFlight: int, joinClaimed: bool, joinCompleted: bool,
    stopResult: StatusCode, startupResult: StatusCode, joinable: bool, hasPipelines: bool,
    loop: Loop, reactor: Reactor, thrown: bool, callers: map<nat, Caller>,
    joinOwner: Option<nat>, joins: nat, stopAnswers: set<StatusCode>, startAnswers: set<StatusCode>)

  function Initial(hasPipelines: bool): Runtime {
    Runtime(Created, false, false, false, false, 0, false, false, OkStatus, InvalidState, false, hasPipelines,
            Uninitialized, NotSpawned, false, map[], None, 0, {}, {})
  }

  function At(r: Runtime, t: nat): Caller {
    if t in r.callers then r.callers[t] else Idle
  }

  function Move(r: Runtime, t: nat, c: Caller): (s: Runtime)
    ensures s.state == r.state && s.stopResult == r.stopResult
    ensures s.wakeInFlight == r.wakeInFlight && s.reactor == r.reactor && s.joins == r.joins
    ensures s.hasPipelines == r.hasPipelines
  {
    r.(callers := r.callers[t := c])
  }

  datatype Action =
    | CallStop(t: nat)
    | StopSection(t: nat)
    | Wake(t: nat, status: StatusCode)
    | WakeSection(t: nat, wake: StatusCode)
    | CallStart(t: nat, spawned: bool, failure: StatusCode)
    | StartupSection(t: nat)
    | JoinSection(t: nat)
    | JoinThread(t: nat)
    | JoinedSection(t: nat)
    | Answer(t: nat)
    | InitializeLoop
    | InvalidateLoop
    | StartupSucceeds
    | StartupFails(f: Failures)
    | CloseAfterFailedStartup(f: Failures)
    | LeavePolling(f: Failures)
    | Throw(failure: StatusCode)
    | MarkExiting
    | WakesReturned
    | DrainEnds(f: Failures)
    | CloseLoop(f: Failures)
    | Finish
    | ThreadEnds

  predicate Ok(f: Failures) {
    f.media.OkStatus? && f.reactor.OkStatus? && f.observer.OkStatus?
  }

  /** Later failures never replace the first one of their kind. */
  function Recorded(f: Failures, g: Failures): Failures {
    Failures(RecordFirst(f.media, g.media), RecordFirst(f.reactor, g.reactor), RecordFirst(f.observer, g.observer))
  }

  predicate CanThrow(p: Reactor) {
    p.Startup? || p.StartupFailed? || p.Polling? || p.Draining? || p.Closing?
  }

  predicate Enabled(r: Runtime, a: Action) {
    match a
    case CallStop(t) => At(r, t).Idle?
    case StopSection(t) => At(r, t).InStop? && !r.state.Starting?
    case Wake(t, _) => At(r, t).WakeClaimed?
    case WakeSection(t, wake) => At(r, t) == WakeDone(wake)
    case CallStart(t, _, failure) => At(r, t).Idle? && !failure.OkStatus?
    case StartupSection(t) => At(r, t).AwaitingStartup? && r.startupCompleted
    case JoinSection(t) => At(r, t).Joining? && (r.joinCompleted || !r.joinClaimed)
    case JoinThread(t) => At(r, t).JoinOwner? && r.reactor.Done?
    case JoinedSection(t) => At(r, t).Joined?
    case Answer(t) => At(r, t).Replying?
    case InitializeLoop => r.reactor.Startup? && r.loop.Uninitialized?
    case InvalidateLoop => r.reactor.Startup? && r.loop.Open?
    case StartupSucceeds => r.reactor.Startup? && r.loop.Open?
    case StartupFails(f) => r.reactor.Startup? && !Ok(f)
    case CloseAfterFailedStartup(f) => r.reactor.StartupFailed? && f.media.OkStatus?
    case LeavePolling(f) => r.reactor.Polling? && (!Ok(f) || r.stopRequested)
    case Throw(failure) => CanThrow(r.reactor) && !r.thrown && !failure.OkStatus?
    case MarkExiting => r.reactor.Exiting?
    case WakesReturned => r.reactor.AwaitingWakes? && r.wakeInFlight == 0
    case DrainEnds(_) => r.reactor.Draining?
    case CloseLoop(f) => r.reactor.Closing? && f.media.OkStatus?
    case Finish => r.reactor.Finishing?
    case ThreadEnds => r.reactor.Ending?
  }

  /** The critical section at the head of stop(). */
  function StopSectionStep(r: Runtime, t: nat): (s: Runtime)
    ensures s.joins == r.joins && s.hasPipelines == r.hasPipelines
  {
    var s := if r.state.Created? then r.(state := Stopped, stopResult := OkStatus) else r;
    if s.state.Stopped? then Move(s, t, Joining(StopResult))
    else if s.state.Error? && s.threadExited then Move(s, t, Joining(SavedStopResult(s.stopResult)))
    else if s.reactorExiting then Move(s, t, Joining(StopResult))
    else Move(s.(stopRequested := true, state := Stopping, wakeInFlight := s.wakeInFlight + 1), t, WakeClaimed)
  }

  /** start() up to its wait, with the outcome of creating the thread. */
  function StartStep(r: Runtime, t: nat, spawned: bool, failure: StatusCode): (s: Runtime)
    ensures s.joins == r.joins && s.hasPipelines == r.hasPipelines
  {
    if !r.state.Created? || !r.hasPipelines then r
    else
      var s := r.(threadExited := false, stopRequested := false, reactorExiting := false, wakeInFlight := 0,
                  joinClaimed := false, joinCompleted := false, startupCompleted := false);
      if spawned then
        Move(s.(state := Starting, stopResult := OkStatus, startupResult := InvalidState,
                joinable := true, reactor := Startup), t, AwaitingStartup)
      else
        s.(state := Error, stopResult := failure, startupResult := failure, startupCompleted := true,
           threadExited := true)
  }

  /** start() after its wait: a failed startup is joined before it is answered. */
  function StartupSectionStep(r: Runtime, t: nat): (s: Runtime)
    ensures s.state == r.state && s.stopResult == r.stopResult
    ensures s.wakeInFlight == r.wakeInFlight && s.joins == r.joins && s.hasPipelines == r.hasPipelines
  {
    if r.startupResult.OkStatus? then Move(r.(startAnswers := r.startAnswers + {OkStatus}), t, Idle)
    else Move(r, t, Joining(StartResult(r.startupResult)))
  }

  function JoinSectionStep(r: Runtime, t: nat, reply: Reply): (s: Runtime)
    ensures s.state == r.state && s.stopResult == r.stopResult
    ensures s.wakeInFlight == r.wakeInFlight && s.joins == r.joins && s.hasPipelines == r.hasPipelines
  {
    if r.joinCompleted then Move(r, t, Replying(reply))
    else if !r.joinable then Move(r.(joinCompleted := true), t, Replying(reply))
    else Move(r.(joinClaimed := true, joinOwner := Some(t)), t, JoinOwner(reply))
  }

  /** What a stop() answers once the thread is joined. */
  function Said(r: Runtime, reply: Reply): set<StatusCode> {
    match reply
    case StopResult => {r.stopResult}
    case SavedStopResult(status) => {status}
    case StartResult(_) => {}
  }

  /** What a start() answers whose startup failed. */
  function SaidAtStart(reply: Reply): set<StatusCode> {
    if reply.StartResult? then {reply.status} else {}
  }

  function AnswerStep(r: Runtime, t: nat, reply: Reply): (s: Runtime)
    ensures s.state == r.state && s.stopResult == r.stopResult
    ensures s.wakeInFlight == r.wakeInFlight && s.joins == r.joins && s.hasPipelines == r.hasPipelines
  {
    var s := r.(stopAnswers := r.stopAnswers + Said(r, reply), startAnswers := r.startAnswers + SaidAtStart(reply));
    Move(s, t, Idle)
  }

  function FinishStep(r: Runtime, f: Failures): (s: Runtime)
    ensures s.reactor.Ending? && s.thrown == r.thrown && s.loop == r.loop && s.hasPipelines == r.hasPipelines
  {
    var selected := if !f.media.OkStatus? then f.media else if !f.reactor.OkStatus? then f.reactor else f.observer;
    var final := if f.media.OkStatus? && !r.stopResult.OkStatus? then r.stopResult else selected;
    r.(threadExited := true, stopResult := final,
       startupResult := if r.startupCompleted then r.startupResult
                        else if final.OkStatus? then Internal else final,
       startupCompleted := true,
       state := if final.OkStatus? then Stopped else Error,
       reactor := Ending)
  }

  function WakeSectionStep(r: Runtime, t: nat, wake: StatusCode): (s: Runtime)
    ensures s.wakeInFlight == r.wakeInFlight - 1 && s.joins == r.joins && s.hasPipelines == r.hasPipelines
  {
    Move(r.(wakeInFlight := r.wakeInFlight - 1, stopResult := RecordFirst(r.stopResult, wake)), t, Joining(StopResult))
  }

  predicate ReactorAction(a: Action) {
    !a.CallStop? && !a.StopSection? && !a.Wake? && !a.WakeSection? && !a.CallStart? && !a.StartupSection?
    && !a.JoinSection? && !a.JoinThread? && !a.JoinedSection? && !a.Answer?
  }

  function CallerStep(r: Runtime, a: Action): Runtime
    requires Enabled(r, a) && !ReactorAction(a)
  {
    match a
    case CallStop(t) => Move(r, t, InStop)
    case StopSection(t) => StopSectionStep(r, t)
    case Wake(t, status) => Move(r, t, WakeDone(status))
    case WakeSection(t, wake) => WakeSectionStep(r, t, wake)
    case CallStart(t, spawned, failure) => StartStep(r, t, spawned, failure)
    case StartupSection(t) => StartupSectionStep(r, t)
    case JoinSection(t) => JoinSectionStep(r, t, At(r, t).reply)
    case JoinThread(t) => Move(r.(joinable := false, joins := r.joins + 1), t, Joined(At(r, t).reply))
    case JoinedSection(t) =>
      Move(r.(joinClaimed := false, joinCompleted := true, joinOwner := None), t, Replying(At(r, t).reply))
    case Answer(t) => AnswerStep(r, t, At(r, t).reply)
  }

  function ReactorStep(r: Runtime, a: Action): (s: Runtime)
    requires Enabled(r, a) && ReactorAction(a)
    ensures s.callers == r.callers && s.wakeInFlight == r.wakeInFlight && s.joins == r.joins
    ensures s.hasPipelines == r.hasPipelines
  {
    match a
    case InitializeLoop => r.(loop := Open)
    case InvalidateLoop => r.(loop := Closed)
    case StartupSucceeds =>
      r.(state := Running, startupResult := OkStatus, startupCompleted := true, reactor := Polling)
    case StartupFails(f) => r.(reactor := StartupFailed(f))
    case CloseAfterFailedStartup(f) => r.(loop := Closed, reactor := Finishing(Recorded(r.reactor.f, f)))
    case LeavePolling(f) => r.(reactor := Exiting(f))
    case Throw(failure) => r.(reactor := Exiting(NO_FAILURES.(media := failure)), thrown := true)
    case MarkExiting => r.(reactorExiting := true, reactor := AwaitingWakes(r.reactor.f))
    case WakesReturned => r.(reactor := Draining(r.reactor.f))
    case DrainEnds(f) => r.(reactor := Closing(Recorded(r.reactor.f, f)))
    case CloseLoop(f) => r.(loop := Closed, reactor := Finishing(Recorded(r.reactor.f, f)))
    case Finish => FinishStep(r, r.reactor.f)
    case ThreadEnds => r.(reactor := Done)
  }

  function Step(r: Runtime, a: Action): Runtime
    requires Enabled(r, a)
  {
    if ReactorAction(a) then ReactorStep(r, a) else CallerStep(r, a)
  }

  // ---------------------------------------------------------------- the invariant

  predicate Waking(c: Caller) {
    c.WakeClaimed? || c.WakeDone?
  }

  function Wakers(r: Runtime): set<nat> {
    set t | t in r.callers && Waking(r.callers[t])
  }

  predicate Terminal(r: Runtime) {
    r.state.Stopped? || r.state.Error?
  }

  /** The thread that could still run reactor code is gone, or never was. */
  predicate ThreadOver(r: Runtime) {
    r.reactor.NotSpawned? || r.reactor.Done?
  }

  predicate BeforeExit(p: Reactor) {
    p.Polling? || p.Exiting? || p.AwaitingWakes?
  }

  predicate ReactorAgrees(r: Runtime) {
    match r.reactor
    case NotSpawned =>
      && (r.state.Created? || Terminal(r)) && !r.joinable && r.joins == 0 && !r.joinClaimed
      && !r.stopRequested && !r.reactorExiting
      && (r.state.Created? ==> !r.joinCompleted && !r.startupCompleted && r.stopAnswers == {})
    case Startup => r.state.Starting? && !r.startupCompleted && !r.reactorExiting
    case StartupFailed(f) => r.state.Starting? && !r.startupCompleted && !r.reactorExiting && !Ok(f)
    case Polling => (r.state.Running? || r.state.Stopping?) && r.startupCompleted && !r.reactorExiting && r.loop.Open?
    case Exiting(_) => !Terminal(r) && !r.state.Created? && (r.startupCompleted <==> !r.state.Starting?)
                       && (r.startupCompleted && !r.reactorExiting ==> r.loop.Open?)
    case AwaitingWakes(_) => !Terminal(r) && !r.state.Created? && (r.startupCompleted <==> !r.state.Starting?)
                             && r.reactorExiting
    case Draining(_) => !Terminal(r) && !r.state.Created? && (r.startupCompleted <==> !r.state.Starting?)
                             && r.reactorExiting
    case Closing(_) => !Terminal(r) && !r.state.Created? && (r.startupCompleted <==> !r.state.Starting?)
                             && r.reactorExiting
    case Finishing(_) => !Terminal(r) && !r.state.Created? && (r.startupCompleted <==> !r.state.Starting?)
                         && (r.reactorExiting || r.state.Starting?)
    case Ending => Terminal(r) && r.threadExited && r.startupCompleted
    case Done => Terminal(r) && r.threadExited && r.startupCompleted
  }

  predicate Owning(c: Caller) {
    c.JoinOwner? || c.Joined?
  }

  predicate ReplyAgrees(r: Runtime, reply: Reply) {
    match reply
    case StopResult => Terminal(r) || r.stopRequested || r.reactorExiting
    case SavedStopResult(status) => Terminal(r) && status == r.stopResult
    case StartResult(status) => Terminal(r) && r.startupCompleted && status == r.startupResult
  }

  predicate PlaceAgrees(r: Runtime, c: Caller) {
    match c
    case Idle => true
    case InStop => true
    case WakeClaimed => true
    case WakeDone(_) => true
    case AwaitingStartup => !r.reactor.NotSpawned?
    case Joining(reply) => ReplyAgrees(r, reply)
    case JoinOwner(reply) => ReplyAgrees(r, reply) && r.joinable && !r.reactor.NotSpawned?
    case Joined(reply) => ReplyAgrees(r, reply) && !r.joinable && r.reactor.Done?
    case Replying(reply) => ReplyAgrees(r, reply) && r.joinCompleted && Terminal(r)
  }

  predicate CallerAgrees(r: Runtime, t: nat) {
    (Owning(At(r, t)) <==> r.joinOwner == Some(t)) && PlaceAgrees(r, At(r, t))
  }

  /** A failed startup is only ever reported together with the final state. */
  predicate StartupReported(r: Runtime) {
    r.startupCompleted && !r.startupResult.OkStatus? ==> Terminal(r)
  }

  ghost predicate Globals(r: Runtime) {
    && r.wakeInFlight == |Wakers(r)|
    && (r.wakeInFlight > 0 ==> r.state.Stopping? && r.loop.Open? && BeforeExit(r.reactor) && r.stopRequested)
    && ReactorAgrees(r)
    && (r.joinClaimed <==> r.joinOwner.Some?)
    && r.joins <= 1 && (r.joinable <==> !r.reactor.NotSpawned? && r.joins == 0)
    && (r.joins == 1 ==> r.reactor.Done?)
    && (r.joinCompleted ==> !r.joinable && !r.joinClaimed && ThreadOver(r) && Terminal(r))
    && (r.state.Error? ==> r.threadExited)
    && StartupReported(r)
    && (forall a :: a in r.stopAnswers ==> Terminal(r) && ThreadOver(r) && a == r.stopResult)
    && (forall a :: a in r.startAnswers ==> r.startupCompleted && a == r.startupResult)
  }

  ghost predicate Inv(r: Runtime) {
    Globals(r) && forall t: nat :: CallerAgrees(r, t)
  }

  lemma WakersMove(r: Runtime, t: nat, c: Caller)
    ensures Wakers(Move(r, t, c)) == if Waking(c) then Wakers(r) + {t} else Wakers(r) - {t}
  {
  }

  lemma InitialInv(hasPipelines: bool)
    ensures Inv(Initial(hasPipelines))
  {
    assert Wakers(Initial(hasPipelines)) == {};
  }

  /** Nothing that a caller other than the one who moved relies on has got worse. */
  predicate Monotone(r: Runtime, s: Runtime) {
    && (Terminal(r) ==> Terminal(s) && s.stopResult == r.stopResult)
    && (r.stopRequested ==> s.stopRequested) && (r.reactorExiting ==> s.reactorExiting)
    && (r.joinCompleted ==> s.joinCompleted)
    && (r.startupCompleted ==> s.startupCompleted && s.startupResult == r.startupResult)
    && (!r.reactor.NotSpawned? ==> !s.reactor.NotSpawned?) && (r.reactor.Done? ==> s.reactor.Done?)
  }

  /** Caller `u` keeps its agreement when somebody else moves from `r` to `s`. */
  lemma BystanderKeeps(r: Runtime, s: Runtime, u: nat)
    requires CallerAgrees(r, u) && At(s, u) == At(r, u) && Monotone(r, s)
    requires s.joinOwner == Some(u) <==> r.joinOwner == Some(u)
    requires r.joinOwner == Some(u) ==> s.joinable == r.joinable
    ensures CallerAgrees(s, u)
  {
  }

  /** A step of caller `t` that changes nothing others rely on, and leaves `t` itself in agreement. */
  lemma CallerMoves(r: Runtime, s: Runtime, t: nat)
    requires Inv(r) && Globals(s) && Monotone(r, s) && CallerAgrees(s, t)
    requires forall u: nat :: u != t ==> At(s, u) == At(r, u)
    requires forall u: nat :: u != t ==> (s.joinOwner == Some(u) <==> r.joinOwner == Some(u))
    requires s.joinable == r.joinable || forall u: nat :: u != t ==> r.joinOwner != Some(u)
    ensures Inv(s)
  {
    forall u: nat
      ensures CallerAgrees(s, u)
    {
      if u != t { BystanderKeeps(r, s, u); }
    }
  }

  /** A step of the reactor moves no caller. */
  lemma ReactorMoves(r: Runtime, s: Runtime)
    requires Inv(r) && Globals(s) && Monotone(r, s)
    requires s.callers == r.callers && s.joinOwner == r.joinOwner && s.joinable == r.joinable
    ensures Inv(s)
  {
    forall u: nat
      ensures CallerAgrees(s, u)
    {
      BystanderKeeps(r, s, u);
    }
  }

  /** A caller that neither wakes nor joins goes to another such place. */
  lemma Repositions(r: Runtime, t: nat, c: Caller)
    requires Inv(r) && PlaceAgrees(r, c)
    requires !Waking(At(r, t)) && !Waking(c) && !Owning(At(r, t)) && !Owning(c)
    ensures Inv(Move(r, t, c))
  {
    var s := Move(r, t, c);
    WakersMove(r, t, c);
    assert CallerAgrees(r, t);
    assert Wakers(s) == Wakers(r);
    CallerMoves(r, s, t);
  }

  lemma CallStopKeeps(r: Runtime, t: nat)
    requires Inv(r) && Enabled(r, CallStop(t))
    ensures Inv(Step(r, CallStop(t)))
  {
    hide Inv;
    Repositions(r, t, InStop);
  }

  lemma ClaimsWake(r: Runtime, t: nat)
    requires Inv(r) && At(r, t).InStop? && !r.reactorExiting && (r.state.Running? || r.state.Stopping?)
    ensures Inv(Move(r.(stopRequested := true, state := Stopping, wakeInFlight := r.wakeInFlight + 1), t, WakeClaimed))
  {
    var s := Move(r.(stopRequested := true, state := Stopping, wakeInFlight := r.wakeInFlight + 1), t, WakeClaimed);
    WakersMove(r, t, WakeClaimed);
    assert CallerAgrees(r, t);
    assert t !in Wakers(r);
    CallerMoves(r, s, t);
  }

  lemma StopsCreated(r: Runtime)
    requires Inv(r) && r.state.Created?
    ensures Inv(r.(state := Stopped, stopResult := OkStatus))
  {
    var s := r.(state := Stopped, stopResult := OkStatus);
    assert Wakers(s) == Wakers(r);
    ReactorMoves(r, s);
  }

  lemma StopSectionKeeps(r: Runtime, t: nat)
    requires Inv(r) && Enabled(r, StopSection(t))
    ensures Inv(Step(r, StopSection(t)))
  {
    assert Globals(r);
    if r.state.Created? {
      StopsCreated(r);
      Repositions(r.(state := Stopped, stopResult := OkStatus), t, Joining(StopResult));
    } else if r.state.Stopped? || r.reactorExiting {
      if r.state.Error? { Repositions(r, t, Joining(SavedStopResult(r.stopResult))); }
      else { Repositions(r, t, Joining(StopResult)); }
    } else if r.state.Error? {
      Repositions(r, t, Joining(SavedStopResult(r.stopResult)));
    } else {
      ClaimsWake(r, t);
    }
  }

  lemma WakeKeeps(r: Runtime, t: nat, status: StatusCode)
    requires Inv(r) && Enabled(r, Wake(t, status))
    ensures Inv(Step(r, Wake(t, status)))
  {
    WakersMove(r, t, WakeDone(status));
    assert CallerAgrees(r, t);
    assert t in Wakers(r);
    assert Wakers(r) + {t} == Wakers(r);
    CallerMoves(r, Step(r, Wake(t, status)), t);
  }

  lemma WakeSectionKeeps(r: Runtime, t: nat, wake: StatusCode)
    requires Inv(r) && Enabled(r, WakeSection(t, wake))
    ensures Inv(Step(r, WakeSection(t, wake)))
  {
    WakersMove(r, t, Joining(StopResult));
    assert CallerAgrees(r, t);
    assert t in Wakers(r);
    CallerMoves(r, Step(r, WakeSection(t, wake)), t);
  }

  lemma CallStartKeeps(r: Runtime, t: nat, spawned: bool, failure: StatusCode)
    requires Inv(r) && Enabled(r, CallStart(t, spawned, failure))
    ensures Inv(Step(r, CallStart(t, spawned, failure)))
  {
    var s := Step(r, CallStart(t, spawned, failure));
    WakersMove(r, t, At(s, t));
    assert CallerAgrees(r, t);
    if r.state.Created? && r.hasPipelines {
      assert Wakers(s) == Wakers(r);
      CallerMoves(r, s, t);
    }
  }

  lemma AnswersStart(r: Runtime, answer: StatusCode)
    requires Inv(r) && r.startupCompleted && answer == r.startupResult
    ensures Inv(r.(startAnswers := r.startAnswers + {answer}))
  {
    var s := r.(startAnswers := r.startAnswers + {answer});
    assert Wakers(s) == Wakers(r);
    ReactorMoves(r, s);
  }

  lemma StartupSectionKeeps(r: Runtime, t: nat)
    requires Inv(r) && Enabled(r, StartupSection(t))
    ensures Inv(Step(r, StartupSection(t)))
  {
    assert StartupReported(r);
    hide Globals;
    if r.startupResult.OkStatus? {
      Repositions(r, t, Idle);
      AnswersStart(Move(r, t, Idle), OkStatus);
    } else {
      Repositions(r, t, Joining(StartResult(r.startupResult)));
    }
  }

  lemma ClaimsJoin(r: Runtime, t: nat, reply: Reply)
    requires Inv(r) && At(r, t) == Joining(reply) && !r.joinClaimed && !r.joinCompleted && r.joinable
    ensures Inv(Move(r.(joinClaimed := true, joinOwner := Some(t)), t, JoinOwner(reply)))
  {
    var s := Move(r.(joinClaimed := true, joinOwner := Some(t)), t, JoinOwner(reply));
    WakersMove(r, t, JoinOwner(reply));
    assert CallerAgrees(r, t);
    CallerMoves(r, s, t);
  }

  lemma NothingToJoin(r: Runtime, t: nat, reply: Reply)
    requires Inv(r) && At(r, t) == Joining(reply) && !r.joinClaimed && !r.joinCompleted && !r.joinable
    ensures Inv(r.(joinCompleted := true)) && Terminal(r)
  {
    var s := r.(joinCompleted := true);
    assert Wakers(s) == Wakers(r);
    assert CallerAgrees(r, t);
    ReactorMoves(r, s);
  }

  lemma JoinSectionIs(r: Runtime, t: nat)
    requires Enabled(r, JoinSection(t))
    ensures Step(r, JoinSection(t)) == JoinSectionStep(r, t, At(r, t).reply)
  {
  }

  lemma JoinSectionKeeps(r: Runtime, t: nat)
    requires Inv(r) && Enabled(r, JoinSection(t))
    ensures Inv(Step(r, JoinSection(t)))
  {
    var reply := At(r, t).reply;
    assert CallerAgrees(r, t) && Globals(r);
    hide Step, ReactorAgrees, StartupReported;
    assert Step(r, JoinSection(t)) == JoinSectionStep(r, t, reply) by { JoinSectionIs(r, t); }
    if r.joinCompleted {
      Repositions(r, t, Replying(reply));
    } else if r.joinable {
      ClaimsJoin(r, t, reply);
    } else {
      NothingToJoin(r, t, reply);
      Repositions(r.(joinCompleted := true), t, Replying(reply));
    }
  }

  lemma JoinThreadKeeps(r: Runtime, t: nat)
    requires Inv(r) && Enabled(r, JoinThread(t))
    ensures Inv(Step(r, JoinThread(t)))
  {
    var s := Step(r, JoinThread(t));
    WakersMove(r, t, At(s, t));
    assert CallerAgrees(r, t);
    CallerMoves(r, s, t);
  }

  lemma JoinedSectionKeeps(r: Runtime, t: nat)
    requires Inv(r) && Enabled(r, JoinedSection(t))
    ensures Inv(Step(r, JoinedSection(t)))
  {
    var s := Step(r, JoinedSection(t));
    WakersMove(r, t, At(s, t));
    assert CallerAgrees(r, t);
    CallerMoves(r, s, t);
  }

  lemma AnswersStop(r: Runtime, answer: StatusCode)
    requires Inv(r) && Terminal(r) && r.joinCompleted && answer == r.stopResult
    ensures Inv(r.(stopAnswers := r.stopAnswers + {answer}))
  {
    var s := r.(stopAnswers := r.stopAnswers + {answer});
    assert Wakers(s) == Wakers(r);
    ReactorMoves(r, s);
  }

  /** An answer of `x` by a stop(), or of `y` by a start(), apart from the move that ends the call. */
  lemma AnswerIs(r: Runtime, t: nat, reply: Reply)
    ensures var s := Move(r, t, Idle);
            AnswerStep(r, t, reply) == match reply
                                       case StopResult => s.(stopAnswers := s.stopAnswers + {r.stopResult})
                                       case SavedStopResult(x) => s.(stopAnswers := s.stopAnswers + {x})
                                       case StartResult(y) => s.(startAnswers := s.startAnswers + {y})
  {
    assert r.stopAnswers + {} == r.stopAnswers && r.startAnswers + {} == r.startAnswers;
  }

  lemma AnswerStepIs(r: Runtime, t: nat)
    requires Enabled(r, Answer(t))
    ensures Step(r, Answer(t)) == AnswerStep(r, t, At(r, t).reply)
  {
  }

  lemma ReplyTells(r: Runtime, t: nat)
    requires Inv(r) && At(r, t).Replying?
    ensures r.joinCompleted && Terminal(r)
    ensures match At(r, t).reply
            case StopResult => true
            case SavedStopResult(status) => status == r.stopResult
            case StartResult(status) => r.startupCompleted && status == r.startupResult
  {
    assert CallerAgrees(r, t);
  }

  lemma GoesIdle(r: Runtime, t: nat)
    requires Inv(r) && At(r, t).Replying?
    ensures Inv(Move(r, t, Idle))
  {
    hide Globals;
    Repositions(r, t, Idle);
  }

  lemma AnswerKeeps(r: Runtime, t: nat)
    requires Inv(r) && Enabled(r, Answer(t))
    ensures Inv(Step(r, Answer(t)))
  {
    var reply, s := At(r, t).reply, Move(r, t, Idle);
    AnswerStepIs(r, t);
    ReplyTells(r, t);
    GoesIdle(r, t);
    AnswerIs(r, t, reply);
    assert Terminal(s) && s.joinCompleted && s.startupCompleted == r.startupCompleted;
    assert s.stopResult == r.stopResult && s.startupResult == r.startupResult;
    hide Step, Inv, Move, AnswerStep, Terminal, Enabled, At;
    match reply
    case StopResult => AnswersStop(s, r.stopResult);
    case SavedStopResult(x) => AnswersStop(s, x);
    case StartResult(y) => AnswersStart(s, y);
  }

  /** What the callers rely on does not get worse by a step of the reactor. */
  lemma ReactorFrame(r: Runtime, a: Action)
    requires Inv(r) && Enabled(r, a) && ReactorAction(a)
    ensures var s := ReactorStep(r, a);
            Monotone(r, s) && s.joinOwner == r.joinOwner && s.joinable == r.joinable
  {
    assert Globals(r);
    hide Inv, CallerAgrees, StartupReported;
  }

  lemma ReactorGlobals(r: Runtime, a: Action)
    requires Globals(r) && Enabled(r, a) && ReactorAction(a)
    ensures Globals(ReactorStep(r, a))
  {
    assert Wakers(ReactorStep(r, a)) == Wakers(r);
    hide Wakers;
  }

  lemma ReactorKeeps(r: Runtime, a: Action)
    requires Inv(r) && Enabled(r, a) && ReactorAction(a)
    ensures Inv(ReactorStep(r, a))
  {
    ReactorFrame(r, a);
    assert Globals(r);
    hide Inv, Globals, ReactorStep, Monotone, Enabled;
    ReactorGlobals(r, a);
    ReactorMoves(r, ReactorStep(r, a));
  }

  lemma StepKeeps(r: Runtime, a: Action)
    requires Inv(r) && Enabled(r, a)
    ensures Inv(Step(r, a))
  {
    hide Inv, ReactorStep, CallerStep;
    match a
    case CallStop(t) => CallStopKeeps(r, t);
    case StopSection(t) => StopSectionKeeps(r, t);
    case Wake(t, status) => WakeKeeps(r, t, status);
    case WakeSection(t, wake) => WakeSectionKeeps(r, t, wake);
    case CallStart(t, spawned, failure) => CallStartKeeps(r, t, spawned, failure);
    case StartupSection(t) => StartupSectionKeeps(r, t);
    case JoinSection(t) => JoinSectionKeeps(r, t);
    case JoinThread(t) => JoinThreadKeeps(r, t);
    case JoinedSection(t) => JoinedSectionKeeps(r, t);
    case Answer(t) => AnswerKeeps(r, t);
    case _ => ReactorKeeps(r, a);
  }

  // ---------------------------------------------------------------- what no step ever breaks

  function Rank(s: RuntimeState): nat {
    match s
    case Created => 0
    case Starting => 1
    case Running => 2
    case Stopping => 3
    case Stopped => 4
    case Error => 4
  }

  predicate Closes(a: Action) {
    a.CloseLoop? || a.CloseAfterFailedStartup? || a.InvalidateLoop?
  }

  /** The event loop is never closed under a wake nor woken when closed, and no wake begins during the exit. */
  predicate LoopSafe(r: Runtime, a: Action, s: Runtime) {
    && (Closes(a) ==> r.wakeInFlight == 0)
    && (a.Wake? ==> r.loop.Open? && r.wakeInFlight > 0)
    && (s.wakeInFlight > r.wakeInFlight ==> !r.reactorExiting)
  }

  /** The state only moves forward, and a final state and its result stay. */
  predicate StateSafe(r: Runtime, s: Runtime) {
    && Rank(r.state) <= Rank(s.state)
    && (Terminal(r) ==> s.state == r.state && s.stopResult == r.stopResult)
  }

  /** The thread is joined at most once, and nobody answers before it has ended. */
  predicate JoinSafe(r: Runtime, a: Action, s: Runtime) {
    && r.joins <= s.joins <= 1
    && (a.Answer? ==> ThreadOver(r) && Terminal(r))
  }

  /** The promises of the shutdown protocol, for one step. */
  predicate Safe(r: Runtime, a: Action, s: Runtime) {
    LoopSafe(r, a, s) && StateSafe(r, s) && JoinSafe(r, a, s)
  }

  lemma WakerCounts(r: Runtime, t: nat)
    requires Inv(r) && Waking(At(r, t))
    ensures r.wakeInFlight > 0
  {
    assert t in Wakers(r);
  }

  lemma StopStateSafe(r: Runtime, t: nat)
    requires r.state.Error? ==> r.threadExited
    requires Enabled(r, StopSection(t))
    ensures StateSafe(r, StopSectionStep(r, t))
  {
    hide Move, At;
  }

  lemma WakeStateSafe(r: Runtime, t: nat, wake: StatusCode)
    requires Inv(r) && Enabled(r, WakeSection(t, wake))
    ensures StateSafe(r, Step(r, WakeSection(t, wake)))
  {
    WakerCounts(r, t);
    assert r.state.Stopping?;
    hide Globals, CallerAgrees;
  }

  lemma ErrorExited(r: Runtime)
    requires Inv(r)
    ensures r.state.Error? ==> r.threadExited
  {
  }

  /** The other steps of a caller touch neither the state nor the result. */
  lemma OtherStateSafe(r: Runtime, a: Action)
    requires Enabled(r, a) && !ReactorAction(a) && !a.StopSection? && !a.WakeSection? && !a.CallStart?
    ensures StateSafe(r, Step(r, a))
  {
    hide Move, StartupSectionStep, JoinSectionStep, AnswerStep, At;
    assert Step(r, a).state == r.state && Step(r, a).stopResult == r.stopResult;
  }

  lemma StartStateSafe(r: Runtime, t: nat, spawned: bool, failure: StatusCode)
    ensures StateSafe(r, StartStep(r, t, spawned, failure))
  {
  }

  lemma CallerStateSafe(r: Runtime, a: Action)
    requires Inv(r) && Enabled(r, a) && !ReactorAction(a)
    ensures StateSafe(r, Step(r, a))
  {
    ErrorExited(r);
    hide Inv, StateSafe;
    if a.StopSection? {
      StopStateSafe(r, a.t);
    } else if a.WakeSection? {
      WakeStateSafe(r, a.t, a.wake);
    } else if a.CallStart? {
      StartStateSafe(r, a.t, a.spawned, a.failure);
    } else {
      OtherStateSafe(r, a);
    }
  }

  lemma ReactorStateSafe(r: Runtime, a: Action)
    requires Inv(r) && Enabled(r, a) && ReactorAction(a)
    ensures StateSafe(r, Step(r, a))
  {
    assert ReactorAgrees(r);
    hide Globals;
  }

  lemma ReactorLoopSafe(r: Runtime, a: Action)
    requires Inv(r) && Enabled(r, a) && ReactorAction(a)
    ensures LoopSafe(r, a, Step(r, a))
  {
    assert Globals(r);
    hide CallerAgrees, StartupReported;
  }

  lemma StopLoopSafe(r: Runtime, t: nat)
    requires Enabled(r, StopSection(t))
    ensures LoopSafe(r, StopSection(t), StopSectionStep(r, t))
  {
    hide Move, At;
  }

  lemma WakeLoopSafe(r: Runtime, t: nat, status: StatusCode)
    requires Inv(r) && Enabled(r, Wake(t, status))
    ensures r.loop.Open? && r.wakeInFlight > 0
  {
    WakerCounts(r, t);
    assert Globals(r);
  }

  lemma StartLoopSafe(r: Runtime, t: nat, spawned: bool, failure: StatusCode)
    requires Inv(r)
    ensures LoopSafe(r, CallStart(t, spawned, failure), StartStep(r, t, spawned, failure))
  {
    assert r.wakeInFlight == |Wakers(r)|;
    hide CallerAgrees, Globals;
  }

  /** The other steps of a caller begin no wake. */
  lemma OtherLoopSafe(r: Runtime, a: Action)
    requires Enabled(r, a) && !ReactorAction(a) && !a.StopSection? && !a.CallStart?
    ensures Step(r, a).wakeInFlight <= r.wakeInFlight
  {
    hide At, Move, StartupSectionStep, JoinSectionStep, AnswerStep;
  }

  lemma StepLoopSafe(r: Runtime, a: Action)
    requires Inv(r) && Enabled(r, a)
    ensures LoopSafe(r, a, Step(r, a))
  {
    hide Inv, Move;
    if ReactorAction(a) {
      ReactorLoopSafe(r, a);
    } else if a.StopSection? {
      StopLoopSafe(r, a.t);
    } else if a.CallStart? {
      StartLoopSafe(r, a.t, a.spawned, a.failure);
    } else {
      OtherLoopSafe(r, a);
      if a.Wake? { WakeLoopSafe(r, a.t, a.status); }
    }
  }

  /** Only the step that joins the thread counts a join. */
  lemma OtherJoins(r: Runtime, a: Action)
    requires Enabled(r, a) && !a.JoinThread?
    ensures Step(r, a).joins == r.joins
  {
    hide At, Move, StopSectionStep, StartStep, WakeSectionStep, StartupSectionStep, JoinSectionStep, AnswerStep;
    hide ReactorStep;
  }

  lemma AnswerIsLate(r: Runtime, t: nat)
    requires Inv(r) && Enabled(r, Answer(t))
    ensures ThreadOver(r) && Terminal(r)
  {
    assert CallerAgrees(r, t) && Globals(r);
  }

  lemma JoinedAtMostOnce(r: Runtime)
    requires Inv(r)
    ensures r.joins <= 1
  {
  }

  lemma StepJoinSafe(r: Runtime, a: Action)
    requires Inv(r) && Enabled(r, a)
    ensures JoinSafe(r, a, Step(r, a))
  {
    StepKeeps(r, a);
    JoinedAtMostOnce(Step(r, a));
    hide Inv, At, Enabled, ThreadOver, Terminal, ReactorStep;
    if a.Answer? { AnswerIsLate(r, a.t); }
    if !a.JoinThread? { OtherJoins(r, a); }
  }

  lemma StepSafe(r: Runtime, a: Action)
    requires Inv(r) && Enabled(r, a)
    ensures Safe(r, a, Step(r, a))
  {
    StepLoopSafe(r, a);
    StepJoinSafe(r, a);
    hide Inv, Step, Enabled, LoopSafe, StateSafe, JoinSafe;
    if ReactorAction(a) { ReactorStateSafe(r, a); } else { CallerStateSafe(r, a); }
  }

  predicate Trace(states: seq<Runtime>, actions: seq<Action>) {
    && |states| == |actions| + 1
    && forall i :: 0 <= i < |actions| ==>
         Enabled(states[i], actions[i]) && states[i + 1] == Step(states[i], actions[i])
  }

  lemma TracePrefix(states: seq<Runtime>, actions: seq<Action>)
    requires Trace(states, actions) && actions != []
    ensures Trace(states[..|actions|], actions[..|actions| - 1])
  {
    hide Step, Enabled;
    var n := |actions|;
    forall i | 0 <= i < n - 1
      ensures Enabled(states[..n][i], actions[..n - 1][i])
              && states[..n][i + 1] == Step(states[..n][i], actions[..n - 1][i])
    {
      assert Enabled(states[i], actions[i]) && states[i + 1] == Step(states[i], actions[i]);
    }
  }

  lemma AnswersAgree(r: Runtime)
    requires Inv(r)
    ensures forall x, y :: x in r.stopAnswers && y in r.stopAnswers ==> x == y
  {
  }

  /**
   * Safety of the protocol over every run of any number of callers: no step closes the loop under a wake,
   * wakes a closed loop, starts a wake once the reactor is exiting, moves the state backwards, changes a
   * final state or result, joins the thread twice, or lets a stop() answer before the thread has ended;
   * and all stop() calls answer the same status.
   */
  lemma {:induction false} ProtocolIsSafe(hasPipelines: bool, states: seq<Runtime>, actions: seq<Action>)
    requires Trace(states, actions) && states[0] == Initial(hasPipelines)
    ensures forall i :: 0 <= i < |states| ==> Inv(states[i])
    ensures forall i :: 0 <= i < |actions| ==> Safe(states[i], actions[i], states[i + 1])
    ensures forall x, y :: x in states[|actions|].stopAnswers && y in states[|actions|].stopAnswers ==> x == y
  {
    var n := |actions|;
    hide Safe, Step, Enabled;
    if n == 0 {
      InitialInv(hasPipelines);
    } else {
      TracePrefix(states, actions);
      ProtocolIsSafe(hasPipelines, states[..n], actions[..n - 1]);
      assert Inv(states[..n][n - 1]);
      StepKeeps(states[n - 1], actions[n - 1]);
      StepSafe(states[n - 1], actions[n - 1]);
      forall i | 0 <= i < |states|
        ensures Inv(states[i])
      {
        if i < n { assert states[i] == states[..n][i]; }
      }
      forall i | 0 <= i < n
        ensures Safe(states[i], actions[i], states[i + 1])
      {
        if i < n - 1 {
          assert Safe(states[..n][i], actions[..n - 1][i], states[..n][i + 1]);
        }
      }
    }
    AnswersAgree(states[n]);
  }

  // ---------------------------------------------------------------- nobody waits for ever on the protocol itself

  /** A step that needs no new call, no failure and no event but the requested stop. */
  predicate Spontaneous(r: Runtime, a: Action) {
    && !a.CallStop? && !a.CallStart? && !a.Throw?
    && (a.LeavePolling? ==> r.stopRequested)
    && (a.StartupFails? ==> r.loop.Closed?)
  }

  ghost predicate CanMove(r: Runtime) {
    exists a :: Enabled(r, a) && Spontaneous(r, a)
  }

  lemma Moves(r: Runtime, a: Action)
    requires Enabled(r, a) && Spontaneous(r, a)
    ensures CanMove(r)
  {
  }

  /** The reactor can always go on, unless it has ended, was never created, or polls without a stop request. */
  lemma ReactorCanMove(r: Runtime)
    requires Inv(r) && !ThreadOver(r) && (r.reactor.Polling? ==> r.stopRequested)
    ensures CanMove(r)
  {
    match r.reactor
    case Startup =>
      match r.loop {
        case Uninitialized => Moves(r, InitializeLoop);
        case Open => Moves(r, StartupSucceeds);
        case Closed => Moves(r, StartupFails(NO_FAILURES.(reactor := Internal)));
      }
    case StartupFailed(_) => Moves(r, CloseAfterFailedStartup(NO_FAILURES));
    case Polling => Moves(r, LeavePolling(NO_FAILURES));
    case Exiting(_) => Moves(r, MarkExiting);
    case AwaitingWakes(_) =>
      if r.wakeInFlight == 0 {
        Moves(r, WakesReturned);
      } else {
        var t :| t in Wakers(r);
        if At(r, t).WakeClaimed? { Moves(r, Wake(t, OkStatus)); } else { Moves(r, WakeSection(t, At(r, t).wake)); }
      }
    case Draining(_) => Moves(r, DrainEnds(NO_FAILURES));
    case Closing(_) => Moves(r, CloseLoop(NO_FAILURES));
    case Finishing(_) => Moves(r, Finish);
    case Ending => Moves(r, ThreadEnds);
  }

  lemma OwnerCanMove(r: Runtime, t: nat)
    requires Inv(r) && r.joinOwner == Some(t)
    ensures CanMove(r)
  {
    assert CallerAgrees(r, t) && Globals(r);
    if At(r, t).Joined? {
      Moves(r, JoinedSection(t));
    } else if r.reactor.Done? {
      Moves(r, JoinThread(t));
    } else {
      ReactorCanMove(r);
    }
  }

  /** Whoever is inside start() or stop() is not stuck: some thread can take a step of the protocol. */
  lemma NoDeadlock(r: Runtime, t: nat)
    requires Inv(r) && !At(r, t).Idle?
    ensures CanMove(r)
  {
    assert CallerAgrees(r, t) && Globals(r);
    match At(r, t)
    case InStop => if r.state.Starting? { ReactorCanMove(r); } else { Moves(r, StopSection(t)); }
    case WakeClaimed => Moves(r, Wake(t, OkStatus));
    case WakeDone(wake) => Moves(r, WakeSection(t, wake));
    case AwaitingStartup => if r.startupCompleted { Moves(r, StartupSection(t)); } else { ReactorCanMove(r); }
    case Joining(_) =>
      if r.joinCompleted || !r.joinClaimed {
        Moves(r, JoinSection(t));
      } else {
        OwnerCanMove(r, r.joinOwner.value);
      }
    case JoinOwner(_) => OwnerCanMove(r, t);
    case Joined(_) => Moves(r, JoinedSection(t));
    case Replying(_) => Moves(r, Answer(t));
  }

  // ---------------------------------------------------------------- every run ends, and answers every call

  /** How many steps a caller is from its answer, at most. */
  function CallerSteps(c: Caller): nat {
    match c
    case Idle => 0
    case Replying(_) => 1
    case Joined(_) => 2
    case JoinOwner(_) => 3
    case Joining(_) => 4
    case AwaitingStartup => 5
    case WakeDone(_) => 5
    case WakeClaimed => 6
    case InStop => 7
  }

  function StageSteps(p: Reactor, loop: Loop): nat {
    match p
    case Startup => (match loop case Uninitialized => 10 case Open => 9 case Closed => 8)
    case Polling => 7
    case Exiting(_) => 6
    case AwaitingWakes(_) => 5
    case Draining(_) => 4
    case Closing(_) => 3
    case StartupFailed(_) => 3
    case Finishing(_) => 2
    case Ending => 1
    case _ => 0
  }

  /** How many steps the reactor thread is from its end, at most; an exception may send it back once. */
  function ReactorSteps(r: Runtime): nat {
    match r.reactor
    case NotSpawned => 0
    case Done => 0
    case _ => StageSteps(r.reactor, r.loop) + if r.thrown then 0 else 8
  }

  /** The steps left to the callers below `n`. */
  ghost function Load(r: Runtime, n: nat): nat {
    if n == 0 then 0 else Load(r, n - 1) + CallerSteps(At(r, n - 1))
  }

  ghost function StepsLeft(r: Runtime, n: nat): nat {
    Load(r, n) + ReactorSteps(r)
  }

  /** What a call adds to the steps of a run; every other step was already accounted for. */
  function Cost(a: Action): nat {
    match a
    case CallStop(_) => 8
    case CallStart(_, _, _) => 24
    case _ => 0
  }

  ghost function TotalCost(actions: seq<Action>): nat {
    if actions == [] then 0 else TotalCost(actions[..|actions| - 1]) + Cost(actions[|actions| - 1])
  }

  lemma {:induction false} LoadMoves(r: Runtime, s: Runtime, t: nat, n: nat)
    requires forall u: nat :: u != t ==> At(s, u) == At(r, u)
    ensures Load(s, n) == Load(r, n) + if t < n then CallerSteps(At(s, t)) - CallerSteps(At(r, t)) else 0
  {
    if n > 0 {
      LoadMoves(r, s, t, n - 1);
    }
  }

  ghost predicate IdleFrom(r: Runtime, n: nat) {
    forall t: nat :: t >= n ==> At(r, t).Idle?
  }

  /** Caller `t` and the reactor together are one step nearer to their ends, `cost` aside; the others have not moved. */
  ghost predicate Advanced(r: Runtime, s: Runtime, t: nat, cost: nat) {
    && (forall u: nat :: u != t ==> At(s, u) == At(r, u))
    && CallerSteps(At(s, t)) + ReactorSteps(s) + 1 <= CallerSteps(At(r, t)) + ReactorSteps(r) + cost
  }

  lemma MoveAdvances(r: Runtime, q: Runtime, t: nat, c: Caller, cost: nat)
    requires q.callers == r.callers && CallerSteps(c) + 1 <= CallerSteps(At(r, t)) + cost
    requires q.reactor == r.reactor && q.loop == r.loop && q.thrown == r.thrown
    ensures Advanced(r, Move(q, t, c), t, cost)
  {
  }

  lemma StartAdvances(r: Runtime, t: nat, spawned: bool, failure: StatusCode)
    requires r.state.Created? ==> r.reactor.NotSpawned?
    requires Enabled(r, CallStart(t, spawned, failure))
    ensures Advanced(r, StartStep(r, t, spawned, failure), t, 24)
  {
  }

  lemma JoinAdvances(r: Runtime, t: nat)
    requires Enabled(r, JoinSection(t))
    ensures Advanced(r, JoinSectionStep(r, t, At(r, t).reply), t, 0)
  {
    hide Move, Advanced;
    var reply := At(r, t).reply;
    if r.joinCompleted {
      MoveAdvances(r, r, t, Replying(reply), 0);
    } else if !r.joinable {
      MoveAdvances(r, r.(joinCompleted := true), t, Replying(reply), 0);
    } else {
      MoveAdvances(r, r.(joinClaimed := true, joinOwner := Some(t)), t, JoinOwner(reply), 0);
    }
  }

  lemma AnswerAdvances(r: Runtime, t: nat)
    requires Enabled(r, Answer(t))
    ensures Advanced(r, AnswerStep(r, t, At(r, t).reply), t, 0)
  {
    hide Move, Advanced, Said, SaidAtStart;
    var reply := At(r, t).reply;
    var s := r.(stopAnswers := r.stopAnswers + Said(r, reply), startAnswers := r.startAnswers + SaidAtStart(reply));
    MoveAdvances(r, s, t, Idle, 0);
  }

  lemma StopAdvances(r: Runtime, t: nat)
    requires Enabled(r, StopSection(t))
    ensures Advanced(r, StopSectionStep(r, t), t, 0)
  {
    hide Move, Advanced;
    var s := if r.state.Created? then r.(state := Stopped, stopResult := OkStatus) else r;
    if s.state.Stopped? {
      MoveAdvances(r, s, t, Joining(StopResult), 0);
    } else if s.state.Error? && s.threadExited {
      MoveAdvances(r, s, t, Joining(SavedStopResult(s.stopResult)), 0);
    } else if s.reactorExiting {
      MoveAdvances(r, s, t, Joining(StopResult), 0);
    } else {
      var claimed := s.(stopRequested := true, state := Stopping, wakeInFlight := s.wakeInFlight + 1);
      MoveAdvances(r, claimed, t, WakeClaimed, 0);
    }
  }

  lemma WakeSectionAdvances(r: Runtime, t: nat, wake: StatusCode)
    requires At(r, t).WakeDone?
    ensures Advanced(r, WakeSectionStep(r, t, wake), t, 0)
  {
    hide RecordFirst, Move, Advanced;
    var s := r.(wakeInFlight := r.wakeInFlight - 1, stopResult := RecordFirst(r.stopResult, wake));
    MoveAdvances(r, s, t, Joining(StopResult), 0);
  }

  lemma StartupSectionAdvances(r: Runtime, t: nat)
    requires Enabled(r, StartupSection(t))
    ensures Advanced(r, StartupSectionStep(r, t), t, 0)
  {
    hide Move, Advanced;
    MoveAdvances(r, r.(startAnswers := r.startAnswers + {OkStatus}), t, Idle, 0);
    MoveAdvances(r, r, t, Joining(StartResult(r.startupResult)), 0);
  }

  lemma JoinThreadAdvances(r: Runtime, t: nat)
    requires Enabled(r, JoinThread(t))
    ensures Advanced(r, Move(r.(joinable := false, joins := r.joins + 1), t, Joined(At(r, t).reply)), t, 0)
  {
    hide Move, Advanced;
    MoveAdvances(r, r.(joinable := false, joins := r.joins + 1), t, Joined(At(r, t).reply), 0);
  }

  lemma JoinedSectionAdvances(r: Runtime, t: nat)
    requires Enabled(r, JoinedSection(t))
    ensures var s := r.(joinClaimed := false, joinCompleted := true, joinOwner := None);
            Advanced(r, Move(s, t, Replying(At(r, t).reply)), t, 0)
  {
    hide Move, Advanced;
    var s := r.(joinClaimed := false, joinCompleted := true, joinOwner := None);
    MoveAdvances(r, s, t, Replying(At(r, t).reply), 0);
  }

  lemma CallAdvances(r: Runtime, a: Action)
    requires r.state.Created? ==> r.reactor.NotSpawned?
    requires Enabled(r, a) && (a.CallStop? || a.CallStart? || a.StartupSection?)
    ensures Advanced(r, CallerStep(r, a), a.t, Cost(a))
  {
    hide Advanced, Move, StartStep, StartupSectionStep;
    match a
    case CallStop(t) => MoveAdvances(r, r, t, InStop, 8);
    case CallStart(t, spawned, failure) => StartAdvances(r, t, spawned, failure);
    case StartupSection(t) => StartupSectionAdvances(r, t);
  }

  lemma SectionAdvances(r: Runtime, a: Action)
    requires Enabled(r, a) && (a.StopSection? || a.Wake? || a.WakeSection? || a.JoinSection?)
    ensures Advanced(r, CallerStep(r, a), a.t, Cost(a))
  {
    hide Advanced, Move, StopSectionStep, WakeSectionStep, JoinSectionStep;
    match a
    case StopSection(t) => StopAdvances(r, t);
    case Wake(t, status) => MoveAdvances(r, r, t, WakeDone(status), 0);
    case WakeSection(t, wake) => WakeSectionAdvances(r, t, wake);
    case JoinSection(t) => JoinAdvances(r, t);
  }

  lemma LastAdvances(r: Runtime, a: Action)
    requires Enabled(r, a) && (a.JoinThread? || a.JoinedSection? || a.Answer?)
    ensures Advanced(r, CallerStep(r, a), a.t, Cost(a))
  {
    hide Advanced, Move, AnswerStep;
    match a
    case JoinThread(t) => JoinThreadAdvances(r, t);
    case JoinedSection(t) => JoinedSectionAdvances(r, t);
    case Answer(t) => AnswerAdvances(r, t);
  }

  /** A step of a caller brings it nearer to its answer, unless it is a call. */
  lemma CallerAdvances(r: Runtime, a: Action)
    requires Inv(r) && Enabled(r, a) && !ReactorAction(a)
    ensures Advanced(r, Step(r, a), a.t, Cost(a))
  {
    assert ReactorAgrees(r);
    hide Inv, Advanced, ReactorStep, CallerStep;
    if a.CallStop? || a.CallStart? || a.StartupSection? {
      CallAdvances(r, a);
    } else if a.JoinThread? || a.JoinedSection? || a.Answer? {
      LastAdvances(r, a);
    } else {
      SectionAdvances(r, a);
    }
  }

  lemma ReactorMovesNobody(r: Runtime, a: Action)
    requires Enabled(r, a) && ReactorAction(a)
    ensures Step(r, a).callers == r.callers
  {
    hide ReactorStep, Enabled;
  }

  lemma ReactorAdvances(r: Runtime, a: Action)
    requires Enabled(r, a) && ReactorAction(a)
    ensures ReactorSteps(Step(r, a)) + 1 <= ReactorSteps(r)
  {
    hide CallerStep, At, FinishStep, Recorded, Ok;
  }

  lemma ActsBelow(r: Runtime, a: Action, n: nat)
    requires Enabled(r, a) && !ReactorAction(a) && IdleFrom(r, n)
    requires a.CallStop? || a.CallStart? ==> a.t < n
    ensures a.t < n
  {
  }

  lemma AdvanceCounts(r: Runtime, s: Runtime, t: nat, n: nat, cost: nat)
    requires Advanced(r, s, t, cost) && t < n && IdleFrom(r, n)
    ensures StepsLeft(s, n) + 1 <= StepsLeft(r, n) + cost && IdleFrom(s, n)
  {
    hide ReactorSteps, CallerSteps, At;
    LoadMoves(r, s, t, n);
  }

  lemma ReactorAdvanceCounts(r: Runtime, s: Runtime, n: nat)
    requires s.callers == r.callers && ReactorSteps(s) + 1 <= ReactorSteps(r) && IdleFrom(r, n)
    ensures StepsLeft(s, n) + 1 <= StepsLeft(r, n) && IdleFrom(s, n)
  {
    hide ReactorSteps, CallerSteps;
    LoadMoves(r, s, n, n);
  }

  lemma StepAdvances(r: Runtime, a: Action, n: nat)
    requires Inv(r) && Enabled(r, a) && IdleFrom(r, n)
    requires a.CallStop? || a.CallStart? ==> a.t < n
    ensures StepsLeft(Step(r, a), n) + 1 <= StepsLeft(r, n) + Cost(a) && IdleFrom(Step(r, a), n)
  {
    hide Inv, Step, StepsLeft, IdleFrom, Advanced, ReactorSteps, Enabled;
    if ReactorAction(a) {
      ReactorAdvances(r, a);
      ReactorMovesNobody(r, a);
      ReactorAdvanceCounts(r, Step(r, a), n);
    } else {
      CallerAdvances(r, a);
      ActsBelow(r, a, n);
      AdvanceCounts(r, Step(r, a), a.t, n, Cost(a));
    }
  }

  /** A thread number above those of all calls. */
  ghost function ThreadLimit(actions: seq<Action>): nat {
    if actions == [] then 0
    else
      var before, last := ThreadLimit(actions[..|actions| - 1]), actions[|actions| - 1];
      if (last.CallStop? || last.CallStart?) && last.t >= before then last.t + 1 else before
  }

  lemma {:induction false} NothingToDo(hasPipelines: bool, n: nat)
    ensures StepsLeft(Initial(hasPipelines), n) == 0 && IdleFrom(Initial(hasPipelines), n)
  {
    if n > 0 {
      NothingToDo(hasPipelines, n - 1);
    }
  }

  lemma {:induction false} StepsAreCounted(hasPipelines: bool, states: seq<Runtime>, actions: seq<Action>, n: nat)
    requires Trace(states, actions) && states[0] == Initial(hasPipelines) && n >= ThreadLimit(actions)
    ensures StepsLeft(states[|actions|], n) + |actions| <= TotalCost(actions) && IdleFrom(states[|actions|], n)
  {
    var k := |actions|;
    if k == 0 {
      NothingToDo(hasPipelines, n);
    } else {
      TracePrefix(states, actions);
      StepsAreCounted(hasPipelines, states[..k], actions[..k - 1], n);
      ProtocolIsSafe(hasPipelines, states, actions);
      StepAdvances(states[k - 1], actions[k - 1], n);
    }
  }

  /**
   * Every run is finite but for new calls: a stop() pays for eight steps and a start() for twenty-four, those of the
   * reactor included. And a run that can go on no further has answered every call.
   */
  lemma EveryCallIsAnswered(hasPipelines: bool, states: seq<Runtime>, actions: seq<Action>)
    requires Trace(states, actions) && states[0] == Initial(hasPipelines)
    ensures |actions| <= TotalCost(actions)
    ensures !CanMove(states[|actions|]) ==> forall t: nat :: At(states[|actions|], t).Idle?
  {
    StepsAreCounted(hasPipelines, states, actions, ThreadLimit(actions));
    ProtocolIsSafe(hasPipelines, states, actions);
    hide CanMove, At, Inv;
    forall t: nat | !CanMove(states[|actions|])
      ensures At(states[|actions|], t).Idle?
    {
      if !At(states[|actions|], t).Idle? { NoDeadlock(states[|actions|], t); }
    }
  }
}

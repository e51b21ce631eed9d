/**
 * What start() and stop() answer, by the history of a run: the failures that its steps reported, each kind with its
 * first one, in the order in which they outweigh each other.
 */
module RuntimeVerdict {
  import opened Statuses
  import opened RuntimeProtocol

  /**
   * What the actions of a run reported: whether a start or a stop settled its course, the failure to create the
   * thread, the failures of the reactor's work, the first wake that failed, and whether the startup succeeded.
   */
  datatype History = History(settled: bool, refusal: StatusCode, failures: Failures, wake: StatusCode, started: bool)

  const NOTHING := History(false, OkStatus, NO_FAILURES, OkStatus, false)

  /** An exception starts the record of the reactor anew; what it had found before is not reported. */
  function Told(h: History, hasPipelines: bool, a: Action): History {
    match a
    case StopSection(_) => h.(settled := true)
    case CallStart(_, spawned, failure) =>
      if h.settled || !hasPipelines then h
      else h.(settled := true, refusal := if spawned then OkStatus else failure)
    case WakeSection(_, wake) => h.(wake := RecordFirst(h.wake, wake))
    case StartupSucceeds => h.(started := true)
    case StartupFails(f) => h.(failures := Recorded(h.failures, f))
    case CloseAfterFailedStartup(f) => h.(failures := Recorded(h.failures, f))
    case LeavePolling(f) => h.(failures := Recorded(h.failures, f))
    case DrainEnds(f) => h.(failures := Recorded(h.failures, f))
    case CloseLoop(f) => h.(failures := Recorded(h.failures, f))
    case Throw(failure) => h.(failures := NO_FAILURES.(media := failure))
    case _ => h
  }

  function AllTold(hasPipelines: bool, actions: seq<Action>): History {
    if actions == [] then NOTHING
    else Told(AllTold(hasPipelines, actions[..|actions| - 1]), hasPipelines, actions[|actions| - 1])
  }

  /** The first of the failures to create the thread, of the media, of a wake, of the reactor and of an observer. */
  function Verdict(h: History): StatusCode {
    FirstFailure([h.refusal, h.failures.media, h.wake, h.failures.reactor, h.failures.observer])
  }

  lemma VerdictIs(h: History)
    ensures Verdict(h) == RecordFirst(RecordFirst(RecordFirst(RecordFirst(h.refusal, h.failures.media), h.wake),
                                                  h.failures.reactor), h.failures.observer)
  {
    var a, b, c, d, e := h.refusal, h.failures.media, h.wake, h.failures.reactor, h.failures.observer;
    assert [a, b, c, d, e] == [a, b, c, d] + [e] && [a, b, c, d] == [a, b, c] + [d];
    assert [a, b, c] == [a, b] + [c] && [a, b] == [a] + [b] && [a] == [] + [a];
    OneMoreAnswer([a, b, c, d], e);
    OneMoreAnswer([a, b, c], d);
    OneMoreAnswer([a, b], c);
    OneMoreAnswer([a], b);
    OneMoreAnswer([], a);
  }

  /** How the reactor and the result of stop() stand to what was reported. */
  predicate ResultTells(r: Runtime, h: History) {
    match r.reactor
    case NotSpawned => h.failures == NO_FAILURES && h.wake.OkStatus? && !h.started && r.stopResult == h.refusal
    case Startup => h.failures == NO_FAILURES && h.refusal.OkStatus? && r.stopResult == h.wake
    case Polling => h.failures == NO_FAILURES && h.refusal.OkStatus? && r.stopResult == h.wake
    case StartupFailed(f) => h.failures == f && h.refusal.OkStatus? && r.stopResult == h.wake
    case Exiting(f) => h.failures == f && h.refusal.OkStatus? && r.stopResult == h.wake
    case AwaitingWakes(f) => h.failures == f && h.refusal.OkStatus? && r.stopResult == h.wake
    case Draining(f) => h.failures == f && h.refusal.OkStatus? && r.stopResult == h.wake
    case Closing(f) => h.failures == f && h.refusal.OkStatus? && r.stopResult == h.wake
    case Finishing(f) => h.failures == f && h.refusal.OkStatus? && r.stopResult == h.wake
    case Ending => r.stopResult == Verdict(h)
    case Done => r.stopResult == Verdict(h)
  }

  /** The reactor has failed, or has to, before its startup was over. */
  predicate Failing(p: Reactor) {
    !p.NotSpawned? && !p.Startup? && !p.Ending? && !p.Done?
  }

  /** The runtime stands exactly where its history says. */
  predicate Tells(r: Runtime, h: History) {
    && (h.settled <==> !r.state.Created?)
    && (r.state.Created? ==> r.stopResult.OkStatus?)
    && (Terminal(r) ==> (r.state.Stopped? <==> r.stopResult.OkStatus?))
    && (h.started ==> r.startupCompleted)
    && (r.startupCompleted ==> r.startupResult == if h.started then OkStatus else r.stopResult)
    && (r.startupCompleted && !h.started ==> Terminal(r) && !r.stopResult.OkStatus?)
    && (!r.startupCompleted && Failing(r.reactor) ==> !Ok(h.failures))
    && ResultTells(r, h)
  }

  lemma InitialTells(hasPipelines: bool)
    ensures Tells(Initial(hasPipelines), NOTHING)
  {
  }

  lemma FinishTells(r: Runtime, h: History)
    requires Inv(r) && Tells(r, h) && Enabled(r, Finish)
    ensures Tells(ReactorStep(r, Finish), h)
  {
    VerdictIs(h);
    assert ReactorAgrees(r);
    hide Inv, Verdict, CallerAgrees;
  }

  lemma ReactorTells(r: Runtime, hasPipelines: bool, h: History, a: Action)
    requires Inv(r) && Tells(r, h) && Enabled(r, a) && ReactorAction(a)
    ensures Tells(ReactorStep(r, a), Told(h, hasPipelines, a))
  {
    if a.Finish? {
      FinishTells(r, h);
    } else {
      assert ReactorAgrees(r);
      hide Inv, Verdict, CallerAgrees;
    }
  }

  lemma StartTells(r: Runtime, h: History, a: Action)
    requires Inv(r) && Tells(r, h) && Enabled(r, a) && a.CallStart?
    ensures Tells(CallerStep(r, a), Told(h, r.hasPipelines, a))
  {
    assert ReactorAgrees(r) && r.wakeInFlight >= 0;
    hide Inv, Verdict, CallerAgrees;
  }

  /** Nothing has changed that the result depends on. */
  predicate SameCourse(r: Runtime, s: Runtime) {
    && s.state == r.state && s.stopResult == r.stopResult && s.reactor == r.reactor
    && s.startupCompleted == r.startupCompleted && s.startupResult == r.startupResult
  }

  lemma SameTells(r: Runtime, s: Runtime, h: History)
    requires Tells(r, h) && SameCourse(r, s)
    ensures Tells(s, h)
  {
    hide Verdict;
  }

  lemma MoveIsSame(r: Runtime, q: Runtime, t: nat, c: Caller)
    requires SameCourse(r, q)
    ensures SameCourse(r, Move(q, t, c))
  {
  }

  lemma StopsCreatedTells(r: Runtime, h: History)
    requires Tells(r, h) && r.state.Created? && ReactorAgrees(r)
    ensures Tells(r.(state := Stopped, stopResult := OkStatus), h.(settled := true))
  {
    hide Verdict;
  }

  lemma StoppingTells(r: Runtime, h: History)
    requires Tells(r, h) && !r.state.Created? && !Terminal(r)
    ensures Tells(r.(state := Stopping), h.(settled := true))
  {
    hide Verdict;
  }

  lemma StopTells(r: Runtime, h: History, t: nat)
    requires Inv(r) && Tells(r, h) && Enabled(r, StopSection(t))
    ensures Tells(StopSectionStep(r, t), h.(settled := true))
  {
    assert ReactorAgrees(r) && (r.state.Error? ==> r.threadExited);
    assert h.settled || r.state.Created?;
    if r.state.Created? { StopsCreatedTells(r, h); } else if !Terminal(r) { StoppingTells(r, h); }
    assert !r.state.Created? ==> h.(settled := true) == h;
    hide Inv, Tells, ReactorAgrees, Move, Enabled;
    var s := if r.state.Created? then r.(state := Stopped, stopResult := OkStatus) else r;
    if s.state.Stopped? {
      MoveIsSame(s, s, t, Joining(StopResult));
      SameTells(s, Move(s, t, Joining(StopResult)), h.(settled := true));
    } else if s.state.Error? && s.threadExited {
      MoveIsSame(s, s, t, Joining(SavedStopResult(s.stopResult)));
      SameTells(s, Move(s, t, Joining(SavedStopResult(s.stopResult))), h.(settled := true));
    } else if s.reactorExiting {
      MoveIsSame(s, s, t, Joining(StopResult));
      SameTells(s, Move(s, t, Joining(StopResult)), h.(settled := true));
    } else {
      var q := s.(stopRequested := true, state := Stopping, wakeInFlight := s.wakeInFlight + 1);
      MoveIsSame(s.(state := Stopping), q, t, WakeClaimed);
      SameTells(s.(state := Stopping), Move(q, t, WakeClaimed), h.(settled := true));
    }
  }

  lemma WakeTells(r: Runtime, h: History, a: Action)
    requires Inv(r) && Tells(r, h) && Enabled(r, a) && a.WakeSection?
    ensures Tells(CallerStep(r, a), Told(h, r.hasPipelines, a))
  {
    WakerCounts(r, a.t);
    assert BeforeExit(r.reactor) && r.state.Stopping? && ReactorAgrees(r);
    hide Inv, Verdict, CallerAgrees;
  }

  lemma JoinIsSame(r: Runtime, t: nat, reply: Reply)
    ensures SameCourse(r, JoinSectionStep(r, t, reply))
  {
    hide Move;
    MoveIsSame(r, r, t, Replying(reply));
    MoveIsSame(r, r.(joinCompleted := true), t, Replying(reply));
    MoveIsSame(r, r.(joinClaimed := true, joinOwner := Some(t)), t, JoinOwner(reply));
  }

  lemma AnswerIsSame(r: Runtime, t: nat, reply: Reply)
    ensures SameCourse(r, AnswerStep(r, t, reply))
  {
    hide Move, Said, SaidAtStart;
    var s := r.(stopAnswers := r.stopAnswers + Said(r, reply), startAnswers := r.startAnswers + SaidAtStart(reply));
    MoveIsSame(r, s, t, Idle);
  }

  lemma StartupSectionIsSame(r: Runtime, t: nat)
    ensures SameCourse(r, StartupSectionStep(r, t))
  {
    hide Move;
    MoveIsSame(r, r.(startAnswers := r.startAnswers + {OkStatus}), t, Idle);
    MoveIsSame(r, r, t, Joining(StartResult(r.startupResult)));
  }

  lemma SameAsItself(r: Runtime)
    ensures SameCourse(r, r)
  {
  }

  lemma JoinThreadIsSame(r: Runtime, t: nat, reply: Reply)
    ensures SameCourse(r, Move(r.(joinable := false, joins := r.joins + 1), t, Joined(reply)))
  {
    hide Move;
    MoveIsSame(r, r.(joinable := false, joins := r.joins + 1), t, Joined(reply));
  }

  lemma JoinedIsSame(r: Runtime, t: nat, reply: Reply)
    ensures SameCourse(r, Move(r.(joinClaimed := false, joinCompleted := true, joinOwner := None), t, Replying(reply)))
  {
    hide Move;
    MoveIsSame(r, r.(joinClaimed := false, joinCompleted := true, joinOwner := None), t, Replying(reply));
  }

  /** The other steps of a caller only move it on. */
  lemma OtherIsSame(r: Runtime, a: Action)
    requires Enabled(r, a) && !ReactorAction(a) && !a.CallStart? && !a.StopSection? && !a.WakeSection?
    ensures SameCourse(r, CallerStep(r, a))
  {
    hide Move, SameCourse, JoinSectionStep, AnswerStep, StartupSectionStep;
    assert SameCourse(r, r) by { SameAsItself(r); }
    match a
    case CallStop(t) => MoveIsSame(r, r, t, InStop);
    case Wake(t, status) => MoveIsSame(r, r, t, WakeDone(status));
    case StartupSection(t) => StartupSectionIsSame(r, t);
    case JoinSection(t) => JoinIsSame(r, t, At(r, t).reply);
    case Answer(t) => AnswerIsSame(r, t, At(r, t).reply);
    case JoinThread(t) => JoinThreadIsSame(r, t, At(r, t).reply);
    case JoinedSection(t) => JoinedIsSame(r, t, At(r, t).reply);
  }

  lemma OtherTellNothing(h: History, hasPipelines: bool, a: Action)
    requires !ReactorAction(a) && !a.CallStart? && !a.StopSection? && !a.WakeSection?
    ensures Told(h, hasPipelines, a) == h
  {
  }

  lemma StopIs(r: Runtime, h: History, t: nat)
    requires Enabled(r, StopSection(t))
    ensures CallerStep(r, StopSection(t)) == StopSectionStep(r, t)
    ensures Told(h, r.hasPipelines, StopSection(t)) == h.(settled := true)
  {
  }

  lemma StepTells(r: Runtime, h: History, a: Action)
    requires Inv(r) && Tells(r, h) && Enabled(r, a)
    ensures Tells(Step(r, a), Told(h, r.hasPipelines, a))
  {
    hide Inv, Tells, Told, ReactorStep, CallerStep;
    if ReactorAction(a) {
      ReactorTells(r, r.hasPipelines, h, a);
    } else if a.CallStart? {
      StartTells(r, h, a);
    } else if a.StopSection? {
      StopTells(r, h, a.t);
      StopIs(r, h, a.t);
    } else if a.WakeSection? {
      WakeTells(r, h, a);
    } else {
      OtherIsSame(r, a);
      SameTells(r, CallerStep(r, a), h);
      OtherTellNothing(h, r.hasPipelines, a);
    }
  }

  lemma KeepsPipelines(r: Runtime, a: Action)
    requires Enabled(r, a)
    ensures Step(r, a).hasPipelines == r.hasPipelines
  {
    hide At, Move, StopSectionStep, StartStep, WakeSectionStep, StartupSectionStep, JoinSectionStep, AnswerStep;
    hide ReactorStep, Enabled;
  }

  lemma {:induction false} HistoryTells(hasPipelines: bool, states: seq<Runtime>, actions: seq<Action>)
    requires Trace(states, actions) && states[0] == Initial(hasPipelines)
    ensures Inv(states[|actions|]) && states[|actions|].hasPipelines == hasPipelines
    ensures Tells(states[|actions|], AllTold(hasPipelines, actions))
  {
    var n := |actions|;
    ProtocolIsSafe(hasPipelines, states, actions);
    hide Inv, Tells, Told, Step, Enabled, Safe;
    if n == 0 {
      InitialTells(hasPipelines);
    } else {
      TracePrefix(states, actions);
      HistoryTells(hasPipelines, states[..n], actions[..n - 1]);
      KeepsPipelines(states[n - 1], actions[n - 1]);
      StepTells(states[n - 1], AllTold(hasPipelines, actions[..n - 1]), actions[n - 1]);
    }
  }

  /** The step reported no failure. */
  predicate Clean(a: Action) {
    match a
    case WakeSection(_, wake) => wake.OkStatus?
    case StartupFails(f) => Ok(f)
    case CloseAfterFailedStartup(f) => Ok(f)
    case LeavePolling(f) => Ok(f)
    case DrainEnds(f) => Ok(f)
    case CloseLoop(f) => Ok(f)
    case Throw(failure) => failure.OkStatus?
    case _ => true
  }

  lemma CleanStep(h: History, hasPipelines: bool, a: Action)
    requires Ok(Told(h, hasPipelines, a).failures) && Told(h, hasPipelines, a).wake.OkStatus?
    ensures Clean(a) && (!a.Throw? ==> Ok(h.failures)) && h.wake.OkStatus?
  {
  }

  lemma {:induction false} OkIsClean(hasPipelines: bool, actions: seq<Action>)
    requires forall i :: 0 <= i < |actions| && actions[i].Throw? ==> !Clean(actions[i])
    requires Ok(AllTold(hasPipelines, actions).failures) && AllTold(hasPipelines, actions).wake.OkStatus?
    ensures forall i :: 0 <= i < |actions| ==> Clean(actions[i])
  {
    hide Told, Clean, Ok;
    var n := |actions|;
    if n > 0 {
      CleanStep(AllTold(hasPipelines, actions[..n - 1]), hasPipelines, actions[n - 1]);
      OkIsClean(hasPipelines, actions[..n - 1]);
      assert forall i :: 0 <= i < n - 1 ==> actions[..n - 1][i] == actions[i];
    }
  }

  /** In a final state the result is the verdict, and the state says whether it is ok. */
  lemma FinalIsVerdict(r: Runtime, h: History)
    requires Inv(r) && Tells(r, h) && Terminal(r)
    ensures r.stopResult == Verdict(h) && (r.state.Stopped? <==> Verdict(h).OkStatus?)
  {
    VerdictIs(h);
    assert ReactorAgrees(r);
    hide Inv, Verdict, CallerAgrees;
  }

  lemma AnswersAreResults(r: Runtime, h: History)
    requires Inv(r) && Tells(r, h)
    ensures forall x :: x in r.stopAnswers ==> Terminal(r) && x == r.stopResult
    ensures forall x :: x in r.startAnswers ==>
              if h.started then x.OkStatus? else Terminal(r) && x == r.stopResult && !x.OkStatus?
  {
    assert Globals(r);
    hide ReactorAgrees, CallerAgrees, Verdict, ResultTells;
  }

  /**
   * Over every run: a final state is Stopped exactly if no failure counted, and its result is the first of the
   * failures to create the thread, of the media, of a wake, of the reactor and of an observer. Every stop() answers
   * that, and so does a start() whose startup failed; one whose startup succeeded answers ok.
   */
  lemma AnswersAreVerdicts(hasPipelines: bool, states: seq<Runtime>, actions: seq<Action>)
    requires Trace(states, actions) && states[0] == Initial(hasPipelines)
    ensures var r, h := states[|actions|], AllTold(hasPipelines, actions);
            && (Terminal(r) ==> r.stopResult == Verdict(h) && (r.state.Stopped? <==> Verdict(h).OkStatus?))
            && (forall x :: x in r.stopAnswers ==> x == Verdict(h))
            && (forall x :: x in r.startAnswers ==>
                  if h.started then x.OkStatus? else x == Verdict(h) && !x.OkStatus?)
  {
    HistoryTells(hasPipelines, states, actions);
    var r, h := states[|actions|], AllTold(hasPipelines, actions);
    hide Inv, Tells, Verdict, Trace, AllTold, Terminal;
    AnswersAreResults(r, h);
    if Terminal(r) { FinalIsVerdict(r, h); }
  }

  /** A stop() answers ok only if no step of the run reported a failure. */
  lemma OkMeansNoFailure(hasPipelines: bool, states: seq<Runtime>, actions: seq<Action>)
    requires Trace(states, actions) && states[0] == Initial(hasPipelines)
    requires OkStatus in states[|actions|].stopAnswers
    ensures forall i :: 0 <= i < |actions| ==> Clean(actions[i])
  {
    AnswersAreVerdicts(hasPipelines, states, actions);
    var h := AllTold(hasPipelines, actions);
    VerdictIs(h);
    assert Verdict(h).OkStatus?;
    assert forall i :: 0 <= i < |actions| ==> Enabled(states[i], actions[i]);
    hide Verdict, Step, Told, AllTold;
    OkIsClean(hasPipelines, actions);
  }

  // ---- Why a run ends, and what it leaves open ----

  predicate AskedToStop(actions: seq<Action>) {
    exists i :: 0 <= i < |actions| && actions[i].StopSection?
  }

  /** The reactor has left its loop without a failure so far. */
  predicate LeftInOrder(p: Reactor) {
    match p
    case Exiting(f) => Ok(f)
    case AwaitingWakes(f) => Ok(f)
    case Draining(f) => Ok(f)
    case Closing(f) => Ok(f)
    case Finishing(f) => Ok(f)
    case _ => false
  }

  predicate EndsInOrder(r: Runtime, asked: bool) {
    && (r.stopRequested || r.state.Stopping? || r.state.Stopped? || LeftInOrder(r.reactor) ==> asked)
    && (r.reactor.Finishing? || r.reactor.Ending? || r.reactor.Done? ==> !r.loop.Open?)
    && (r.reactor.StartupFailed? ==> !Ok(r.reactor.f))
  }

  lemma InitialIsInOrder(hasPipelines: bool)
    ensures EndsInOrder(Initial(hasPipelines), false)
  {
  }

  lemma ReactorEndsInOrder(r: Runtime, asked: bool, a: Action)
    requires Enabled(r, a) && EndsInOrder(r, asked) && ReactorAction(a)
    ensures EndsInOrder(ReactorStep(r, a), asked)
  {
    hide At;
  }

  lemma StartEndsInOrder(r: Runtime, asked: bool, t: nat, spawned: bool, failure: StatusCode)
    requires EndsInOrder(r, asked)
    ensures EndsInOrder(StartStep(r, t, spawned, failure), asked)
  {
  }

  lemma SameOrder(r: Runtime, s: Runtime, asked: bool)
    requires s.stopRequested == r.stopRequested && s.state == r.state && s.reactor == r.reactor && s.loop == r.loop
    requires EndsInOrder(r, asked)
    ensures EndsInOrder(s, asked)
  {
  }

  lemma MoveEndsInOrder(r: Runtime, t: nat, c: Caller, asked: bool)
    requires EndsInOrder(r, asked)
    ensures EndsInOrder(Move(r, t, c), asked)
  {
  }

  lemma StopRequestInOrder(r: Runtime, s: Runtime, asked: bool)
    requires EndsInOrder(r, asked) && s.reactor == r.reactor && s.loop == r.loop
    ensures EndsInOrder(s, true)
  {
  }

  lemma StopEndsInOrder(r: Runtime, asked: bool, t: nat)
    requires EndsInOrder(r, asked)
    ensures EndsInOrder(StopSectionStep(r, t), true)
  {
    hide Move, EndsInOrder;
    var s := if r.state.Created? then r.(state := Stopped, stopResult := OkStatus) else r;
    var q := s.(stopRequested := true, state := Stopping, wakeInFlight := s.wakeInFlight + 1);
    StopRequestInOrder(r, s, asked);
    StopRequestInOrder(r, q, asked);
    MoveEndsInOrder(s, t, Joining(StopResult), true);
    MoveEndsInOrder(s, t, Joining(SavedStopResult(s.stopResult)), true);
    MoveEndsInOrder(q, t, WakeClaimed, true);
  }

  lemma JoinEndsInOrder(r: Runtime, t: nat, reply: Reply, asked: bool)
    requires EndsInOrder(r, asked)
    ensures EndsInOrder(JoinSectionStep(r, t, reply), asked)
  {
    hide Move, EndsInOrder;
    var joined, claimed := r.(joinCompleted := true), r.(joinClaimed := true, joinOwner := Some(t));
    SameOrder(r, joined, asked);
    SameOrder(r, claimed, asked);
    MoveEndsInOrder(r, t, Replying(reply), asked);
    MoveEndsInOrder(joined, t, Replying(reply), asked);
    MoveEndsInOrder(claimed, t, JoinOwner(reply), asked);
  }

  lemma JoinedEndsInOrder(r: Runtime, t: nat, reply: Reply, asked: bool)
    requires EndsInOrder(r, asked)
    ensures EndsInOrder(Move(r.(joinable := false, joins := r.joins + 1), t, Joined(reply)), asked)
    ensures EndsInOrder(Move(r.(joinClaimed := false, joinCompleted := true, joinOwner := None), t, Replying(reply)),
                        asked)
  {
    hide Move, EndsInOrder;
    var taken := r.(joinable := false, joins := r.joins + 1);
    var joined := r.(joinClaimed := false, joinCompleted := true, joinOwner := None);
    SameOrder(r, taken, asked);
    SameOrder(r, joined, asked);
    MoveEndsInOrder(taken, t, Joined(reply), asked);
    MoveEndsInOrder(joined, t, Replying(reply), asked);
  }

  lemma AnswerEndsInOrder(r: Runtime, t: nat, reply: Reply, asked: bool)
    requires EndsInOrder(r, asked)
    ensures EndsInOrder(AnswerStep(r, t, reply), asked)
  {
    hide Move, EndsInOrder, Said, SaidAtStart;
    var s := r.(stopAnswers := r.stopAnswers + Said(r, reply), startAnswers := r.startAnswers + SaidAtStart(reply));
    SameOrder(r, s, asked);
    MoveEndsInOrder(s, t, Idle, asked);
  }

  lemma StartupEndsInOrder(r: Runtime, t: nat, asked: bool)
    requires EndsInOrder(r, asked)
    ensures EndsInOrder(StartupSectionStep(r, t), asked)
  {
    hide Move, EndsInOrder;
    var s := r.(startAnswers := r.startAnswers + {OkStatus});
    SameOrder(r, s, asked);
    MoveEndsInOrder(s, t, Idle, asked);
    MoveEndsInOrder(r, t, Joining(StartResult(r.startupResult)), asked);
  }

  lemma WakeEndsInOrder(r: Runtime, t: nat, wake: StatusCode, asked: bool)
    requires EndsInOrder(r, asked)
    ensures EndsInOrder(WakeSectionStep(r, t, wake), asked)
  {
    hide Move, EndsInOrder;
    var s := r.(wakeInFlight := r.wakeInFlight - 1, stopResult := RecordFirst(r.stopResult, wake));
    SameOrder(r, s, asked);
    MoveEndsInOrder(s, t, Joining(StopResult), asked);
  }

  /** What a caller does outside of these two sections changes nothing of it. */
  lemma CallerEndsInOrder(r: Runtime, asked: bool, a: Action)
    requires Enabled(r, a) && EndsInOrder(r, asked)
    requires !ReactorAction(a) && !a.StopSection? && !a.CallStart?
    ensures EndsInOrder(CallerStep(r, a), asked)
  {
    hide EndsInOrder, Move, JoinSectionStep, AnswerStep, StartupSectionStep, WakeSectionStep;
    match a
    case CallStop(t) => MoveEndsInOrder(r, t, InStop, asked);
    case Wake(t, status) => MoveEndsInOrder(r, t, WakeDone(status), asked);
    case WakeSection(t, wake) => WakeEndsInOrder(r, t, wake, asked);
    case StartupSection(t) => StartupEndsInOrder(r, t, asked);
    case JoinSection(t) => JoinEndsInOrder(r, t, At(r, t).reply, asked);
    case JoinThread(t) => JoinedEndsInOrder(r, t, At(r, t).reply, asked);
    case JoinedSection(t) => JoinedEndsInOrder(r, t, At(r, t).reply, asked);
    case Answer(t) => AnswerEndsInOrder(r, t, At(r, t).reply, asked);
  }

  lemma StepEndsInOrder(r: Runtime, asked: bool, a: Action)
    requires Enabled(r, a) && EndsInOrder(r, asked)
    ensures EndsInOrder(Step(r, a), asked || a.StopSection?)
  {
    hide EndsInOrder, ReactorStep, StopSectionStep, StartStep;
    if ReactorAction(a) {
      ReactorEndsInOrder(r, asked, a);
    } else {
      match a {
        case StopSection(t) => StopEndsInOrder(r, asked, t);
        case CallStart(t, spawned, failure) => StartEndsInOrder(r, asked, t, spawned, failure);
        case _ => CallerEndsInOrder(r, asked, a);
      }
    }
  }

  /**
   * Over every run: the runtime stops, and its reactor leaves the loop without a failure, only if a stop() asked it
   * to; and once the reactor has finished, the event loop is not left open.
   */
  lemma {:induction false} StoppedWasAsked(hasPipelines: bool, states: seq<Runtime>, actions: seq<Action>)
    requires Trace(states, actions) && states[0] == Initial(hasPipelines)
    ensures EndsInOrder(states[|actions|], AskedToStop(actions))
  {
    var n := |actions|;
    hide EndsInOrder, Step, Enabled;
    if n == 0 {
      InitialIsInOrder(hasPipelines);
    } else {
      TracePrefix(states, actions);
      StoppedWasAsked(hasPipelines, states[..n], actions[..n - 1]);
      StepEndsInOrder(states[n - 1], AskedToStop(actions[..n - 1]), actions[n - 1]);
      assert AskedToStop(actions) <==> AskedToStop(actions[..n - 1]) || actions[n - 1].StopSection? by {
        if i :| 0 <= i < n && actions[i].StopSection? && i < n - 1 {
          assert actions[..n - 1][i].StopSection?;
        }
      }
    }
  }
}

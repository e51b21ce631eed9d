/** The event loop: its tables and the interest list of the kernel change together, or not at all. */
module EventLoop {
  import opened Statuses

  datatype Flag = In | ReadNormal | Out | Priority | Error | HangUp | OtherFlag

  const ALLOWED: set<Flag> := {In, ReadNormal, Out, Priority}

  const CONTROL_TOKEN: nat := 0

  const MAXIMUM_INTERRUPTIONS: nat := 64

  datatype PollFd = PollFd(fd: int, events: set<Flag>, revents: set<Flag>)

  /** What the kernel is asked to watch for when a source asks for `events`. */
  function Interests(events: set<Flag>): set<Flag> {
    (if In in events || ReadNormal in events then {In} else {}) + events * {Out, Priority}
  }

  /** What a source that asked for `requested` is told when the kernel reports `events`. */
  function Reported(events: set<Flag>, requested: set<Flag>): set<Flag> {
    var reading := requested * {In, ReadNormal};
    events * {Out, Priority, Error, HangUp} + if In !in events then {} else if reading == {} then {In} else reading
  }

  /** The kernel watches exactly what was asked for, of whatever kind, and nothing else. */
  lemma WatchedAsRequested(events: set<Flag>)
    requires events <= ALLOWED && events != {}
    ensures Interests(events) <= {In, Out, Priority} && Interests(events) != {}
    ensures In in Interests(events) <==> events * {In, ReadNormal} != {}
    ensures forall f :: f in {Out, Priority} ==> (f in Interests(events) <==> f in events)
  {
    assert forall f :: f in events ==> f in ALLOWED;
    var reading := events * {In, ReadNormal};
    assert In in reading <==> In in events;
    assert ReadNormal in reading <==> ReadNormal in events;
    if reading != {} {
      var f :| f in reading;
      assert f == In || f == ReadNormal;
    }
  }

  /** A source is told of reading exactly if the kernel reports it, and then in the words it asked in. */
  lemma ReportedAsRequested(events: set<Flag>, requested: set<Flag>)
    requires requested <= ALLOWED && requested != {} && events <= Interests(requested) + {Error, HangUp}
    ensures Reported(events, requested) <= requested + {Error, HangUp}
    ensures In in events <==> Reported(events, requested) * {In, ReadNormal} != {}
    ensures forall f :: f in {Out, Priority, Error, HangUp} ==> (f in Reported(events, requested) <==> f in events)
    ensures In in events ==> Reported(events, requested) * {In, ReadNormal} == requested * {In, ReadNormal}
    ensures events != {} ==> Reported(events, requested) != {}
  {
  }

  datatype Interest = Interest(token: nat, flags: set<Flag>)

  datatype Event = Event(token: nat, flags: set<Flag>)

  /** What a wait comes to. */
  datatype Waiting = Events(events: seq<Event>) | Interrupted | WaitFailed

  /** A call of the loop, and whether the kernel granted it. */
  datatype EpollCall =
    | EpollCreated(ok: bool)
    | EventFdCreated(ok: bool)
    | Added(ok: bool)
    | Removed(ok: bool)
    | EventFdClosed(ok: bool)
    | EpollClosed(ok: bool)
    | Waited(waiting: Waiting)
    | ControlRead(ok: bool)

  /**
   * The kernel's side: the two descriptors of the loop and what it watches. Any call may fail, and every call is
   * recorded.
   */
  class EpollApi {
    ghost var calls: seq<EpollCall>
    var epoll: Option<int>
    var eventFd: Option<int>
    var interest: map<int, Interest>

    constructor ()
      ensures calls == [] && epoll.None? && eventFd.None? && interest == map[]
    {
      calls, epoll, eventFd, interest := [], None, None, map[];
    }

    method CreateEpoll() returns (fd: int)
      requires epoll.None?
      modifies this`calls, this`epoll, this`interest
      ensures calls == old(calls) + [EpollCreated(fd >= 0)]
      ensures fd >= 0 ==> epoll == Some(fd) && interest == map[]
      ensures fd < 0 ==> epoll.None? && interest == old(interest)
    {
      fd := *;
      calls := calls + [EpollCreated(fd >= 0)];
      if fd >= 0 {
        epoll, interest := Some(fd), map[];
      }
    }

    method CreateEventFd() returns (fd: int)
      requires eventFd.None?
      modifies this`calls, this`eventFd
      ensures calls == old(calls) + [EventFdCreated(fd >= 0)]
      ensures eventFd == if fd >= 0 then Some(fd) else None
    {
      fd := *;
      calls := calls + [EventFdCreated(fd >= 0)];
      if fd >= 0 {
        eventFd := Some(fd);
      }
    }

    /** A descriptor can be watched once only. */
    method Add(fd: int, flags: set<Flag>, token: nat) returns (ok: bool)
      modifies this`calls, this`interest
      ensures calls == old(calls) + [Added(ok)]
      ensures ok ==> fd !in old(interest) && interest == old(interest)[fd := Interest(token, flags)]
      ensures !ok ==> interest == old(interest)
    {
      ok := *;
      if fd in interest {
        ok := false;
      }
      calls := calls + [Added(ok)];
      if ok {
        interest := interest[fd := Interest(token, flags)];
      }
    }

    method Remove(fd: int) returns (ok: bool)
      modifies this`calls, this`interest
      ensures calls == old(calls) + [Removed(ok)]
      ensures interest == if ok then old(interest) - {fd} else old(interest)
    {
      ok := *;
      calls := calls + [Removed(ok)];
      if ok {
        interest := interest - {fd};
      }
    }

    /** With the instance, what it watches is gone; a descriptor that is closed is watched no more. */
    method CloseEventFd() returns (ok: bool)
      requires eventFd.Some?
      modifies this`calls, this`eventFd, this`interest
      ensures calls == old(calls) + [EventFdClosed(ok)]
      ensures eventFd.None? && interest == old(interest - {eventFd.value})
    {
      ok := *;
      calls := calls + [EventFdClosed(ok)];
      interest := interest - {eventFd.value};
      eventFd := None;
    }

    method CloseEpoll() returns (ok: bool)
      requires epoll.Some?
      modifies this`calls, this`epoll, this`interest
      ensures calls == old(calls) + [EpollClosed(ok)]
      ensures epoll.None? && interest == map[]
    {
      ok := *;
      calls := calls + [EpollClosed(ok)];
      epoll, interest := None, map[];
    }

    method Wait() returns (r: Waiting)
      modifies this`calls
      ensures calls == old(calls) + [Waited(r)]
    {
      r := *;
      calls := calls + [Waited(r)];
    }

    method ReadEventFd() returns (ok: bool)
      modifies this`calls
      ensures calls == old(calls) + [ControlRead(ok)]
    {
      ok := *;
      calls := calls + [ControlRead(ok)];
    }
  }

  /** Pipelines and sources are known by who they are. */
  type Handle = nat

  /** A source was shown its descriptors and asked whether its pipeline shall run. */
  datatype Evaluation = Evaluation(source: Handle, shown: seq<PollFd>, answer: Result<bool>)

  /** The sources that the loop waits for; each may answer anything, and every answer is recorded. */
  class WaitSources {
    ghost var evaluations: seq<Evaluation>

    constructor ()
      ensures evaluations == []
    {
      evaluations := [];
    }

    method Evaluate(source: Handle, shown: seq<PollFd>) returns (r: Result<bool>)
      modifies this
      ensures evaluations == old(evaluations) + [Evaluation(source, shown, r)]
      ensures r.Failure? ==> !r.code.OkStatus?
    {
      r := *;
      if r.Failure? && r.code.OkStatus? {
        r := Failure(Internal);
      }
      evaluations := evaluations + [Evaluation(source, shown, r)];
    }
  }

  datatype SourceRecord = SourceRecord(pipeline: Handle, source: Handle, descriptors: seq<PollFd>, tokens: seq<nat>)

  datatype Target = Target(source: nat, descriptor: nat)

  datatype Tables = Tables(sources: seq<SourceRecord>, tokens: map<nat, Target>, fds: set<int>, handles: set<Handle>,
                           nextToken: nat)

  /** The first `n` descriptors, each with its token. */
  function Watched(descriptors: seq<PollFd>, tokens: seq<nat>, n: nat): map<int, Interest>
    requires n <= |descriptors| == |tokens|
  {
    if n == 0 then map[]
    else Watched(descriptors, tokens, n - 1)
         [descriptors[n - 1].fd := Interest(tokens[n - 1], Interests(descriptors[n - 1].events))]
  }

  predicate At(sources: seq<SourceRecord>, x: Target) {
    && x.source < |sources|
    && x.descriptor < |sources[x.source].descriptors| == |sources[x.source].tokens|
  }

  function FdAt(sources: seq<SourceRecord>, x: Target): int
    requires At(sources, x)
  {
    sources[x.source].descriptors[x.descriptor].fd
  }

  function InterestAt(sources: seq<SourceRecord>, x: Target): Interest
    requires At(sources, x)
  {
    Interest(sources[x.source].tokens[x.descriptor], Interests(sources[x.source].descriptors[x.descriptor].events))
  }

  /** Every token leads to the descriptor that has it, and is no older than the next one. */
  ghost predicate TokensLead(t: Tables) {
    && CONTROL_TOKEN < t.nextToken
    && (forall x :: At(t.sources, x) ==>
                      InterestAt(t.sources, x).token in t.tokens && t.tokens[InterestAt(t.sources, x).token] == x)
    && (forall token :: token in t.tokens ==>
                          && CONTROL_TOKEN < token < t.nextToken && At(t.sources, t.tokens[token])
                          && InterestAt(t.sources, t.tokens[token]).token == token)
  }

  /** Every descriptor is registered once. */
  ghost predicate FdsOnce(t: Tables) {
    && (forall x, y :: At(t.sources, x) && At(t.sources, y) && FdAt(t.sources, x) == FdAt(t.sources, y) ==> x == y)
    && (forall x :: At(t.sources, x) ==> FdAt(t.sources, x) in t.fds)
    && (forall fd :: fd in t.fds ==> exists x :: At(t.sources, x) && FdAt(t.sources, x) == fd)
  }

  /** Every source is registered once. */
  ghost predicate SourcesOnce(t: Tables) {
    && (forall r :: r in t.sources ==> |r.tokens| == |r.descriptors| > 0)
    && (forall i, j :: 0 <= i < j < |t.sources| ==> t.sources[i].source != t.sources[j].source)
    && (forall i :: 0 <= i < |t.sources| ==> t.sources[i].source in t.handles)
    && (forall h :: h in t.handles ==> exists i :: 0 <= i < |t.sources| && t.sources[i].source == h)
  }

  ghost predicate Consistent(t: Tables) {
    TokensLead(t) && FdsOnce(t) && SourcesOnce(t)
  }

  lemma TheyLead(t: Tables)
    requires Consistent(t)
    ensures TokensLead(t)
  {
  }

  /** The kernel watches the control descriptor and exactly the registered ones, each under its own token. */
  ghost predicate Matches(interest: map<int, Interest>, eventFd: int, t: Tables) {
    && eventFd !in t.fds && interest.Keys == t.fds + {eventFd}
    && interest[eventFd] == Interest(CONTROL_TOKEN, {In})
    && (forall x :: At(t.sources, x) && FdAt(t.sources, x) in interest ==>
                      interest[FdAt(t.sources, x)] == InterestAt(t.sources, x))
  }

  // ---- Registration ----

  /** The descriptors can be watched, and none of them is registered already. */
  ghost predicate Acceptable(descriptors: seq<PollFd>, fds: set<int>) {
    && (forall i :: 0 <= i < |descriptors| ==>
                      && descriptors[i].fd >= 0 && {} != descriptors[i].events <= ALLOWED
                      && descriptors[i].fd !in fds && descriptors[i].revents == {})
    && (forall i, j :: 0 <= i < j < |descriptors| ==> descriptors[i].fd != descriptors[j].fd)
  }

  function TokensFrom(next: nat, n: nat): seq<nat> {
    seq(n, i requires 0 <= i < n => next + i)
  }

  /** The tables with one more source, whose tokens are the next ones. */
  function Staged(t: Tables, r: SourceRecord): Tables {
    Tables(t.sources + [r],
           t.tokens + map k | k in r.tokens && k >= t.nextToken :: Target(|t.sources|, k - t.nextToken),
           t.fds + (set i | 0 <= i < |r.descriptors| :: r.descriptors[i].fd),
           t.handles + {r.source},
           t.nextToken + |r.descriptors|)
  }

  lemma StagedAt(t: Tables, r: SourceRecord, x: Target)
    requires |r.tokens| == |r.descriptors|
    ensures At(Staged(t, r).sources, x) <==>
              At(t.sources, x) || (x.source == |t.sources| && x.descriptor < |r.descriptors|)
    ensures At(t.sources, x) ==>
              && FdAt(Staged(t, r).sources, x) == FdAt(t.sources, x)
              && InterestAt(Staged(t, r).sources, x) == InterestAt(t.sources, x)
    ensures x.source == |t.sources| && x.descriptor < |r.descriptors| ==>
              && FdAt(Staged(t, r).sources, x) == r.descriptors[x.descriptor].fd
              && InterestAt(Staged(t, r).sources, x)
                 == Interest(r.tokens[x.descriptor], Interests(r.descriptors[x.descriptor].events))
  {
  }

  lemma StagedTokensLead(t: Tables, r: SourceRecord)
    requires TokensLead(t)
    requires r.tokens == TokensFrom(t.nextToken, |r.descriptors|)
    ensures TokensLead(Staged(t, r))
  {
    var after := Staged(t, r);
    forall x | At(after.sources, x)
      ensures InterestAt(after.sources, x).token in after.tokens
      ensures after.tokens[InterestAt(after.sources, x).token] == x
    {
      StagedAt(t, r, x);
    }
    forall token | token in after.tokens
      ensures CONTROL_TOKEN < token < after.nextToken && At(after.sources, after.tokens[token])
      ensures InterestAt(after.sources, after.tokens[token]).token == token
    {
      StagedAt(t, r, after.tokens[token]);
    }
  }

  lemma StagedFdsOnce(t: Tables, r: SourceRecord)
    requires FdsOnce(t) && Acceptable(r.descriptors, t.fds) && |r.tokens| == |r.descriptors|
    ensures FdsOnce(Staged(t, r))
  {
    var after := Staged(t, r);
    forall x | At(after.sources, x)
      ensures FdAt(after.sources, x) in after.fds
    {
      StagedAt(t, r, x);
    }
    forall x, y | At(after.sources, x) && At(after.sources, y) && FdAt(after.sources, x) == FdAt(after.sources, y)
      ensures x == y
    {
      StagedAt(t, r, x);
      StagedAt(t, r, y);
    }
    forall fd | fd in after.fds
      ensures exists x :: At(after.sources, x) && FdAt(after.sources, x) == fd
    {
      if fd in t.fds {
        var x :| At(t.sources, x) && FdAt(t.sources, x) == fd;
        StagedAt(t, r, x);
      } else {
        var i :| 0 <= i < |r.descriptors| && r.descriptors[i].fd == fd;
        StagedAt(t, r, Target(|t.sources|, i));
      }
    }
  }

  lemma StagedSourcesOnce(t: Tables, r: SourceRecord)
    requires SourcesOnce(t) && |r.tokens| == |r.descriptors| > 0 && r.source !in t.handles
    ensures SourcesOnce(Staged(t, r))
  {
    var after := Staged(t, r);
    forall h | h in after.handles
      ensures exists i :: 0 <= i < |after.sources| && after.sources[i].source == h
    {
      if h in t.handles {
        var i :| 0 <= i < |t.sources| && t.sources[i].source == h;
        assert after.sources[i].source == h;
      } else {
        assert after.sources[|t.sources|].source == h;
      }
    }
  }

  lemma StagedIsConsistent(t: Tables, r: SourceRecord)
    requires Consistent(t) && Acceptable(r.descriptors, t.fds) && r.source !in t.handles && r.descriptors != []
    requires r.tokens == TokensFrom(t.nextToken, |r.descriptors|)
    ensures Consistent(Staged(t, r))
  {
    StagedTokensLead(t, r);
    StagedFdsOnce(t, r);
    StagedSourcesOnce(t, r);
  }

  lemma {:induction false} WatchedFds(descriptors: seq<PollFd>, tokens: seq<nat>, n: nat)
    requires n <= |descriptors| == |tokens|
    ensures forall fd :: fd in Watched(descriptors, tokens, n) <==> exists i :: 0 <= i < n && descriptors[i].fd == fd
  {
    if n > 0 {
      WatchedFds(descriptors, tokens, n - 1);
    }
  }

  lemma WatchedNone(descriptors: seq<PollFd>, tokens: seq<nat>, before: map<int, Interest>)
    requires |descriptors| == |tokens|
    ensures before + Watched(descriptors, tokens, 0) == before
  {
  }

  lemma WatchedWith(descriptors: seq<PollFd>, tokens: seq<nat>, n: nat, before: map<int, Interest>)
    requires n < |descriptors| == |tokens|
    requires forall i :: 0 <= i < n ==> descriptors[i].fd != descriptors[n].fd
    requires descriptors[n].fd !in before + Watched(descriptors, tokens, n)
    ensures (before + Watched(descriptors, tokens, n))
            [descriptors[n].fd := Interest(tokens[n], Interests(descriptors[n].events))]
         == before + Watched(descriptors, tokens, n + 1)
    ensures descriptors[n].fd !in before
  {
  }

  lemma WatchedWithout(descriptors: seq<PollFd>, tokens: seq<nat>, n: nat, before: map<int, Interest>)
    requires n < |descriptors| == |tokens| && descriptors[n].fd !in before
    requires forall i :: 0 <= i < n ==> descriptors[i].fd != descriptors[n].fd
    ensures before + Watched(descriptors, tokens, n + 1) - {descriptors[n].fd}
         == before + Watched(descriptors, tokens, n)
  {
    WatchedFds(descriptors, tokens, n);
  }

  lemma {:induction false} WatchedAt(descriptors: seq<PollFd>, tokens: seq<nat>, n: nat, i: nat)
    requires i < n <= |descriptors| == |tokens|
    requires forall j, k :: 0 <= j < k < |descriptors| ==> descriptors[j].fd != descriptors[k].fd
    ensures descriptors[i].fd in Watched(descriptors, tokens, n)
    ensures Watched(descriptors, tokens, n)[descriptors[i].fd] == Interest(tokens[i], Interests(descriptors[i].events))
  {
    if i < n - 1 {
      WatchedAt(descriptors, tokens, n - 1, i);
    }
  }

  /** The new descriptors are those watched in addition. */
  lemma StagedFds(t: Tables, r: SourceRecord)
    requires |r.tokens| == |r.descriptors| && Acceptable(r.descriptors, t.fds)
    ensures Staged(t, r).fds == t.fds + Watched(r.descriptors, r.tokens, |r.descriptors|).Keys
    ensures FdsOnce(t) ==> forall x :: At(Staged(t, r).sources, x) ==> FdAt(Staged(t, r).sources, x) in Staged(t, r).fds
  {
    var watched := Watched(r.descriptors, r.tokens, |r.descriptors|);
    WatchedFds(r.descriptors, r.tokens, |r.descriptors|);
    var extra := set i | 0 <= i < |r.descriptors| :: r.descriptors[i].fd;
    forall fd
      ensures fd in extra <==> fd in watched
    {
      if fd in watched {
        var i :| 0 <= i < |r.descriptors| && r.descriptors[i].fd == fd;
        assert r.descriptors[i].fd in extra;
      }
    }
    assert Staged(t, r).fds == t.fds + extra;
    forall x | FdsOnce(t) && At(Staged(t, r).sources, x)
      ensures FdAt(Staged(t, r).sources, x) in Staged(t, r).fds
    {
      StagedAt(t, r, x);
    }
  }

  lemma StagedInterest(interest: map<int, Interest>, eventFd: int, t: Tables, r: SourceRecord, x: Target)
    requires FdsOnce(t) && Matches(interest, eventFd, t) && |r.tokens| == |r.descriptors|
    requires Acceptable(r.descriptors, t.fds) && At(Staged(t, r).sources, x)
    ensures FdAt(Staged(t, r).sources, x) in interest + Watched(r.descriptors, r.tokens, |r.descriptors|)
    ensures (interest + Watched(r.descriptors, r.tokens, |r.descriptors|))[FdAt(Staged(t, r).sources, x)]
         == InterestAt(Staged(t, r).sources, x)
  {
    var n := |r.descriptors|;
    StagedAt(t, r, x);
    WatchedFds(r.descriptors, r.tokens, n);
    if x.source == |t.sources| {
      WatchedAt(r.descriptors, r.tokens, n, x.descriptor);
    } else {
      assert FdAt(t.sources, x) in t.fds;
    }
  }

  /** When the kernel watches the new descriptors as well, it matches the staged tables. */
  lemma StagedMatches(interest: map<int, Interest>, eventFd: int, t: Tables, r: SourceRecord)
    requires Consistent(t) && Matches(interest, eventFd, t) && |r.tokens| == |r.descriptors|
    requires Acceptable(r.descriptors, t.fds)
    requires forall i :: 0 <= i < |r.descriptors| ==> r.descriptors[i].fd !in interest
    ensures Matches(interest + Watched(r.descriptors, r.tokens, |r.descriptors|), eventFd, Staged(t, r))
  {
    hide TokensLead, SourcesOnce;
    StagedFds(t, r);
    forall x | At(Staged(t, r).sources, x)
      ensures (interest + Watched(r.descriptors, r.tokens, |r.descriptors|))[FdAt(Staged(t, r).sources, x)]
           == InterestAt(Staged(t, r).sources, x)
    {
      StagedInterest(interest, eventFd, t, r, x);
    }
  }

  /** A new instance watches nothing but the control descriptor. */
  lemma NothingRegistered(t: Tables, interest: map<int, Interest>, eventFd: int)
    requires Consistent(t) && interest == map[eventFd := Interest(CONTROL_TOKEN, {In})]
    ensures Matches(interest, eventFd, t) <==> t.sources == []
  {
    if t.sources == [] {
      assert forall x :: !At(t.sources, x);
      assert forall fd :: fd !in t.fds;
      assert t.fds == {};
    } else {
      assert t.sources[0] in t.sources;
      assert At(t.sources, Target(0, 0));
      assert FdAt(t.sources, Target(0, 0)) in t.fds;
    }
  }

  // ---- Waiting ----

  datatype Turn = Turn(ready: seq<Handle>, control: bool)

  /** What a descriptor was told in a turn: the union of what its events say. */
  function Collected(events: seq<Event>, token: nat, requested: set<Flag>): set<Flag> {
    if events == [] then {}
    else
      var last := events[|events| - 1];
      Collected(events[..|events| - 1], token, requested)
      + if last.token == token then Reported(last.flags, requested) else {}
  }

  ghost predicate HasReported(sources: seq<SourceRecord>, x: Target, events: seq<Event>)
    requires At(sources, x)
  {
    var d := sources[x.source].descriptors[x.descriptor];
    d.revents == Collected(events, sources[x.source].tokens[x.descriptor], d.events)
  }

  /** Every descriptor was told what the events say about it. */
  ghost predicate AllReported(sources: seq<SourceRecord>, events: seq<Event>) {
    forall x :: At(sources, x) ==> HasReported(sources, x, events)
  }

  /** The control descriptor had an event. */
  ghost predicate Woken(events: seq<Event>) {
    exists j :: 0 <= j < |events| && events[j].token == CONTROL_TOKEN
  }

  /** Some event of the turn belongs to the source. */
  ghost predicate HadEvent(tokens: map<nat, Target>, events: seq<Event>, s: nat) {
    exists j :: 0 <= j < |events| && events[j].token in tokens && tokens[events[j].token].source == s
  }

  /** The same sources, but for what they have been told. */
  ghost predicate SameButReported(a: seq<SourceRecord>, b: seq<SourceRecord>) {
    && |a| == |b|
    && (forall i :: 0 <= i < |a| ==>
                      && a[i].pipeline == b[i].pipeline && a[i].source == b[i].source && a[i].tokens == b[i].tokens
                      && |a[i].descriptors| == |b[i].descriptors|)
    && (forall i, j :: 0 <= i < |a| && 0 <= j < |a[i].descriptors| ==>
                         && a[i].descriptors[j].fd == b[i].descriptors[j].fd
                         && a[i].descriptors[j].events == b[i].descriptors[j].events)
  }

  /** The tables, the sources that had an event and the control flag after the events told so far. */
  ghost predicate Dispatched(t: Tables, now: Tables, told: seq<Event>, ready: set<nat>, control: bool) {
    && now == t.(sources := now.sources) && SameButReported(t.sources, now.sources)
    && AllReported(now.sources, told)
    && (forall s: nat :: s in ready <==> HadEvent(t.tokens, told, s))
    && (control <==> Woken(told))
  }

  lemma HadOneMore(tokens: map<nat, Target>, events: seq<Event>, e: Event)
    ensures Woken(events + [e]) <==> Woken(events) || e.token == CONTROL_TOKEN
    ensures forall s: nat :: HadEvent(tokens, events + [e], s) <==>
                          HadEvent(tokens, events, s) || (e.token in tokens && tokens[e.token].source == s)
  {
    var after := events + [e];
    assert after[|events|] == e;
    if Woken(events) {
      var j :| 0 <= j < |events| && events[j].token == CONTROL_TOKEN;
      assert after[j] == events[j];
    }
    forall s: nat
      ensures HadEvent(tokens, after, s) <==>
                HadEvent(tokens, events, s) || (e.token in tokens && tokens[e.token].source == s)
    {
      assert after[|events|] == e;
      if HadEvent(tokens, events, s) {
        var j :| 0 <= j < |events| && events[j].token in tokens && tokens[events[j].token].source == s;
        assert after[j] == events[j];
      }
    }
  }

  /** The pipelines of the sources that said yes, each once. */
  ghost predicate IsReady(sources: seq<SourceRecord>, answers: map<nat, bool>, pipelines: seq<Handle>) {
    && (forall i, j :: 0 <= i < j < |pipelines| ==> pipelines[i] != pipelines[j])
    && (forall p :: p in pipelines <==>
                      exists s :: s in answers && answers[s] && s < |sources| && sources[s].pipeline == p)
  }

  lemma ReadyOneMore(sources: seq<SourceRecord>, answers: map<nat, bool>, pipelines: seq<Handle>, s: nat, answer: bool)
    requires IsReady(sources, answers, pipelines) && s < |sources| && s !in answers
    ensures IsReady(sources, answers[s := answer],
                    if answer && sources[s].pipeline !in pipelines then pipelines + [sources[s].pipeline]
                    else pipelines)
  {
  }

  /**
   * What a turn comes to: the sources that had an event are those that were asked, the pipelines of those that said
   * yes are listed, and every descriptor was told what the events of the turn say about it.
   */
  ghost predicate TurnIs(t: Tables, events: seq<Event>, answers: map<nat, bool>, turn: Turn) {
    && (forall s: nat :: s in answers <==> HadEvent(t.tokens, events, s))
    && (forall s: nat :: s in answers ==> s < |t.sources|)
    && IsReady(t.sources, answers, turn.ready)
    && AllReported(t.sources, events) && (turn.control <==> Woken(events))
  }

  lemma SameAsItself(a: seq<SourceRecord>)
    ensures SameButReported(a, a)
  {
  }

  lemma SameAt(a: seq<SourceRecord>, b: seq<SourceRecord>, x: Target)
    requires SameButReported(a, b)
    ensures At(a, x) <==> At(b, x)
    ensures At(a, x) ==> FdAt(a, x) == FdAt(b, x) && InterestAt(a, x) == InterestAt(b, x)
  {
  }

  lemma SameTokensLead(t: Tables, b: seq<SourceRecord>)
    requires TokensLead(t) && SameButReported(t.sources, b)
    ensures TokensLead(t.(sources := b))
  {
    forall x | At(b, x)
      ensures InterestAt(b, x).token in t.tokens && t.tokens[InterestAt(b, x).token] == x
    {
      SameAt(t.sources, b, x);
    }
    forall token | token in t.tokens
      ensures At(b, t.tokens[token]) && InterestAt(b, t.tokens[token]).token == token
    {
      SameAt(t.sources, b, t.tokens[token]);
    }
  }

  lemma SameFdsOnce(t: Tables, b: seq<SourceRecord>)
    requires FdsOnce(t) && SameButReported(t.sources, b)
    ensures FdsOnce(t.(sources := b))
  {
    forall x | At(b, x)
      ensures At(t.sources, x) && FdAt(b, x) == FdAt(t.sources, x)
    {
      SameAt(t.sources, b, x);
    }
    forall fd | fd in t.fds
      ensures exists x :: At(b, x) && FdAt(b, x) == fd
    {
      var x :| At(t.sources, x) && FdAt(t.sources, x) == fd;
      SameAt(t.sources, b, x);
    }
  }

  lemma SameSourcesOnce(t: Tables, b: seq<SourceRecord>)
    requires SourcesOnce(t) && SameButReported(t.sources, b)
    ensures SourcesOnce(t.(sources := b))
  {
  }

  lemma SameIsConsistent(t: Tables, b: seq<SourceRecord>)
    requires Consistent(t) && SameButReported(t.sources, b)
    ensures Consistent(t.(sources := b))
  {
    forall x: Target
      ensures At(t.sources, x) <==> At(b, x)
      ensures At(b, x) ==> FdAt(b, x) == FdAt(t.sources, x) && InterestAt(b, x) == InterestAt(t.sources, x)
    {
      SameAt(t.sources, b, x);
    }
    SameTokensLead(t, b);
    SameFdsOnce(t, b);
    SameSourcesOnce(t, b);
  }

  lemma SameMatches(interest: map<int, Interest>, eventFd: int, t: Tables, b: seq<SourceRecord>)
    requires Matches(interest, eventFd, t) && SameButReported(t.sources, b)
    ensures Matches(interest, eventFd, t.(sources := b))
  {
    forall x | At(b, x) && FdAt(b, x) in interest
      ensures interest[FdAt(b, x)] == InterestAt(b, x)
    {
      SameAt(t.sources, b, x);
    }
  }

  function Untold(descriptors: seq<PollFd>): seq<PollFd> {
    seq(|descriptors|, j requires 0 <= j < |descriptors| => descriptors[j].(revents := {}))
  }

  /** At the start of a turn no source has been told anything. */
  function ClearReported(sources: seq<SourceRecord>): (b: seq<SourceRecord>)
    ensures SameButReported(sources, b)
    ensures AllReported(b, [])
  {
    seq(|sources|, i requires 0 <= i < |sources| => sources[i].(descriptors := Untold(sources[i].descriptors)))
  }

  function WithReported(sources: seq<SourceRecord>, x: Target, flags: set<Flag>): seq<SourceRecord>
    requires At(sources, x)
  {
    var r := sources[x.source];
    var d := r.descriptors[x.descriptor];
    sources[x.source := r.(descriptors :=
                             r.descriptors[x.descriptor := d.(revents := d.revents + Reported(flags, d.events))])]
  }

  /** One more event is told to the descriptor that its token leads to, and to no other. */
  lemma ReportedOneMore(t: Tables, sources: seq<SourceRecord>, events: seq<Event>, e: Event)
    requires TokensLead(t) && SameButReported(t.sources, sources)
    requires AllReported(sources, events)
    ensures e.token !in t.tokens ==> AllReported(sources, events + [e])
    ensures e.token in t.tokens ==>
              && e.token != CONTROL_TOKEN && At(sources, t.tokens[e.token])
              && var b := WithReported(sources, t.tokens[e.token], e.flags);
                && SameButReported(t.sources, b)
                && AllReported(b, events + [e])
  {
    var after := events + [e];
    assert after[..|events|] == events;
    SameTokensLead(t, sources);
    if e.token in t.tokens {
      var y := t.tokens[e.token];
      SameAt(t.sources, sources, y);
      var b := WithReported(sources, y, e.flags);
      forall x | At(b, x)
        ensures HasReported(b, x, after)
      {
        assert At(sources, x) && HasReported(sources, x, events);
        assert InterestAt(sources, x).token in t.tokens && t.tokens[InterestAt(sources, x).token] == x;
      }
    } else {
      forall x | At(sources, x)
        ensures HasReported(sources, x, after)
      {
        assert InterestAt(sources, x).token in t.tokens;
      }
    }
  }

  lemma EventsLead(t: Tables, events: seq<Event>)
    requires TokensLead(t)
    ensures forall s: nat :: HadEvent(t.tokens, events, s) ==> s < |t.sources|
  {
  }

  /** Tables with one source, which a loop that is initialised again does not watch. */
  lemma NewInstanceForgets()
    ensures var d := PollFd(3, {In}, {});
            var t := Tables([SourceRecord(0, 0, [d], [1])], map[1 := Target(0, 0)], {3}, {0}, 2);
            Consistent(t) && !Matches(map[4 := Interest(CONTROL_TOKEN, {In})], 4, t)
  {
    var t := Tables([SourceRecord(0, 0, [PollFd(3, {In}, {})], [1])], map[1 := Target(0, 0)], {3}, {0}, 2);
    assert At(t.sources, Target(0, 0)) && FdAt(t.sources, Target(0, 0)) == 3;
    assert forall x :: At(t.sources, x) ==> x == Target(0, 0);
    assert t.sources[0].source == 0;
    NothingRegistered(t, map[4 := Interest(CONTROL_TOKEN, {In})], 4);
  }

  // ---- The loop ----

  function CloseCode(ok: bool): StatusCode {
    if ok then OkStatus else IoError
  }

  lemma FirstOfTwo(a: StatusCode, b: StatusCode)
    ensures FirstFailure([a, b]) == RecordFirst(a, b)
  {
    assert [a, b] == [a] + [b] && [a] == [] + [a];
    OneMoreAnswer([a], b);
    OneMoreAnswer([], a);
  }

  /** What a turn asked of the kernel after it had waited, and of the sources. */
  datatype Work = Work(calls: seq<EpollCall>, asked: seq<nat>, evaluations: seq<Evaluation>, answers: map<nat, bool>)

  const NO_WORK := Work([], [], [], map[])

  /** The last source that was asked has failed, and none before it. */
  predicate SourceFailed(made: seq<Evaluation>, code: StatusCode) {
    && made != [] && made[|made| - 1].answer == Failure(code)
    && forall i :: 0 <= i < |made| - 1 ==> made[i].answer.Success?
  }

  /** The sources `asked`, in that order, were shown what they were told and answered so; only the last may fail. */
  ghost predicate Evaluated(sources: seq<SourceRecord>, asked: seq<nat>, made: seq<Evaluation>, answers: map<nat, bool>)
  {
    && |made| == |asked| && (forall i, j :: 0 <= i < j < |asked| ==> asked[i] != asked[j])
    && (forall i :: 0 <= i < |asked| ==>
                      && asked[i] < |sources| && made[i].source == sources[asked[i]].source
                      && made[i].shown == sources[asked[i]].descriptors)
    && (forall s :: s in answers <==> exists i :: 0 <= i < |asked| && asked[i] == s && made[i].answer.Success?)
    && (forall i :: 0 <= i < |asked| && made[i].answer.Success? ==> answers[asked[i]] == made[i].answer.value)
  }

  lemma NoneAsked(sources: seq<SourceRecord>)
    ensures Evaluated(sources, [], [], map[]) && IsReady(sources, map[], [])
  {
  }

  lemma AnsweredWithOneMore(sources: seq<SourceRecord>, asked: seq<nat>, made: seq<Evaluation>,
                            answers: map<nat, bool>, s: nat, e: Evaluation, x: nat)
    requires Evaluated(sources, asked, made, answers)
    ensures x in (if e.answer.Success? then answers[s := e.answer.value] else answers) <==>
              exists i :: 0 <= i <= |asked| && (asked + [s])[i] == x && (made + [e])[i].answer.Success?
  {
    var after, now := asked + [s], made + [e];
    assert after[|asked|] == s && now[|made|] == e;
    if x in answers {
      var i :| 0 <= i < |asked| && asked[i] == x && made[i].answer.Success?;
      assert after[i] == x && now[i] == made[i];
    }
  }

  lemma OneMoreAsked(sources: seq<SourceRecord>, asked: seq<nat>, made: seq<Evaluation>, answers: map<nat, bool>,
                     s: nat, e: Evaluation)
    requires Evaluated(sources, asked, made, answers) && s < |sources| && s !in asked && s !in answers
    requires e.source == sources[s].source && e.shown == sources[s].descriptors
    ensures Evaluated(sources, asked + [s], made + [e],
                      if e.answer.Success? then answers[s := e.answer.value] else answers)
  {
    var after, now := asked + [s], made + [e];
    var answersNow := if e.answer.Success? then answers[s := e.answer.value] else answers;
    forall x
      ensures x in answersNow <==> exists i :: 0 <= i < |after| && after[i] == x && now[i].answer.Success?
    {
      AnsweredWithOneMore(sources, asked, made, answers, s, e, x);
    }
    forall i | 0 <= i < |after|
      ensures now[i].answer.Success? ==> after[i] in answersNow && answersNow[after[i]] == now[i].answer.value
    {
      if i < |asked| {
        assert after[i] == asked[i] && now[i] == made[i] && asked[i] != s;
      }
    }
  }

  predicate Watchable(d: PollFd) {
    d.fd >= 0 && {} != d.events <= ALLOWED
  }

  /** The first descriptor that cannot be accepted after those before it, and why. */
  ghost predicate FirstBad(descriptors: seq<PollFd>, fds: set<int>, bad: nat, code: StatusCode) {
    && bad < |descriptors| && Acceptable(Untold(descriptors)[..bad], fds)
    && if !Watchable(descriptors[bad]) then code.InvalidArgument?
       else
         && code.AlreadyExists?
         && (descriptors[bad].fd in fds || exists i :: 0 <= i < bad && descriptors[i].fd == descriptors[bad].fd)
  }

  /** Who made a wait fail. */
  datatype Origin = NoOrigin | RuntimeOrigin | SourceOrigin

  /** What opening the loop asked for, up to the call that was refused; what was opened is closed again then. */
  predicate Opening(made: seq<EpollCall>, code: StatusCode) {
    if code.OkStatus? then made == [EpollCreated(true), EventFdCreated(true), Added(true)]
    else
      && code.IoError?
      && (|| made == [EpollCreated(false)]
          || (exists a :: made == [EpollCreated(true), EventFdCreated(false), EpollClosed(a)])
          || (exists a, b :: made == [EpollCreated(true), EventFdCreated(true), Added(false), EventFdClosed(a),
                                      EpollClosed(b)]))
  }

  lemma OpeningRefused(a: bool, b: bool)
    ensures Opening([EpollCreated(false)], IoError)
    ensures Opening([EpollCreated(true), EventFdCreated(false), EpollClosed(a)], IoError)
    ensures Opening([EpollCreated(true), EventFdCreated(true), Added(false), EventFdClosed(a), EpollClosed(b)], IoError)
  {
  }

  lemma OpeningGranted()
    ensures Opening([EpollCreated(true), EventFdCreated(true), Added(true)], OkStatus)
  {
  }

  /** One attempt each to take `n` descriptors back, all of them granted exactly if `complete`. */
  predicate Removals(made: seq<EpollCall>, n: nat, complete: bool) {
    && |made| == n && (forall c :: c in made ==> c.Removed?) && (complete <==> forall c :: c in made ==> c.ok)
  }

  /** What taking descriptors back asked for: if one was refused, both descriptors of the loop were closed. */
  predicate TakenBack(made: seq<EpollCall>, n: nat, complete: bool) {
    && n <= |made| && Removals(made[..n], n, complete)
    && if complete then |made| == n else |made| == n + 2 && made[n].EventFdClosed? && made[n + 1].EpollClosed?
  }

  lemma NothingTakenBack()
    ensures Removals([], 0, true)
  {
  }

  lemma OneMoreRemoval(made: seq<EpollCall>, n: nat, complete: bool, removed: bool)
    requires Removals(made, n, complete)
    ensures Removals(made + [Removed(removed)], n + 1, complete && removed)
  {
    var after := made + [Removed(removed)];
    assert after[n] == Removed(removed);
  }

  lemma TakenBackWhole(made: seq<EpollCall>, n: nat, closed: seq<EpollCall>)
    requires Removals(made, n, closed == [])
    requires closed == [] || (|closed| == 2 && closed[0].EventFdClosed? && closed[1].EpollClosed?)
    ensures if closed == [] then TakenBack(made, n, true) else TakenBack(made + closed, n, false)
  {
    assert made[..n] == made == (made + closed)[..n];
  }

  function Adds(n: nat): seq<EpollCall> {
    seq(n, _ => Added(true))
  }

  /** The kernel refused to watch one of `n` descriptors. */
  predicate Refused(made: seq<EpollCall>, n: nat, complete: bool) {
    exists k :: 0 <= k < n && Adds(k) + [Added(false)] <= made && TakenBack(made[k + 1..], k, complete)
  }

  lemma NoAdds()
    ensures Adds(0) == []
  {
  }

  lemma AddsMore(n: nat)
    ensures Adds(n) + [Added(true)] == Adds(n + 1)
  {
  }

  lemma RefusedAt(k: nat, n: nat, rest: seq<EpollCall>, complete: bool)
    requires k < n && TakenBack(rest, k, complete)
    ensures Refused(Adds(k) + [Added(false)] + rest, n, complete)
  {
    var made := Adds(k) + [Added(false)] + rest;
    assert Adds(k) + [Added(false)] <= made && made[k + 1..] == rest;
  }

  function Interruptions(n: nat): seq<EpollCall> {
    seq(n, _ => Waited(Interrupted))
  }

  /** What waiting comes to: it goes on through interruptions, up to the last one allowed. */
  predicate Awaited(made: seq<EpollCall>, r: Result<seq<Event>>) {
    match r
    case Success(events) =>
      exists k :: 0 <= k < MAXIMUM_INTERRUPTIONS && made == Interruptions(k) + [Waited(Events(events))]
    case Failure(code) =>
      && code.IoError?
      && (|| made == Interruptions(MAXIMUM_INTERRUPTIONS)
          || exists k :: 0 <= k < MAXIMUM_INTERRUPTIONS && made == Interruptions(k) + [Waited(WaitFailed)])
  }

  /** The loop: its two descriptors and its tables. */
  class LinuxEventLoop {
    const api: EpollApi
    const waitSources: WaitSources
    var epollFd: int
    var eventFd: int
    var invalidated: bool
    var tables: Tables
    var waitFailureOrigin: Origin

    ghost predicate Valid()
      reads this, api
    {
      && Consistent(tables)
      && api.epoll == (if epollFd >= 0 then Some(epollFd) else None)
      && api.eventFd == (if eventFd >= 0 then Some(eventFd) else None)
      && (epollFd >= 0 <==> eventFd >= 0) && (invalidated ==> epollFd < 0)
    }

    ghost predicate Listens()
      reads this, api
    {
      epollFd >= 0 && Matches(api.interest, eventFd, tables)
    }

    constructor (api: EpollApi, waitSources: WaitSources)
      requires api.epoll.None? && api.eventFd.None?
      ensures Valid() && this.api == api && tables.sources == [] && !invalidated && epollFd < 0
    {
      this.api, this.waitSources, epollFd, eventFd, invalidated := api, waitSources, -1, -1, false;
      waitFailureOrigin := NoOrigin;
      tables := Tables([], map[], {}, {}, 1);
    }

    method Open() returns (code: StatusCode, ghost made: seq<EpollCall>)
      requires Valid() && epollFd < 0 && eventFd < 0 && !invalidated
      modifies this`epollFd, this`eventFd, api
      ensures Valid() && api.calls == old(api.calls) + made && Opening(made, code)
      ensures code.OkStatus? ==> epollFd >= 0 && (Listens() <==> tables.sources == [])
      ensures !code.OkStatus? ==> epollFd < 0
    {
      hide Consistent, Opening, Matches;
      var epoll := api.CreateEpoll();
      if epoll < 0 {
        OpeningRefused(true, true);
        return IoError, [EpollCreated(false)];
      }
      var event := api.CreateEventFd();
      if event < 0 {
        var closed := api.CloseEpoll();
        OpeningRefused(closed, true);
        return IoError, [EpollCreated(true), EventFdCreated(false), EpollClosed(closed)];
      }
      var added := api.Add(event, {In}, CONTROL_TOKEN);
      if !added {
        var eventClosed := api.CloseEventFd();
        var epollClosed := api.CloseEpoll();
        OpeningRefused(eventClosed, epollClosed);
        made := [EpollCreated(true), EventFdCreated(true), Added(false), EventFdClosed(eventClosed),
                 EpollClosed(epollClosed)];
        return IoError, made;
      }
      epollFd, eventFd := epoll, event;
      NothingRegistered(tables, api.interest, event);
      OpeningGranted();
      return OkStatus, [EpollCreated(true), EventFdCreated(true), Added(true)];
    }

    /** Opens both descriptors and watches the control descriptor; if anything fails, none is held. */
    method Initialize() returns (code: StatusCode, ghost made: seq<EpollCall>)
      requires Valid()
      modifies this`epollFd, this`eventFd, api
      ensures Valid() && tables == old(tables) && invalidated == old(invalidated)
      ensures api.calls == old(api.calls) + made
      ensures invalidated ==> code.InvalidState? && made == []
      ensures old(epollFd) >= 0 ==> made == []
      ensures !invalidated && old(epollFd) < 0 ==> Opening(made, code)
      ensures code.OkStatus? ==> epollFd >= 0
      ensures old(epollFd) >= 0 ==> code.OkStatus? && api.interest == old(api.interest) && eventFd == old(eventFd)
      ensures old(epollFd) < 0 && code.OkStatus? ==> (Listens() <==> tables.sources == [])
      ensures !code.OkStatus? ==> epollFd < 0
    {
      hide Consistent, Opening, Matches;
      made := [];
      if invalidated {
        return InvalidState, made;
      }
      if epollFd >= 0 && eventFd >= 0 {
        return OkStatus, made;
      }
      code, made := Open();
    }

    /** Gives up the loop for good: both descriptors are closed. */
    method Invalidate() returns (ghost made: seq<EpollCall>)
      requires epollFd >= 0 && eventFd >= 0 && api.epoll.Some? && api.eventFd.Some?
      modifies this`invalidated, this`epollFd, this`eventFd, api
      ensures invalidated && epollFd < 0 && eventFd < 0 && api.epoll.None? && api.eventFd.None?
      ensures api.calls == old(api.calls) + made && |made| == 2 && made[0].EventFdClosed? && made[1].EpollClosed?
    {
      invalidated := true;
      eventFd, epollFd := -1, -1;
      var eventClosed := api.CloseEventFd();
      var epollClosed := api.CloseEpoll();
      made := [EventFdClosed(eventClosed), EpollClosed(epollClosed)];
    }

    /** Closes what is open; the loop listens no more, whatever fails, and the first failure is kept. */
    method Close() returns (code: StatusCode)
      requires Valid()
      modifies this`epollFd, this`eventFd, api
      ensures Valid() && epollFd < 0 && eventFd < 0 && api.epoll.None? && api.eventFd.None?
      ensures old(epollFd) < 0 ==> code.OkStatus? && api.calls == old(api.calls)
      ensures old(epollFd) >= 0 ==>
                exists a, b ::
                  && api.calls == old(api.calls) + [EventFdClosed(a), EpollClosed(b)]
                  && code == FirstFailure([CloseCode(a), CloseCode(b)])
    {
      code := OkStatus;
      ghost var a, b := true, true;
      if eventFd >= 0 {
        eventFd := -1;
        var ok := api.CloseEventFd();
        code := CloseCode(ok);
        a := ok;
      }
      if epollFd >= 0 {
        epollFd := -1;
        var ok := api.CloseEpoll();
        b := ok;
        if !ok && code.OkStatus? {
          code := IoError;
        }
      }
      if old(epollFd) >= 0 {
        assert api.calls == old(api.calls) + [EventFdClosed(a), EpollClosed(b)];
        FirstOfTwo(CloseCode(a), CloseCode(b));
      }
    }

    /** What the source wants watched must be sound, and new to the loop. */
    method CheckDescriptors(descriptors: seq<PollFd>)
      returns (code: StatusCode, cleared: seq<PollFd>, ghost bad: nat)
      ensures code.OkStatus? ==>
                && Acceptable(cleared, tables.fds) && |cleared| == |descriptors|
                && cleared == Untold(descriptors)
      ensures !code.OkStatus? ==> !Acceptable(Untold(descriptors), tables.fds)
      ensures !code.OkStatus? ==> FirstBad(descriptors, tables.fds, bad, code)
    {
      cleared, bad := [], 0;
      var local: set<int> := {};
      ghost var all := Untold(descriptors);
      for index := 0 to |descriptors|
        invariant |cleared| == index && Acceptable(cleared, tables.fds)
        invariant forall i :: 0 <= i < index ==> cleared[i] == descriptors[i].(revents := {})
        invariant forall fd :: fd in local <==> exists i :: 0 <= i < index && descriptors[i].fd == fd
      {
        var d := descriptors[index];
        if d.fd < 0 || d.events == {} || !(d.events <= ALLOWED) {
          assert all[index].events == d.events;
          bad := index;
          return InvalidArgument, cleared, bad;
        }
        if d.fd in local || d.fd in tables.fds {
          assert all[index].fd == d.fd;
          if d.fd in local {
            var i :| 0 <= i < index && descriptors[i].fd == d.fd;
            assert all[i].fd == all[index].fd;
          }
          bad := index;
          return AlreadyExists, cleared, bad;
        }
        local := local + {d.fd};
        cleared := cleared + [d.(revents := {})];
      }
      code := OkStatus;
    }

    /**
     * Takes back the first `added` descriptors, last first, each by one attempt; if the kernel refuses one, the loop
     * is given up.
     */
    method RollbackRegistration(r: SourceRecord, added: nat, ghost before: map<int, Interest>)
      returns (complete: bool, ghost made: seq<EpollCall>)
      requires added <= |r.descriptors| == |r.tokens|
      requires epollFd >= 0 && eventFd >= 0 && api.epoll.Some? && api.eventFd.Some?
      requires forall i :: 0 <= i < added ==> r.descriptors[i].fd !in before
      requires forall i, j :: 0 <= i < j < added ==> r.descriptors[i].fd != r.descriptors[j].fd
      requires api.interest == before + Watched(r.descriptors, r.tokens, added)
      modifies this`invalidated, this`epollFd, this`eventFd, api
      ensures complete ==>
                && api.interest == before && invalidated == old(invalidated)
                && epollFd == old(epollFd) && eventFd == old(eventFd)
                && api.epoll == old(api.epoll) && api.eventFd == old(api.eventFd)
      ensures !complete ==> invalidated && epollFd < 0 && eventFd < 0 && api.epoll.None? && api.eventFd.None?
      ensures api.calls == old(api.calls) + made && TakenBack(made, added, complete)
    {
      hide Removals, TakenBack, Watched;
      complete, made := true, [];
      NothingTakenBack();
      var left := added;
      while left > 0
        invariant 0 <= left <= added && api.epoll == old(api.epoll) && api.eventFd == old(api.eventFd)
        invariant invalidated == old(invalidated) && epollFd == old(epollFd) && eventFd == old(eventFd)
        invariant complete ==> api.interest == before + Watched(r.descriptors, r.tokens, left)
        invariant api.calls == old(api.calls) + made && Removals(made, added - left, complete)
      {
        left := left - 1;
        var removed := api.Remove(r.descriptors[left].fd);
        OneMoreRemoval(made, added - left - 1, complete, removed);
        made := made + [Removed(removed)];
        if !removed {
          complete := false;
        }
        WatchedWithout(r.descriptors, r.tokens, left, before);
      }
      if complete {
        WatchedNone(r.descriptors, r.tokens, before);
        TakenBackWhole(made, added, []);
      } else {
        ghost var closed := Invalidate();
        TakenBackWhole(made, added, closed);
        made := made + closed;
      }
    }

    /** Has the kernel watch every descriptor of the source; if it refuses one, the others are taken back. */
    method Watch(r: SourceRecord) returns (ok: bool, ghost made: seq<EpollCall>)
      requires Valid() && epollFd >= 0 && |r.descriptors| == |r.tokens|
      requires forall i, j :: 0 <= i < j < |r.descriptors| ==> r.descriptors[i].fd != r.descriptors[j].fd
      modifies this`invalidated, this`epollFd, this`eventFd, api
      ensures Valid() && api.calls == old(api.calls) + made
      ensures if ok then made == Adds(|r.descriptors|) else Refused(made, |r.descriptors|, epollFd >= 0)
      ensures ok ==>
                && epollFd == old(epollFd) && eventFd == old(eventFd)
                && api.interest == old(api.interest) + Watched(r.descriptors, r.tokens, |r.descriptors|)
                && forall i :: 0 <= i < |r.descriptors| ==> r.descriptors[i].fd !in old(api.interest)
      ensures !ok ==>
                || (api.interest == old(api.interest) && epollFd == old(epollFd) && eventFd == old(eventFd))
                || (invalidated && epollFd < 0 && eventFd < 0)
    {
      hide Refused, Adds, TakenBack, Watched, Consistent;
      ghost var before := api.interest;
      made := Adds(0);
      NoAdds();
      WatchedNone(r.descriptors, r.tokens, before);
      for index := 0 to |r.descriptors|
        invariant Valid() && epollFd == old(epollFd) && eventFd == old(eventFd)
        invariant api.interest == before + Watched(r.descriptors, r.tokens, index)
        invariant forall i :: 0 <= i < index ==> r.descriptors[i].fd !in before
        invariant api.calls == old(api.calls) + made && made == Adds(index)
      {
        var d := r.descriptors[index];
        ok := api.Add(d.fd, Interests(d.events), r.tokens[index]);
        if !ok {
          ghost var rest;
          var complete;
          complete, rest := RollbackRegistration(r, index, before);
          RefusedAt(index, |r.descriptors|, rest, complete);
          return false, made + [Added(false)] + rest;
        }
        AddsMore(index);
        WatchedWith(r.descriptors, r.tokens, index, before);
        made := made + [Added(true)];
      }
      ok := true;
    }

    /** The loop listens, the source is new, and what it wants watched can be watched. */
    ghost predicate Sound(source: Handle, answer: Result<seq<PollFd>>)
      reads this
    {
      && epollFd >= 0 && source !in tables.handles && answer.Success? && answer.value != []
      && Acceptable(Untold(answer.value), tables.fds)
    }

    /** The reason for which a request is refused before the kernel is asked. */
    ghost predicate Rejects(source: Handle, answer: Result<seq<PollFd>>, code: StatusCode)
      reads this
    {
      if epollFd < 0 then code.InvalidState?
      else if source in tables.handles then code.AlreadyExists?
      else if answer.Failure? then code == answer.code
      else if answer.value == [] then code.InvalidArgument?
      else exists bad :: FirstBad(answer.value, tables.fds, bad, code)
    }

    method CheckRequest(source: Handle, answer: Result<seq<PollFd>>)
      returns (code: StatusCode, descriptors: seq<PollFd>)
      requires Valid() && (answer.Failure? ==> !answer.code.OkStatus?)
      ensures code.OkStatus? <==> Sound(source, answer)
      ensures code.OkStatus? ==> descriptors == Untold(answer.value)
      ensures !code.OkStatus? ==> Rejects(source, answer, code)
    {
      descriptors := [];
      if invalidated || epollFd < 0 || eventFd < 0 {
        return InvalidState, descriptors;
      }
      if source in tables.handles {
        return AlreadyExists, descriptors;
      }
      if answer.Failure? {
        return answer.code, descriptors;
      }
      if answer.value == [] {
        return InvalidArgument, descriptors;
      }
      ghost var bad;
      code, descriptors, bad := CheckDescriptors(answer.value);
    }

    /** Has the kernel watch a sound source, and commits the staged tables once it does. */
    method Admit(r: SourceRecord) returns (code: StatusCode, ghost made: seq<EpollCall>)
      requires Valid() && Listens()
      requires Acceptable(r.descriptors, tables.fds) && r.source !in tables.handles && r.descriptors != []
      requires r.tokens == TokensFrom(tables.nextToken, |r.descriptors|)
      modifies this`invalidated, this`epollFd, this`eventFd, this`tables, api
      ensures Valid() && (epollFd >= 0 ==> Listens()) && (code.OkStatus? || code.IoError?)
      ensures api.calls == old(api.calls) + made
      ensures if code.OkStatus? then made == Adds(|r.descriptors|) else Refused(made, |r.descriptors|, epollFd >= 0)
      ensures tables == if code.OkStatus? then Staged(old(tables), r) else old(tables)
      ensures code.OkStatus? ==> epollFd >= 0
      ensures !code.OkStatus? ==>
                || (api.interest == old(api.interest) && epollFd == old(epollFd) && eventFd == old(eventFd))
                || (invalidated && epollFd < 0 && eventFd < 0 && api.epoll.None? && api.eventFd.None?)
    {
      hide Consistent, Matches, Staged, Refused, Adds;
      var staged := Staged(tables, r);
      StagedIsConsistent(tables, r);
      ghost var before := api.interest;
      var watched;
      watched, made := Watch(r);
      if !watched {
        return IoError, made;
      }
      StagedMatches(before, eventFd, tables, r);
      tables := staged;
      return OkStatus, made;
    }

    /**
     * Registers a source for a pipeline: the tables and the kernel change together. If anything fails, neither
     * has changed, or the loop is invalidated and holds no descriptor. The kernel is asked exactly for a sound
     * request, which fails exactly if it refuses to watch one of the descriptors.
     */
    method RegisterSource(pipeline: Handle, source: Handle, answer: Result<seq<PollFd>>)
      returns (code: StatusCode, ghost made: seq<EpollCall>)
      requires Valid() && (epollFd >= 0 ==> Listens()) && (answer.Failure? ==> !answer.code.OkStatus?)
      modifies this`invalidated, this`epollFd, this`eventFd, this`tables, api
      ensures api.calls == old(api.calls) + made
      ensures !old(Sound(source, answer)) ==> made == [] && old(Rejects(source, answer, code))
      ensures old(Sound(source, answer)) ==>
                if code.OkStatus? then made == Adds(|answer.value|)
                else code.IoError? && Refused(made, |answer.value|, epollFd >= 0)
      ensures Valid() && (epollFd >= 0 ==> Listens())
      ensures code.OkStatus? ==>
                && epollFd >= 0 && answer.Success? && |tables.sources| == |old(tables.sources)| + 1
                && tables.sources[..|old(tables.sources)|] == old(tables.sources)
                && var r := tables.sources[|old(tables.sources)|];
                  r.pipeline == pipeline && r.source == source && r.descriptors == Untold(answer.value)
      ensures !code.OkStatus? ==> tables == old(tables)
      ensures code.OkStatus? ==> old(Sound(source, answer))
      ensures !code.OkStatus? ==>
                || (api.interest == old(api.interest) && epollFd == old(epollFd) && eventFd == old(eventFd))
                || (invalidated && epollFd < 0 && eventFd < 0 && api.epoll.None? && api.eventFd.None?)
    {
      hide Refused, Adds;
      var descriptors;
      code, descriptors := CheckRequest(source, answer);
      if !code.OkStatus? {
        return code, [];
      }
      var tokens := TokensFrom(tables.nextToken, |descriptors|);
      code, made := Admit(SourceRecord(pipeline, source, descriptors, tokens));
    }

    /** Waits until the kernel has something to tell; gives up after too many interruptions. */
    method AwaitEvents() returns (r: Result<seq<Event>>, ghost made: seq<EpollCall>)
      modifies api`calls
      ensures api.calls == old(api.calls) + made && Awaited(made, r)
    {
      made := [];
      for interruptions := 0 to MAXIMUM_INTERRUPTIONS
        invariant api.calls == old(api.calls) + made && made == Interruptions(interruptions)
      {
        var answer := api.Wait();
        made := made + [Waited(answer)];
        match answer {
          case Events(events) =>
            return Success(events), made;
          case WaitFailed =>
            return Failure(IoError), made;
          case Interrupted =>
        }
      }
      return Failure(IoError), made;
    }

    /** Tells the descriptor that the token of the event leads to, if it leads to one; answers with its source. */
    method Tell(e: Event, ghost t: Tables, ghost told: seq<Event>) returns (source: Option<nat>)
      requires TokensLead(t) && tables == t.(sources := tables.sources)
      requires SameButReported(t.sources, tables.sources) && AllReported(tables.sources, told)
      modifies this`tables
      ensures tables == t.(sources := tables.sources)
      ensures SameButReported(t.sources, tables.sources) && AllReported(tables.sources, told + [e])
      ensures source == if e.token in t.tokens then Some(t.tokens[e.token].source) else None
      ensures source.Some? ==> e.token != CONTROL_TOKEN
    {
      ReportedOneMore(t, tables.sources, told, e);
      if e.token !in tables.tokens {
        return None;
      }
      var x := tables.tokens[e.token];
      tables := tables.(sources := WithReported(tables.sources, x, e.flags));
      source := Some(x.source);
    }

    /** Takes one event: the control descriptor is read once a turn, every other one tells its source. */
    method DispatchOne(e: Event, ready: set<nat>, control: bool, ghost t: Tables, ghost told: seq<Event>)
      returns (ok: bool, readyNow: set<nat>, controlNow: bool)
      requires TokensLead(t) && Dispatched(t, tables, told, ready, control)
      modifies this`tables, api`calls
      ensures ok ==> Dispatched(t, tables, told + [e], readyNow, controlNow)
      ensures !ok ==> tables == old(tables)
      ensures api.calls == old(api.calls) + if e.token == CONTROL_TOKEN && !control then [ControlRead(ok)] else []
      ensures controlNow == (control || (ok && e.token == CONTROL_TOKEN))
      ensures !ok ==> e.token == CONTROL_TOKEN && !control
    {
      ok, readyNow, controlNow := true, ready, control;
      HadOneMore(t.tokens, told, e);
      if e.token == CONTROL_TOKEN && !control {
        ok := api.ReadEventFd();
        if !ok {
          return;
        }
        controlNow := true;
      }
      hide SameButReported, AllReported, Woken, HadEvent, TokensLead;
      var source := Tell(e, t, told);
      if source.Some? {
        readyNow := ready + {source.value};
      }
    }

    /** Tells every source what the kernel reports, and nothing of an earlier turn. */
    method Dispatch(events: seq<Event>) returns (r: Result<set<nat>>, control: bool, ghost made: seq<EpollCall>)
      requires Valid()
      modifies this`tables, api`calls
      ensures Valid() && SameButReported(old(tables).sources, tables.sources)
      ensures tables == old(tables).(sources := tables.sources)
      ensures r.Success? ==> AllReported(tables.sources, events)
      ensures r.Success? ==> forall s: nat :: s in r.value <==> HadEvent(tables.tokens, events, s)
      ensures r.Success? ==> (control <==> Woken(events))
      ensures api.calls == old(api.calls) + made
      ensures if r.Success? then made == (if control then [ControlRead(true)] else [])
              else r.code.IoError? && made == [ControlRead(false)]
    {
      made := [];
      assert !Woken([]) && forall s: nat :: !HadEvent(tables.tokens, [], s);
      assert TokensLead(tables);
      hide Consistent, TokensLead, SameButReported, AllReported, ClearReported, Woken, HadEvent;
      ghost var t := tables;
      var ready: set<nat> := {};
      control := false;
      var sources := ClearReported(tables.sources);
      tables := tables.(sources := sources);
      assert events[..0] == [];
      for k := 0 to |events|
        invariant Dispatched(t, tables, events[..k], ready, control)
        invariant api.calls == old(api.calls) + made && made == if control then [ControlRead(true)] else []
      {
        var e := events[k];
        assert events[..k + 1] == events[..k] + [e];
        var ok;
        ghost var read := e.token == CONTROL_TOKEN && !control;
        ok, ready, control := DispatchOne(e, ready, control, t, events[..k]);
        if read {
          made := [ControlRead(ok)];
        }
        if !ok {
          SameIsConsistent(t, tables.sources);
          return Failure(IoError), control, made;
        }
      }
      assert events[..|events|] == events;
      SameIsConsistent(t, tables.sources);
      r := Success(ready);
    }

    /**
     * Shows every source that had an event what it was told, asks it whether its pipeline shall run, and lists each
     * such pipeline once. It fails exactly if a source does, and asks no further then.
     */
    method Evaluate(ready: set<nat>)
      returns (r: Result<seq<Handle>>, ghost answers: map<nat, bool>, ghost asked: seq<nat>,
               ghost made: seq<Evaluation>)
      requires forall s :: s in ready ==> s < |tables.sources|
      modifies waitSources
      ensures waitSources.evaluations == old(waitSources.evaluations) + made
      ensures Evaluated(tables.sources, asked, made, answers)
      ensures if r.Success? then answers.Keys == ready && IsReady(tables.sources, answers, r.value)
              else SourceFailed(made, r.code) && !r.code.OkStatus?
    {
      hide IsReady, Evaluated;
      var left, pipelines: seq<Handle> := ready, [];
      answers, asked, made := map[], [], [];
      NoneAsked(tables.sources);
      while left != {}
        invariant left <= ready && answers.Keys == ready - left
        invariant forall i :: 0 <= i < |made| ==> made[i].answer.Success?
        invariant (forall s :: s in asked <==> s in ready - left)
        invariant waitSources.evaluations == old(waitSources.evaluations) + made
        invariant IsReady(tables.sources, answers, pipelines) && Evaluated(tables.sources, asked, made, answers)
        decreases left
      {
        var s :| s in left;
        left := left - {s};
        var source := tables.sources[s];
        var evaluated := waitSources.Evaluate(source.source, source.descriptors);
        ghost var e := Evaluation(source.source, source.descriptors, evaluated);
        OneMoreAsked(tables.sources, asked, made, answers, s, e);
        asked, made := asked + [s], made + [e];
        if evaluated.Failure? {
          return Failure(evaluated.code), answers, asked, made;
        }
        ReadyOneMore(tables.sources, answers, pipelines, s, evaluated.value);
        answers := answers[s := evaluated.value];
        if evaluated.value && source.pipeline !in pipelines {
          pipelines := pipelines + [source.pipeline];
        }
      }
      r := Success(pipelines);
    }

    /** Tells the sources what has happened, and asks them whether their pipelines shall run. */
    method Serve(events: seq<Event>) returns (r: Result<Turn>, ghost w: Work)
      requires Valid()
      modifies this`tables, this`waitFailureOrigin, api`calls, waitSources
      ensures Valid() && SameButReported(old(tables).sources, tables.sources)
      ensures tables == old(tables).(sources := tables.sources)
      ensures api.calls == old(api.calls) + w.calls
      ensures waitSources.evaluations == old(waitSources.evaluations) + w.evaluations
      ensures r.Success? ==>
                && TurnIs(tables, events, w.answers, r.value) && waitFailureOrigin == old(waitFailureOrigin)
                && w.calls == (if r.value.control then [ControlRead(true)] else [])
      ensures Evaluated(tables.sources, w.asked, w.evaluations, w.answers)
      ensures r.Failure? ==>
                if w.evaluations == [] then
                  waitFailureOrigin == RuntimeOrigin && r.code.IoError? && w.calls == [ControlRead(false)]
                else waitFailureOrigin == SourceOrigin && SourceFailed(w.evaluations, r.code)
    {
      hide Evaluated, Consistent, AllReported, SameButReported, IsReady;
      NoneAsked(tables.sources);
      w := Work([], [], [], map[]);
      var dispatched, control, evaluated;
      ghost var answers, asked, calls, made;
      dispatched, control, calls := Dispatch(events);
      w := Work(calls, [], [], map[]);
      if dispatched.Failure? {
        NoneAsked(tables.sources);
        waitFailureOrigin := RuntimeOrigin;
        return Failure(dispatched.code), w;
      }
      TheyLead(tables);
      EventsLead(tables, events);
      evaluated, answers, asked, made := Evaluate(dispatched.value);
      w := Work(calls, asked, made, answers);
      if evaluated.Failure? {
        waitFailureOrigin := SourceOrigin;
        return Failure(evaluated.code), w;
      }
      r := Success(Turn(evaluated.value, control));
    }

    /**
     * One turn. If it succeeds, it lists exactly the pipelines that own a source which had an event in this turn
     * and said yes to it, each pipeline once; and every source was shown the events of this turn only. It fails
     * exactly if the loop is not open, the kernel fails, or a source does; the origin tells which.
     */
    method WaitOnce() returns (r: Result<Turn>, ghost events: seq<Event>, ghost waits: seq<EpollCall>, ghost w: Work)
      requires Valid() && (epollFd >= 0 ==> Listens())
      modifies this`tables, this`waitFailureOrigin, api`calls, waitSources
      ensures Valid() && (epollFd >= 0 ==> Listens())
      ensures SameButReported(old(tables).sources, tables.sources) && tables == old(tables).(sources := tables.sources)
      ensures api.calls == old(api.calls) + waits + w.calls
      ensures waitSources.evaluations == old(waitSources.evaluations) + w.evaluations
      ensures r.Success? ==> epollFd >= 0 && TurnIs(tables, events, w.answers, r.value)
      ensures Evaluated(tables.sources, w.asked, w.evaluations, w.answers)
      ensures epollFd < 0 ==> r == Failure(InvalidState) && waits == [] == w.calls
      ensures epollFd >= 0 ==> Awaited(waits, if w == NO_WORK && r.Failure? then Failure(IoError) else Success(events))
      ensures r.Success? ==> waitFailureOrigin == NoOrigin
      ensures r.Failure? && w.evaluations == [] ==>
                && waitFailureOrigin == RuntimeOrigin
                && (epollFd >= 0 ==> r.code.IoError? && (w == NO_WORK || w.calls == [ControlRead(false)]))
      ensures r.Failure? && w.evaluations != [] ==>
                waitFailureOrigin == SourceOrigin && SourceFailed(w.evaluations, r.code)
    {
      hide Consistent, Matches, TurnIs, SameButReported, Evaluated, Awaited;
      events, waits, w := [], [], NO_WORK;
      waitFailureOrigin := NoOrigin;
      SameAsItself(tables.sources);
      NoneAsked(tables.sources);
      if epollFd < 0 || eventFd < 0 {
        waitFailureOrigin := RuntimeOrigin;
        return Failure(InvalidState), events, waits, w;
      }
      var waited;
      waited, waits := AwaitEvents();
      if waited.Failure? {
        waitFailureOrigin := RuntimeOrigin;
        return Failure(waited.code), events, waits, w;
      }
      events := waited.value;
      ghost var t := tables;
      r, w := Serve(waited.value);
      SameMatches(api.interest, eventFd, t, tables.sources);
    }
  }
}

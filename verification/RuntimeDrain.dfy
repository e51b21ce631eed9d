/** The drain of a stopping runtime: deadlines on the monotonic clock, and a bounded number of passes. */
module RuntimeDrain {
  import opened Statuses

  const TIME_MAXIMUM: int := 0x7FFF_FFFF_FFFF_FFFF
  const NANOSECONDS_PER_SECOND: int := 1_000_000_000
  const NANOSECONDS_PER_MILLISECOND: int := 1_000_000
  const MAXIMUM_SLEEP_ATTEMPTS: nat := 64

  /** A count of milliseconds is a 32-bit integer. */
  type Milliseconds = x: int | -0x8000_0000 <= x < 0x8000_0000

  datatype Timespec = Timespec(sec: int, nsec: int)

  predicate Normalised(t: Timespec) {
    0 <= t.nsec < NANOSECONDS_PER_SECOND
  }

  function Nanoseconds(t: Timespec): int {
    t.sec * NANOSECONDS_PER_SECOND + t.nsec
  }

  /** Division and remainder of the language the runtime is written in round towards zero. */
  function TruncatedDivision(a: int, b: int): int
    requires b > 0
  {
    if a >= 0 then a / b else -((-a) / b)
  }

  function TruncatedRemainder(a: int, b: int): int
    requires b > 0
  {
    a - b * TruncatedDivision(a, b)
  }

  /** The sum of nanoseconds that comes before any check, over the integers. */
  function NanosecondSum(start: Timespec, milliseconds: Milliseconds): int {
    start.nsec + TruncatedRemainder(milliseconds, 1000) * NANOSECONDS_PER_MILLISECOND
  }

  lemma SumSplits(start: Timespec, milliseconds: Milliseconds, seconds: int, nanoseconds: int, carry: int)
    requires Normalised(start) && milliseconds >= 0
    requires seconds == TruncatedDivision(milliseconds, 1000)
    requires nanoseconds == NanosecondSum(start, milliseconds)
    requires carry == if nanoseconds >= NANOSECONDS_PER_SECOND then 1 else 0
    ensures 0 <= nanoseconds - carry * NANOSECONDS_PER_SECOND < NANOSECONDS_PER_SECOND
    ensures var sum := Nanoseconds(start) + milliseconds * NANOSECONDS_PER_MILLISECOND;
            && sum == (start.sec + seconds + carry) * NANOSECONDS_PER_SECOND
                      + (nanoseconds - carry * NANOSECONDS_PER_SECOND)
            && sum / NANOSECONDS_PER_SECOND == start.sec + seconds + carry
  {
    assert milliseconds == seconds * 1000 + TruncatedRemainder(milliseconds, 1000);
  }

  const LONG_MAXIMUM: int := 0x7FFF_FFFF_FFFF_FFFF
  const LONG_MINIMUM: int := -0x8000_0000_0000_0000

  predicate IsLong(x: int) {
    LONG_MINIMUM <= x <= LONG_MAXIMUM
  }

  function Magnitude(x: int): nat {
    if x >= 0 then x else -x
  }

  /** Exactly then the sum is one that the language defines: what is added is less than a second. */
  lemma SumDefinedIff(start: Timespec, milliseconds: Milliseconds)
    requires IsLong(start.nsec)
    ensures IsLong(NanosecondSum(start, milliseconds)) <==>
              if milliseconds >= 0
              then start.nsec <= LONG_MAXIMUM - Magnitude(milliseconds) % 1000 * NANOSECONDS_PER_MILLISECOND
              else start.nsec >= LONG_MINIMUM + Magnitude(milliseconds) % 1000 * NANOSECONDS_PER_MILLISECOND
  {
    assert Magnitude(milliseconds) - 1000 * (Magnitude(milliseconds) / 1000) == Magnitude(milliseconds) % 1000;
  }

  /** The sum is defined whatever is added exactly if the start keeps 999 milliseconds from both limits. */
  lemma SumAlwaysDefinedIff(start: Timespec)
    requires IsLong(start.nsec)
    ensures (forall milliseconds: Milliseconds :: IsLong(NanosecondSum(start, milliseconds))) <==>
              LONG_MINIMUM + 999 * NANOSECONDS_PER_MILLISECOND <= start.nsec
              <= LONG_MAXIMUM - 999 * NANOSECONDS_PER_MILLISECOND
  {
    assert NanosecondSum(start, 999) == start.nsec + 999 * NANOSECONDS_PER_MILLISECOND;
    assert NanosecondSum(start, -999) == start.nsec - 999 * NANOSECONDS_PER_MILLISECOND;
    forall milliseconds: Milliseconds
      ensures -999 <= TruncatedRemainder(milliseconds, 1000) <= 999
    {
    }
  }

  lemma NormalisedSumDefined(start: Timespec, milliseconds: Milliseconds)
    requires Normalised(start)
    ensures IsLong(NanosecondSum(start, milliseconds))
  {
    SumAlwaysDefinedIff(start);
  }

  /** A malformed start on which the sum is not defined. */
  lemma MalformedSumUndefined()
    ensures !IsLong(NanosecondSum(Timespec(0, LONG_MAXIMUM), 1))
  {
  }

  /** The instant `milliseconds` after `start`, unless it is not a normalised instant that the clock can represent. */
  method AddMilliseconds(start: Timespec, milliseconds: Milliseconds) returns (r: Result<Timespec>)
    ensures r.Success? <==>
              && Normalised(start) && milliseconds >= 0
              && (Nanoseconds(start) + milliseconds * NANOSECONDS_PER_MILLISECOND) / NANOSECONDS_PER_SECOND
                  <= TIME_MAXIMUM
    ensures r.Success? ==>
              && Normalised(r.value)
              && Nanoseconds(r.value) == Nanoseconds(start) + milliseconds * NANOSECONDS_PER_MILLISECOND
    ensures r.Failure? ==> r.code == ResourceExhausted
  {
    var nanoseconds := NanosecondSum(start, milliseconds);
    var carry := if nanoseconds >= NANOSECONDS_PER_SECOND then 1 else 0;
    var seconds := TruncatedDivision(milliseconds, 1000);
    if start.nsec < 0 || start.nsec >= NANOSECONDS_PER_SECOND || milliseconds < 0
       || seconds > TIME_MAXIMUM - carry || start.sec > TIME_MAXIMUM - (seconds + carry) {
      if Normalised(start) && milliseconds >= 0 {
        SumSplits(start, milliseconds, seconds, nanoseconds, carry);
      }
      return Failure(ResourceExhausted);
    }
    SumSplits(start, milliseconds, seconds, nanoseconds, carry);
    return Success(Timespec(start.sec + seconds + carry, nanoseconds - carry * NANOSECONDS_PER_SECOND));
  }

  predicate Reached(now: Timespec, deadline: Timespec) {
    now.sec > deadline.sec || (now.sec == deadline.sec && now.nsec >= deadline.nsec)
  }

  predicate Earlier(left: Timespec, right: Timespec) {
    left.sec < right.sec || (left.sec == right.sec && left.nsec < right.nsec)
  }

  lemma ComparesNanoseconds(a: Timespec, b: Timespec)
    requires Normalised(a) && Normalised(b)
    ensures Reached(a, b) <==> Nanoseconds(a) >= Nanoseconds(b)
    ensures Earlier(a, b) <==> Nanoseconds(a) < Nanoseconds(b)
  {
  }

  const BACKOFF_MILLISECONDS: Milliseconds := 1

  datatype SleepResult = Elapsed | Interrupted | SleepFailed

  /** What was asked of the clock, and what it answered. */
  datatype ClockCall = Read(now: Result<Timespec>) | Slept(until: Timespec, result: SleepResult)

  /**
   * The monotonic clock. Any call may fail or be interrupted, but time never runs backwards and no sleep ends
   * early. Every call is recorded.
   */
  class MonotonicClock {
    var time: int
    ghost var calls: seq<ClockCall>

    constructor (origin: int)
      ensures time == origin && calls == []
    {
      time, calls := origin, [];
    }

    method Now() returns (r: Result<Timespec>)
      modifies this
      ensures calls == old(calls) + [Read(r)]
      ensures time >= old(time)
      ensures r.Success? ==> Normalised(r.value) && Nanoseconds(r.value) == time
      ensures r.Failure? ==> r.code.IoError?
    {
      var elapsed: int := *;
      time := time + if elapsed > 0 then elapsed else 0;
      var fails: bool := *;
      r := if fails then Failure(IoError)
      else Success(Timespec(time / NANOSECONDS_PER_SECOND, time % NANOSECONDS_PER_SECOND));
      calls := calls + [Read(r)];
    }

    method SleepUntil(deadline: Timespec) returns (r: SleepResult)
      modifies this
      ensures calls == old(calls) + [Slept(deadline, r)]
      ensures time >= old(time)
      ensures r.Elapsed? ==> time >= Nanoseconds(deadline)
    {
      var elapsed: int := *;
      time := time + if elapsed > 0 then elapsed else 0;
      r := *;
      if r.Elapsed? && time < Nanoseconds(deadline) {
        time := Nanoseconds(deadline);
      }
      calls := calls + [Slept(deadline, r)];
    }
  }

  function Least(a: int, b: int): int {
    if a <= b then a else b
  }

  function Interruptions(until: Timespec, n: nat): seq<ClockCall> {
    seq(n, _ => Slept(until, SleepResult.Interrupted))
  }

  lemma OneMoreInterruption(until: Timespec, n: nat)
    ensures Interruptions(until, n) + [Slept(until, SleepResult.Interrupted)] == Interruptions(until, n + 1)
  {
  }

  /** The instant at which a wait ends: one back-off period from now, or the deadline if that comes first. */
  predicate EndsWait(until: Timespec, now: Timespec, deadline: Timespec) {
    && Normalised(until)
    && (deadline.sec <= TIME_MAXIMUM ==>
          Nanoseconds(until) == Least(Nanoseconds(now) + BACKOFF_MILLISECONDS * NANOSECONDS_PER_MILLISECOND,
                                      Nanoseconds(deadline)))
  }

  /** A sleep that goes on through interruptions, up to the last one allowed, and what it comes to. */
  predicate SleptUntil(until: Timespec, made: seq<ClockCall>, code: StatusCode) {
    if code.OkStatus? then
      exists k :: 0 <= k < MAXIMUM_SLEEP_ATTEMPTS && made == Interruptions(until, k) + [Slept(until, Elapsed)]
    else
      && code.IoError?
      && (|| made == Interruptions(until, MAXIMUM_SLEEP_ATTEMPTS)
          || exists k :: 0 <= k < MAXIMUM_SLEEP_ATTEMPTS
                         && made == Interruptions(until, k) + [Slept(until, SleepFailed)])
  }

  /** The instant up to which to wait. */
  method RetryAt(now: Timespec, deadline: Timespec) returns (retry: Timespec)
    requires Normalised(now) && Normalised(deadline)
    ensures EndsWait(retry, now, deadline)
    ensures Nanoseconds(retry)
         >= Least(Nanoseconds(now) + BACKOFF_MILLISECONDS * NANOSECONDS_PER_MILLISECOND, Nanoseconds(deadline))
  {
    retry := deadline;
    var candidate := AddMilliseconds(now, BACKOFF_MILLISECONDS);
    if candidate.Success? {
      ComparesNanoseconds(candidate.value, deadline);
      if Earlier(candidate.value, deadline) {
        retry := candidate.value;
      }
    }
  }

  /** Waits one back-off period after `now`, but never past `deadline`; gives up after too many interruptions. */
  method WaitBeforeRetry(clock: MonotonicClock, now: Timespec, deadline: Timespec)
    returns (code: StatusCode, ghost until: Timespec, ghost sleeps: seq<ClockCall>)
    requires Normalised(now) && Normalised(deadline)
    modifies clock
    ensures clock.time >= old(clock.time)
    ensures code.OkStatus? ==>
              clock.time >= Least(Nanoseconds(now) + BACKOFF_MILLISECONDS * NANOSECONDS_PER_MILLISECOND,
                                  Nanoseconds(deadline))
    ensures clock.calls == old(clock.calls) + sleeps
    ensures EndsWait(until, now, deadline) && SleptUntil(until, sleeps, code)
  {
    hide EndsWait;
    var retry := RetryAt(now, deadline);
    until, sleeps := retry, Interruptions(retry, 0);
    for attempt := 0 to MAXIMUM_SLEEP_ATTEMPTS
      invariant clock.time >= old(clock.time)
      invariant sleeps == Interruptions(retry, attempt) && clock.calls == old(clock.calls) + sleeps
    {
      var slept := clock.SleepUntil(retry);
      sleeps := sleeps + [Slept(retry, slept)];
      if slept.Elapsed? {
        return OkStatus, until, sleeps;
      }
      if slept.SleepFailed? {
        return IoError, until, sleeps;
      }
      OneMoreInterruption(retry, attempt);
    }
    return IoError, until, sleeps;
  }

  /** What the drain asks of the pipelines, in the order it asks it. */
  datatype Call = StopCall(pipeline: nat, answer: StatusCode) | CancelCall(pipeline: nat, answer: StatusCode)

  /** The pipelines a runtime owns; each may answer anything at any time. */
  class PipelineSet {
    const count: nat
    ghost var calls: seq<Call>

    constructor (count: nat)
      ensures this.count == count && calls == []
    {
      this.count := count;
      calls := [];
    }

    method Stop(i: nat) returns (code: StatusCode)
      requires i < count
      modifies this
      ensures calls == old(calls) + [StopCall(i, code)]
    {
      code := *;
      calls := calls + [StopCall(i, code)];
    }

    method Cancel(i: nat) returns (code: StatusCode)
      requires i < count
      modifies this
      ensures calls == old(calls) + [CancelCall(i, code)]
    {
      code := *;
      calls := calls + [CancelCall(i, code)];
    }
  }

  function Answers(calls: seq<Call>): seq<StatusCode> {
    seq(|calls|, k requires 0 <= k < |calls| => calls[k].answer)
  }

  /** One cancellation of each of `n` pipelines, last pipeline first. */
  ghost predicate CancelsAll(calls: seq<Call>, n: nat) {
    |calls| == n && forall k :: 0 <= k < n ==> calls[k].CancelCall? && calls[k].pipeline == n - 1 - k
  }

  lemma OneMoreCancel(media: StatusCode, calls: seq<Call>, c: Call)
    ensures FirstFailure([media] + Answers(calls + [c]))
         == RecordFirst(FirstFailure([media] + Answers(calls)), c.answer)
  {
    assert [media] + Answers(calls + [c]) == [media] + Answers(calls) + [c.answer];
    OneMoreAnswer([media] + Answers(calls), c.answer);
  }

  /** Cancels every pipeline, whatever they answer, and keeps the first failure, an earlier one included. */
  method CancelAll(pipelines: PipelineSet, media: StatusCode) returns (r: StatusCode, ghost cancels: seq<Call>)
    modifies pipelines
    ensures CancelsAll(cancels, pipelines.count) && pipelines.calls == old(pipelines.calls) + cancels
    ensures r == FirstFailure([media] + Answers(cancels))
  {
    r, cancels := media, [];
    assert [media] + Answers([]) == [media] && FirstFailure([media]) == media;
    hide FirstFailure;
    var i := pipelines.count;
    while i > 0
      invariant i <= pipelines.count && |cancels| == pipelines.count - i
      invariant forall k :: 0 <= k < |cancels| ==>
                  cancels[k].CancelCall? && cancels[k].pipeline == pipelines.count - 1 - k
      invariant pipelines.calls == old(pipelines.calls) + cancels
      invariant r == FirstFailure([media] + Answers(cancels))
    {
      i := i - 1;
      var code := pipelines.Cancel(i);
      OneMoreCancel(media, cancels, CancelCall(i, code));
      cancels := cancels + [CancelCall(i, code)];
      r := RecordFirst(r, code);
    }
  }

  /** Every pipeline has answered a stop with success. */
  ghost predicate AllStopped(calls: seq<Call>, n: nat) {
    forall i: nat :: i < n ==> StopCall(i, OkStatus) in calls
  }

  /** Only stops were asked for, and none of a pipeline that had already stopped. */
  ghost predicate StopsOnce(calls: seq<Call>) {
    && (forall k :: 0 <= k < |calls| ==> calls[k].StopCall?)
    && (forall j, k :: 0 <= j < k < |calls| ==> calls[j] != StopCall(calls[k].pipeline, OkStatus))
  }

  /** How many of the pipelines have not stopped. */
  ghost function Remaining(stopped: seq<bool>): (n: nat)
    ensures n <= |stopped|
    ensures n == 0 <==> forall i :: 0 <= i < |stopped| ==> stopped[i]
  {
    if stopped == [] then 0
    else Remaining(stopped[..|stopped| - 1]) + if stopped[|stopped| - 1] then 0 else 1
  }

  lemma RemainingSplits(stopped: seq<bool>)
    requires stopped != []
    ensures Remaining(stopped) == Remaining(stopped[..|stopped| - 1]) + if stopped[|stopped| - 1] then 0 else 1
  {
  }

  lemma {:induction false} MarkStopped(stopped: seq<bool>, i: nat)
    requires i < |stopped| && !stopped[i]
    ensures Remaining(stopped[i := true]) == Remaining(stopped) - 1
  {
    var last, marked := |stopped| - 1, stopped[i := true];
    RemainingSplits(stopped);
    RemainingSplits(marked);
    hide Remaining;
    if i == last {
      assert marked[..last] == stopped[..last];
    } else {
      MarkStopped(stopped[..last], i);
      assert marked[..last] == stopped[..last][i := true];
    }
  }

  /** The pipelines below `n` that have not stopped, last first. */
  ghost function Unstopped(stopped: seq<bool>, n: nat): seq<nat>
    requires n <= |stopped|
  {
    if n == 0 then [] else (if stopped[n - 1] then [] else [n - 1]) + Unstopped(stopped, n - 1)
  }

  /** After the calls made before, the pipelines of `asked` were called, in this order. */
  ghost predicate Asks(calls: seq<Call>, before: seq<Call>, asked: seq<nat>) {
    && |calls| == |before| + |asked| && before <= calls
    && forall k :: 0 <= k < |asked| ==> calls[|before| + k].pipeline == asked[k]
  }

  lemma AsksNothing(calls: seq<Call>)
    ensures Asks(calls, calls, [])
  {
  }

  lemma AsksOneMore(calls: seq<Call>, before: seq<Call>, asked: seq<nat>, c: Call)
    requires Asks(calls, before, asked)
    ensures Asks(calls + [c], before, asked + [c.pipeline])
  {
  }

  lemma AsksNext(asked: seq<nat>, stopped: seq<bool>, i: nat, all: seq<nat>)
    requires i < |stopped| && asked + Unstopped(stopped, i + 1) == all
    ensures (if stopped[i] then asked else asked + [i]) + Unstopped(stopped, i) == all
  {
    if !stopped[i] {
      assert asked + ([i] + Unstopped(stopped, i)) == asked + [i] + Unstopped(stopped, i);
    } else {
      assert [] + Unstopped(stopped, i) == Unstopped(stopped, i);
    }
  }

  /** The marks are exactly the pipelines that have answered a stop with success. */
  ghost predicate Agrees(stopped: seq<bool>, calls: seq<Call>) {
    && StopsOnce(calls)
    && forall i: nat :: i < |stopped| ==> (stopped[i] <==> StopCall(i, OkStatus) in calls)
  }

  lemma AgreesAfterStop(stopped: seq<bool>, calls: seq<Call>, i: nat, answer: StatusCode)
    requires i < |stopped| && !stopped[i] && Agrees(stopped, calls)
    ensures Agrees(if answer.OkStatus? then stopped[i := true] else stopped, calls + [StopCall(i, answer)])
  {
  }

  /** Asks one pipeline to stop, and marks it if it has. */
  method StopOne(pipelines: PipelineSet, stopped: array<bool>, i: nat) returns (status: StatusCode)
    requires stopped.Length == pipelines.count && i < stopped.Length && !stopped[i]
    requires Agrees(stopped[..], pipelines.calls)
    modifies pipelines, stopped
    ensures pipelines.calls == old(pipelines.calls) + [StopCall(i, status)]
    ensures stopped[..] == if status.OkStatus? then old(stopped[..])[i := true] else old(stopped[..])
    ensures Agrees(stopped[..], pipelines.calls)
    ensures Remaining(stopped[..]) == old(Remaining(stopped[..])) - if status.OkStatus? then 1 else 0
  {
    ghost var marks, calls := stopped[..], pipelines.calls;
    status := pipelines.Stop(i);
    AgreesAfterStop(marks, calls, i, status);
    if status.OkStatus? {
      MarkStopped(marks, i);
      stopped[i] := true;
      assert stopped[..] == marks[i := true];
    }
  }

  lemma OneIsLeft(stopped: seq<bool>, i: nat)
    requires i < |stopped| && !stopped[i]
    ensures Remaining(stopped) > 0
  {
  }

  /** One pass over the pipelines that have not stopped, last pipeline first. */
  method StopPass(pipelines: PipelineSet, stopped: array<bool>, remaining: nat)
    returns (left: nat, madeProgress: bool, media: StatusCode, ghost asked: seq<nat>)
    requires stopped.Length == pipelines.count
    requires remaining == Remaining(stopped[..])
    requires Agrees(stopped[..], pipelines.calls)
    modifies pipelines, stopped
    ensures Agrees(stopped[..], pipelines.calls)
    ensures left == Remaining(stopped[..]) <= remaining
    ensures madeProgress <==> left < remaining
    ensures Asks(pipelines.calls, old(pipelines.calls), asked)
    ensures asked <= Unstopped(old(stopped[..]), stopped.Length)
    ensures media.OkStatus? ==> asked == Unstopped(old(stopped[..]), stopped.Length)
    ensures !media.OkStatus? ==>
              !TemporarilyEmpty(media) && asked != [] && pipelines.calls[|pipelines.calls| - 1].answer == media
    ensures !media.OkStatus? ==> left > 0
  {
    hide Asks, Remaining, Agrees;
    left, madeProgress, media, asked := remaining, false, OkStatus, [];
    var reverse := pipelines.count;
    ghost var marked := stopped[..];
    AsksNothing(pipelines.calls);
    while reverse > 0
      invariant 0 <= reverse <= pipelines.count
      invariant forall i :: 0 <= i < reverse ==> stopped[i] == marked[i]
      invariant asked + Unstopped(marked, reverse) == Unstopped(marked, |marked|)
      invariant Asks(pipelines.calls, old(pipelines.calls), asked)
      invariant Agrees(stopped[..], pipelines.calls)
      invariant left == Remaining(stopped[..]) <= remaining
      invariant madeProgress <==> left < remaining
      invariant media.OkStatus?
    {
      reverse := reverse - 1;
      AsksNext(asked, marked, reverse, Unstopped(marked, |marked|));
      if stopped[reverse] {
        continue;
      }
      ghost var calls := pipelines.calls;
      var status := StopOne(pipelines, stopped, reverse);
      AsksOneMore(calls, old(pipelines.calls), asked, StopCall(reverse, status));
      asked := asked + [reverse];
      if status.OkStatus? {
        left, madeProgress := left - 1, true;
        continue;
      }
      if TemporarilyEmpty(status) {
        continue;
      }
      media := status;
      OneIsLeft(stopped[..], reverse);
      break;
    }
    assert asked <= asked + Unstopped(marked, reverse);
  }

  /** A back-off that starts before the deadline is one of at most `timeout`, and brings the deadline nearer. */
  lemma BackOffCounts(origin: int, idle: nat, timeout: Milliseconds, now: int, after: int)
    requires now >= Least(origin + idle * NANOSECONDS_PER_MILLISECOND, origin + timeout * NANOSECONDS_PER_MILLISECOND)
    requires now < origin + timeout * NANOSECONDS_PER_MILLISECOND
    requires after >= Least(now + NANOSECONDS_PER_MILLISECOND, origin + timeout * NANOSECONDS_PER_MILLISECOND)
    ensures idle < timeout
    ensures after >= Least(origin + (idle + 1) * NANOSECONDS_PER_MILLISECOND,
                           origin + timeout * NANOSECONDS_PER_MILLISECOND)
  {
  }

  lemma {:induction false} NoneStopped(stopped: seq<bool>)
    requires forall i :: 0 <= i < |stopped| ==> !stopped[i]
    ensures Remaining(stopped) == |stopped|
  {
    if stopped != [] {
      NoneStopped(stopped[..|stopped| - 1]);
    }
  }

  /** Which of `n` pipelines have answered a stop with success. */
  ghost function Marks(calls: seq<Call>, n: nat): seq<bool> {
    seq(n, i requires 0 <= i < n => StopCall(i, OkStatus) in calls)
  }

  /** The calls of whole passes: each asks all the pipelines that have not stopped before it, last first. */
  ghost predicate WholePasses(calls: seq<Call>, n: nat, passes: nat)
    decreases passes
  {
    if passes == 0 then calls == []
    else
      exists b :: 0 <= b <= |calls| && WholePasses(calls[..b], n, passes - 1)
                  && Asks(calls, calls[..b], Unstopped(Marks(calls[..b], n), n))
  }

  /** Whole passes, and one more that ends with the first pipeline to fail. */
  ghost predicate CutPass(calls: seq<Call>, n: nat, passes: nat, code: StatusCode) {
    exists b :: 0 <= b < |calls| && WholePasses(calls[..b], n, passes)
                && |calls| - b <= |Unstopped(Marks(calls[..b], n), n)|
                && Asks(calls, calls[..b], Unstopped(Marks(calls[..b], n), n)[..|calls| - b])
                && calls[|calls| - 1].answer == code
  }

  lemma PassEndsAt(calls: seq<Call>, n: nat, passes: nat, b: nat)
    requires passes > 0 && b <= |calls| && WholePasses(calls[..b], n, passes - 1)
    requires Asks(calls, calls[..b], Unstopped(Marks(calls[..b], n), n))
    ensures WholePasses(calls, n, passes)
  {
  }

  lemma OneMorePass(before: seq<Call>, calls: seq<Call>, stopped: seq<bool>, passes: nat, asked: seq<nat>)
    requires WholePasses(before, |stopped|, passes) && Agrees(stopped, before)
    requires Asks(calls, before, asked) && asked == Unstopped(stopped, |stopped|)
    ensures WholePasses(calls, |stopped|, passes + 1)
  {
    hide Unstopped, WholePasses;
    assert calls[..|before|] == before && Marks(before, |stopped|) == stopped;
    PassEndsAt(calls, |stopped|, passes + 1, |before|);
  }

  lemma OneCutPass(before: seq<Call>, calls: seq<Call>, stopped: seq<bool>, passes: nat, asked: seq<nat>,
                   code: StatusCode)
    requires WholePasses(before, |stopped|, passes) && Agrees(stopped, before)
    requires Asks(calls, before, asked) && asked <= Unstopped(stopped, |stopped|) && asked != []
    requires calls[|calls| - 1].answer == code
    ensures CutPass(calls, |stopped|, passes, code)
  {
    hide Unstopped, WholePasses;
    assert calls[..|before|] == before && Marks(before, |stopped|) == stopped;
    assert asked == Unstopped(stopped, |stopped|)[..|calls| - |before|];
  }

  /** The clock could not be read, or a sleep failed or was interrupted once too often. */
  predicate ClockFails(c: ClockCall, code: StatusCode) {
    match c
    case Read(now) => now == Failure(code)
    case Slept(_, result) => code.IoError? && !result.Elapsed?
  }

  predicate DeadlineRead(c: ClockCall, deadline: Timespec) {
    c.Read? && c.now.Success? && Reached(c.now.value, deadline)
  }

  /** The clock was asked again, and this is the last that it answered. */
  predicate AskedSince(before: seq<ClockCall>, now: seq<ClockCall>) {
    |before| < |now| && before <= now
  }

  /** Why a drain by passes has ended. */
  ghost predicate PassesEnd(calls: seq<Call>, n: nat, passes: nat, before: seq<ClockCall>, now: seq<ClockCall>,
                            deadline: Timespec, media: StatusCode, reactor: StatusCode) {
    if media.OkStatus? && reactor.OkStatus? then AllStopped(calls, n) && WholePasses(calls, n, passes)
    else
      && !AllStopped(calls, n) && passes > 0
      && if media.OkStatus? then
           && WholePasses(calls, n, passes) && AskedSince(before, now)
           && ClockFails(now[|now| - 1], reactor)
         else
           && reactor.OkStatus?
           && (|| CutPass(calls, n, passes - 1, media)
               || (&& media.Timeout? && WholePasses(calls, n, passes) && AskedSince(before, now)
                   && DeadlineRead(now[|now| - 1], deadline)))
  }

  /**
   * Why a drain has ended: the clock could not be read at all, the deadline is no instant, or the passes up to the
   * deadline have ended.
   */
  ghost predicate DrainEnds(stops: seq<Call>, n: nat, passes: nat, before: seq<ClockCall>, now: seq<ClockCall>,
                            timeout: Milliseconds, media: StatusCode, reactor: StatusCode)
    requires AskedSince(before, now) && now[|before|].Read?
  {
    match now[|before|].now
    case Failure(code) => stops == [] && passes == 0 && media.OkStatus? && reactor == code && |now| == |before| + 1
    case Success(started) =>
      if (Nanoseconds(started) + timeout * NANOSECONDS_PER_MILLISECOND) / NANOSECONDS_PER_SECOND > TIME_MAXIMUM then
        stops == [] && passes == 0 && media.OkStatus? && reactor.ResourceExhausted? && |now| == |before| + 1
      else
        exists deadline ::
          && Normalised(deadline)
          && Nanoseconds(deadline) == Nanoseconds(started) + timeout * NANOSECONDS_PER_MILLISECOND
          && PassesEnd(stops, n, passes, now[..|before| + 1], now, deadline, media, reactor)
  }

  lemma FirstIsKept(first: StatusCode, cancels: seq<Call>)
    ensures FirstFailure([first] + Answers(cancels)) == RecordFirst(first, FirstFailure(Answers(cancels)))
  {
    FirstOfBoth([first], Answers(cancels));
    assert [first] == [] + [first];
    OneMoreAnswer([], first);
  }

  lemma NoPasses(n: nat)
    ensures WholePasses([], n, 0) && StopsOnce([])
  {
  }

  lemma NothingStopped(stopped: seq<bool>)
    requires forall i :: 0 <= i < |stopped| ==> !stopped[i]
    ensures Remaining(stopped) == |stopped| && Agrees(stopped, []) && WholePasses([], |stopped|, 0)
  {
    NoneStopped(stopped);
  }

  lemma OnlyStops(stopped: seq<bool>, calls: seq<Call>)
    requires Agrees(stopped, calls)
    ensures StopsOnce(calls)
  {
  }

  lemma LastSleep(until: Timespec, sleeps: seq<ClockCall>, code: StatusCode)
    requires SleptUntil(until, sleeps, code)
    ensures sleeps != [] && (!code.OkStatus? ==> ClockFails(sleeps[|sleeps| - 1], code))
  {
  }

  lemma SomeLeft(stopped: seq<bool>, calls: seq<Call>)
    requires Agrees(stopped, calls)
    ensures Remaining(stopped) == 0 <==> AllStopped(calls, |stopped|)
  {
    if Remaining(stopped) != 0 {
      var i :| 0 <= i < |stopped| && !stopped[i];
      assert StopCall(i, OkStatus) !in calls;
    }
  }

  /**
   * Passes over the pipelines until all of them have stopped, one fails, the clock fails, or the deadline is
   * reached.
   */
  method StopUntil(clock: MonotonicClock, pipelines: PipelineSet, ghost origin: int, deadline: Timespec,
                   ghost timeout: Milliseconds)
    returns (media: StatusCode, reactor: StatusCode, ghost passes: nat)
    requires Normalised(deadline) && timeout > 0 && pipelines.calls == []
    requires Nanoseconds(deadline) == origin + timeout * NANOSECONDS_PER_MILLISECOND && clock.time >= origin
    modifies clock, pipelines
    ensures passes <= pipelines.count + timeout
    ensures StopsOnce(pipelines.calls) && old(clock.calls) <= clock.calls
    ensures PassesEnd(pipelines.calls, pipelines.count, passes, old(clock.calls), clock.calls, deadline, media, reactor)
  {
    hide SleptUntil, EndsWait, WholePasses, Agrees, Asks, Unstopped, Remaining, AllStopped, StopsOnce, CutPass;
    media, reactor, passes := OkStatus, OkStatus, 0;
    var stopped := new bool[pipelines.count](_ => false);
    var remaining := pipelines.count;
    NothingStopped(stopped[..]);
    ghost var idle := 0;
    while remaining > 0
      invariant remaining == Remaining(stopped[..])
      invariant Agrees(stopped[..], pipelines.calls) && WholePasses(pipelines.calls, pipelines.count, passes)
      invariant media.OkStatus? && reactor.OkStatus?
      invariant idle <= timeout && passes <= pipelines.count - remaining + idle
      invariant clock.time >= Least(origin + idle * NANOSECONDS_PER_MILLISECOND, Nanoseconds(deadline))
      invariant old(clock.calls) <= clock.calls
      decreases pipelines.count + timeout - passes
    {
      var madeProgress;
      ghost var asked, marks, calls := [], stopped[..], pipelines.calls;
      remaining, madeProgress, media, asked := StopPass(pipelines, stopped, remaining);
      passes := passes + 1;
      SomeLeft(stopped[..], pipelines.calls);
      if !media.OkStatus? {
        OneCutPass(calls, pipelines.calls, marks, passes - 1, asked, media);
        break;
      }
      OneMorePass(calls, pipelines.calls, marks, passes - 1, asked);
      if remaining == 0 {
        break;
      }
      var now := clock.Now();
      if now.Failure? {
        reactor := now.code;
        break;
      }
      if Reached(now.value, deadline) {
        media := Timeout;
        break;
      }
      ComparesNanoseconds(now.value, deadline);
      if !madeProgress {
        ghost var until, sleeps;
        reactor, until, sleeps := WaitBeforeRetry(clock, now.value, deadline);
        LastSleep(until, sleeps, reactor);
        if !reactor.OkStatus? {
          break;
        }
        BackOffCounts(origin, idle, timeout, Nanoseconds(now.value), clock.time);
        idle := idle + 1;
      }
    }
    SomeLeft(stopped[..], pipelines.calls);
    OnlyStops(stopped[..], pipelines.calls);
  }

  /**
   * Stops every pipeline, passing over them again while some are still draining. Either all of them stop, each
   * asked no more once it has, or a failure is recorded and all of them are cancelled. A pass either stops a
   * pipeline or is followed by a back-off, so there are at most as many passes as pipelines and milliseconds.
   * The calls recorded are those of this drain; a configuration admits positive timeouts only.
   */
  method Drain(clock: MonotonicClock, pipelines: PipelineSet, timeout: Milliseconds)
    returns (media: StatusCode, reactor: StatusCode, ghost passes: nat, ghost stops: seq<Call>,
             ghost cancels: seq<Call>, ghost first: StatusCode)
    requires timeout > 0 && pipelines.calls == []
    modifies clock, pipelines
    ensures passes <= pipelines.count + timeout
    ensures pipelines.calls == stops + cancels && StopsOnce(stops)
    ensures if first.OkStatus? && reactor.OkStatus? then cancels == [] && media.OkStatus?
            else
              && CancelsAll(cancels, pipelines.count)
              && media == RecordFirst(first, FirstFailure(Answers(cancels)))
    ensures AskedSince(old(clock.calls), clock.calls) && clock.calls[|old(clock.calls)|].Read?
    ensures DrainEnds(stops, pipelines.count, passes, old(clock.calls), clock.calls, timeout, first, reactor)
  {
    hide PassesEnd, WholePasses, StopsOnce, CancelsAll;
    media, reactor, passes, stops, cancels, first := OkStatus, OkStatus, 0, [], [], OkStatus;
    NoPasses(pipelines.count);
    var started := clock.Now();
    if started.Failure? {
      media, cancels := CancelAll(pipelines, media);
      FirstIsKept(first, cancels);
      return media, started.code, passes, stops, cancels, first;
    }
    var deadline := AddMilliseconds(started.value, timeout);
    if deadline.Failure? {
      media, cancels := CancelAll(pipelines, media);
      FirstIsKept(first, cancels);
      return media, deadline.code, passes, stops, cancels, first;
    }
    ghost var read := clock.calls;
    media, reactor, passes := StopUntil(clock, pipelines, Nanoseconds(started.value), deadline.value, timeout);
    assert clock.calls[..|read|] == read;
    first, stops := media, pipelines.calls;
    if !media.OkStatus? || !reactor.OkStatus? {
      media, cancels := CancelAll(pipelines, media);
      FirstIsKept(first, cancels);
    }
  }
}

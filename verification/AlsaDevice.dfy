/** The audio device: a library whose every answer is recorded, and the reads and instants that are made of them. */
module AlsaDevice {
  import opened Statuses
  import opened AlsaTimeline

  /** What a call into the audio library answers: a count, or an error. */
  datatype Native = Count(n: nat) | TryAgain | Interrupted | Overrun | Suspended | Gone | OutOfMemory | OtherError

  function FailureCode(r: Native): (code: StatusCode)
    ensures !code.OkStatus? && !code.WouldBlock?
  {
    match r
    case Gone => DeviceLost
    case OutOfMemory => ResourceExhausted
    case _ => IoError
  }

  datatype LibraryCall =
    | Clock(answer: Native)
    | Stamp(answer: Native)
    | Wait(answer: Native)
    | Reading(answer: Native)
    | Resuming(answer: Native)
    | Preparing(answer: Native)
    | Starting(answer: Native)

  /** A call about captured samples: the library answers it with an error if some were lost. */
  predicate AboutSamples(c: LibraryCall) {
    c.Stamp? || c.Wait? || c.Reading?
  }

  /**
   * The call at `i` ends a loss of samples: it found the device suspended, or it is the start that recovered the
   * device from an overrun.
   */
  predicate EndsLoss(calls: seq<LibraryCall>, i: nat)
    requires i < |calls|
  {
    || (AboutSamples(calls[i]) && calls[i].answer.Suspended?)
    || (&& i >= 2 && AboutSamples(calls[i - 2]) && calls[i - 2].answer.Overrun?
        && calls[i - 1].Preparing? && calls[i - 1].answer.Count? && calls[i].Starting? && calls[i].answer.Count?)
  }

  /** How often samples were lost, by what the library has answered. */
  function Losses(calls: seq<LibraryCall>): nat {
    if calls == [] then 0
    else Losses(calls[..|calls| - 1]) + if EndsLoss(calls, |calls| - 1) then 1 else 0
  }

  lemma LossesMore(calls: seq<LibraryCall>, c: LibraryCall)
    ensures Losses(calls + [c]) == Losses(calls) + if EndsLoss(calls + [c], |calls|) then 1 else 0
  {
    assert (calls + [c])[..|calls|] == calls;
  }

  /** No start belongs to a recovery but the one that follows its preparation. */
  predicate BetweenCalls(calls: seq<LibraryCall>) {
    calls == [] || !calls[|calls| - 1].Preparing? || !calls[|calls| - 1].answer.Count?
  }

  /** How a recovery from an overrun comes out: both of its calls are made, unless the first one fails. */
  predicate Recovery(made: seq<LibraryCall>, code: StatusCode) {
    || (|made| == 1 && made[0].Preparing? && !made[0].answer.Count? && code == FailureCode(made[0].answer))
    || (&& |made| == 2 && made[0].Preparing? && made[0].answer.Count? && made[1].Starting?
        && code == if made[1].answer.Count? then OkStatus else FailureCode(made[1].answer))
  }

  lemma CallLoses(calls: seq<LibraryCall>, c: LibraryCall)
    requires BetweenCalls(calls) && (c.Preparing? ==> !c.answer.Count?)
    ensures BetweenCalls(calls + [c])
    ensures Losses(calls + [c]) == Losses(calls) + if AboutSamples(c) && c.answer.Suspended? then 1 else 0
  {
    LossesMore(calls, c);
  }

  /** The start after a preparation ends a loss if it was an overrun that called for both. */
  lemma StartLoses(calls: seq<LibraryCall>, prepared: Native, started: Native)
    requires calls != [] && prepared.Count?
    ensures Losses(calls + [Preparing(prepared)] + [Starting(started)]) == Losses(calls) +
              if AboutSamples(calls[|calls| - 1]) && calls[|calls| - 1].answer.Overrun? && started.Count? then 1 else 0
    ensures BetweenCalls(calls + [Preparing(prepared)] + [Starting(started)])
  {
    LossesMore(calls, Preparing(prepared));
    LossesMore(calls + [Preparing(prepared)], Starting(started));
    hide Losses;
  }

  lemma NotAboutSamples(c: LibraryCall)
    requires c.Preparing?
    ensures !AboutSamples(c)
  {
  }

  lemma RecoveryLoses(calls: seq<LibraryCall>, made: seq<LibraryCall>, code: StatusCode)
    requires BetweenCalls(calls) && Recovery(made, code) && calls != []
    ensures BetweenCalls(calls + made)
    ensures Losses(calls + made) == Losses(calls) +
              if AboutSamples(calls[|calls| - 1]) && calls[|calls| - 1].answer.Overrun? && code.OkStatus? then 1 else 0
  {
    hide Losses, BetweenCalls, AboutSamples;
    if |made| == 2 {
      assert calls + made == calls + [Preparing(made[0].answer)] + [Starting(made[1].answer)];
      StartLoses(calls, made[0].answer, made[1].answer);
    } else {
      assert calls + made == calls + [made[0]];
      CallLoses(calls, made[0]);
      NotAboutSamples(made[0]);
    }
  }

  datatype Read = Read(frames: nat, wouldBlock: bool, discontinuity: bool)

  datatype Anchor = At(us: int, fallback: bool) | AnchorWouldBlock | AnchorDiscontinuity

  const MAXIMUM_FUTURE_US: int := 1_000_000

  /** Two contents of a buffer agree except between `from` and `to`. */
  predicate OnlyWithin(before: seq<Sample>, after: seq<Sample>, from: int, to: int) {
    |before| == |after| && forall i :: 0 <= i < |before| && !(from <= i < to) ==> after[i] == before[i]
  }

  /** The library underneath may answer any call in any way; its answers of the session are recorded. */
  class AudioLibrary {
    ghost var calls: seq<LibraryCall>

    constructor ()
      ensures calls == []
    {
      calls := [];
    }

    /** The record begins with the session. */
    ghost method BeginSession()
      modifies this
      ensures calls == []
    {
      calls := [];
    }

    method Now() returns (r: Native, time: Timespec)
      modifies this
      ensures calls == old(calls) + [Clock(r)]
    {
      r, time := *, *;
      calls := calls + [Clock(r)];
    }

    method Timestamp() returns (r: Native, available: nat, timestamp: Timespec)
      modifies this
      ensures calls == old(calls) + [Stamp(r)]
    {
      var n: int := *;
      r, available, timestamp := *, if n < 0 then 0 else n, *;
      calls := calls + [Stamp(r)];
    }

    method Available() returns (r: Native)
      modifies this
      ensures calls == old(calls) + [Wait(r)]
    {
      r := *;
      calls := calls + [Wait(r)];
    }

    method Resume() returns (r: Native)
      modifies this
      ensures calls == old(calls) + [Resuming(r)]
    {
      r := *;
      calls := calls + [Resuming(r)];
    }

    method Prepare() returns (r: Native)
      modifies this
      ensures calls == old(calls) + [Preparing(r)]
    {
      r := *;
      calls := calls + [Preparing(r)];
    }

    method Start() returns (r: Native)
      modifies this
      ensures calls == old(calls) + [Starting(r)]
    {
      r := *;
      calls := calls + [Starting(r)];
    }

    /** The library writes what it likes into the window it is given, and only there. */
    method Readi(destination: array<Sample>, offset: nat, requested: nat) returns (r: Native)
      requires offset + requested <= destination.Length
      modifies this, destination
      ensures OnlyWithin(old(destination[..]), destination[..], offset, offset + requested)
      ensures calls == old(calls) + [Reading(r)]
    {
      var content: seq<Sample> := *;
      for i := 0 to requested
        invariant OnlyWithin(old(destination[..]), destination[..], offset, offset + requested)
        invariant calls == old(calls)
      {
        if i < |content| {
          destination[offset + i] := content[i];
        }
      }
      r := *;
      calls := calls + [Reading(r)];
    }
  }

  /** A read is tried again once if it was interrupted. */
  predicate Tried(made: seq<LibraryCall>, answer: Native) {
    (made == [Reading(answer)] && !answer.Interrupted?) || made == [Reading(Interrupted), Reading(answer)]
  }

  /** What a read comes to when the library answers so, and a recovery from an overrun so. */
  predicate ReadAnswers(answer: Native, recovered: StatusCode, requested: int, r: Result<Read>) {
    match answer
    case Count(n) =>
      if n == 0 then r == Success(Read(0, true, false))
      else if n > requested then r == Failure(CorruptData)
      else r == Success(Read(n, false, false))
    case TryAgain => r == Success(Read(0, true, false))
    case Interrupted => r == Success(Read(0, true, false))
    case Overrun => r == if recovered.OkStatus? then Success(Read(0, true, true)) else Failure(recovered)
    case Suspended => r == Success(Read(0, true, true))
    case _ => r == Failure(FailureCode(answer))
  }

  /** What a loss comes to: a suspended device is resumed later, one that overran is recovered now. */
  function LossCode(answer: Native, recovered: StatusCode): StatusCode {
    if answer.Suspended? then OkStatus else recovered
  }

  /** What a read makes of the answer, once a loss has been handled. */
  function ReadResult(answer: Native, lost: StatusCode, requested: int): (r: Result<Read>)
    requires requested > 0
    ensures r.Success? ==> r.value.frames <= requested
    ensures forall recovered ::
              (answer.Overrun? || answer.Suspended? ==> lost == LossCode(answer, recovered)) ==>
                ReadAnswers(answer, recovered, requested, r)
  {
    match answer
    case Count(n) =>
      if n == 0 then Success(Read(0, true, false))
      else if n > requested then Failure(CorruptData)
      else Success(Read(n, false, false))
    case TryAgain | Interrupted => Success(Read(0, true, false))
    case Overrun | Suspended => if lost.OkStatus? then Success(Read(0, true, true)) else Failure(lost)
    case _ => Failure(FailureCode(answer))
  }

  lemma LossIsReported(answer: Native, lost: StatusCode, requested: int)
    requires requested > 0
    ensures var r := ReadResult(answer, lost, requested);
            r.Success? && r.value.discontinuity <==> (answer.Overrun? || answer.Suspended?) && lost.OkStatus?
  {
  }

  /** What a resume comes to. A device that cannot resume is started anew, and is not asked for samples. */
  predicate ResumeAnswers(answer: Native, recovered: StatusCode, r: Result<Read>) {
    if answer.TryAgain? || answer.Count? then r == Success(Read(0, true, false))
    else if answer.Gone? then r == Failure(DeviceLost)
    else r == if recovered.OkStatus? then Success(Read(0, true, false)) else Failure(recovered)
  }

  /** The calls after an answer about samples: a recovery from an overrun, and else none. */
  predicate Recovered(answer: Native, rest: seq<LibraryCall>, recovered: StatusCode) {
    if answer.Overrun? then Recovery(rest, recovered) else rest == []
  }

  /** The calls that a read makes: a resume or up to two attempts, and then the recovery from an overrun. */
  predicate ReadCalls(suspended: bool, made: seq<LibraryCall>, answer: Native, recovered: StatusCode) {
    && made != []
    && if suspended then
         && made[0] == Resuming(answer)
         && if answer.TryAgain? || answer.Count? || answer.Gone? then |made| == 1 else Recovery(made[1..], recovered)
       else
         var k := if made[0].answer.Interrupted? then 2 else 1;
         && |made| >= k && Tried(made[..k], answer)
         && Recovered(answer, made[k..], recovered)
  }

  /** The calls that handled a loss, and how they came out. */
  datatype Handled = Handled(calls: seq<LibraryCall>, code: StatusCode)

  /** What a loss comes to when an anchor is asked for. */
  predicate LossAnswers(answer: Native, handled: Handled, r: Result<Anchor>) {
    var code := LossCode(answer, handled.code);
    r == if code.OkStatus? then Success(AnchorDiscontinuity) else Failure(code)
  }

  /** What the driver answered when asked for its timestamp, and for the samples that wait. */
  datatype Stamped = Stamped(answer: Native, stamp: Option<int>, available: nat, loss: Handled)

  datatype Waited = Waited(answer: Native, loss: Handled)

  /** What an anchor was made of. */
  datatype Instants = Instants(clock: Native, now: Option<int>, stamped: Stamped, waited: Waited)

  const NOTHING := Instants(Count(0), None, Stamped(Count(0), None, 0, Handled([], OkStatus)),
                            Waited(Count(0), Handled([], OkStatus)))

  /** The driver's timestamp gives an instant: it is one, not too far in the future, for samples that can be counted. */
  predicate Serves(s: Stamped, now: Option<int>, rate: int)
    requires rate < 0x1_0000_0000
  {
    && s.answer.Count? && now.Some? && s.stamp.Some? && s.stamp.value <= now.value + MAXIMUM_FUTURE_US
    && FirstUnread(s.stamp.value, s.available, rate).Some?
  }

  /** The driver's timestamp settles the anchor. */
  predicate Settles(s: Stamped, now: Option<int>, rate: int)
    requires rate < 0x1_0000_0000
  {
    s.answer.Overrun? || s.answer.Suspended? || s.answer.Gone? || Serves(s, now, rate)
  }

  /** How it settles the anchor. */
  predicate StampAnswers(s: Stamped, now: Option<int>, rate: int, r: Result<Anchor>)
    requires rate < 0x1_0000_0000
  {
    if s.answer.Overrun? || s.answer.Suspended? then LossAnswers(s.answer, s.loss, r)
    else if s.answer.Gone? then r == Failure(DeviceLost)
    else Serves(s, now, rate) && r == Success(At(FirstUnread(s.stamp.value, s.available, rate).value, false))
  }

  /** What the count of waiting samples makes of the clock's time. */
  predicate WaitAnswers(w: Waited, now: Option<int>, rate: int, r: Result<Anchor>)
    requires rate < 0x1_0000_0000
  {
    match w.answer
    case TryAgain => r == Success(AnchorWouldBlock)
    case Overrun => LossAnswers(w.answer, w.loss, r)
    case Suspended => LossAnswers(w.answer, w.loss, r)
    case Count(available) =>
      if now.Some? && FirstUnread(now.value, available, rate).Some?
      then r == Success(At(FirstUnread(now.value, available, rate).value, true))
      else r == Failure(CorruptData)
    case _ => r == Failure(FailureCode(w.answer))
  }

  /** What the answers come to: the driver's timestamp counts first, where it serves, and then the clock. */
  predicate AnchorAnswers(i: Instants, monotonic: bool, rate: int, r: Result<Anchor>)
    requires rate < 0x1_0000_0000
  {
    if !i.clock.Count? then r == Failure(FailureCode(i.clock))
    else if monotonic && Settles(i.stamped, i.now, rate) then StampAnswers(i.stamped, i.now, rate, r)
    else WaitAnswers(i.waited, i.now, rate, r)
  }

  predicate StampCalls(s: Stamped, made: seq<LibraryCall>) {
    made == [Stamp(s.answer)] + s.loss.calls && Recovered(s.answer, s.loss.calls, s.loss.code)
  }

  predicate WaitCalls(w: Waited, made: seq<LibraryCall>) {
    made == [Wait(w.answer)] + w.loss.calls && Recovered(w.answer, w.loss.calls, w.loss.code)
  }

  /** The calls that were made for it after that of the clock: those whose answers were needed. */
  predicate AnchorCalls(i: Instants, monotonic: bool, rate: int, made: seq<LibraryCall>)
    requires rate < 0x1_0000_0000
  {
    var k := if monotonic then 1 + |i.stamped.loss.calls| else 0;
    && k <= |made|
    && (monotonic ==> StampCalls(i.stamped, made[..k]))
    && if monotonic && Settles(i.stamped, i.now, rate) then k == |made| else WaitCalls(i.waited, made[k..])
  }

  lemma AnchorOfStamp(s: Stamped, now: Option<int>, rate: int, r: Result<Anchor>, made: seq<LibraryCall>)
    requires rate < 0x1_0000_0000 && Settles(s, now, rate) && StampAnswers(s, now, rate, r) && StampCalls(s, made)
    ensures var i := NOTHING.(now := now, stamped := s);
            AnchorAnswers(i, true, rate, r) && AnchorCalls(i, true, rate, made)
  {
    hide Settles, StampAnswers, Recovered;
    assert made[..|made|] == made;
  }

  lemma AnchorOfClock(monotonic: bool, s: Stamped, w: Waited, now: Option<int>, rate: int, r: Result<Anchor>,
                      before: seq<LibraryCall>, last: seq<LibraryCall>)
    requires rate < 0x1_0000_0000 && WaitAnswers(w, now, rate, r) && WaitCalls(w, last)
    requires if monotonic then !Settles(s, now, rate) && StampCalls(s, before) else before == []
    ensures var i := NOTHING.(now := now, stamped := s, waited := w);
            AnchorAnswers(i, monotonic, rate, r) && AnchorCalls(i, monotonic, rate, before + last)
  {
    hide Settles, WaitAnswers, Recovered;
    assert (before + last)[..|before|] == before && (before + last)[|before|..] == last;
  }

  /** Before its last attempt, a read has lost nothing. */
  lemma TriedBefore(calls: seq<LibraryCall>, tried: seq<LibraryCall>, answer: Native)
    requires BetweenCalls(calls) && Tried(tried, answer)
    ensures tried != []
    ensures var before := calls + tried[..|tried| - 1];
            && BetweenCalls(before) && calls + tried == before + [Reading(answer)] && Losses(before) == Losses(calls)
  {
    if |tried| == 2 {
      CallLoses(calls, Reading(Interrupted));
      assert tried[..1] == [Reading(Interrupted)];
    } else {
      assert calls + tried[..0] == calls;
    }
  }

  lemma TriedCalls(tried: seq<LibraryCall>, answer: Native, rest: seq<LibraryCall>, recovered: StatusCode)
    requires Tried(tried, answer) && Recovered(answer, rest, recovered)
    ensures ReadCalls(false, tried + rest, answer, recovered)
  {
    assert (tried + rest)[..|tried|] == tried && (tried + rest)[|tried|..] == rest;
  }

  /** The call gave no samples, but may do so later. */
  predicate GaveNothing(c: LibraryCall) {
    || c.answer.TryAgain? || c.answer.Interrupted? || c.answer.Suspended? || c == Reading(Count(0))
    || (c.answer.Count? && (c.Resuming? || c.Starting?))
  }

  /** The answer of the call is a reason for the code. */
  predicate CallExplains(c: LibraryCall, code: StatusCode) {
    if code.WouldBlock? then GaveNothing(c) else !c.answer.Count? && code == FailureCode(c.answer)
  }

  lemma ReadExplains(suspended: bool, made: seq<LibraryCall>, answer: Native, recovered: StatusCode, requested: int,
                     r: Result<Read>)
    requires ReadCalls(suspended, made, answer, recovered)
    requires if suspended then ResumeAnswers(answer, recovered, r) else ReadAnswers(answer, recovered, requested, r)
    ensures made != []
    ensures var last := made[|made| - 1];
            && (r.Success? && r.value.wouldBlock ==> GaveNothing(last))
            && (r.Failure? ==>
                  || CallExplains(last, r.code)
                  || (last == Reading(answer) && answer.Count? && answer.n > requested && r.code.CorruptData?))
  {
  }

  lemma StampExplains(s: Stamped, now: Option<int>, rate: int, r: Result<Anchor>, made: seq<LibraryCall>)
    requires rate < 0x1_0000_0000 && Settles(s, now, rate) && StampAnswers(s, now, rate, r) && StampCalls(s, made)
    ensures made != []
    ensures r.Success? && !r.value.At? ==> GaveNothing(made[|made| - 1])
    ensures r.Failure? ==> CallExplains(made[|made| - 1], r.code)
  {
  }

  lemma WaitExplains(w: Waited, now: Option<int>, rate: int, r: Result<Anchor>, made: seq<LibraryCall>)
    requires rate < 0x1_0000_0000 && WaitAnswers(w, now, rate, r) && WaitCalls(w, made)
    ensures made != []
    ensures r.Success? && !r.value.At? ==> GaveNothing(made[|made| - 1])
    ensures r.Failure? ==>
              || CallExplains(made[|made| - 1], r.code)
              || (made[|made| - 1] == Wait(w.answer) && w.answer.Count? && r.code.CorruptData?)
  {
  }

  /** A device that gave no anchor was kept from it by the answer to its last call. */
  lemma AnchorExplains(i: Instants, monotonic: bool, rate: int, r: Result<Anchor>, made: seq<LibraryCall>)
    requires rate < 0x1_0000_0000 && AnchorAnswers(i, monotonic, rate, r)
    requires if i.clock.Count? then AnchorCalls(i, monotonic, rate, made) else made == []
    ensures var calls := [Clock(i.clock)] + made;
            && (r.Success? && !r.value.At? ==> GaveNothing(calls[|calls| - 1]))
            && (r.Failure? ==>
                  || CallExplains(calls[|calls| - 1], r.code)
                  || (calls[|calls| - 1].Wait? && calls[|calls| - 1].answer.Count? && r.code.CorruptData?))
  {
    hide StampAnswers, WaitAnswers, StampCalls, WaitCalls, GaveNothing, Settles;
    if i.clock.Count? {
      var k := if monotonic then 1 + |i.stamped.loss.calls| else 0;
      if monotonic && Settles(i.stamped, i.now, rate) {
        assert made[..k] == made;
        StampExplains(i.stamped, i.now, rate, r, made);
      } else {
        WaitExplains(i.waited, i.now, rate, r, made[k..]);
      }
    }
  }

  const MAXIMUM_READ_ATTEMPTS: nat := 2

  /** The opened device. */
  class AlsaSystem {
    const library: AudioLibrary
    const rate: int
    const monotonicTimestamp: bool
    var running: bool
    var suspended: bool
    /** All samples handed out since the session began, and the last anchor. */
    ghost var read: seq<Sample>
    ghost var lastAnchor: int

    ghost predicate Valid()
      reads this, library
    {
      BetweenCalls(library.calls)
    }

    constructor (library: AudioLibrary, rate: int, monotonicTimestamp: bool)
      requires library.calls == []
      ensures this.library == library && this.rate == rate && this.monotonicTimestamp == monotonicTimestamp
      ensures Valid() && !running && !suspended && read == []
    {
      this.library, this.rate, this.monotonicTimestamp := library, rate, monotonicTimestamp;
      running, suspended, read, lastAnchor := false, false, [], 0;
    }

    /** A device that runs already is left alone; another runs from then on exactly if the library starts it. */
    method Start() returns (code: StatusCode)
      requires Valid()
      modifies this`running, library
      ensures Valid() && (code.OkStatus? <==> running) && Losses(library.calls) == Losses(old(library.calls))
      ensures old(running) ==> running && library.calls == old(library.calls)
      ensures !old(running) ==>
                exists r :: library.calls == old(library.calls) + [Starting(r)]
                            && code == if r.Count? then OkStatus else FailureCode(r)
    {
      if running {
        return OkStatus;
      }
      var started := library.Start();
      CallLoses(old(library.calls), Starting(started));
      if !started.Count? {
        return FailureCode(started);
      }
      running := true;
      return OkStatus;
    }

    method Stop() returns (code: StatusCode)
      modifies this`running, this`suspended
      ensures !running && !suspended
    {
      running, suspended := false, false;
      code := *;
    }

    method RecoverXrun() returns (code: StatusCode, ghost made: seq<LibraryCall>)
      modifies library
      ensures library.calls == old(library.calls) + made && Recovery(made, code)
    {
      var prepared := library.Prepare();
      made := [Preparing(prepared)];
      if !prepared.Count? {
        return FailureCode(prepared), made;
      }
      var started := library.Start();
      made := made + [Starting(started)];
      return if started.Count? then OkStatus else FailureCode(started), made;
    }

    /** The part of a read that a suspended device answers: it is resumed, or else started anew. */
    method ResumeSuspended()
      returns (r: Result<Read>, ghost answer: Native, ghost recovered: StatusCode, ghost made: seq<LibraryCall>)
      requires Valid() && suspended
      modifies this`suspended, library
      ensures Valid() && Losses(library.calls) == Losses(old(library.calls))
      ensures ResumeAnswers(answer, recovered, r) && (r.Success? ==> r.value == Read(0, true, false))
      ensures library.calls == old(library.calls) + made && ReadCalls(true, made, answer, recovered)
      ensures suspended <==> answer.TryAgain? || r.Failure?
    {
      recovered := OkStatus;
      var resumed := library.Resume();
      answer, made := resumed, [Resuming(resumed)];
      CallLoses(old(library.calls), Resuming(resumed));
      if resumed.TryAgain? {
        return Success(Read(0, true, false)), answer, recovered, made;
      }
      if resumed.Count? {
        suspended := false;
        return Success(Read(0, true, false)), answer, recovered, made;
      }
      if resumed.Gone? {
        return Failure(DeviceLost), answer, recovered, made;
      }
      ghost var before, rest := library.calls, [];
      var recovery;
      recovery, rest := RecoverXrun();
      RecoveryLoses(before, rest, recovery);
      recovered, made := recovery, made + rest;
      assert made[1..] == rest;
      if !recovery.OkStatus? {
        return Failure(recovery), answer, recovered, made;
      }
      suspended := false;
      return Success(Read(0, true, false)), answer, recovered, made;
    }

    /** Asks for samples, once more if the first attempt is interrupted. */
    method TryRead(destination: array<Sample>, offset: nat, requested: nat)
      returns (answer: Native, ghost tried: seq<LibraryCall>)
      requires Valid() && offset + requested <= destination.Length
      modifies library, destination
      ensures OnlyWithin(old(destination[..]), destination[..], offset, offset + requested)
      ensures library.calls == old(library.calls) + tried && Tried(tried, answer)
    {
      answer, tried := Count(0), [];
      for attempt := 0 to MAXIMUM_READ_ATTEMPTS
        invariant OnlyWithin(old(destination[..]), destination[..], offset, offset + requested)
        invariant library.calls == old(library.calls) + tried
        invariant tried == seq(attempt, _ => Reading(Interrupted)) && (attempt > 0 ==> answer.Interrupted?)
      {
        answer := library.Readi(destination, offset, requested);
        tried := tried + [Reading(answer)];
        if !answer.Interrupted? {
          break;
        }
      }
    }

    /** Recovers from an overrun, or notes that the device is suspended. */
    method HandleLoss(answer: Native, ghost before: seq<LibraryCall>, ghost call: LibraryCall)
      returns (code: StatusCode, ghost recovered: StatusCode, ghost rest: seq<LibraryCall>)
      requires answer.Overrun? || answer.Suspended?
      requires BetweenCalls(before) && library.calls == before + [call] && AboutSamples(call) && call.answer == answer
      modifies this`suspended, library
      ensures Valid() && library.calls == before + [call] + rest && Recovered(answer, rest, recovered)
      ensures code == LossCode(answer, recovered)
      ensures Losses(library.calls) == Losses(before) + if code.OkStatus? then 1 else 0
      ensures suspended == (old(suspended) || answer.Suspended?)
    {
      recovered, rest := OkStatus, [];
      CallLoses(before, call);
      if answer.Suspended? {
        suspended := true;
        assert library.calls == before + [call] + [];
        return OkStatus, recovered, rest;
      }
      ghost var calls := library.calls;
      code, rest := RecoverXrun();
      RecoveryLoses(calls, rest, code);
      recovered := code;
    }

    /** What follows a read: the handling of the loss that it told, if it did. */
    method AfterRead(answer: Native, ghost before: seq<LibraryCall>, ghost tried: seq<LibraryCall>)
      returns (lost: StatusCode, ghost recovered: StatusCode, ghost made: seq<LibraryCall>)
      requires BetweenCalls(before) && library.calls == before + tried && Tried(tried, answer)
      modifies this`suspended, library
      ensures Valid() && library.calls == before + made && ReadCalls(false, made, answer, recovered)
      ensures answer.Overrun? || answer.Suspended? ==> lost == LossCode(answer, recovered)
      ensures Losses(library.calls) ==
                Losses(before) + if (answer.Overrun? || answer.Suspended?) && lost.OkStatus? then 1 else 0
    {
      hide Losses, Recovery, Tried, ReadCalls, EndsLoss;
      lost, recovered := OkStatus, OkStatus;
      ghost var rest: seq<LibraryCall> := [];
      TriedBefore(before, tried, answer);
      ghost var earlier := before + tried[..|tried| - 1];
      if answer.Overrun? || answer.Suspended? {
        lost, recovered, rest := HandleLoss(answer, earlier, Reading(answer));
      } else {
        CallLoses(earlier, Reading(answer));
      }
      TriedCalls(tried, answer, rest, recovered);
      made := tried + rest;
      assert before + made == before + tried + rest;
    }

    /** The part of a read that asks for samples. */
    method ReadSamples(destination: array<Sample>, offset: nat, requested: int)
      returns (r: Result<Read>, ghost answer: Native, ghost recovered: StatusCode, ghost made: seq<LibraryCall>)
      requires Valid() && running && requested > 0 && offset + requested <= destination.Length
      modifies this`suspended, this`read, library, destination
      ensures Valid() && OnlyWithin(old(destination[..]), destination[..], offset, offset + requested)
      ensures Losses(library.calls) ==
                Losses(old(library.calls)) + if r.Success? && r.value.discontinuity then 1 else 0
      ensures ReadAnswers(answer, recovered, requested, r)
      ensures library.calls == old(library.calls) + made && ReadCalls(false, made, answer, recovered)
      ensures r.Success? ==> r.value.frames <= requested
      ensures read == old(read) + destination[offset..offset + if r.Success? then r.value.frames else 0]
    {
      hide Losses, BetweenCalls, ReadCalls, Recovery, Tried, OnlyWithin, ReadAnswers;
      ghost var tried;
      var result, lost;
      result, tried := TryRead(destination, offset, requested);
      ghost var content := destination[..];
      lost, recovered, made := AfterRead(result, old(library.calls), tried);
      assert destination[..] == content;
      answer := result;
      r := ReadResult(result, lost, requested);
      LossIsReported(result, lost, requested);
      hide ReadResult;
      if r.Success? {
        read := read + destination[offset..offset + r.value.frames];
      }
    }

    /**
     * Reads what the library gives at once, and reports a discontinuity exactly if the library told of a loss:
     * `answer` is its last answer to the read, and `recovered` how the recovery from an overrun came out.
     */
    method ReadInterleaved(destination: array<Sample>, offset: nat, requested: int)
      returns (r: Result<Read>, ghost answer: Native, ghost recovered: StatusCode, ghost made: seq<LibraryCall>)
      requires Valid() && offset <= destination.Length && offset + requested <= destination.Length
      modifies this`suspended, this`read, library, destination
      ensures Valid() && OnlyWithin(old(destination[..]), destination[..], offset, offset + requested)
      ensures Losses(library.calls) ==
                Losses(old(library.calls)) + if r.Success? && r.value.discontinuity then 1 else 0
      ensures !running || requested <= 0 ==> r == Failure(InvalidArgument)
      ensures running && requested > 0 ==>
                && (r.Success? ==> r.value.frames <= requested)
                && if old(suspended) then ResumeAnswers(answer, recovered, r)
                   else ReadAnswers(answer, recovered, requested, r)
      ensures library.calls == old(library.calls) + made
      ensures if running && requested > 0 then ReadCalls(old(suspended), made, answer, recovered) else made == []
      ensures read == old(read) + destination[offset..offset + if r.Success? then r.value.frames else 0]
    {
      assert OnlyWithin(destination[..], destination[..], offset, offset + requested);
      hide Losses, BetweenCalls, ReadCalls, Recovery, OnlyWithin, ReadAnswers, ResumeAnswers;
      answer, recovered, made := Count(0), OkStatus, [];
      if !running || requested <= 0 {
        return Failure(InvalidArgument), answer, recovered, made;
      }
      if suspended {
        r, answer, recovered, made := ResumeSuspended();
        assert destination[..] == old(destination[..]);
      } else {
        r, answer, recovered, made := ReadSamples(destination, offset, requested);
      }
    }

    /** The instant by the driver's timestamp, unless that does not serve. */
    method AnchorByStamp(now: Option<int>)
      returns (r: Option<Result<Anchor>>, ghost s: Stamped, ghost made: seq<LibraryCall>)
      requires Valid() && rate < 0x1_0000_0000
      modifies this`suspended, library
      ensures Valid() && library.calls == old(library.calls) + made && StampCalls(s, made)
      ensures r.Some? <==> Settles(s, now, rate)
      ensures r.Some? ==> StampAnswers(s, now, rate, r.value)
      ensures Losses(library.calls) ==
                Losses(old(library.calls)) + if r == Some(Success(AnchorDiscontinuity)) then 1 else 0
      ensures r.Some? && r.value.Success? && r.value.value.At? ==> 0 <= r.value.value.us <= INT64_MAXIMUM
      ensures r.None? || (r.value.Success? && r.value.value.At?) ==> suspended == old(suspended)
    {
      hide Losses, BetweenCalls, Recovery;
      var stamped, unread, timestamp := library.Timestamp();
      var stamp := TimespecToMicroseconds(timestamp);
      s, made := Stamped(stamped, stamp, unread, Handled([], OkStatus)), [Stamp(stamped)];
      if stamped.Overrun? || stamped.Suspended? {
        var code;
        ghost var recovered, rest;
        code, recovered, rest := HandleLoss(stamped, old(library.calls), Stamp(stamped));
        s, made := s.(loss := Handled(rest, recovered)), made + rest;
        return Some(if code.OkStatus? then Success(AnchorDiscontinuity) else Failure(code)), s, made;
      }
      CallLoses(old(library.calls), Stamp(stamped));
      if stamped.Gone? {
        return Some(Failure(DeviceLost)), s, made;
      }
      if stamped.Count? && now.Some? && stamp.Some? && stamp.value - now.value <= MAXIMUM_FUTURE_US {
        var first := FirstUnread(stamp.value, unread, rate);
        if first.Some? {
          return Some(Success(At(first.value, false))), s, made;
        }
      }
      return None, s, made;
    }

    /** The instant by the clock, less the samples that wait. */
    method AnchorByClock(now: Option<int>) returns (r: Result<Anchor>, ghost w: Waited, ghost made: seq<LibraryCall>)
      requires Valid() && rate < 0x1_0000_0000 && (now.Some? ==> now.value <= INT64_MAXIMUM)
      modifies this`suspended, library
      ensures Valid() && library.calls == old(library.calls) + made && WaitCalls(w, made)
      ensures WaitAnswers(w, now, rate, r)
      ensures Losses(library.calls) ==
                Losses(old(library.calls)) + if r == Success(AnchorDiscontinuity) then 1 else 0
      ensures r.Success? && r.value.At? ==> 0 <= r.value.us <= INT64_MAXIMUM && suspended == old(suspended)
    {
      hide Losses, BetweenCalls, Recovery;
      var waiting := library.Available();
      w, made := Waited(waiting, Handled([], OkStatus)), [Wait(waiting)];
      if waiting.Overrun? || waiting.Suspended? {
        var code;
        ghost var recovered, rest;
        code, recovered, rest := HandleLoss(waiting, old(library.calls), Wait(waiting));
        w, made := w.(loss := Handled(rest, recovered)), made + rest;
        return if code.OkStatus? then Success(AnchorDiscontinuity) else Failure(code), w, made;
      }
      CallLoses(old(library.calls), Wait(waiting));
      match waiting {
        case TryAgain =>
          return Success(AnchorWouldBlock), w, made;
        case Count(available) =>
          if now.None? {
            return Failure(CorruptData), w, made;
          }
          var first := FirstUnread(now.value, available, rate);
          if first.None? {
            return Failure(CorruptData), w, made;
          }
          return Success(At(first.value, true)), w, made;
        case _ =>
          return Failure(FailureCode(waiting)), w, made;
      }
    }

    /** The part of an anchor that follows the clock. */
    method AnchorAt(now: Option<int>) returns (r: Result<Anchor>, ghost i: Instants, ghost made: seq<LibraryCall>)
      requires Valid() && rate < 0x1_0000_0000 && (now.Some? ==> now.value <= INT64_MAXIMUM)
      modifies this`suspended, library
      ensures Valid() && library.calls == old(library.calls) + made
      ensures i.clock.Count? && i.now == now && AnchorAnswers(i, monotonicTimestamp, rate, r)
      ensures AnchorCalls(i, monotonicTimestamp, rate, made)
      ensures Losses(library.calls) ==
                Losses(old(library.calls)) + if r == Success(AnchorDiscontinuity) then 1 else 0
      ensures r.Success? && r.value.At? ==> 0 <= r.value.us <= INT64_MAXIMUM && suspended == old(suspended)
    {
      hide Losses, BetweenCalls, Settles, StampAnswers, WaitAnswers, StampCalls, WaitCalls, AnchorAnswers, AnchorCalls;
      ghost var stamped, waited, last := NOTHING.stamped, NOTHING.waited, [];
      made := [];
      if monotonicTimestamp {
        var settled;
        settled, stamped, made := AnchorByStamp(now);
        if settled.Some? {
          AnchorOfStamp(stamped, now, rate, settled.value, made);
          return settled.value, NOTHING.(now := now, stamped := stamped), made;
        }
      }
      r, waited, last := AnchorByClock(now);
      AnchorOfClock(monotonicTimestamp, stamped, waited, now, rate, r, made, last);
      i, made := NOTHING.(now := now, stamped := stamped, waited := waited), made + last;
    }

    /**
     * The instant of the first sample not yet read: so long before the driver's timestamp as the unread samples last,
     * or else before the clock's time; and a discontinuity exactly if the library told of a loss.
     */
    method CaptureAnchor() returns (r: Result<Anchor>, ghost i: Instants, ghost made: seq<LibraryCall>)
      requires Valid() && rate < 0x1_0000_0000
      modifies this`suspended, this`lastAnchor, library
      ensures Valid()
      ensures !running || rate == 0 ==> r == Failure(InvalidState) && library.calls == old(library.calls)
      ensures running && rate != 0 ==> AnchorAnswers(i, monotonicTimestamp, rate, r)
      ensures running && rate != 0 ==>
                && library.calls == old(library.calls) + [Clock(i.clock)] + made
                && if i.clock.Count? then AnchorCalls(i, monotonicTimestamp, rate, made) else made == []
      ensures Losses(library.calls) ==
                Losses(old(library.calls)) + if r == Success(AnchorDiscontinuity) then 1 else 0
      ensures r.Success? && r.value.At? ==>
                && 0 <= r.value.us <= INT64_MAXIMUM && lastAnchor == r.value.us && suspended == old(suspended)
    {
      hide Losses, BetweenCalls, StampAnswers, WaitAnswers, Settles;
      i, made := NOTHING, [];
      if !running || rate == 0 {
        return Failure(InvalidState), i, made;
      }
      var clock, time := library.Now();
      CallLoses(old(library.calls), Clock(clock));
      i := i.(clock := clock);
      if !clock.Count? {
        return Failure(FailureCode(clock)), i, made;
      }
      hide AnchorCalls;
      r, i, made := AnchorAt(TimespecToMicroseconds(time));
      i := i.(clock := clock);
      if r.Success? && r.value.At? {
        lastAnchor := r.value.us;
      }
    }
  }
}

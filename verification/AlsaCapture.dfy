/** The source node of audio capture: it makes whole frames of what the device reads. */
module AlsaCapture {
  import opened Statuses
  import opened AlsaTimeline
  import opened AlsaDevice
  import opened Observers

  /** What lies behind the samples of an unfinished frame adds to all that was read. */
  lemma ReadExtends(earlier: seq<Sample>, before: seq<Sample>, after: seq<Sample>, from: nat, to: nat, n: nat)
    requires OnlyWithin(before, after, from, to) && from + n <= |after|
    ensures from <= |before| && earlier + before[..from] + after[from..from + n] == earlier + after[..from + n]
  {
    assert after[..from] == before[..from];
    assert after[..from + n] == before[..from] + after[from..from + n];
  }

  lemma Slices(a: array<Sample>, lo: nat, hi: nat)
    requires lo <= hi <= a.Length
    ensures a[..][..hi] == a[..hi] && a[..][lo..hi] == a[lo..hi]
  {
  }

  /** A frame holds on to the buffer its samples were read into. */
  datatype AudioFrame = AudioFrame(buffer: array<Sample>, pts: int, discontinuous: bool)

  datatype Offer = Offer(frame: AudioFrame, answer: StatusCode)

  /** The output port of the node: every consumer takes the frame, or none does. */
  class AudioOutput {
    /** Every frame that was offered, with the answer, and those that were taken. */
    ghost var offers: seq<Offer>
    ghost var delivered: seq<AudioFrame>

    constructor ()
      ensures offers == [] && delivered == []
    {
      offers, delivered := [], [];
    }

    method Send(frame: AudioFrame) returns (code: StatusCode)
      modifies this
      ensures offers == old(offers) + [Offer(frame, code)]
      ensures delivered == if code.OkStatus? then old(delivered) + [frame] else old(delivered)
    {
      code := *;
      offers := offers + [Offer(frame, code)];
      if code.OkStatus? {
        delivered := delivered + [frame];
      }
    }
  }

  /** The frames are those of the history: same samples, same time, same mark, same order. */
  ghost predicate Delivers(pieces: seq<Piece>, frames: seq<AudioFrame>)
    reads set f | f in frames :: f.buffer
  {
    && |pieces| == |frames|
    && forall i :: 0 <= i < |frames| ==>
                     pieces[i] == Completed(frames[i].buffer[..], frames[i].pts, frames[i].discontinuous)
  }

  function SamplesIn(frames: int, samplesPerFrame: int): int {
    frames * samplesPerFrame
  }

  /** After the history, with `waiting` frames not yet delivered, the counters of the node are these. */
  ghost predicate TimeAgrees(log: seq<Piece>, samplesPerFrame: int, rate: int, waiting: nat, emitted: int,
                             anchor: Option<int>, gap: bool)
  {
    && samplesPerFrame > 0 && Rate(rate) && WellFormed(log, samplesPerFrame, rate)
    && var t := TimelineOf(log);
      && waiting <= t.frames && emitted == SamplesIn(t.frames - waiting, samplesPerFrame)
      && 0 <= emitted <= INT64_MAXIMUM
      && t.anchor == anchor && t.gap == gap
      && (anchor.Some? ==> 0 <= anchor.value <= INT64_MAXIMUM)
      && (anchor.None? ==> t.frames == 0)
  }

  lemma DeliveryCounts(log: seq<Piece>, samplesPerFrame: int, rate: int, emitted: int, anchor: Option<int>, gap: bool)
    requires TimeAgrees(log, samplesPerFrame, rate, 1, emitted, anchor, gap)
    requires emitted <= INT64_MAXIMUM - samplesPerFrame
    ensures TimeAgrees(log, samplesPerFrame, rate, 0, emitted + samplesPerFrame, anchor, gap)
  {
    OneMore(TimelineOf(log).frames - 1, samplesPerFrame);
  }

  /** The partial buffer belongs to no frame, and is empty while a frame waits. */
  ghost predicate Owned(session: seq<AudioFrame>, completed: set<array<Sample>>, partial: array?<Sample>,
                        partialSamples: int, samplesPerFrame: int, waits: bool)
  {
    && (forall f :: f in session ==> f.buffer in completed)
    && (partial == null ==> partialSamples == 0)
    && (partial != null ==> partial !in completed && partial.Length == samplesPerFrame)
    && 0 <= partialSamples <= samplesPerFrame
    && (waits ==> partial == null)
  }

  lemma OwnedWhenCompleted(session: seq<AudioFrame>, completed: set<array<Sample>>, partial: array<Sample>,
                           samplesPerFrame: int, frame: AudioFrame)
    requires Owned(session, completed, partial, samplesPerFrame, samplesPerFrame, false) && frame.buffer == partial
    ensures Owned(session + [frame], completed + {partial}, null, 0, samplesPerFrame, true)
  {
  }

  lemma DeliversOneMore(pieces: seq<Piece>, frames: seq<AudioFrame>, frame: AudioFrame)
    requires Delivers(pieces, frames)
    ensures Delivers(pieces + [Completed(frame.buffer[..], frame.pts, frame.discontinuous)], frames + [frame])
  {
  }

  lemma NothingYet(samplesPerFrame: int, rate: int, completed: set<array<Sample>>)
    requires samplesPerFrame > 0 && Rate(rate)
    ensures Owned([], completed, null, 0, samplesPerFrame, false)
    ensures TimeAgrees([], samplesPerFrame, rate, 0, 0, None, false)
    ensures Frames([]) == [] && Samples([]) == [] && Resets([]) == 0 && Delivers([], [])
  {
  }

  lemma ResetFollows(log: seq<Piece>, samplesPerFrame: int, rate: int, emitted: int, anchor: Option<int>, gap: bool,
                     dropped: seq<Sample>)
    requires TimeAgrees(log, samplesPerFrame, rate, 0, emitted, anchor, gap) && |dropped| < samplesPerFrame
    ensures TimeAgrees(log + [Reset(dropped)], samplesPerFrame, rate, 0, 0, None, true)
    ensures Resets(log + [Reset(dropped)]) == Resets(log) + 1
    ensures Frames(log + [Reset(dropped)]) == Frames(log)
    ensures Samples(log + [Reset(dropped)]) == Samples(log) + dropped
  {
    Extends(log, Reset(dropped), samplesPerFrame, rate);
  }

  lemma AnchorFollows(log: seq<Piece>, samplesPerFrame: int, rate: int, emitted: int, gap: bool, us: int)
    requires TimeAgrees(log, samplesPerFrame, rate, 0, emitted, None, gap) && 0 <= us <= INT64_MAXIMUM
    ensures TimeAgrees(log + [Anchored(us)], samplesPerFrame, rate, 0, emitted, Some(us), gap)
    ensures Resets(log + [Anchored(us)]) == Resets(log)
    ensures Frames(log + [Anchored(us)]) == Frames(log)
    ensures Samples(log + [Anchored(us)]) == Samples(log)
  {
    hide SamplesIn, FramesDuration, WellFormed, Frames, Samples, Resets;
    Extends(log, Anchored(us), samplesPerFrame, rate);
  }

  lemma FrameFollows(log: seq<Piece>, samplesPerFrame: int, rate: int, emitted: int, anchor: int, gap: bool,
                     samples: seq<Sample>, pts: int)
    requires TimeAgrees(log, samplesPerFrame, rate, 0, emitted, Some(anchor), gap) && |samples| == samplesPerFrame
    requires pts == anchor + FramesDuration(TimelineOf(log).frames, samplesPerFrame, rate)
    ensures TimeAgrees(log + [Completed(samples, pts, gap)], samplesPerFrame, rate, 1, emitted, Some(anchor), false)
    ensures Resets(log + [Completed(samples, pts, gap)]) == Resets(log)
    ensures Frames(log + [Completed(samples, pts, gap)]) == Frames(log) + [Completed(samples, pts, gap)]
    ensures Samples(log + [Completed(samples, pts, gap)]) == Samples(log) + samples
  {
    hide SamplesIn, FramesDuration, WellFormed, Frames, Samples, Resets;
    Extends(log, Completed(samples, pts, gap), samplesPerFrame, rate);
  }

  /** What ended a turn: nothing failed, or somebody's answer, or a number that does not fit, or a wrong state. */
  datatype Cause = Fine | Observer | Output | Library | TooMany | NoInstant | Overflow | NotRunning | Stuck

  /** What has been answered so far, and how a node stands to it. */
  datatype Marks = Marks(complaints: seq<StatusCode>, calls: seq<LibraryCall>, offers: seq<Offer>,
                         pending: Option<AudioFrame>, missing: int, outOfRange: bool, running: bool)

  /** The code is the one that the cause calls for, and the cause is a fact: the answer was given in between. */
  predicate Explained(before: Marks, after: Marks, code: StatusCode, cause: Cause) {
    && after.complaints == (if cause.Observer? then before.complaints + [code] else before.complaints)
    && match cause
       case Fine => code.OkStatus? && after.pending.None?
       case Observer => !code.OkStatus?
       case Output =>
         && !code.OkStatus? && after.pending.Some?
         && after.offers == before.offers + [Offer(after.pending.value, code)]
       case Library =>
         before.calls < after.calls && CallExplains(after.calls[|after.calls| - 1], code)
       case TooMany =>
         && code.CorruptData? && before.calls < after.calls
         && var last := after.calls[|after.calls| - 1];
            last.Reading? && last.answer.Count? && last.answer.n > after.missing
       case NoInstant =>
         && code.CorruptData? && before.calls < after.calls
         && var last := after.calls[|after.calls| - 1]; last.Wait? && last.answer.Count?
       case Overflow => code.CorruptData? && after.outOfRange
       case NotRunning => (code.InvalidState? || code.InvalidArgument?) && !after.running
       case Stuck => code.Internal? && before.missing <= 0
  }

  lemma ExplainedLater(m: Marks, before: Marks, after: Marks, code: StatusCode, cause: Cause)
    requires Explained(before, after, code, cause) && !cause.Stuck?
    requires m.complaints == before.complaints && m.calls <= before.calls && m.offers == before.offers
    ensures Explained(m, after, code, cause)
  {
  }

  lemma LastCall(before: seq<LibraryCall>, made: seq<LibraryCall>)
    requires made != []
    ensures before < before + made && (before + made)[|before + made| - 1] == made[|made| - 1]
  {
  }

  /** A read that gave no samples is explained by the library, or by there being no device that runs. */
  lemma ReadIsExplained(before: Marks, after: Marks, suspended: bool, made: seq<LibraryCall>, answer: Native,
                        recovered: StatusCode, requested: int, r: Result<Read>) returns (cause: Cause)
    requires after.complaints == before.complaints && after.calls == before.calls + made
    requires ReadCalls(suspended, made, answer, recovered) && after.missing == requested
    requires if suspended then ResumeAnswers(answer, recovered, r) else ReadAnswers(answer, recovered, requested, r)
    ensures r.Success? && r.value.wouldBlock ==> Explained(before, after, WouldBlock, Library)
    ensures r.Failure? ==> Explained(before, after, r.code, cause) && cause in {Library, TooMany}
  {
    ReadExplains(suspended, made, answer, recovered, requested, r);
    LastCall(before.calls, made);
    hide ReadCalls, ResumeAnswers, ReadAnswers, GaveNothing;
    cause := if r.Failure? && CallExplains(made[|made| - 1], r.code) then Library else TooMany;
  }

  /** A read that gave no samples has told why. */
  predicate ReadTold(before: Marks, after: Marks, r: Result<Read>, cause: Cause) {
    && before.calls <= after.calls
    && (r.Success? && r.value.wouldBlock ==> Explained(before, after, WouldBlock, Library))
    && (r.Failure? ==>
          !r.code.OkStatus? && cause in {Library, TooMany, NotRunning} && Explained(before, after, r.code, cause))
  }

  lemma AnchorIsExplained(before: Marks, after: Marks, i: Instants, monotonic: bool, rate: int, r: Result<Anchor>,
                          made: seq<LibraryCall>) returns (cause: Cause)
    requires rate < 0x1_0000_0000 && AnchorAnswers(i, monotonic, rate, r)
    requires if i.clock.Count? then AnchorCalls(i, monotonic, rate, made) else made == []
    requires after.complaints == before.complaints && after.calls == before.calls + [Clock(i.clock)] + made
    ensures r.Success? && !r.value.At? ==> Explained(before, after, WouldBlock, Library)
    ensures r.Failure? ==> Explained(before, after, r.code, cause) && cause in {Library, NoInstant} && !r.code.OkStatus?
  {
    AnchorExplains(i, monotonic, rate, r, made);
    hide AnchorAnswers, AnchorCalls, GaveNothing;
    ghost var calls := [Clock(i.clock)] + made;
    LastCall(before.calls, calls);
    assert after.calls == before.calls + calls;
    cause := if r.Failure? && CallExplains(calls[|calls| - 1], r.code) then Library else NoInstant;
  }

  lemma NotRunningExplains(before: Marks, after: Marks, code: StatusCode)
    requires after.complaints == before.complaints && !after.running && (code.InvalidState? || code.InvalidArgument?)
    ensures Explained(before, after, code, NotRunning)
  {
  }

  lemma FailedToComplete(before: Marks, after: Marks)
    requires after.complaints == before.complaints && after.outOfRange
    ensures Explained(before, after, CorruptData, Overflow)
  {
  }

  /** A turn that would block ends so, unless the observer objects when it is told. */
  lemma StillExplained(before: Marks, blocked: Marks, after: Marks, code: StatusCode) returns (cause: Cause)
    requires Explained(before, blocked, WouldBlock, Library)
    requires after.calls == blocked.calls
    requires after.complaints == blocked.complaints || after.complaints == blocked.complaints + [code]
    requires !code.OkStatus? && (after.complaints == blocked.complaints ==> code.WouldBlock?)
    ensures Explained(before, after, code, cause) && cause in {Library, Observer}
  {
    cause := if after.complaints == blocked.complaints then Library else Observer;
  }

  lemma NotifiedExplains(before: Marks, after: Marks, code: StatusCode) returns (cause: Cause)
    requires after.pending.None?
    requires after.complaints == if code.OkStatus? then before.complaints else before.complaints + [code]
    ensures Explained(before, after, code, cause) && cause == if code.OkStatus? then Fine else Observer
  {
    cause := if code.OkStatus? then Fine else Observer;
  }

  lemma ObserverExplains(before: Marks, after: Marks, code: StatusCode)
    requires !code.OkStatus? && after.complaints == before.complaints + [code]
    ensures Explained(before, after, code, Observer)
  {
  }

  /** A capturing node: it reads into a partial buffer and sends every buffer that has become a whole frame. */
  class AlsaSourceNode {
    const samplesPerFrame: int
    const rate: int
    const device: AlsaSystem
    const output: AudioOutput
    const observer: Observer
    var partial: array?<Sample>
    var partialSamples: int
    var pending: Option<AudioFrame>
    var emittedSamples: int
    var hasAnchor: bool
    var anchorPts: int
    var discontinuityPending: bool

    /** What has happened in this session, the frames that were delivered before it, and all buffers of frames. */
    ghost var log: seq<Piece>
    ghost var deliveredBefore: nat
    ghost var completed: set<array<Sample>>

    /** The frames of this session: those delivered, and the one that waits to be. */
    ghost function Session(): seq<AudioFrame>
      reads this, output
      requires deliveredBefore <= |output.delivered|
    {
      output.delivered[deliveredBefore..] + Slot(pending)
    }

    ghost function Window(): set<array<Sample>>
      reads this
    {
      if partial == null then {} else {partial}
    }

    /** The fields that count and mark agree with the history. */
    ghost predicate OnTime()
      reads this
    {
      TimeAgrees(log, samplesPerFrame, rate, |Slot(pending)|, emittedSamples,
                 if hasAnchor then Some(anchorPts) else None, discontinuityPending)
    }

    /** Valid, but for gaps that the device has reported and the timeline does not show yet. */
    ghost predicate ValidBut(unhandled: nat)
      reads this, device, device.library, output, completed, Window()
    {
      && OnTime() && device.Valid() && device.rate == rate && deliveredBefore <= |output.delivered|
      && Owned(Session(), completed, partial, partialSamples, samplesPerFrame, pending.Some?)
      && Delivers(Frames(log), Session())
      && Resets(log) + unhandled == Losses(device.library.calls) && (hasAnchor ==> anchorPts == device.lastAnchor)
      && device.read == Samples(log) + (if partial == null then [] else partial[..partialSamples])
    }

    ghost predicate Valid()
      reads this, device, device.library, output, completed, Window()
    {
      ValidBut(0)
    }

    constructor (samplesPerFrame: int, rate: int, device: AlsaSystem, output: AudioOutput, observer: Observer)
      requires samplesPerFrame > 0 && Rate(rate)
      requires device.Valid() && device.rate == rate && device.read == [] && Losses(device.library.calls) == 0
      ensures Valid() && this.device == device && this.output == output && log == []
    {
      this.samplesPerFrame, this.rate := samplesPerFrame, rate;
      this.device, this.output, this.observer := device, output, observer;
      partial, partialSamples, pending := null, 0, None;
      emittedSamples, hasAnchor, anchorPts, discontinuityPending := 0, false, 0, false;
      log, deliveredBefore, completed := [], |output.delivered|, {};
    }

    /** The next frame, or the next count of samples, has no place among the numbers. */
    ghost predicate OutOfRange()
      reads this
    {
      || (pending.Some? && emittedSamples > INT64_MAXIMUM - samplesPerFrame)
      || (&& partialSamples == samplesPerFrame && hasAnchor && Rate(rate) && samplesPerFrame > 0
          && anchorPts + FramesDuration(TimelineOf(log).frames, samplesPerFrame, rate) > INT64_MAXIMUM)
    }

    /** What the answers of a turn leave their marks on. */
    ghost function Marked(): Marks
      reads this, device, device.library, output, observer
    {
      Marks(observer.complaints, device.library.calls, output.offers, pending, samplesPerFrame - partialSamples,
            OutOfRange(), device.running)
    }

    /** What the observer answers changes nothing in the node. */
    method Notify() returns (code: StatusCode)
      requires Valid()
      modifies observer
      ensures Valid()
      ensures observer.complaints ==
                if code.OkStatus? then old(observer.complaints) else old(observer.complaints) + [code]
    {
      hide OnTime, Frames, Samples, Resets, Owned, Losses;
      code := observer.Notify();
    }

    method NotifyThenBlock(news: nat) returns (code: StatusCode)
      requires Valid()
      modifies observer
      ensures Valid()
      ensures observer.complaints == old(observer.complaints)
              || observer.complaints == old(observer.complaints) + [code]
      ensures !code.OkStatus? && (observer.complaints == old(observer.complaints) ==> code.WouldBlock?)
    {
      hide OnTime, Frames, Samples, Resets, Owned, Losses;
      code := observer.NotifyThenBlock(news);
    }

    method AllocatePartial()
      requires Valid() && pending.None?
      modifies this`partial
      ensures Valid() && partial != null
      ensures old(partial) == null ==> fresh(partial)
      ensures old(partial) != null ==> partial == old(partial)
    {
      if partial == null {
        partial := new Sample[samplesPerFrame];
      }
    }

    /** The exact time of the next frame, unless there is no anchor yet or the time is no 64-bit number. */
    method FramePts() returns (r: Result<int>)
      requires OnTime() && pending.None?
      ensures !hasAnchor ==> r == Failure(InvalidState)
      ensures hasAnchor ==>
                var pts := anchorPts + FramesDuration(TimelineOf(log).frames, samplesPerFrame, rate);
                r == if pts <= INT64_MAXIMUM then Success(pts) else Failure(CorruptData)
    {
      if !hasAnchor {
        return Failure(InvalidState);
      }
      var delta := SamplesToMicroseconds(emittedSamples, rate);
      if delta.None? || (delta.value > 0 && anchorPts > INT64_MAXIMUM - delta.value) {
        return Failure(CorruptData);
      }
      return Success(anchorPts + delta.value);
    }

    /** Offers the waiting frame to the output. It stays in place, unchanged, exactly if it is not taken. */
    method Deliver() returns (code: StatusCode, ghost cause: Cause)
      requires Valid() && pending.Some?
      modifies this`pending, this`emittedSamples, observer, output
      ensures Valid() && Explained(old(Marked()), Marked(), code, cause) && cause in {Fine, Observer, Output, Overflow}
      ensures cause.Overflow? ==> pending == old(pending) && output.offers == old(output.offers)
      ensures !cause.Overflow? ==>
                exists answer ::
                  && output.offers == old(output.offers) + [Offer(old(pending).value, answer)]
                  && pending == (if answer.OkStatus? then None else old(pending))
      ensures pending.Some? ==> pending == old(pending) && output.delivered == old(output.delivered)
      ensures pending.None? ==> output.delivered == old(output.delivered) + [old(pending).value]
    {
      hide TimeAgrees, Frames, Samples, Resets, Delivers, WellFormed, TimelineOf, Losses;
      if emittedSamples > INT64_MAXIMUM - samplesPerFrame {
        return CorruptData, Overflow;
      }
      DeliveryCounts(log, samplesPerFrame, rate, emittedSamples, if hasAnchor then Some(anchorPts) else None,
                     discontinuityPending);
      ghost var session := Session();
      code := output.Send(pending.value);
      if !code.OkStatus? {
        cause := Output;
        if code.WouldBlock? {
          code := NotifyThenBlock(0);
          cause := if observer.complaints == old(observer.complaints) then Output else Observer;
        }
        return;
      }
      emittedSamples := emittedSamples + samplesPerFrame;
      pending := None;
      assert Session() == session;
      code := Notify();
      cause := if code.OkStatus? then Fine else Observer;
    }

    /** Nothing that was completed or recorded so far has changed. */
    twostate predicate Continues()
      reads this, output, completed
    {
      && old(log) <= log && old(output.delivered) <= output.delivered && deliveredBefore == old(deliveredBefore)
      && old(completed) <= completed
      && forall b :: b in old(completed) ==> b[..] == old(b[..])
    }

    /** After a gap, the samples of the unfinished frame are dropped and the next ones get a new anchor. */
    method ResetTimeline()
      requires ValidBut(1) && pending.None? && partial != null && partialSamples < samplesPerFrame
      modifies this
      ensures Valid() && pending.None? && discontinuityPending
      ensures log == old(log) + [Reset(old(partial[..partialSamples]))]
      ensures deliveredBefore == old(deliveredBefore) && completed == old(completed) && partialSamples == 0
    {
      hide TimeAgrees, Frames, Samples, Resets, Delivers, WellFormed, TimelineOf, Losses;
      ghost var dropped := partial[..partialSamples];
      ResetFollows(log, samplesPerFrame, rate, emittedSamples, if hasAnchor then Some(anchorPts) else None,
                   discontinuityPending, dropped);
      log := log + [Reset(dropped)];
      pending, partial, partialSamples := None, null, 0;
      emittedSamples, hasAnchor, anchorPts := 0, false, 0;
      discontinuityPending := true;
    }

    /** The part of a turn that follows a gap; an overrun has been recovered from by then. */
    method HandleDiscontinuity(xrun: bool) returns (code: StatusCode)
      requires ValidBut(1) && pending.None? && partial != null && partialSamples < samplesPerFrame
      modifies this, observer
      ensures Valid() && log == old(log) + [Reset(old(partial[..partialSamples]))] && pending.None?
      ensures deliveredBefore == old(deliveredBefore) && completed == old(completed) && partialSamples == 0
      ensures observer.complaints == old(observer.complaints)
              || observer.complaints == old(observer.complaints) + [code]
      ensures !code.OkStatus? && (observer.complaints == old(observer.complaints) ==> code.WouldBlock?)
    {
      ResetTimeline();
      code := NotifyThenBlock(if xrun then 2 else 1);
    }

    /** The partial buffer has become a whole frame: it now belongs to the frame, and is never written again. */
    method CompleteAt(pts: int)
      requires Valid() && pending.None? && partial != null && partialSamples == samplesPerFrame && hasAnchor
      requires pts == anchorPts + FramesDuration(TimelineOf(log).frames, samplesPerFrame, rate)
      modifies this
      ensures Valid() && pending.Some?
      ensures log == old(log) + [Completed(old(partial[..]), pts, old(discontinuityPending))]
      ensures completed == old(completed + {partial}) && deliveredBefore == old(deliveredBefore)
      ensures partialSamples == 0
    {
      hide TimeAgrees, Frames, Samples, Resets, Delivers, WellFormed, TimelineOf;
      ghost var samples, before := partial[..], Session();
      assert partial[..partialSamples] == samples;
      FrameFollows(log, samplesPerFrame, rate, emittedSamples, anchorPts, discontinuityPending, samples, pts);
      var frame := AudioFrame(partial, pts, discontinuityPending);
      DeliversOneMore(Frames(log), before, frame);
      OwnedWhenCompleted(before, completed, partial, samplesPerFrame, frame);
      log, completed := log + [Completed(samples, pts, discontinuityPending)], completed + {partial};
      pending, partial, partialSamples, discontinuityPending := Some(frame), null, 0, false;
      assert Session() == before + [frame];
    }

    method Complete() returns (code: StatusCode)
      requires Valid() && pending.None? && partial != null && partialSamples == samplesPerFrame && hasAnchor
      modifies this
      ensures Valid() && old(log) <= log && old(completed) <= completed
      ensures deliveredBefore == old(deliveredBefore)
      ensures code.OkStatus? <==> pending.Some?
      ensures code.OkStatus? ==> partialSamples == 0
      ensures !code.OkStatus? ==> code.CorruptData? && OutOfRange()
    {
      var pts := FramePts();
      if pts.Failure? {
        return pts.code;
      }
      CompleteAt(pts.value);
      return OkStatus;
    }

    /**
     * Asks the device for what is missing of the current frame; why it gives nothing, if so, is said by `cause`. The
     * frames that other buffers make up stay as they are.
     */
    method AskDevice(ghost pieces: seq<Piece>, ghost frames: seq<AudioFrame>)
      returns (r: Result<Read>, ghost cause: Cause)
      requires device.Valid() && partial != null && 0 <= partialSamples < samplesPerFrame == partial.Length
      requires Delivers(pieces, frames) && forall f :: f in frames ==> f.buffer != partial
      modifies device`suspended, device`read, device.library, partial
      ensures device.Valid() && OnlyWithin(old(partial[..]), partial[..], partialSamples, samplesPerFrame)
      ensures Delivers(pieces, frames)
      ensures r.Success? ==> r.value.frames <= samplesPerFrame - partialSamples
      ensures device.read ==
                old(device.read) + partial[partialSamples..partialSamples + if r.Success? then r.value.frames else 0]
      ensures Losses(device.library.calls) ==
                Losses(old(device.library.calls)) + if r.Success? && r.value.discontinuity then 1 else 0
      ensures r.Success? ==> (r.value.wouldBlock <==> r.value.frames == 0)
      ensures r.Success? && (r.value.discontinuity || old(device.suspended)) ==> r.value.wouldBlock
      ensures ReadTold(old(Marked()), Marked(), r, cause)
    {
      hide OnlyWithin, Losses, Explained, ReadCalls, OutOfRange;
      ghost var suspended, requested := device.suspended, samplesPerFrame - partialSamples;
      ghost var answer, recovered, made;
      r, answer, recovered, made := device.ReadInterleaved(partial, partialSamples, samplesPerFrame - partialSamples);
      cause := NotRunning;
      if device.running {
        cause := ReadIsExplained(old(Marked()), Marked(), suspended, made, answer, recovered, requested, r);
      } else {
        NotRunningExplains(old(Marked()), Marked(), InvalidArgument);
      }
    }

    lemma IsReadyToRead()
      requires Valid() && partial != null
      ensures device.Valid() && 0 <= partialSamples <= samplesPerFrame == partial.Length && samplesPerFrame > 0
      ensures deliveredBefore <= |output.delivered| && (forall f :: f in Session() ==> f.buffer != partial)
      ensures device.read == Samples(log) + partial[..partialSamples] && Delivers(Frames(log), Session())
    {
    }

    /** The new samples lie behind those that the unfinished frame already has. */
    method ReadBehind() returns (r: Result<Read>, ghost n: nat, ghost cause: Cause)
      requires Valid() && pending.None? && partial != null && partialSamples < samplesPerFrame
      modifies device`suspended, device`read, device.library, partial
      ensures device.Valid() && n == if r.Success? then r.value.frames else 0
      ensures partialSamples + n <= samplesPerFrame
      ensures device.read == Samples(log) + partial[..partialSamples + n] && |device.read| == |old(device.read)| + n
      ensures Delivers(Frames(log), Session())
      ensures Losses(device.library.calls) ==
                Losses(old(device.library.calls)) + if r.Success? && r.value.discontinuity then 1 else 0
      ensures r.Success? ==> (r.value.wouldBlock <==> n == 0)
      ensures r.Success? && (r.value.discontinuity || old(device.suspended)) ==> r.value.wouldBlock
      ensures ReadTold(old(Marked()), Marked(), r, cause)
    {
      IsReadyToRead();
      hide Valid, Frames, Samples, Delivers, OnlyWithin, Losses, Explained, Marked, Session, ReadTold;
      ghost var before, from := partial[..], partialSamples;
      Slices(partial, 0, from);
      r, cause := AskDevice(Frames(log), Session());
      n := if r.Success? then r.value.frames else 0;
      ghost var after := partial[..];
      Slices(partial, from, from + n);
      ReadExtends(Samples(log), before, after, from, samplesPerFrame, n);
    }

    /** Reads what is missing of the current frame, and counts what was read. */
    method ReadMore() returns (r: Result<Read>, ghost cause: Cause)
      requires Valid() && pending.None? && partial != null && partialSamples < samplesPerFrame
      modifies this`partialSamples, device`suspended, device`read, device.library, partial
      ensures ValidBut(if r.Success? && r.value.discontinuity then 1 else 0)
      ensures r.Success? ==> (r.value.wouldBlock <==> r.value.frames == 0)
      ensures r.Success? && (r.value.discontinuity || old(device.suspended)) ==> r.value.wouldBlock
      ensures partialSamples == old(partialSamples) + if r.Success? then r.value.frames else 0
      ensures partialSamples <= samplesPerFrame
      ensures |device.read| == |old(device.read)| + if r.Success? then r.value.frames else 0
      ensures ReadTold(old(Marked()), Marked(), r, cause)
    {
      hide TimeAgrees, Frames, Samples, Resets, Delivers, WellFormed, TimelineOf, Losses, CallExplains;
      ghost var n;
      r, n, cause := ReadBehind();
      if r.Success? {
        partialSamples := partialSamples + r.value.frames;
      }
    }

    method SetAnchor(us: int)
      requires Valid() && pending.None? && !hasAnchor && 0 <= us <= INT64_MAXIMUM && device.lastAnchor == us
      modifies this`hasAnchor, this`anchorPts, this`log
      ensures Valid() && hasAnchor && log == old(log) + [Anchored(us)]
    {
      hide TimeAgrees, Frames, Samples, Resets, Delivers, WellFormed, TimelineOf, Losses;
      AnchorFollows(log, samplesPerFrame, rate, emittedSamples, discontinuityPending, us);
      log := log + [Anchored(us)];
      hasAnchor, anchorPts := true, us;
    }

    /** A suspended device is asked to resume, and does nothing else in this turn. */
    method Resume() returns (code: StatusCode, ghost cause: Cause)
      requires Valid() && pending.None? && partial != null && partialSamples < samplesPerFrame
      requires device.suspended
      modifies this, device, device.library, observer, partial
      ensures Valid() && old(log) <= log && completed == old(completed) && deliveredBefore == old(deliveredBefore)
      ensures pending.None? && Explained(old(Marked()), Marked(), code, cause)
      ensures cause in {Observer, Library, TooMany, NotRunning} && partialSamples < samplesPerFrame
    {
      hide OnTime, Delivers, Frames, Samples, Resets, Losses, Explained, OutOfRange;
      var recovery;
      recovery, cause := ReadMore();
      if recovery.Failure? {
        return recovery.code, cause;
      }
      ghost var blocked := Marked();
      if recovery.value.discontinuity {
        ResetTimeline();
      }
      var reset, resumed := if recovery.value.discontinuity then 1 else 0, if device.suspended then 0 else 1;
      code := NotifyThenBlock(reset + resumed);
      cause := StillExplained(old(Marked()), blocked, Marked(), code);
    }

    method CompleteAndDeliver() returns (code: StatusCode, ghost cause: Cause)
      requires Valid() && pending.None? && partial != null && partialSamples == samplesPerFrame && hasAnchor
      modifies this, observer, output
      ensures Valid() && old(log) <= log && old(completed) <= completed && deliveredBefore == old(deliveredBefore)
      ensures old(output.delivered) <= output.delivered
      ensures Explained(old(Marked()), Marked(), code, cause) && cause in {Fine, Observer, Output, Overflow}
      ensures cause.Fine? ==> |output.delivered| > |old(output.delivered)|
      ensures partialSamples == samplesPerFrame ==> cause.Overflow?
    {
      assert samplesPerFrame > 0;
      hide OnTime, Delivers, Frames, Samples, Resets, Losses, Explained, OutOfRange, Owned;
      code := Complete();
      if !code.OkStatus? {
        FailedToComplete(old(Marked()), Marked());
        return code, Overflow;
      }
      code := Notify();
      if !code.OkStatus? {
        ObserverExplains(old(Marked()), Marked(), code);
        return code, Observer;
      }
      ghost var before := Marked();
      code, cause := Deliver();
      ExplainedLater(old(Marked()), before, Marked(), code, cause);
    }

    method AskAnchor() returns (r: Result<Anchor>, ghost cause: Cause)
      requires device.Valid() && Rate(device.rate)
      modifies device`suspended, device`lastAnchor, device.library
      ensures device.Valid() && old(device.library.calls) <= device.library.calls
      ensures Losses(device.library.calls) ==
                Losses(old(device.library.calls)) + if r == Success(AnchorDiscontinuity) then 1 else 0
      ensures r.Success? && r.value.At? ==> device.lastAnchor == r.value.us && 0 <= r.value.us <= INT64_MAXIMUM
      ensures r.Success? && !r.value.At? ==> Explained(old(Marked()), Marked(), WouldBlock, Library)
      ensures r.Failure? ==>
                && !r.code.OkStatus? && cause in {Library, NoInstant, NotRunning}
                && Explained(old(Marked()), Marked(), r.code, cause)
    {
      hide Losses, Explained, AnchorAnswers, AnchorCalls, OutOfRange;
      ghost var instants, made;
      r, instants, made := device.CaptureAnchor();
      cause := NotRunning;
      if device.running {
        cause := AnchorIsExplained(old(Marked()), Marked(), instants, device.monotonicTimestamp, device.rate, r, made);
      } else {
        NotRunningExplains(old(Marked()), Marked(), InvalidState);
      }
    }

    method CaptureAnchor() returns (r: Result<Anchor>, ghost cause: Cause)
      requires Valid() && !hasAnchor
      modifies device`suspended, device`lastAnchor, device.library
      ensures ValidBut(if r == Success(AnchorDiscontinuity) then 1 else 0)
      ensures old(device.library.calls) <= device.library.calls
      ensures r.Success? && r.value.At? ==> device.lastAnchor == r.value.us && 0 <= r.value.us <= INT64_MAXIMUM
      ensures r.Success? && !r.value.At? ==> Explained(old(Marked()), Marked(), WouldBlock, Library)
      ensures r.Failure? ==>
                && !r.code.OkStatus? && cause in {Library, NoInstant, NotRunning}
                && Explained(old(Marked()), Marked(), r.code, cause)
    {
      assert Rate(device.rate);
      hide OnTime, Frames, Samples, Resets, Losses, Explained, Owned, Marked;
      r, cause := AskAnchor();
    }

    /** The anchor of the next sample, if the timeline has none yet. */
    method FindAnchor() returns (code: StatusCode, anchor: Option<int>, ghost cause: Cause)
      requires Valid() && pending.None? && partial != null && partialSamples < samplesPerFrame
      modifies this, device`suspended, device`lastAnchor, device.library, observer
      ensures Valid() && old(log) <= log && completed == old(completed) && deliveredBefore == old(deliveredBefore)
      ensures pending.None? && partialSamples < samplesPerFrame
      ensures old(device.library.calls) <= device.library.calls && output.offers == old(output.offers)
      ensures Explained(old(Marked()), Marked(), code, cause) && (code.OkStatus? <==> cause.Fine?)
      ensures !cause.Stuck?
      ensures code.OkStatus? ==> observer.complaints == old(observer.complaints)
      ensures code.OkStatus? ==>
                && log == old(log) && partial == old(partial) && partialSamples == old(partialSamples)
                && hasAnchor == old(hasAnchor)
                && (!hasAnchor ==>
                      anchor.Some? && 0 <= anchor.value <= INT64_MAXIMUM && device.lastAnchor == anchor.value)
    {
      hide OnTime, Delivers, Frames, Samples, Resets, Losses, CallExplains;
      code, anchor, cause := OkStatus, None, Fine;
      if !hasAnchor {
        var candidate;
        candidate, cause := CaptureAnchor();
        if candidate.Failure? {
          return candidate.code, None, cause;
        }
        ghost var blocked := Marked();
        match candidate.value {
          case AnchorDiscontinuity =>
            code := HandleDiscontinuity(!device.suspended);
            cause := StillExplained(old(Marked()), blocked, Marked(), code);
          case AnchorWouldBlock =>
            code := NotifyThenBlock(0);
            cause := StillExplained(old(Marked()), blocked, Marked(), code);
          case At(us, _) =>
            anchor, cause := Some(us), Fine;
        }
      }
    }

    /** After a read: the first samples set the anchor, and a full buffer becomes a frame. */
    method UseSamples(anchor: Option<int>) returns (code: StatusCode, ghost cause: Cause)
      requires Valid() && pending.None? && partial != null && 0 < partialSamples <= samplesPerFrame
      requires !hasAnchor ==>
                 anchor.Some? && 0 <= anchor.value <= INT64_MAXIMUM && device.lastAnchor == anchor.value
      modifies this, observer, output
      ensures Valid() && old(log) <= log && old(completed) <= completed && deliveredBefore == old(deliveredBefore)
      ensures old(output.delivered) <= output.delivered && Explained(old(Marked()), Marked(), code, cause)
      ensures !cause.Stuck? && (partialSamples == samplesPerFrame ==> cause.Overflow?)
    {
      hide OnTime, Delivers, Frames, Samples, Resets, Losses, Explained, OutOfRange;
      if !hasAnchor {
        SetAnchor(anchor.value);
      }
      if partialSamples < samplesPerFrame {
        code := Notify();
        cause := NotifiedExplains(old(Marked()), Marked(), code);
        return;
      }
      ghost var full := Marked();
      code, cause := CompleteAndDeliver();
      ExplainedLater(old(Marked()), full, Marked(), code, cause);
    }

    /** Anchors the timeline if need be, reads, and makes a frame of the partial buffer when it is full. */
    method Capture() returns (code: StatusCode, ghost cause: Cause)
      requires Valid() && pending.None? && partial != null && partialSamples < samplesPerFrame
      modifies this, device, device.library, observer, output, partial
      ensures Valid() && old(log) <= log && old(completed) <= completed && deliveredBefore == old(deliveredBefore)
      ensures old(output.delivered) <= output.delivered && Explained(old(Marked()), Marked(), code, cause)
      ensures !cause.Stuck?
      ensures cause.Fine? ==> |device.read| > |old(device.read)|
      ensures partialSamples == samplesPerFrame ==> cause.Overflow?
    {
      hide OnTime, Delivers, Frames, Samples, Resets, Losses, Explained, OutOfRange;
      var anchor, read;
      code, anchor, cause := FindAnchor();
      if !code.OkStatus? {
        return;
      }
      ghost var found := Marked();
      read, cause := ReadMore();
      ghost var blocked := Marked();
      if read.Failure? {
        ExplainedLater(old(Marked()), found, blocked, read.code, cause);
        return read.code, cause;
      }
      if read.value.wouldBlock {
        ExplainedLater(old(Marked()), found, blocked, WouldBlock, Library);
        if read.value.discontinuity {
          code := HandleDiscontinuity(!device.suspended);
        } else {
          code := NotifyThenBlock(0);
        }
        cause := StillExplained(old(Marked()), blocked, Marked(), code);
        return;
      }
      code, cause := UseSamples(anchor);
      ExplainedLater(old(Marked()), blocked, Marked(), code, cause);
    }

    /** A suspended device is resumed; any other is read. */
    method ResumeOrCapture() returns (code: StatusCode, ghost cause: Cause)
      requires Valid() && pending.None? && partial != null && partialSamples < samplesPerFrame
      modifies this, device, device.library, observer, output, partial
      ensures Valid() && old(log) <= log && old(completed) <= completed && deliveredBefore == old(deliveredBefore)
      ensures old(output.delivered) <= output.delivered && Explained(old(Marked()), Marked(), code, cause)
      ensures !cause.Stuck?
      ensures cause.Fine? ==> |device.read| > |old(device.read)|
      ensures partialSamples == samplesPerFrame ==> cause.Overflow?
    {
      hide Valid, Explained, Marked;
      if device.suspended {
        code, cause := Resume();
      } else {
        code, cause := Capture();
      }
    }

    /** A turn in which no frame waits. */
    method CaptureTurn() returns (code: StatusCode, ghost cause: Cause)
      requires Valid() && pending.None?
      modifies this, device, device.library, observer, output, Window()
      ensures Valid() && Continues() && Explained(old(Marked()), Marked(), code, cause)
      ensures cause.Fine? ==> |device.read| > |old(device.read)|
      ensures partialSamples == samplesPerFrame ==> cause.Overflow? || cause.Stuck?
    {
      assert partial != null ==> partial !in completed;
      AllocatePartial();
      assert partial !in completed && Marked() == old(Marked());
      hide OnTime, Frames, Samples, Resets, Delivers, Losses, OutOfRange, Owned;
      if samplesPerFrame - partialSamples <= 0 {
        return Internal, Stuck;
      }
      hide Explained, Marked;
      code, cause := ResumeOrCapture();
    }

    /**
     * One turn. Whatever the library, the observer and the output answer, the history only grows, no frame that was
     * completed is lost or written again, and a frame that waits is offered before anything new is read. The code is
     * that of the answer that ended the turn; without one, a frame was delivered or samples were read.
     */
    method Tick() returns (code: StatusCode, ghost cause: Cause)
      requires Valid()
      modifies this, device, device.library, observer, output, Window()
      ensures Valid() && Continues() && Explained(old(Marked()), Marked(), code, cause)
      ensures Resets(log) - Resets(old(log)) == Losses(device.library.calls) - Losses(old(device.library.calls))
      ensures old(pending).Some? ==>
                && log == old(log) && device.read == old(device.read)
                && device.library.calls == old(device.library.calls)
                && if cause.Overflow? then pending == old(pending) && output.offers == old(output.offers)
                   else exists answer ::
                          && output.offers == old(output.offers) + [Offer(old(pending).value, answer)]
                          && pending == (if answer.OkStatus? then None else old(pending))
      ensures cause.Fine? ==>
                |output.delivered| > |old(output.delivered)| || |device.read| > |old(device.read)|
      ensures partialSamples == samplesPerFrame ==> cause.Overflow? || cause.Stuck?
    {
      assert pending.Some? ==> partialSamples == 0 < samplesPerFrame;
      hide OnTime, TimeAgrees, Frames, Samples, Resets, Delivers, WellFormed, TimelineOf, Losses, OutOfRange, Explained;
      hide Owned;
      if pending.Some? {
        code, cause := Deliver();
      } else {
        code, cause := CaptureTurn();
      }
    }

    lemma Holds()
      requires Valid()
      ensures samplesPerFrame > 0 && Rate(rate) && device.Valid() && device.rate == rate
    {
    }

    lemma NewSessionIsValid()
      requires samplesPerFrame > 0 && Rate(rate) && device.Valid() && device.rate == rate
      requires device.read == [] && Losses(device.library.calls) == 0
      requires pending.None? && partial == null && partialSamples == 0 && emittedSamples == 0
      requires !hasAnchor && !discontinuityPending && log == [] && deliveredBefore == |output.delivered|
      ensures Valid()
    {
      NothingYet(samplesPerFrame, rate, completed);
      hide TimeAgrees, Frames, Samples, Resets, Delivers, WellFormed, TimelineOf, Owned, Losses;
      assert Session() == [] && OnTime();
    }

    /** Ends the session: what was not delivered is given up. */
    method DiscardCaptureData()
      requires Valid()
      modifies this, device`read, device.library
      ensures Valid() && log == [] && device.read == [] && deliveredBefore == |output.delivered|
      ensures !discontinuityPending && device.library.calls == []
      ensures completed == old(completed) && pending.None? && partial == null
    {
      hide Valid, OutOfRange;
      Holds();
      device.read := [];
      device.library.BeginSession();
      pending, partial, partialSamples := None, null, 0;
      emittedSamples, hasAnchor, anchorPts, discontinuityPending := 0, false, 0, false;
      log, deliveredBefore := [], |output.delivered|;
      NewSessionIsValid();
    }

    /** A new session begins; it fails exactly if the library refuses to start or the observer objects. */
    method Start() returns (code: StatusCode)
      requires Valid()
      modifies this, device, device.library, observer
      ensures Valid() && log == [] && device.read == [] && deliveredBefore == |output.delivered|
      ensures completed == old(completed)
      ensures if old(device.running) then device.library.calls == []
              else exists r :: device.library.calls == [Starting(r)] && (device.running <==> r.Count?)
                               && (!r.Count? ==> code == FailureCode(r))
      ensures device.running ==> observer.complaints == old(observer.complaints) + if code.OkStatus? then [] else [code]
    {
      DiscardCaptureData();
      AllocatePartial();
      code := device.Start();
      if !code.OkStatus? {
        return code;
      }
      code := Notify();
    }

    method Stop() returns (code: StatusCode)
      requires Valid()
      modifies this, device, device.library
      ensures Valid() && log == [] && pending.None? && !device.running && completed == old(completed)
    {
      DiscardCaptureData();
      code := device.Stop();
    }
  }
}

/** The capturing node of a video device: one frame a turn, with its time, its place in the sequence, and its buffer. */
module V4l2Source {
  import opened Statuses
  import opened NodeStates
  import opened SizeArithmetic
  import opened VideoFormats
  import opened V4l2Layout
  import opened V4l2Copy
  import opened V4l2Kernel
  import opened V4l2Device
  import opened Observers

  // ---- The driver's frame counter ----

  /** The counter has 32 bits and wraps around. */
  const SEQUENCE_RANGE: int := 0x1_0000_0000
  const SEQUENCE_HALF_RANGE: int := 0x8000_0000

  function Successor(sequence: UInt32): UInt32 {
    (sequence + 1) % SEQUENCE_RANGE
  }

  /** How many frames the driver has skipped before this one, if it has not gone backwards. */
  function SequenceFor(expected: Option<UInt32>, sequence: UInt32): Result<nat> {
    match expected
    case None => Success(0)
    case Some(e) =>
      var delta := (sequence - e) % SEQUENCE_RANGE;
      if delta < SEQUENCE_HALF_RANGE then Success(delta) else Failure(CorruptData)
  }

  datatype Capture = Capture(sequence: UInt32, missing: nat, pts: int)

  function Expected(log: seq<Capture>): Option<UInt32> {
    if log == [] then None else Some(Successor(log[|log| - 1].sequence))
  }

  /** Every gap was computed from the capture before it, and time never went backwards. */
  ghost predicate Recorded(log: seq<Capture>) {
    && (forall i :: 0 <= i < |log| ==> SequenceFor(Expected(log[..i]), log[i].sequence) == Success(log[i].missing))
    && (forall i, j :: 0 <= i <= j < |log| ==> log[i].pts <= log[j].pts)
  }

  ghost function Gaps(log: seq<Capture>): nat {
    if log == [] then 0 else Gaps(log[..|log| - 1]) + log[|log| - 1].missing
  }

  lemma SuccessorWraps(last: nat)
    ensures Successor(last % SEQUENCE_RANGE) == (last + 1) % SEQUENCE_RANGE
  {
  }

  lemma DifferenceWraps(a: nat, b: nat)
    ensures (a % SEQUENCE_RANGE - b % SEQUENCE_RANGE) % SEQUENCE_RANGE == (a - b) % SEQUENCE_RANGE
  {
    var m, n := a / SEQUENCE_RANGE, b / SEQUENCE_RANGE;
    assert a - b == a % SEQUENCE_RANGE - b % SEQUENCE_RANGE + SEQUENCE_RANGE * (m - n);
  }

  /** An advance of the unwrapped counter is accepted exactly up to half its range, and the gap is then exact. */
  lemma GapIsExact(last: nat, next: nat)
    requires last < next <= last + SEQUENCE_RANGE
    ensures var r := SequenceFor(Some(Successor(last % SEQUENCE_RANGE)), next % SEQUENCE_RANGE);
            if next - last <= SEQUENCE_HALF_RANGE then r == Success(next - last - 1) else r == Failure(CorruptData)
  {
    SuccessorWraps(last);
    DifferenceWraps(next, last + 1);
    hide Successor;
    assert 0 <= next - (last + 1) < SEQUENCE_RANGE;
    assert (next - (last + 1)) % SEQUENCE_RANGE == next - last - 1;
  }

  /** `u` is the counter as it would be without wrapping around. */
  ghost predicate Unwraps(u: seq<nat>, log: seq<Capture>) {
    && |u| == |log|
    && (forall i :: 0 <= i < |u| ==> u[i] % SEQUENCE_RANGE == log[i].sequence)
    && (forall i :: 0 <= i < |u| - 1 ==> u[i] < u[i + 1] <= u[i] + SEQUENCE_HALF_RANGE)
  }

  lemma FirstHasNoGap(sequence: UInt32)
    ensures SequenceFor(None, sequence) == Success(0)
  {
  }

  /** The recorded gap is the distance to the capture before. */
  lemma GapAt(log: seq<Capture>, u: seq<nat>, i: nat)
    requires Recorded(log) && Unwraps(u, log) && i < |log|
    ensures log[i].missing == if i == 0 then 0 else u[i] - u[i - 1] - 1
  {
    hide SequenceFor, Successor;
    assert SequenceFor(Expected(log[..i]), log[i].sequence) == Success(log[i].missing);
    if i == 0 {
      FirstHasNoGap(log[0].sequence);
    } else {
      assert u[i - 1] < u[i - 1 + 1] <= u[i - 1] + SEQUENCE_HALF_RANGE;
      GapIsExact(u[i - 1], u[i]);
    }
  }

  lemma UnwrapsLength(u: seq<nat>, log: seq<Capture>)
    requires Unwraps(u, log)
    ensures |u| == |log|
  {
  }

  lemma {:induction false} CountedSoFar(log: seq<Capture>, u: seq<nat>, n: nat)
    requires Recorded(log) && Unwraps(u, log) && 0 < n <= |log|
    ensures u[0] + n + Gaps(log[..n]) == u[n - 1] + 1
  {
    hide Recorded, Unwraps;
    assert |u| == |log| by { UnwrapsLength(u, log); }
    assert log[..n][..n - 1] == log[..n - 1];
    GapAt(log, u, n - 1);
    if n > 1 {
      CountedSoFar(log, u, n - 1);
    }
  }

  /**
   * Frames captured and frames reported missing are all the frames the driver has counted, however often the
   * counter has wrapped around.
   */
  lemma EveryFrameIsCounted(log: seq<Capture>, u: seq<nat>)
    requires Recorded(log) && Unwraps(u, log) && log != []
    ensures u[0] + |log| + Gaps(log) == u[|u| - 1] + 1
  {
    CountedSoFar(log, u, |log|);
    assert log[..|log|] == log;
  }

  lemma RecordOneMore(log: seq<Capture>, c: Capture)
    requires Recorded(log) && SequenceFor(Expected(log), c.sequence) == Success(c.missing)
    requires log != [] ==> log[|log| - 1].pts <= c.pts
    ensures Recorded(log + [c]) && Expected(log + [c]) == Some(Successor(c.sequence))
  {
    var after := log + [c];
    assert after[..|log|] == log;
    forall i | 0 <= i < |after|
      ensures SequenceFor(Expected(after[..i]), after[i].sequence) == Success(after[i].missing)
    {
      assert i < |log| ==> after[..i] == log[..i];
    }
  }

  // ---- The node ----

  datatype Frame = Frame(buffer: array<Byte>, pts: int)

  datatype Offering = Offering(frame: Frame, answer: StatusCode)

  /** The output port of the node: every consumer takes the frame, or none does. */
  class VideoOutput {
    /** Every frame that was offered, with the answer, and those that were taken. */
    ghost var offers: seq<Offering>
    ghost var delivered: seq<Frame>

    constructor ()
      ensures offers == [] && delivered == []
    {
      offers, delivered := [], [];
    }

    method Send(frame: Frame) returns (code: StatusCode)
      modifies this
      ensures offers == old(offers) + [Offering(frame, code)]
      ensures delivered == if code.OkStatus? then old(delivered) + [frame] else old(delivered)
    {
      code := *;
      offers := offers + [Offering(frame, code)];
      if code.OkStatus? {
        delivered := delivered + [frame];
      }
    }
  }

  /** What the clock answers: nothing, no instant, or an instant. */
  datatype Reading = Unanswered | NoInstant | At(us: int)

  class MonotonicClock {
    ghost var readings: seq<Reading>

    constructor ()
      ensures readings == []
    {
      readings := [];
    }

    method Now() returns (r: Reading)
      modifies this
      ensures readings == old(readings) + [r]
    {
      r := *;
      readings := readings + [r];
    }
  }

  /** What the driver had in a buffer when it gave it back. */
  datatype Filled = Filled(content: seq<Byte>, bytesUsed: nat)

  /** A frame shows, plane by plane, what the driver had in its buffer. */
  ghost predicate ShowsBuffer(target: seq<Byte>, filled: Filled, negotiated: Option<NegotiatedFormat>) {
    && negotiated.Some?
    && var n := negotiated.value;
      && |n.format.planes| == |n.visibleRowBytes| == |n.sourceOffsets|
      && AllCopied(target, filled.content, filled.bytesUsed, n, |n.format.planes|)
  }

  /**
   * One attempt to capture: what the driver answered when asked for a buffer, the buffer and what it held, the time
   * that was read for it, and what the driver answered when given it back.
   */
  datatype Attempt = Attempt(answer: Native, buffer: Dequeued, content: seq<Byte>, reading: Reading, refused: Native)

  /** The later one of the time that was read and the time of the frame that was captured last. */
  predicate IsTimeOf(pts: int, read: int, last: Option<int>) {
    pts >= read && (last.Some? ==> pts >= last.value) && (pts == read || Some(pts) == last)
  }

  /** What the answers of a turn leave their marks on. */
  datatype Marks = Marks(log: seq<Capture>, last: Option<int>, kept: seq<Frame>, pending: Option<Frame>,
                         offers: seq<Offering>, delivered: seq<Frame>, complaints: seq<StatusCode>)

  /** The observer's objection ended the turn, or nothing did and the code is what it would have been. */
  predicate CodeIs(m: Marks, n: Marks, code: StatusCode, otherwise: StatusCode) {
    if n.complaints == m.complaints then code == otherwise
    else !code.OkStatus? && n.complaints == m.complaints + [code]
  }

  /** A frame was offered, and delivered, kept waiting or given up as the output answered. */
  predicate Offered(m: Marks, n: Marks, frame: Frame, answer: StatusCode, code: StatusCode) {
    && n.offers == m.offers + [Offering(frame, answer)]
    && n.delivered == m.delivered + (if answer.OkStatus? then [frame] else [])
    && n.pending == (if answer.WouldBlock? then Some(frame) else None)
    && n.kept == m.kept + (if answer.OkStatus? || answer.WouldBlock? then [frame] else [])
    && CodeIs(m, n, code, answer) && (!answer.WouldBlock? ==> n.complaints == m.complaints)
  }

  /** What became of a frame: given up for an observer that objected, or offered. */
  predicate Disposed(m: Marks, n: Marks, frame: Frame, offered: Option<StatusCode>, code: StatusCode) {
    match offered
    case None =>
      && n.offers == m.offers && n.delivered == m.delivered && n.kept == m.kept && n.pending.None?
      && !code.OkStatus? && n.complaints == m.complaints + [code]
    case Some(answer) => Offered(m, n, frame, answer, code)
  }

  /** The frame that waited was offered again, and goes on waiting exactly if it was not taken. */
  predicate Resent(m: Marks, n: Marks, answer: StatusCode, code: StatusCode) {
    && m.pending.Some? && n.log == m.log && n.kept == m.kept
    && n.offers == m.offers + [Offering(m.pending.value, answer)]
    && n.delivered == m.delivered + (if answer.OkStatus? then [m.pending.value] else [])
    && n.pending == (if answer.OkStatus? then None else m.pending)
    && CodeIs(m, n, code, answer) && (!answer.OkStatus? ==> n.complaints == m.complaints)
  }

  datatype Copied = Copied(frame: Frame, bytes: Size, missing: nat)

  /** A frame was captured, at the time that was read for it, and passed on. */
  predicate Passed(m: Marks, n: Marks, a: Attempt, c: Copied, offered: Option<StatusCode>, code: StatusCode) {
    && Disposed(m, n, c.frame, offered, code)
    && n.log == m.log + [Capture(a.buffer.sequence, c.missing, c.frame.pts)]
    && a.reading.At? && IsTimeOf(c.frame.pts, a.reading.us, m.last)
  }

  /** What a turn comes to that captures `r`: without a frame it leaves everything as it was. */
  predicate Turned(m: Marks, n: Marks, a: Attempt, r: Result<Option<Copied>>, offered: Option<StatusCode>,
                   code: StatusCode)
  {
    if r.Failure? then n == m && code == r.code
    else if r.value.None? then n == m.(complaints := n.complaints) && CodeIs(m, n, code, WouldBlock)
    else Passed(m, n, a, r.value.value, offered, code)
  }

  /** A driver that refuses a buffer for a missing entry leaves the node running without that buffer. */
  lemma MissingIsSurvived()
    ensures SystemCode(Missing) == NotFound && AfterTick(SystemCode(Missing)) == NodeState.Running
  {
  }

  /** Whether there is a frame, unless there is a failure. */
  function HasFrame(r: Result<Option<Copied>>): Result<bool> {
    match r
    case Success(copied) => Success(copied.Some?)
    case Failure(code) => Failure(code)
  }

  lemma TurnFails(m: Marks, a: Attempt, r: Result<Option<Copied>>)
    requires r.Failure?
    ensures Turned(m, m, a, r, None, r.code)
  {
  }

  lemma TurnIsEmpty(m: Marks, n: Marks, a: Attempt, code: StatusCode)
    requires n == m.(complaints := n.complaints) && CodeIs(m, n, code, WouldBlock)
    ensures Turned(m, n, a, Success(None), None, code)
  {
  }

  lemma TurnPasses(m: Marks, n: Marks, a: Attempt, c: Copied, offered: Option<StatusCode>, code: StatusCode)
    requires Disposed(m, n, c.frame, offered, code) && a.reading.At? && IsTimeOf(c.frame.pts, a.reading.us, m.last)
    requires n.log == m.log + [Capture(a.buffer.sequence, c.missing, c.frame.pts)]
    ensures Turned(m, n, a, Success(Some(c)), offered, code)
  {
  }

  class V4L2SourceNode {
    const system: V4L2System
    const output: VideoOutput
    const clock: MonotonicClock
    const observer: Observer
    var pending: Option<Frame>
    var lastPts: Option<int>
    var expectedSequence: Option<UInt32>
    ghost var log: seq<Capture>
    /** The frames of this session that were not dropped, and how many were delivered before it. */
    ghost var kept: seq<Frame>
    ghost var deliveredBefore: nat

    ghost predicate Valid()
      reads this, system, system.kernel, output
    {
      && deliveredBefore <= |output.delivered| && output.delivered[deliveredBefore..] + Slot(pending) == kept
      && system.Valid() && Recorded(log) && expectedSequence == Expected(log)
      && lastPts == (if log == [] then None else Some(log[|log| - 1].pts))
    }

    constructor (system: V4L2System, output: VideoOutput, clock: MonotonicClock, observer: Observer)
      requires system.Valid()
      ensures Valid() && this.system == system && this.output == output && pending.None? && log == []
    {
      this.system, this.output, this.clock, this.observer := system, output, clock, observer;
      pending, lastPts, expectedSequence, log := None, None, None, [];
      kept, deliveredBefore := [], |output.delivered|;
    }

    /**
     * The time of a frame: the driver's, or else the clock's if it has a valid one, but never before the frame that
     * was captured last. The clock is read exactly if the driver gave no time.
     */
    method TimestampFor(d: Dequeued) returns (r: Result<int>, ghost reading: Reading)
      modifies clock
      ensures clock.readings == old(clock.readings) + if d.timestamp.Some? then [] else [reading]
      ensures d.timestamp.Some? ==> reading == At(d.timestamp.value)
      ensures match reading
              case Unanswered => r == Failure(IoError)
              case NoInstant => r == Failure(CorruptData)
              case At(us) => r.Success? && IsTimeOf(r.value, us, lastPts)
    {
      var candidate: int;
      if d.timestamp.Some? {
        candidate := d.timestamp.value;
      } else {
        var now := clock.Now();
        reading := now;
        match now {
          case Unanswered =>
            return Failure(IoError), reading;
          case NoInstant =>
            return Failure(CorruptData), reading;
          case At(us) =>
            candidate := us;
        }
      }
      reading := At(candidate);
      if lastPts.Some? && candidate < lastPts.value {
        candidate := lastPts.value;
      }
      return Success(candidate), reading;
    }

    /** The lists of the negotiated format have one entry for every plane. */
    ghost predicate SessionShaped()
      reads system
    {
      && system.negotiated.Some?
      && var n := system.negotiated.value;
         n.format.height >= 0 && |n.format.planes| == |n.visibleRowBytes| == |n.sourceOffsets|
    }

    /** A buffer makes a frame: no error, a time, a sequence that did not go backwards, and every pixel filled. */
    ghost predicate Sound(d: Dequeued, content: seq<Byte>, reading: Reading)
      reads this, system
      requires SessionShaped()
    {
      && !d.error && reading.At? && SequenceFor(expectedSequence, d.sequence).Success?
      && PictureFilled(content, d.bytesUsed, system.negotiated.value)
    }

    /** Copies a frame out of a sound buffer of the driver into a new buffer of its own. */
    method CopyOut(d: Dequeued, memory: array<Byte>) returns (r: Result<Copied>, ghost reading: Reading)
      requires Valid() && system.state.Running? && memory.Length <= SIZE_MAXIMUM
      modifies clock
      ensures Valid() && SessionShaped() && (r.Success? <==> Sound(d, memory[..], reading))
      ensures d.timestamp.Some? ==> clock.readings == old(clock.readings) && reading == At(d.timestamp.value)
      ensures d.timestamp.None? && !d.error ==> clock.readings == old(clock.readings) + [reading]
      ensures r.Success? ==>
                && SequenceFor(expectedSequence, d.sequence) == Success(r.value.missing)
                && IsTimeOf(r.value.frame.pts, reading.us, lastPts) && fresh(r.value.frame.buffer)
                && ShowsBuffer(r.value.frame.buffer[..], Filled(memory[..], d.bytesUsed), system.negotiated)
                && var f := system.negotiated.value.format;
                  2 * r.value.bytes == (if f.pixelFormat == Yuyv422 then 4 else 3) * (f.width * f.height)
      ensures r.Failure? ==> r.code.CorruptData? || (!d.error && reading.Unanswered? && r.code.IoError?)
    {
      hide Recorded, Expected, PictureFilled, AllCopied;
      reading := if d.timestamp.Some? then At(d.timestamp.value) else Unanswered;
      if d.error {
        return Failure(CorruptData), reading;
      }
      var pts;
      pts, reading := TimestampFor(d);
      if pts.Failure? {
        return Failure(pts.code), reading;
      }
      var missing := SequenceFor(expectedSequence, d.sequence);
      if missing.Failure? {
        return Failure(missing.code), reading;
      }
      var n := system.negotiated.value;
      var target := new Byte[n.totalCapacity](_ => 0);
      var code, bytes := CopyFrame(memory, d.bytesUsed, n, target);
      if !code.OkStatus? {
        return Failure(code), reading;
      }
      return Success(Copied(Frame(target, pts.value), bytes, missing.value)), reading;
    }

    /** Remembers the capture, for the time and the sequence of the next one. */
    method Commit(d: Dequeued, copied: Copied)
      requires Valid() && SequenceFor(expectedSequence, d.sequence) == Success(copied.missing)
      requires lastPts.Some? ==> copied.frame.pts >= lastPts.value
      modifies this
      ensures Valid() && pending == old(pending) && kept == old(kept)
      ensures log == old(log) + [Capture(d.sequence, copied.missing, copied.frame.pts)]
    {
      hide V4L2System.Valid, Recorded, Expected, SequenceFor, Successor;
      var c := Capture(d.sequence, copied.missing, copied.frame.pts);
      RecordOneMore(log, c);
      log := log + [c];
      lastPts, expectedSequence := Some(c.pts), Some(Successor(d.sequence));
    }

    ghost function Marked(): Marks
      reads this, output, observer
    {
      Marks(log, lastPts, kept, pending, output.offers, output.delivered, observer.complaints)
    }

    /** Offers a new frame to the output; it waits if the output is full, and is given up if the output fails. */
    method Offer(frame: Frame) returns (code: StatusCode, ghost answer: StatusCode)
      requires Valid() && pending.None?
      modifies this`pending, this`kept, output, observer
      ensures Valid() && Offered(old(Marked()), Marked(), frame, answer, code)
    {
      hide Recorded, Expected, V4L2System.Valid;
      assert output.delivered[deliveredBefore..] + [] == output.delivered[deliveredBefore..];
      code := output.Send(frame);
      answer := code;
      if code.OkStatus? || code.WouldBlock? {
        kept := kept + [frame];
      }
      if code.WouldBlock? {
        pending := Some(frame);
        var observed := observer.Notify();
        code := if observed.OkStatus? then WouldBlock else observed;
      }
    }

    /** Offers the frame that waits; it goes on waiting exactly if it is not taken. */
    method SendPending() returns (code: StatusCode, ghost answer: StatusCode)
      requires Valid() && pending.Some?
      modifies this`pending, output, observer
      ensures Valid() && Resent(old(Marked()), Marked(), answer, code)
    {
      code := output.Send(pending.value);
      answer := code;
      if !code.OkStatus? {
        return;
      }
      pending := None;
      code := observer.Notify();
    }

    /** What one attempt to capture asked of the kernel, and how it was answered. */
    ghost predicate Asked(before: seq<KernelCall>, a: Attempt)
      reads system, system.kernel
    {
      var known := a.answer.Done? && a.buffer.index < |system.regions|;
      && system.kernel.calls == before + [DequeuedOne(a.answer, a.buffer)] + (if known then [Queued(a.refused)] else [])
      && (!known ==> a.refused.Done?)
    }

    /** What the answers make of it: a frame exactly of a sound buffer that the driver took back. */
    ghost predicate Captures(a: Attempt, r: Result<bool>)
      reads this, system
      requires SessionShaped()
    {
      if !a.answer.Done? then
        r == if a.answer.TryAgain? then Success(false) else Failure(DequeueCode(a.answer))
      else if a.buffer.index >= |system.regions| then r == Failure(CorruptData)
      else if !a.refused.Done? then r == Failure(SystemCode(a.refused))
      else if Sound(a.buffer, a.content, a.reading) then r == Success(true)
      else r.Failure? && (r.code.CorruptData? || (!a.buffer.error && a.reading.Unanswered? && r.code.IoError?))
    }

    /**
     * Takes one filled buffer from the driver, copies it, and gives it back before anything else can fail. There is
     * a frame exactly if the driver had a buffer, that was sound, and it took it back.
     */
    method CaptureOne() returns (r: Result<Option<Copied>>, d: Dequeued, ghost a: Attempt)
      requires Valid() && system.state.Running?
      modifies system.kernel`calls, system.kernel`withDriver, clock
      ensures Valid() && SessionShaped() && Asked(old(system.kernel.calls), a) && Captures(a, HasFrame(r))
      ensures old(system.AllQueued()) ==> (system.AllQueued() <==> a.refused.Done?)
      ensures r.Success? && r.value.Some? ==>
                && d == a.buffer && SequenceFor(expectedSequence, d.sequence) == Success(r.value.value.missing)
                && a.reading.At? && IsTimeOf(r.value.value.frame.pts, a.reading.us, lastPts)
                && fresh(r.value.value.frame.buffer)
                && ShowsBuffer(r.value.value.frame.buffer[..], Filled(a.content, d.bytesUsed), system.negotiated)
    {
      hide Recorded, Expected, SequenceFor, ShowsBuffer, PictureFilled;
      var dequeued;
      ghost var answer, buffer, reading;
      dequeued, answer, buffer := system.Dequeue();
      a := Attempt(answer, buffer, [], Unanswered, Done);
      if dequeued.Failure? {
        d := Dequeued(0, 0, false, 0, None);
        return if dequeued.code.WouldBlock? then Success(None) else Failure(dequeued.code), d, a;
      }
      d := dequeued.value;
      var memory := new Byte[system.regions[d.index].length];
      var copied;
      copied, reading := CopyOut(d, memory);
      var requeued, refused := system.Requeue(d.index);
      a := Attempt(answer, buffer, memory[..], reading, refused.value);
      if !requeued.OkStatus? {
        return Failure(requeued), d, a;
      }
      if copied.Failure? {
        return Failure(copied.code), d, a;
      }
      return Success(Some(copied.value)), d, a;
    }

    /** The turn of a frame that has been captured: it is recorded, told of, and offered. */
    method PassOn(d: Dequeued, copied: Copied) returns (code: StatusCode, ghost offered: Option<StatusCode>)
      requires Valid() && pending.None? && SequenceFor(expectedSequence, d.sequence) == Success(copied.missing)
      requires lastPts.Some? ==> copied.frame.pts >= lastPts.value
      modifies this, output, observer
      ensures Valid() && Disposed(old(Marked()), Marked(), copied.frame, offered, code)
      ensures log == old(log) + [Capture(d.sequence, copied.missing, copied.frame.pts)]
    {
      hide Recorded, Expected, SequenceFor, V4L2System.Valid;
      offered := None;
      Commit(d, copied);
      code := observer.Notify();
      if code.OkStatus? && copied.missing != 0 {
        code := observer.Notify();
      }
      if !code.OkStatus? {
        return;
      }
      ghost var answer;
      code, answer := Offer(copied.frame);
      offered := Some(answer);
    }

    /** A turn in which no frame waits. */
    method CaptureTurn()
      returns (code: StatusCode, ghost a: Attempt, ghost captured: Result<Option<Copied>>,
               ghost offered: Option<StatusCode>)
      requires Valid() && system.state.Running? && pending.None?
      modifies this, output, clock, observer, system.kernel`calls, system.kernel`withDriver
      ensures Valid() && old(log) <= log && SessionShaped()
      ensures old(system.AllQueued()) ==> (system.AllQueued() <==> a.refused.Done?)
      ensures Asked(old(system.kernel.calls), a) && (var r := HasFrame(captured); old(Captures(a, r)))
      ensures Turned(old(Marked()), Marked(), a, captured, offered, code)
      ensures captured.Success? && captured.value.Some? ==>
                && fresh(captured.value.value.frame.buffer)
                && ShowsBuffer(captured.value.value.frame.buffer[..], Filled(a.content, a.buffer.bytesUsed),
                               system.negotiated)
    {
      hide Recorded, Expected, SequenceFor, V4L2System.Valid, V4L2System.AllQueued, ShowsBuffer, Captures, Asked;
      hide Turned, Disposed;
      ghost var before := Marked();
      var r, d;
      offered := None;
      r, d, a := CaptureOne();
      captured := r;
      assert Marked() == before;
      if r.Failure? {
        TurnFails(before, a, r);
        return r.code, a, captured, offered;
      }
      if r.value.None? {
        code := observer.ReportWouldBlock();
        TurnIsEmpty(before, Marked(), a, code);
        return;
      }
      code, offered := PassOn(d, r.value.value);
      TurnPasses(before, Marked(), a, r.value.value, offered, code);
    }

    /**
     * One turn. A frame that waits is offered again, and nothing is captured before it is taken. Otherwise a frame is
     * captured exactly of a sound buffer that the driver gave and took back; it is offered unless an observer objects
     * first, and then delivered, kept waiting, or given up as the output answers. The code is that of the answer which
     * ended the turn.
     */
    method Tick()
      returns (code: StatusCode, ghost a: Attempt, ghost captured: Result<Option<Copied>>,
               ghost offered: Option<StatusCode>)
      requires Valid() && system.state.Running?
      modifies this, output, clock, observer, system.kernel`calls, system.kernel`withDriver
      ensures Valid() && old(log) <= log && SessionShaped()
      ensures old(system.AllQueued()) ==> (system.AllQueued() <==> a.refused.Done?)
      ensures old(pending).Some? ==>
                && offered.Some? && Resent(old(Marked()), Marked(), offered.value, code)
                && system.kernel.calls == old(system.kernel.calls)
      ensures old(pending).None? ==>
                && Asked(old(system.kernel.calls), a) && (var r := HasFrame(captured); old(Captures(a, r)))
                && Turned(old(Marked()), Marked(), a, captured, offered, code)
      ensures captured.Success? && captured.value.Some? ==>
                && fresh(captured.value.value.frame.buffer)
                && ShowsBuffer(captured.value.value.frame.buffer[..], Filled(a.content, a.buffer.bytesUsed),
                               system.negotiated)
    {
      assert SessionShaped();
      hide Recorded, Expected, SequenceFor, V4L2System.Valid, V4L2System.AllQueued;
      hide Captures, Asked, Turned, ShowsBuffer;
      hide Resent, Marked;
      if pending.Some? {
        ghost var answer;
        code, answer := SendPending();
        a, captured := Attempt(Done, Dequeued(0, 0, false, 0, None), [], Unanswered, Done), Success(None);
        offered := Some(answer);
      } else {
        code, a, captured, offered := CaptureTurn();
      }
    }

    method ForgetSession()
      requires Valid()
      modifies this
      ensures Valid() && log == [] && pending.None? && kept == []
    {
      hide V4L2System.Valid;
      pending, lastPts, expectedSequence, log := None, None, None, [];
      kept, deliveredBefore := [], |output.delivered|;
    }

    /** The observer is told of the start; if it objects, the buffers are taken back. */
    method AnnounceStart() returns (code: StatusCode)
      requires Valid() && system.state.Running?
      modifies system, system.kernel, observer
      ensures Valid()
      ensures code.OkStatus? ==> system.state.Running?
      ensures old(system.AllQueued()) ==>
                if system.state.Running? then system.AllQueued() else system.kernel.withDriver == {}
      ensures if observer.complaints == old(observer.complaints) then
                code.OkStatus? && system.kernel.calls == old(system.kernel.calls)
              else
                && !code.OkStatus? && |observer.complaints| == |old(observer.complaints)| + 1
                && if system.state.Running?
                   then exists r :: system.kernel.calls == old(system.kernel.calls) + [StreamStopped(r)]
                                    && code == SystemCode(r)
                   else code == observer.complaints[|old(observer.complaints)|]
    {
      hide V4L2System.Valid, V4L2System.AllQueued, Recorded, Expected;
      code := observer.Notify();
      if !code.OkStatus? {
        var stopped := system.Stop();
        code := if stopped.OkStatus? then code else stopped;
      }
    }

    /**
     * A new session begins: nothing waits, and neither time nor sequence is known. It fails exactly if the driver
     * refuses a call of the start or the observer objects; then all buffers are taken back, unless the driver refuses
     * to stop as well and goes on with all of them.
     */
    method Start() returns (code: StatusCode, ghost started: StatusCode, ghost made: seq<KernelCall>)
      requires Valid()
      modifies this, system, system.kernel, observer
      ensures Valid() && log == [] && pending.None? && kept == []
      ensures old(system.state).Prepared? && code.OkStatus? ==> system.state.Running? && system.AllQueued()
      ensures old(system.state).Prepared? && !code.OkStatus? ==>
                if system.state.Running? then system.AllQueued() else system.kernel.withDriver == {}
      ensures old(system.state).Prepared? ==> StartCalls(made, |old(system.regions)|, started)
      ensures old(system.state).Created? ==> started.InvalidState? && system.Released()
      ensures if !started.OkStatus? then code == started && observer.complaints == old(observer.complaints)
              else if observer.complaints == old(observer.complaints) then code.OkStatus?
              else
                && !code.OkStatus? && |observer.complaints| == |old(observer.complaints)| + 1
                && if system.state.Running?
                   then exists r :: system.kernel.calls == old(system.kernel.calls) + made + [StreamStopped(r)]
                                    && code == SystemCode(r)
                   else code == observer.complaints[|old(observer.complaints)|]
    {
      hide V4L2System.Valid, V4L2System.AllQueued, Recorded, Expected, StartCalls;
      ForgetSession();
      code, made := system.Start();
      started := code;
      if !code.OkStatus? {
        return;
      }
      code := AnnounceStart();
    }
  }
}

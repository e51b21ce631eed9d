/** The timeline of audio capture: exact conversions of sample counts, and the history of one capture session. */
module AlsaTimeline {
  import opened Statuses
  import opened SizeArithmetic

  const INT64_MAXIMUM: int := 0x7FFF_FFFF_FFFF_FFFF
  const MICROSECONDS_PER_SECOND: int := 1_000_000
  const NANOSECONDS_PER_SECOND: int := 1_000_000_000

  /** Sample rates are positive 32-bit numbers. */
  predicate Rate(rate: int) {
    0 < rate < 0x1_0000_0000
  }

  /** The duration of `samples` samples, in whole microseconds. */
  function Duration(samples: nat, rate: int): nat
    requires Rate(rate)
  {
    samples * MICROSECONDS_PER_SECOND / rate
  }

  /** The duration of `frames` frames, rounded down once. */
  function FramesDuration(frames: nat, samplesPerFrame: nat, rate: int): nat
    requires Rate(rate)
  {
    ProductGrows(frames, 0, samplesPerFrame);
    Duration(frames * samplesPerFrame, rate)
  }

  lemma DurationParts(samples: nat, rate: int, q: nat, r: nat, p: nat, m: nat)
    requires Rate(rate) && samples == rate * q + r && r * MICROSECONDS_PER_SECOND == rate * p + m && m < rate
    ensures samples * MICROSECONDS_PER_SECOND / rate == q * MICROSECONDS_PER_SECOND + p
  {
    var whole := q * MICROSECONDS_PER_SECOND;
    assert samples * MICROSECONDS_PER_SECOND == rate * whole + (rate * p + m) by {
      Associates(rate, q, MICROSECONDS_PER_SECOND);
    }
    assert rate * whole + rate * p == rate * (whole + p);
    QuotientOf(samples * MICROSECONDS_PER_SECOND, rate, whole + p, m);
  }

  lemma DurationSplits(samples: nat, rate: int)
    requires Rate(rate)
    ensures samples % rate * MICROSECONDS_PER_SECOND / rate >= 0
    ensures Duration(samples, rate)
         == samples / rate * MICROSECONDS_PER_SECOND + samples % rate * MICROSECONDS_PER_SECOND / rate
  {
    var part := samples % rate * MICROSECONDS_PER_SECOND;
    DurationParts(samples, rate, samples / rate, samples % rate, part / rate, part % rate);
  }

  /** Converts without overflow: whole seconds first, then the rest of the last second. */
  function SamplesToMicroseconds(samples: int, rate: int): (r: Option<int>)
    requires rate < 0x1_0000_0000 && samples <= INT64_MAXIMUM
    ensures r.Some? <==> samples >= 0 && Rate(rate) && Duration(samples, rate) <= INT64_MAXIMUM
    ensures r.Some? ==> r.value == Duration(samples, rate)
  {
    if samples < 0 || rate <= 0 then None
    else
      var quotient, remainder := samples / rate, samples % rate;
      DurationSplits(samples, rate);
      if quotient > INT64_MAXIMUM / MICROSECONDS_PER_SECOND then None
      else if remainder > INT64_MAXIMUM / MICROSECONDS_PER_SECOND then None
      else
        var seconds := quotient * MICROSECONDS_PER_SECOND;
        var rest := remainder * MICROSECONDS_PER_SECOND / rate;
        if seconds > INT64_MAXIMUM - rest then None else Some(seconds + rest)
  }

  /** The instant of the first sample not yet read: `available` samples before the timestamp. */
  function FirstUnread(timestamp: int, available: nat, rate: int): (r: Option<int>)
    requires rate < 0x1_0000_0000
    ensures r.Some? <==>
              && available <= INT64_MAXIMUM && Rate(rate)
              && Duration(available, rate) <= INT64_MAXIMUM && Duration(available, rate) <= timestamp
    ensures r.Some? ==> r.value == timestamp - Duration(available, rate)
  {
    if rate <= 0 || available > INT64_MAXIMUM then None
    else
      match SamplesToMicroseconds(available, rate)
      case None => None
      case Some(us) => if timestamp < us then None else Some(timestamp - us)
  }

  datatype Timespec = Timespec(sec: int, nsec: int)

  function TimespecToMicroseconds(t: Timespec): (r: Option<int>)
    ensures r.Some? <==>
              && t.sec >= 0 && 0 <= t.nsec < NANOSECONDS_PER_SECOND
              && (t.sec * NANOSECONDS_PER_SECOND + t.nsec) / 1000 <= INT64_MAXIMUM
    ensures r.Some? ==> r.value == (t.sec * NANOSECONDS_PER_SECOND + t.nsec) / 1000
  {
    assert (t.sec * NANOSECONDS_PER_SECOND + t.nsec) / 1000 == t.sec * MICROSECONDS_PER_SECOND + t.nsec / 1000;
    if t.sec < 0 || t.nsec < 0 || t.nsec >= NANOSECONDS_PER_SECOND
       || t.sec > INT64_MAXIMUM / MICROSECONDS_PER_SECOND then None
    else
      var seconds, rest := t.sec * MICROSECONDS_PER_SECOND, t.nsec / 1000;
      if seconds > INT64_MAXIMUM - rest then None else Some(seconds + rest)
  }

  // ---- The history of a session ----

  /** One sample of every channel; its bytes are carried along, never interpreted. */
  type Sample = int

  /** What happens to the samples of a session, in order. */
  datatype Piece =
    | Anchored(us: int)
    | Completed(samples: seq<Sample>, pts: int, discontinuous: bool)
    | Reset(dropped: seq<Sample>)

  /** All the samples of a history. */
  function Samples(log: seq<Piece>): seq<Sample> {
    if log == [] then []
    else
      Samples(log[..|log| - 1]) + match log[|log| - 1]
                                  case Anchored(_) => []
                                  case Completed(s, _, _) => s
                                  case Reset(s) => s
  }

  /** The frames of a history. */
  function Frames(log: seq<Piece>): seq<Piece> {
    if log == [] then []
    else
      var last := log[|log| - 1];
      Frames(log[..|log| - 1]) + if last.Completed? then [last] else []
  }

  function Resets(log: seq<Piece>): nat {
    if log == [] then 0
    else Resets(log[..|log| - 1]) + if log[|log| - 1].Reset? then 1 else 0
  }

  /** Where a timeline stands: its anchor, the frames completed since, and whether the next one follows a gap. */
  datatype Timeline = Timeline(anchor: Option<int>, frames: nat, gap: bool)

  function Advance(t: Timeline, p: Piece): Timeline {
    match p
    case Anchored(us) => Timeline(Some(us), 0, t.gap)
    case Completed(_, _, _) => Timeline(t.anchor, t.frames + 1, false)
    case Reset(_) => Timeline(None, 0, true)
  }

  function TimelineOf(log: seq<Piece>): Timeline {
    if log == [] then Timeline(None, 0, false)
    else Advance(TimelineOf(log[..|log| - 1]), log[|log| - 1])
  }

  /**
   * A piece is right after a timeline: anchors are set once, frames are whole, on time and marked, drops are
   * partial.
   */
  predicate Follows(t: Timeline, p: Piece, samplesPerFrame: nat, rate: int)
    requires Rate(rate)
  {
    match p
    case Anchored(_) => t.anchor.None?
    case Completed(samples, pts, discontinuous) =>
      && |samples| == samplesPerFrame && t.anchor.Some?
      && pts == t.anchor.value + FramesDuration(t.frames, samplesPerFrame, rate)
      && discontinuous == t.gap
    case Reset(dropped) => |dropped| < samplesPerFrame
  }

  predicate WellFormed(log: seq<Piece>, samplesPerFrame: nat, rate: int)
    requires Rate(rate)
  {
    forall k :: 0 <= k < |log| ==> Follows(TimelineOf(log[..k]), log[k], samplesPerFrame, rate)
  }

  lemma Extends(log: seq<Piece>, p: Piece, samplesPerFrame: nat, rate: int)
    requires Rate(rate) && WellFormed(log, samplesPerFrame, rate)
    requires Follows(TimelineOf(log), p, samplesPerFrame, rate)
    ensures WellFormed(log + [p], samplesPerFrame, rate)
    ensures TimelineOf(log + [p]) == Advance(TimelineOf(log), p)
    ensures Samples(log + [p]) ==
              Samples(log) + (match p case Anchored(_) => [] case Completed(s, _, _) => s case Reset(s) => s)
    ensures Frames(log + [p]) == Frames(log) + if p.Completed? then [p] else []
    ensures Resets(log + [p]) == Resets(log) + if p.Reset? then 1 else 0
  {
    var after := log + [p];
    assert after[..|log|] == log;
    forall k | 0 <= k < |after|
      ensures Follows(TimelineOf(after[..k]), after[k], samplesPerFrame, rate)
    {
      assert k < |log| ==> after[..k] == log[..k] && after[k] == log[k];
    }
  }

  lemma {:induction false} SegmentAt(log: seq<Piece>, a: nat, k: nat)
    requires a < k <= |log| && log[a].Anchored? && forall j :: a < j < k ==> log[j].Completed?
    ensures TimelineOf(log[..k]).anchor == Some(log[a].us) && TimelineOf(log[..k]).frames == k - a - 1
    decreases k
  {
    assert log[..k][..k - 1] == log[..k - 1];
    if k - 1 > a {
      SegmentAt(log, a, k - 1);
    }
  }

  /**
   * No drift: a frame lies after the anchor of its segment by the exact duration, rounded down once, of the
   * frames between.
   */
  lemma {:induction false} PtsIsExact(log: seq<Piece>, samplesPerFrame: nat, rate: int, a: nat, k: nat)
    requires Rate(rate) && WellFormed(log, samplesPerFrame, rate)
    requires a < k < |log| && log[a].Anchored? && log[k].Completed?
    requires forall j :: a < j < k ==> log[j].Completed?
    ensures log[k].pts == log[a].us + FramesDuration(k - a - 1, samplesPerFrame, rate)
  {
    SegmentAt(log, a, k);
    assert Follows(TimelineOf(log[..k]), log[k], samplesPerFrame, rate);
  }

  /** Every frame has an anchor in its segment, with nothing but frames between. */
  lemma {:induction false} FrameIsAnchored(log: seq<Piece>, samplesPerFrame: nat, rate: int, k: nat) returns (a: nat)
    requires Rate(rate) && WellFormed(log, samplesPerFrame, rate) && k <= |log| && TimelineOf(log[..k]).anchor.Some?
    ensures a < k && log[a].Anchored? && forall j :: a < j < k ==> log[j].Completed?
    decreases k
  {
    hide FramesDuration;
    assert log[..k][..k - 1] == log[..k - 1];
    assert Follows(TimelineOf(log[..k - 1]), log[k - 1], samplesPerFrame, rate);
    if log[k - 1].Anchored? {
      a := k - 1;
    } else {
      a := FrameIsAnchored(log, samplesPerFrame, rate, k - 1);
    }
  }

  lemma {:induction false} GapIffReset(log: seq<Piece>, k: nat)
    requires k <= |log|
    ensures TimelineOf(log[..k]).gap <==>
              exists j :: 0 <= j < k && log[j].Reset? && forall i :: j < i < k ==> !log[i].Completed?
  {
    if k > 0 {
      assert log[..k][..k - 1] == log[..k - 1];
      GapIffReset(log, k - 1);
      if log[k - 1].Anchored? && TimelineOf(log[..k]).gap {
        var j :| 0 <= j < k - 1 && log[j].Reset? && forall i :: j < i < k - 1 ==> !log[i].Completed?;
        assert forall i :: j < i < k ==> !log[i].Completed?;
      } else if log[k - 1].Reset? {
        assert TimelineOf(log[..k]).gap;
      }
    }
  }

  /** A frame is marked discontinuous exactly when the timeline was reset since the frame completed before it. */
  lemma MarkedIffReset(log: seq<Piece>, samplesPerFrame: nat, rate: int, k: nat)
    requires Rate(rate) && WellFormed(log, samplesPerFrame, rate) && k < |log| && log[k].Completed?
    ensures log[k].discontinuous <==>
              exists j :: 0 <= j < k && log[j].Reset? && forall i :: j < i < k ==> !log[i].Completed?
  {
    GapIffReset(log, k);
    assert Follows(TimelineOf(log[..k]), log[k], samplesPerFrame, rate);
  }

  predicate Sized(log: seq<Piece>, samplesPerFrame: nat) {
    forall k :: 0 <= k < |log| ==>
                  match log[k]
                  case Anchored(_) => true
                  case Completed(samples, _, _) => |samples| == samplesPerFrame
                  case Reset(dropped) => |dropped| < samplesPerFrame
  }

  lemma OneMore(n: int, m: int)
    ensures (n + 1) * m == n * m + m
  {
  }

  lemma {:induction false} SizedLoss(log: seq<Piece>, samplesPerFrame: nat)
    requires Sized(log, samplesPerFrame) && samplesPerFrame > 0
    ensures 0 <= |Samples(log)| - |Frames(log)| * samplesPerFrame <= Resets(log) * (samplesPerFrame - 1)
  {
    if log != [] {
      var shorter, last := log[..|log| - 1], log[|log| - 1];
      SizedLoss(shorter, samplesPerFrame);
      OneMore(|Frames(shorter)|, samplesPerFrame);
      OneMore(Resets(shorter), samplesPerFrame - 1);
    }
  }

  /** Each reset loses less than a frame: all the other samples are in frames. */
  lemma LossIsBounded(log: seq<Piece>, samplesPerFrame: nat, rate: int)
    requires Rate(rate) && WellFormed(log, samplesPerFrame, rate) && samplesPerFrame > 0
    ensures 0 <= |Samples(log)| - |Frames(log)| * samplesPerFrame <= Resets(log) * (samplesPerFrame - 1)
  {
    hide FramesDuration;
    forall k | 0 <= k < |log|
      ensures Follows(TimelineOf(log[..k]), log[k], samplesPerFrame, rate)
    {
    }
    SizedLoss(log, samplesPerFrame);
  }
}

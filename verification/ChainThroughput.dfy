/** How many pipeline turns a request for frames takes, and what it leaves behind. */
module ChainThroughput {
  import opened Backends
  import opened BackendNodes
  import opened ReferenceChain
  import opened ChainSafety
  import opened ChainTurns

  /** The frames a source that stands at `pts` makes next. */
  function Frames(pts: int, count: nat): seq<Frame> {
    seq(count, i requires 0 <= i < count => Frame(pts + i, true))
  }

  /** The devices of both backends have taken the same frames, and no more than they outlive. */
  predicate Balanced(c: Chain, o: Options) {
    && c.encoder.backend.submissions == c.processor.backend.submissions
    && (o.deviceLostAfter == 0 || c.processor.backend.submissions <= o.deviceLostAfter)
  }

  /** The devices outlive `count` more frames. */
  predicate Outlives(c: Chain, o: Options, count: nat) {
    o.deviceLostAfter == 0 || c.processor.backend.submissions + count <= o.deviceLostAfter
  }

  /** A running pipeline that holds nothing but what the delay of the encoder holds back. */
  predicate Quiescent(c: Chain, o: Options) {
    && Ready(c, o) && c.pipeline.Running? && Roomy(o)
    && c.processor.backend.queue == [] && |c.encoder.backend.queue| <= o.outputDelay
    && Balanced(c, o)
  }

  /** Every start of a created or stopped pipeline succeeds and leaves a quiescent one. */
  lemma StartIsQuiescent(c: Chain, o: Options)
    requires Inv(c, o) && (c.pipeline.Created? || c.pipeline.Stopped?) && Roomy(o)
    ensures Start(c).0.OkStatus? && Quiescent(Start(c).1, o) && Start(c).1.processor.backend.submissions == 0
  {
    StartsTo(c, o);
    StartedIsReady(c, o);
    hide Start, Ready;
  }

  function Refill(c: Chain, count: nat): Chain {
    c.(budget := count)
  }

  /** Everything the encoder will ever see: its backlog, then the requested frames. */
  function Stream(c: Chain, count: nat): seq<Frame> {
    c.encoder.backend.queue + Frames(c.nextPts, count)
  }

  function Least(a: nat, b: nat): nat {
    if a <= b then a else b
  }

  /** How much of the stream has reached the encoder after `t` turns. */
  function Arrived(backlog: nat, count: nat, t: nat): nat {
    backlog + if t == 0 then 0 else Least(t - 1, count)
  }

  /** How much of the stream has left the encoder after `t` turns. */
  function Departed(backlog: nat, delay: nat, count: nat, t: nat): nat {
    if t == 0 || Arrived(backlog, count, t - 1) <= delay then 0 else Arrived(backlog, count, t - 1) - delay
  }

  /** What `t` turns leave in the source and the processor. */
  predicate SourceAfter(start: Chain, count: nat, t: nat, c: Chain) {
    && c.budget == count - Least(t, count) && c.nextPts == start.nextPts + Least(t, count)
    && c.made == start.made + Frames(start.nextPts, Least(t, count))
    && c.processor.backend.queue == (if 1 <= t <= count then [Frame(start.nextPts + t - 1, true)] else [])
    && c.processor.backend.submissions == start.processor.backend.submissions + Least(t, count)
  }

  /** What `t` turns leave in the encoder and the sink. */
  predicate EncoderAfter(start: Chain, delay: nat, count: nat, t: nat, c: Chain) {
    var backlog := |start.encoder.backend.queue|;
    var from, upto := Departed(backlog, delay, count, t), Arrived(backlog, count, t);
    && from <= upto <= |Stream(start, count)|
    && c.encoder.backend.queue == Stream(start, count)[from..upto]
    && c.consumed == start.consumed + Stream(start, count)[..from]
    && c.encoder.backend.submissions == start.encoder.backend.submissions + upto - backlog
  }

  /** The pipeline `c` that `t` turns make of the quiescent pipeline `start`, refilled with `count`. */
  predicate AfterTurns(start: Chain, o: Options, count: nat, t: nat, c: Chain) {
    && Ready(c, o) && c.pipeline.Running?
    && SourceAfter(start, count, t, c) && EncoderAfter(start, o.outputDelay, count, t, c)
  }

  lemma StartsQuiescent(start: Chain, o: Options, count: nat)
    requires Quiescent(start, o)
    ensures AfterTurns(start, o, count, 0, Refill(start, count))
  {
    assert Frames(start.nextPts, 0) == [];
    assert Ready(Refill(start, count), o);
  }

  lemma FramesGrow(pts: int, n: nat)
    ensures Frames(pts, n + 1) == Frames(pts, n) + [Frame(pts + n, true)]
  {
  }

  lemma StreamAt(start: Chain, count: nat, i: nat)
    requires i < count
    ensures Stream(start, count)[|start.encoder.backend.queue| + i] == Frame(start.nextPts + i, true)
  {
  }

  lemma Glue(s: seq<Frame>, from: nat, from': nat, upto: nat, upto': nat)
    requires from <= from' <= upto <= upto' <= |s|
    ensures s[from'..upto] + s[upto..upto'] == s[from'..upto']
    ensures s[..from] + s[from..from'] == s[..from']
  {
  }

  lemma StreamLength(start: Chain, count: nat)
    ensures |Stream(start, count)| == |start.encoder.backend.queue| + count
  {
  }

  /** The processor holds the one frame of the stream that is about to reach the encoder. */
  lemma ProcessorHolds(start: Chain, count: nat, t: nat)
    ensures var b := |start.encoder.backend.queue|;
            && Arrived(b, count, t) <= Arrived(b, count, t + 1) <= |Stream(start, count)|
            && Stream(start, count)[Arrived(b, count, t)..Arrived(b, count, t + 1)]
               == if 1 <= t <= count then [Frame(start.nextPts + t - 1, true)] else []
  {
    StreamLength(start, count);
    if 1 <= t <= count { StreamAt(start, count, t - 1); }
  }

  /** One turn of the encoder, counted: it emits exactly when it holds more than its delay. */
  lemma EncoderWindow(backlog: nat, delay: nat, count: nat, t: nat)
    requires backlog <= delay
    ensures var from, upto := Departed(backlog, delay, count, t), Arrived(backlog, count, t);
            var from', upto' := Departed(backlog, delay, count, t + 1), Arrived(backlog, count, t + 1);
            && from <= from' <= upto <= upto' <= backlog + count
            && from' == from + (if upto - from > delay then 1 else 0)
            && upto - from' <= delay
            && upto' == upto + (if 1 <= t <= count then 1 else 0)
            && (1 <= t <= count ==> upto == backlog + t - 1)
  {
  }

  lemma EncoderEmits(c: Chain, o: Options, s: seq<Frame>, from: nat, from': nat, upto: nat)
    requires Ready(c, o) && from <= from' <= upto <= |s| && c.encoder.backend.queue == s[from..upto]
    requires from' == from + (if upto - from > o.outputDelay then 1 else 0)
    ensures Emitted(c.encoder.backend) == s[from..from'] && Retained(c.encoder.backend) == s[from'..upto]
  {
  }

  lemma ReadyShape(c: Chain, o: Options)
    requires Ready(c, o)
    ensures Shaped(c)
  {
  }

  lemma EncoderRoom(start: Chain, o: Options, count: nat, t: nat, c: Chain)
    requires Quiescent(start, o) && AfterTurns(start, o, count, t, c)
    ensures var b, s := |start.encoder.backend.queue|, Stream(start, count);
            var from, upto := Departed(b, o.outputDelay, count, t), Arrived(b, count, t);
            var from', upto' := Departed(b, o.outputDelay, count, t + 1), Arrived(b, count, t + 1);
            && from <= from' <= upto <= upto' <= |s| && upto - from' <= o.outputDelay < o.queueCapacity
            && Emitted(c.encoder.backend) == s[from..from'] && Retained(c.encoder.backend) == s[from'..upto]
            && c.processor.backend.queue == s[upto..upto']
            && |c.processor.backend.queue| <= 1
  {
    hide Ready, Frames, Stream, Emitted, Retained, Arrived, Departed;
    var b, s := |start.encoder.backend.queue|, Stream(start, count);
    StreamLength(start, count);
    EncoderWindow(b, o.outputDelay, count, t);
    EncoderEmits(c, o, s, Departed(b, o.outputDelay, count, t), Departed(b, o.outputDelay, count, t + 1),
                 Arrived(b, count, t));
    ProcessorHolds(start, count, t);
  }

  lemma SourceNext(start: Chain, count: nat, t: nat, c: Chain, d: Chain)
    requires SourceAfter(start, count, t, c)
    requires d.processor.backend.queue == Next(c) && d.made == c.made + Next(c)
    requires d.budget == (if c.budget > 0 then c.budget - 1 else 0) && d.nextPts == c.nextPts + |Next(c)|
    requires d.processor.backend.submissions == c.processor.backend.submissions + |Next(c)|
    ensures SourceAfter(start, count, t + 1, d)
  {
    if t < count { FramesGrow(start.nextPts, t); }
  }

  /** The part of the stream that the encoder holds moves on by what arrives and what is emitted. */
  lemma EncoderNext(start: Chain, delay: nat, count: nat, t: nat, c: Chain, d: Chain)
    requires EncoderAfter(start, delay, count, t, c)
    requires var b, s := |start.encoder.backend.queue|, Stream(start, count);
             var from, upto := Departed(b, delay, count, t), Arrived(b, count, t);
             var from', upto' := Departed(b, delay, count, t + 1), Arrived(b, count, t + 1);
             && from <= from' <= upto <= upto' <= |s|
             && d.encoder.backend.queue == s[from'..upto] + s[upto..upto']
             && d.consumed == c.consumed + s[from..from']
             && d.encoder.backend.submissions == c.encoder.backend.submissions + upto' - upto
    ensures EncoderAfter(start, delay, count, t + 1, d)
  {
    hide Stream, Departed, Arrived;
    var b, s := |start.encoder.backend.queue|, Stream(start, count);
    Glue(s, Departed(b, delay, count, t), Departed(b, delay, count, t + 1), Arrived(b, count, t),
         Arrived(b, count, t + 1));
    var from, from' := Departed(b, delay, count, t), Departed(b, delay, count, t + 1);
    assert start.consumed + s[..from] + s[from..from'] == start.consumed + s[..from'];
  }

  /** Neither backend loses its device in a turn that the devices outlive. */
  lemma StaysAlive(start: Chain, o: Options, count: nat, t: nat, c: Chain)
    requires Quiescent(start, o) && AfterTurns(start, o, count, t, c) && Outlives(start, o, Least(t + 1, count))
    ensures c.budget > 0 ==> Alive(c.processor.backend)
    ensures c.processor.backend.queue != [] ==> Alive(c.encoder.backend)
  {
    hide Flow, Sound, Staged, Frames, Stream;
  }

  lemma NextTurn(start: Chain, o: Options, count: nat, t: nat, c: Chain)
    requires Quiescent(start, o) && AfterTurns(start, o, count, t, c) && Outlives(start, o, Least(t + 1, count))
    ensures Shaped(c) && Tick(c).0.OkStatus? && AfterTurns(start, o, count, t + 1, Tick(c).1)
  {
    ReadyShape(c, o);
    hide Tick, Ready, Stream, Departed, Arrived, Emitted, Retained, Frames, SourceAfter, EncoderAfter, Next;
    EncoderRoom(start, o, count, t, c);
    StaysAlive(start, o, count, t, c);
    hide Alive, Outlives;
    PlainTurn(c, o);
    SourceNext(start, count, t, c, Tick(c).1);
    EncoderNext(start, o.outputDelay, count, t, c, Tick(c).1);
  }

  /** Any number of turns from a quiescent pipeline, each of them answering ok. */
  function TickTimes(c: Chain, n: nat): (d: Chain)
    requires Shaped(c)
    ensures Shaped(d)
    decreases n
  {
    if n == 0 then c else Tick(TickTimes(c, n - 1)).1
  }

  lemma {:induction false} TurnsAreExact(start: Chain, o: Options, count: nat, n: nat)
    requires Quiescent(start, o) && Outlives(start, o, Least(n, count))
    ensures AfterTurns(start, o, count, n, TickTimes(Refill(start, count), n))
  {
    hide Tick, AfterTurns;
    if n == 0 {
      StartsQuiescent(start, o, count);
    } else {
      TurnsAreExact(start, o, count, n - 1);
      NextTurn(start, o, count, n - 1, TickTimes(Refill(start, count), n - 1));
    }
  }

  lemma EndOfStream(backlog: nat, delay: nat, count: nat, n: nat)
    requires backlog <= delay && n >= count + 2 && count > 0
    ensures Arrived(backlog, count, n) == backlog + count
    ensures Departed(backlog, delay, count, n) == backlog + count - Least(backlog + count, delay)
    ensures Departed(backlog, delay, count, count + 1) < count
  {
  }

  /** Once the stream has passed, only the delay holds frames back. */
  lemma QuiescentAgain(start: Chain, o: Options, count: nat, n: nat, d: Chain)
    requires Quiescent(start, o) && AfterTurns(start, o, count, n, d) && n >= count + 2 && count > 0
    requires Outlives(start, o, count)
    ensures Quiescent(d, o) && d.processor.backend.submissions == start.processor.backend.submissions + count
    ensures d.made == start.made + Frames(start.nextPts, count)
    ensures var kept := Least(|Stream(start, count)|, o.outputDelay);
            && d.consumed == start.consumed + Stream(start, count)[..|Stream(start, count)| - kept]
            && d.encoder.backend.queue == Stream(start, count)[|Stream(start, count)| - kept..]
  {
    hide Arrived, Departed, Stream, Frames, Ready;
    EndOfStream(|start.encoder.backend.queue|, o.outputDelay, count, n);
    StreamLength(start, count);
    assert Stream(start, count)[..|Stream(start, count)|] == Stream(start, count);
  }

  lemma BacklogFits(c: Chain, o: Options)
    requires Quiescent(c, o)
    ensures |c.encoder.backend.queue| <= o.outputDelay
  {
  }

  lemma NotBefore(start: Chain, o: Options, count: nat)
    requires Quiescent(start, o) && count > 0 && Outlives(start, o, count)
    ensures |TickTimes(Refill(start, count), count + 1).consumed| - |start.consumed| < count
  {
    ReadyShape(start, o);
    BacklogFits(start, o);
    hide Tick, Ready, Stream, TickTimes, Arrived, Departed, Frames, Quiescent, SourceAfter;
    StreamLength(start, count);
    TurnsAreExact(start, o, count, count + 1);
  }

  /**
   * Exact throughput: `n >= count + 2` turns leave a quiescent pipeline again, which made exactly `count`
   * frames and passed on all of the stream but the newest frames up to the delay; the sink has `count` more
   * packets than before exactly when the backlog was as long as the delay, and not before turn `count + 2`.
   */
  lemma ExactThroughput(start: Chain, o: Options, count: nat, n: nat)
    requires Quiescent(start, o) && n >= count + 2 && count > 0 && Outlives(start, o, count)
    ensures var d := TickTimes(Refill(start, count), n);
            var kept := Least(|Stream(start, count)|, o.outputDelay);
            && Quiescent(d, o) && d.processor.backend.submissions == start.processor.backend.submissions + count
            && d.made == start.made + Frames(start.nextPts, count)
            && d.consumed == start.consumed + Stream(start, count)[..|Stream(start, count)| - kept]
            && d.encoder.backend.queue == Stream(start, count)[|Stream(start, count)| - kept..]
            && (|d.consumed| - |start.consumed| == count <==> |start.encoder.backend.queue| == o.outputDelay)
    ensures |TickTimes(Refill(start, count), count + 1).consumed| - |start.consumed| < count
  {
    NotBefore(start, o, count);
    ReadyShape(start, o);
    BacklogFits(start, o);
    hide Tick, Ready, Stream, TickTimes, Arrived, Departed, Frames, Quiescent, SourceAfter, AfterTurns, EncoderAfter;
    StreamLength(start, count);
    TurnsAreExact(start, o, count, n);
    QuiescentAgain(start, o, count, n, TickTimes(Refill(start, count), n));
  }
}

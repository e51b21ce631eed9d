/** The video device: a session that gives back all that the kernel gave it, and fails only for what that answers. */
module V4l2Device {
  import opened Statuses
  import opened SizeArithmetic
  import opened VideoFormats
  import opened V4l2Layout
  import opened V4l2Kernel

  datatype DeviceState = Created | Prepared | Running

  datatype CaptureConfig = CaptureConfig(format: PixelFormat, width: Int32, height: Int32)

  /** The driver's stride and image size hold a picture of the configuration. */
  predicate HasLayout(config: CaptureConfig, stride: UInt32, size: UInt32) {
    && config.width >= 0 && config.height >= 0
    && StrideFits(config.format, config.width, stride) && RequiredBytes(config.format, stride, config.height) <= size
  }

  /** What the answer to a call of a preparation comes to: a layout and every buffer must hold a picture, too. */
  function PrepareCode(c: KernelCall, config: CaptureConfig, capacity: nat): StatusCode {
    if !CallCode(c).OkStatus? then CallCode(c)
    else if c.FormatGot? && !HasLayout(config, c.stride, c.size) then CapabilityMismatch
    else if c.BufferQueried? && c.length < capacity then CapabilityMismatch
    else OkStatus
  }

  /** Every call was granted but the last, if the preparation has failed with that code. */
  predicate Granted(made: seq<KernelCall>, config: CaptureConfig, capacity: nat, code: StatusCode) {
    if code.OkStatus? then forall i :: 0 <= i < |made| ==> PrepareCode(made[i], config, capacity).OkStatus?
    else
      && made != [] && PrepareCode(made[|made| - 1], config, capacity) == code
      && forall i :: 0 <= i < |made| - 1 ==> PrepareCode(made[i], config, capacity).OkStatus?
  }

  lemma GrantedMore(made: seq<KernelCall>, c: KernelCall, config: CaptureConfig, capacity: nat)
    requires Granted(made, config, capacity, OkStatus)
    ensures Granted(made + [c], config, capacity, PrepareCode(c, config, capacity))
  {
    hide PrepareCode;
    forall i | 0 <= i < |made|
      ensures PrepareCode((made + [c])[i], config, capacity).OkStatus?
    {
      assert (made + [c])[i] == made[i];
    }
  }

  lemma GrantedBoth(made: seq<KernelCall>, more: seq<KernelCall>, config: CaptureConfig, capacity: nat,
                    code: StatusCode)
    requires Granted(made, config, capacity, OkStatus) && Granted(more, config, capacity, code)
    ensures Granted(made + more, config, capacity, code)
  {
    hide PrepareCode;
    forall i | 0 <= i < |made + more|
      ensures (made + more)[i] == if i < |made| then made[i] else more[i - |made|]
    {
    }
  }

  /** The place of a call in a preparation; the last two are made for every buffer. */
  function StepOf(c: KernelCall): nat {
    match c
    case Opened(_) => 0
    case CapabilityQueried(_, _) => 1
    case FormatSet(_) => 2
    case FormatGot(_, _, _, _) => 3
    case IntervalSet(_) => 4
    case IntervalGot(_, _) => 5
    case BuffersRequested(_, _, _) => 6
    case BufferQueried(_, _, _) => 7
    case Mapped(_) => 8
    case _ => 9
  }

  function StepAt(i: nat): nat {
    if i < 7 then i else 7 + (i - 7) % 2
  }

  /** The calls are those of a preparation in order, from step `k` on. */
  predicate InSteps(made: seq<KernelCall>, k: nat) {
    forall i :: 0 <= i < |made| ==> StepOf(made[i]) == StepAt(k + i)
  }

  /** The calls of the exchange about the format, after the device was opened. */
  predicate Exchange(made: seq<KernelCall>, config: CaptureConfig, code: StatusCode) {
    Granted(made, config, 0, code) && InSteps(made, 1)
  }

  lemma NothingExchanged(config: CaptureConfig)
    ensures Exchange([], config, OkStatus)
  {
  }

  lemma NextStep(made: seq<KernelCall>, c: KernelCall, k: nat)
    requires InSteps(made, k) && StepOf(c) == StepAt(k + |made|)
    ensures InSteps(made + [c], k)
  {
  }

  lemma ExchangeMore(made: seq<KernelCall>, c: KernelCall, config: CaptureConfig)
    requires Exchange(made, config, OkStatus) && StepOf(c) == StepAt(1 + |made|)
    ensures Exchange(made + [c], config, PrepareCode(c, config, 0))
  {
    hide Granted, InSteps;
    GrantedMore(made, c, config, 0);
    NextStep(made, c, 1);
  }

  /** The calls that map the buffers, two for each. */
  predicate MapCalls(made: seq<KernelCall>, config: CaptureConfig, capacity: nat, code: StatusCode) {
    Granted(made, config, capacity, code) && InSteps(made, 7) && forall c :: c in made ==> !c.FormatGot?
  }

  lemma NoCalls(config: CaptureConfig, capacity: nat)
    ensures MapCalls([], config, capacity, OkStatus)
  {
  }

  lemma StepsBoth(made: seq<KernelCall>, more: seq<KernelCall>, k: nat)
    requires InSteps(made, k) && InSteps(more, k + |made|)
    ensures InSteps(made + more, k)
  {
    hide StepOf, StepAt;
    forall i | 0 <= i < |made + more|
      ensures StepOf((made + more)[i]) == StepAt(k + i)
    {
      if i < |made| {
        assert (made + more)[i] == made[i];
      } else {
        assert (made + more)[i] == more[i - |made|];
      }
    }
  }

  lemma MapBoth(made: seq<KernelCall>, more: seq<KernelCall>, config: CaptureConfig, capacity: nat, code: StatusCode)
    requires MapCalls(made, config, capacity, OkStatus) && |made| % 2 == 0 && MapCalls(more, config, capacity, code)
    ensures MapCalls(made + more, config, capacity, code)
  {
    hide Granted;
    GrantedBoth(made, more, config, capacity, code);
    assert InSteps(more, 7 + |made|);
    hide InSteps;
    StepsBoth(made, more, 7);
  }

  lemma QueryFollows(made: seq<KernelCall>, answer: Native, usable: bool, length: UInt32, config: CaptureConfig,
                     capacity: nat)
    requires MapCalls(made, config, capacity, OkStatus) && |made| % 2 == 0
    ensures MapCalls(made + [BufferQueried(answer, usable, length)], config, capacity,
                     if !answer.Done? then SystemCode(answer)
                     else if !usable || length < capacity then CapabilityMismatch else OkStatus)
  {
    hide Granted, InSteps;
    GrantedMore(made, BufferQueried(answer, usable, length), config, capacity);
    NextStep(made, BufferQueried(answer, usable, length), 7);
  }

  lemma MapFollows(made: seq<KernelCall>, answer: Native, config: CaptureConfig, capacity: nat)
    requires MapCalls(made, config, capacity, OkStatus) && |made| % 2 == 1
    ensures MapCalls(made + [Mapped(answer)], config, capacity, if answer.Done? then OkStatus else SystemCode(answer))
  {
    hide Granted, InSteps;
    GrantedMore(made, Mapped(answer), config, capacity);
    NextStep(made, Mapped(answer), 7);
  }

  /** The capacity of a buffer is what the driver gave for the size of the image. */
  predicate SizeIs(made: seq<KernelCall>, capacity: nat) {
    forall i :: 0 <= i < |made| && made[i].FormatGot? ==> made[i].size == capacity
  }

  /** The calls of a preparation from step `k` on, as far as they were granted. */
  predicate Preparation(made: seq<KernelCall>, k: nat, config: CaptureConfig, capacity: nat, code: StatusCode) {
    Granted(made, config, capacity, code) && InSteps(made, k) && SizeIs(made, capacity)
  }

  lemma SizeOf(made: seq<KernelCall>, config: CaptureConfig, code: StatusCode) returns (capacity: Size)
    requires InSteps(made, 1) && Granted(made, config, 0, code) && |made| <= 5
    ensures SizeIs(made, capacity) && Granted(made, config, capacity, code)
  {
    capacity := if |made| >= 3 then made[2].size else 0;
    forall i | 0 <= i < |made|
      ensures PrepareCode(made[i], config, capacity) == PrepareCode(made[i], config, 0)
    {
      assert StepOf(made[i]) < 7;
    }
  }

  lemma AfterExchange(made: seq<KernelCall>, config: CaptureConfig, code: StatusCode) returns (capacity: Size)
    requires Exchange(made, config, code) && |made| <= 5
    ensures Preparation(made, 1, config, capacity, code)
  {
    capacity := SizeOf(made, config, code);
  }

  /** Before the buffers, the capacity does not matter. */
  lemma GrantedAnyway(made: seq<KernelCall>, config: CaptureConfig, capacity: nat)
    requires Granted(made, config, 0, OkStatus) && |made| <= 5 && (InSteps(made, 1) || InSteps(made, 0))
    ensures Granted(made, config, capacity, OkStatus)
  {
    forall i | 0 <= i < |made|
      ensures PrepareCode(made[i], config, capacity).OkStatus?
    {
      assert PrepareCode(made[i], config, 0).OkStatus?;
      assert StepOf(made[i]) < 7;
    }
  }

  lemma Exchanged(made: seq<KernelCall>, config: CaptureConfig, capacity: nat)
    requires Exchange(made, config, OkStatus) && |made| <= 5 && SizeIs(made, capacity)
    ensures Preparation(made, 1, config, capacity, OkStatus)
  {
    GrantedAnyway(made, config, capacity);
  }

  lemma SizeStays(made: seq<KernelCall>, more: seq<KernelCall>, capacity: nat)
    requires SizeIs(made, capacity) && forall c :: c in more ==> !c.FormatGot?
    ensures SizeIs(made + more, capacity)
  {
  }

  lemma RequestFollows(made: seq<KernelCall>, answer: Native, usable: bool, count: UInt32, config: CaptureConfig,
                       capacity: nat)
    requires Preparation(made, 1, config, capacity, OkStatus) && |made| == 5
    ensures Preparation(made + [BuffersRequested(answer, usable, count)], 1, config, capacity,
                        if !answer.Done? then SystemCode(answer)
                        else if !usable || count < 2 then CapabilityMismatch else OkStatus)
  {
    var request := BuffersRequested(answer, usable, count);
    hide Granted, InSteps, SizeIs;
    GrantedMore(made, request, config, capacity);
    NextStep(made, request, 1);
    SizeStays(made, [request], capacity);
  }

  lemma MapsFollow(made: seq<KernelCall>, maps: seq<KernelCall>, config: CaptureConfig, capacity: nat, code: StatusCode)
    requires Preparation(made, 1, config, capacity, OkStatus) && |made| == 6 && MapCalls(maps, config, capacity, code)
    ensures Preparation(made + maps, 1, config, capacity, code)
  {
    hide Granted, InSteps, SizeIs;
    GrantedBoth(made, maps, config, capacity, code);
    StepsBoth(made, maps, 1);
    SizeStays(made, maps, capacity);
  }

  lemma OpenGranted(answer: Native, config: CaptureConfig)
    ensures Granted([Opened(answer)], config, 0, if answer.Done? then OkStatus else SystemCode(answer))
    ensures InSteps([Opened(answer)], 0) && SizeIs([Opened(answer)], 0)
    ensures Preparation([Opened(answer)], 0, config, 0, if answer.Done? then OkStatus else SystemCode(answer))
  {
  }

  lemma PrefixGranted(answer: Native, made: seq<KernelCall>, config: CaptureConfig, capacity: nat, code: StatusCode)
    requires answer.Done? && Preparation(made, 1, config, capacity, code)
    ensures Preparation([Opened(answer)] + made, 0, config, capacity, code)
  {
    OpenGranted(answer, config);
    GrantedAnyway([Opened(answer)], config, capacity);
    GrantedBoth([Opened(answer)], made, config, capacity, code);
    StepsBoth([Opened(answer)], made, 0);
  }

  /** What the calls that give something back come to, after `first`. */
  predicate GaveBack(made: seq<KernelCall>, first: StatusCode, code: StatusCode) {
    code == RecordFirst(first, FirstFailure(Codes(made)))
  }

  lemma GaveBackBoth(made: seq<KernelCall>, more: seq<KernelCall>, first: StatusCode, code: StatusCode,
                     last: StatusCode)
    requires GaveBack(made, first, code) && GaveBack(more, code, last)
    ensures GaveBack(made + more, first, last)
  {
    BothCalls(made, more);
  }

  lemma GaveBackAll(made: seq<KernelCall>, code: StatusCode)
    requires GaveBack(made, OkStatus, code)
    ensures code == FirstFailure(Codes(made))
  {
  }

  /** The calls of a reset: the stream, every mapping, the buffers and the descriptor, as far as they are held. */
  predicate ResetCalls(made: seq<KernelCall>, stops: bool, regions: nat, frees: bool, closes: bool) {
    var from := if stops then 1 else 0;
    var upto := from + regions;
    && |made| == upto + (if frees then 1 else 0) + (if closes then 1 else 0)
    && (stops ==> made[0].StreamStopped?) && (forall i :: from <= i < upto ==> made[i].Unmapped?)
    && (frees ==> made[upto].BuffersReleased?) && (closes ==> made[|made| - 1].Closed?)
  }

  /** What an attempt to give something back comes to. */
  function ReleaseCode(r: Native): StatusCode {
    if r.Done? then OkStatus else SystemCode(r)
  }

  lemma AllGiven(stop: seq<KernelCall>, unmap: seq<KernelCall>, free: seq<KernelCall>, close: seq<KernelCall>,
                 stopped: StatusCode, unmapped: StatusCode, freed: StatusCode, code: StatusCode)
    requires GaveBack(stop, OkStatus, stopped) && GaveBack(unmap, stopped, unmapped)
    requires GaveBack(free, unmapped, freed) && GaveBack(close, freed, code)
    ensures code == FirstFailure(Codes(stop + unmap + free + close))
  {
    hide GaveBack, FirstFailure, Codes;
    GaveBackBoth(stop, unmap, OkStatus, stopped, unmapped);
    GaveBackBoth(stop + unmap, free, OkStatus, unmapped, freed);
    GaveBackBoth(stop + unmap + free, close, OkStatus, freed, code);
    GaveBackAll(stop + unmap + free + close, code);
  }

  predicate Stops(made: seq<KernelCall>, held: bool) {
    if held then |made| == 1 && made[0].StreamStopped? else made == []
  }

  predicate Unmaps(made: seq<KernelCall>, held: nat) {
    |made| == held && forall c :: c in made ==> c.Unmapped?
  }

  predicate Frees(made: seq<KernelCall>, held: bool) {
    if held then |made| == 1 && made[0].BuffersReleased? else made == []
  }

  predicate Closes(made: seq<KernelCall>, held: bool) {
    if held then |made| == 1 && made[0].Closed? else made == []
  }

  lemma LastRegion(regions: seq<Region>)
    requires regions != []
    ensures multiset(regions) == multiset(regions[..|regions| - 1]) + multiset{regions[|regions| - 1]}
  {
    assert regions == regions[..|regions| - 1] + [regions[|regions| - 1]];
  }

  lemma NothingUnmapped(first: StatusCode)
    ensures Unmaps([], 0) && GaveBack([], first, first)
  {
  }

  lemma UnmapFollows(made: seq<KernelCall>, n: nat, r: Native, first: StatusCode, code: StatusCode)
    requires Unmaps(made, n) && GaveBack(made, first, code)
    ensures Unmaps(made + [Unmapped(r)], n + 1)
    ensures GaveBack(made + [Unmapped(r)], first, RecordFirst(code, ReleaseCode(r)))
  {
    OneMoreCall(made, Unmapped(r));
  }

  lemma ResetOrder(stop: seq<KernelCall>, unmap: seq<KernelCall>, free: seq<KernelCall>, close: seq<KernelCall>,
                   stops: bool, regions: nat, frees: bool, closes: bool)
    requires Stops(stop, stops) && Unmaps(unmap, regions) && Frees(free, frees) && Closes(close, closes)
    ensures ResetCalls(stop + unmap + free + close, stops, regions, frees, closes)
  {
    var made := stop + unmap + free + close;
    assert forall i :: |stop| <= i < |stop| + |unmap| ==> made[i] == unmap[i - |stop|];
  }

  lemma Concatenates(before: seq<KernelCall>, a: seq<KernelCall>, b: seq<KernelCall>, c: seq<KernelCall>,
                     d: seq<KernelCall>)
    ensures before + a + b + c + d == before + (a + b + c + d)
  {
  }

  function QueueCalls(n: nat): seq<KernelCall> {
    seq(n, _ => Queued(Done))
  }

  /** The calls of a start: every buffer is queued and then the stream started, up to a call that is refused. */
  predicate StartCalls(made: seq<KernelCall>, buffers: nat, code: StatusCode) {
    && 1 <= |made| <= buffers + 1 && made[..|made| - 1] == QueueCalls(|made| - 1)
    && var last := made[|made| - 1];
      && code == ReleaseCode(last.answer) && (code.OkStatus? ==> |made| == buffers + 1)
      && (if |made| == buffers + 1 then last.StreamStarted? else last.Queued?)
  }

  lemma StartFollows(n: nat, buffers: nat, answer: Native)
    requires n < buffers
    ensures QueueCalls(n) + [Queued(Done)] == QueueCalls(n + 1)
    ensures !answer.Done? ==> StartCalls(QueueCalls(n) + [Queued(answer)], buffers, SystemCode(answer))
  {
    assert (QueueCalls(n) + [Queued(answer)])[..n] == QueueCalls(n);
  }

  lemma StreamFollows(buffers: nat, answer: Native)
    ensures StartCalls(QueueCalls(buffers) + [StreamStarted(answer)], buffers, ReleaseCode(answer))
  {
    assert (QueueCalls(buffers) + [StreamStarted(answer)])[..buffers] == QueueCalls(buffers);
  }

  class V4L2System {
    const kernel: Kernel
    var fd: int
    var regions: seq<Region>
    var kernelBuffers: bool
    var negotiated: Option<NegotiatedFormat>
    var state: DeviceState

    /** Everything the kernel has given and not taken back is held in the fields. */
    ghost predicate Balanced()
      reads this, kernel
    {
      && kernel.descriptor == (if fd >= 0 then Some(fd) else None)
      && kernel.mapped == multiset(regions) && kernel.buffers == kernelBuffers
      && (fd < 0 ==> kernel.withDriver == {} && regions == [] && !kernelBuffers && !state.Running?)
    }

    /** Nothing is held: no descriptor, no mapping, no buffers in the kernel. */
    ghost predicate Released()
      reads this, kernel
    {
      && fd < 0 && regions == [] && !kernelBuffers && negotiated.None? && state.Created?
      && kernel.descriptor.None? && kernel.mapped == multiset{} && !kernel.buffers && kernel.withDriver == {}
    }

    /** A session is held: buffers that a whole picture fits in. */
    ghost predicate HoldsSession()
      reads this, kernel
    {
      && Balanced() && !state.Created? && fd >= 0 && kernelBuffers && |regions| >= 2 && negotiated.Some?
      && (forall i :: 0 <= i < |regions| ==> regions[i].length >= negotiated.value.totalCapacity)
      && var f := negotiated.value.format;
        && ValidDimensions(f.pixelFormat, f.width, f.height)
        && Describes(negotiated.value, f.pixelFormat, f.width, f.height, negotiated.value.totalCapacity)
    }

    /** A session is held, and the driver has buffers only while the stream runs. */
    ghost predicate Holds()
      reads this, kernel
    {
      HoldsSession() && (state.Prepared? ==> kernel.withDriver == {})
    }

    ghost predicate Valid()
      reads this, kernel
    {
      Released() || Holds()
    }

    constructor (kernel: Kernel)
      requires kernel.descriptor.None? && kernel.mapped == multiset{} && !kernel.buffers && kernel.withDriver == {}
      ensures this.kernel == kernel && Released()
    {
      this.kernel, fd, regions, kernelBuffers, negotiated, state := kernel, -1, [], false, None, Created;
    }

    /** The driver has all buffers. */
    ghost predicate AllQueued()
      reads this`regions, kernel`withDriver
    {
      forall i: nat :: i < |regions| ==> i in kernel.withDriver
    }

    /** Unmaps every region once, last region first. */
    method UnmapRegions(first: StatusCode) returns (code: StatusCode, ghost made: seq<KernelCall>)
      requires kernel.mapped == multiset(regions)
      modifies this`regions, kernel`calls, kernel`mapped
      ensures regions == [] && kernel.mapped == multiset{} && kernel.calls == old(kernel.calls) + made
      ensures Unmaps(made, |old(regions)|) && GaveBack(made, first, code)
    {
      code, made := first, [];
      hide GaveBack, Unmaps;
      NothingUnmapped(first);
      while regions != []
        invariant kernel.mapped == multiset(regions) && kernel.calls == old(kernel.calls) + made
        invariant |regions| <= |old(regions)|
        invariant Unmaps(made, |old(regions)| - |regions|) && GaveBack(made, first, code)
        decreases |regions|
      {
        var region := regions[|regions| - 1];
        LastRegion(regions);
        regions := regions[..|regions| - 1];
        var r := kernel.Unmap(region);
        UnmapFollows(made, |old(regions)| - |regions| - 1, r, first, code);
        code, made := RecordFirst(code, ReleaseCode(r)), made + [Unmapped(r)];
      }
    }

    method StopStream() returns (code: StatusCode, ghost made: seq<KernelCall>)
      modifies kernel`calls, kernel`withDriver
      ensures kernel.withDriver == {} || kernel.withDriver == old(kernel.withDriver)
      ensures kernel.calls == old(kernel.calls) + made && GaveBack(made, OkStatus, code)
      ensures Stops(made, state.Running? && fd >= 0)
    {
      code, made := OkStatus, [];
      if state.Running? && fd >= 0 {
        var r := kernel.StreamOff();
        OneMoreCall([], StreamStopped(r));
        assert [] + [StreamStopped(r)] == [StreamStopped(r)];
        code, made := RecordFirst(code, ReleaseCode(r)), [StreamStopped(r)];
      }
    }

    method FreeBuffers(first: StatusCode) returns (code: StatusCode, ghost made: seq<KernelCall>)
      requires kernel.buffers == kernelBuffers
      modifies this`kernelBuffers, kernel`calls, kernel`buffers
      ensures !kernelBuffers && !kernel.buffers && kernel.calls == old(kernel.calls) + made
      ensures GaveBack(made, first, code) && Frees(made, old(kernelBuffers))
    {
      code, made := first, [];
      if kernelBuffers {
        var r := kernel.ReleaseBuffers();
        OneMoreCall([], BuffersReleased(r));
        assert [] + [BuffersReleased(r)] == [BuffersReleased(r)];
        code, made := RecordFirst(code, ReleaseCode(r)), [BuffersReleased(r)];
        kernelBuffers := false;
      }
    }

    method CloseDescriptor(first: StatusCode) returns (code: StatusCode, ghost made: seq<KernelCall>)
      requires kernel.descriptor == (if fd >= 0 then Some(fd) else None) && (fd < 0 ==> kernel.withDriver == {})
      modifies this`fd, kernel`calls, kernel`descriptor, kernel`withDriver
      ensures fd < 0 && kernel.descriptor.None? && kernel.withDriver == {} && kernel.calls == old(kernel.calls) + made
      ensures GaveBack(made, first, code) && Closes(made, old(fd) >= 0)
    {
      code, made := first, [];
      if fd >= 0 {
        var descriptor := fd;
        fd := -1;
        var r := kernel.Close(descriptor);
        OneMoreCall([], Closed(r));
        assert [] + [Closed(r)] == [Closed(r)];
        code, made := RecordFirst(code, ReleaseCode(r)), [Closed(r)];
      }
    }

    /**
     * Gives everything back, whatever fails on the way: the stream, every mapping, the buffers and the descriptor,
     * each by one attempt. The first of the answers that is a failure is the one returned.
     */
    method Reset() returns (code: StatusCode, ghost made: seq<KernelCall>)
      requires Balanced()
      modifies this, kernel
      ensures Released() && kernel.calls == old(kernel.calls) + made && code == FirstFailure(Codes(made))
      ensures ResetCalls(made, old(state).Running? && old(fd) >= 0, |old(regions)|, old(kernelBuffers), old(fd) >= 0)
    {
      hide GaveBack, FirstFailure, Codes, ResetCalls, Stops, Unmaps, Frees, Closes;
      var stopped, unmapped, freed;
      ghost var stopCalls, unmapCalls, freeCalls, closeCalls;
      stopped, stopCalls := StopStream();
      state := Prepared;
      unmapped, unmapCalls := UnmapRegions(stopped);
      freed, freeCalls := FreeBuffers(unmapped);
      code, closeCalls := CloseDescriptor(freed);
      negotiated, state := None, Created;
      made := stopCalls + unmapCalls + freeCalls + closeCalls;
      AllGiven(stopCalls, unmapCalls, freeCalls, closeCalls, stopped, unmapped, freed, code);
      ResetOrder(stopCalls, unmapCalls, freeCalls, closeCalls, old(state).Running? && old(fd) >= 0, |old(regions)|,
                 old(kernelBuffers), old(fd) >= 0);
      Concatenates(old(kernel.calls), stopCalls, unmapCalls, freeCalls, closeCalls);
    }

    /** Gives back what an unfinished preparation holds, and answers with the failure that ended it. */
    method Rollback(first: StatusCode) returns (code: StatusCode)
      requires Balanced()
      modifies this, kernel
      ensures Released() && code == first && old(kernel.calls) <= kernel.calls
    {
      var _, _ := Reset();
      return first;
    }

    /** The exchange about the format: the driver may not change it, and its stride and size must make a layout. */
    method Negotiate(config: CaptureConfig) returns (r: Result<NegotiatedFormat>, ghost made: seq<KernelCall>)
      requires ValidDimensions(config.format, config.width, config.height)
      modifies kernel`calls
      ensures kernel.calls == old(kernel.calls) + made && |made| <= 5
      ensures Exchange(made, config, if r.Success? then OkStatus else r.code) && (r.Failure? ==> !r.code.OkStatus?)
      ensures r.Success? ==>
                && |made| == 5 && SizeIs(made, r.value.totalCapacity)
                && Describes(r.value, config.format, config.width, config.height, r.value.totalCapacity)
    {
      hide RequiredBytes, StrideFits, Laid, Exchange;
      NothingExchanged(config);
      var queried, capable := kernel.QueryCapability();
      ExchangeMore([], CapabilityQueried(queried, capable), config);
      made := [] + [CapabilityQueried(queried, capable)];
      if !queried.Done? {
        return Failure(SystemCode(queried)), made;
      }
      if !capable {
        return Failure(CapabilityMismatch), made;
      }
      var proposed := kernel.SetFormat();
      ExchangeMore(made, FormatSet(proposed), config);
      made := made + [FormatSet(proposed)];
      if !proposed.Done? {
        return Failure(SystemCode(proposed)), made;
      }
      var got, kept, stride, size := kernel.GetFormat();
      ExchangeMore(made, FormatGot(got, kept, stride, size), config);
      made := made + [FormatGot(got, kept, stride, size)];
      if !got.Done? {
        return Failure(SystemCode(got)), made;
      }
      if !kept {
        return Failure(CapabilityMismatch), made;
      }
      r := MakeNegotiatedFormat(config.format, config.width, config.height, stride, size);
      if r.Failure? {
        return r, made;
      }
      var interval := kernel.SetInterval();
      ExchangeMore(made, IntervalSet(interval), config);
      made := made + [IntervalSet(interval)];
      if !interval.Done? {
        return Failure(SystemCode(interval)), made;
      }
      var answered, same := kernel.GetInterval();
      ExchangeMore(made, IntervalGot(answered, same), config);
      made := made + [IntervalGot(answered, same)];
      if !answered.Done? {
        return Failure(SystemCode(answered)), made;
      }
      if !same {
        return Failure(CapabilityMismatch), made;
      }
    }

    /** Maps the next buffer, if it holds a picture. */
    method MapOne(config: CaptureConfig, capacity: Size) returns (code: StatusCode, ghost made: seq<KernelCall>)
      requires Balanced() && fd >= 0
      modifies this`regions, kernel`calls, kernel`mapped
      ensures Balanced() && kernel.calls == old(kernel.calls) + made && MapCalls(made, config, capacity, code)
      ensures if code.OkStatus? then
                && |made| == 2 && |regions| == |old(regions)| + 1 && regions[..|regions| - 1] == old(regions)
                && regions[|regions| - 1].length >= capacity
              else regions == old(regions)
    {
      hide MapCalls;
      NoCalls(config, capacity);
      var queried, usable, length := kernel.QueryBuffer();
      QueryFollows([], queried, usable, length, config, capacity);
      made := [] + [BufferQueried(queried, usable, length)];
      if !queried.Done? {
        return SystemCode(queried), made;
      }
      if !usable || length < capacity {
        return CapabilityMismatch, made;
      }
      var mapped, region := kernel.Map(length);
      MapFollows(made, mapped, config, capacity);
      made := made + [Mapped(mapped)];
      if !mapped.Done? {
        return SystemCode(mapped), made;
      }
      regions := regions + [region];
      return OkStatus, made;
    }

    /** Maps every buffer; on a failure, those that were mapped are still held. */
    method MapBuffers(count: nat, config: CaptureConfig, capacity: Size)
      returns (code: StatusCode, ghost made: seq<KernelCall>)
      requires Balanced() && fd >= 0 && kernelBuffers && regions == [] && kernel.withDriver == {} && !state.Running?
      modifies this`regions, kernel`calls, kernel`mapped
      ensures Balanced() && kernel.calls == old(kernel.calls) + made && MapCalls(made, config, capacity, code)
      ensures code.OkStatus? ==>
                && |regions| == count && |made| == 2 * count
                && forall i :: 0 <= i < |regions| ==> regions[i].length >= capacity
    {
      made, code := [], OkStatus;
      hide MapCalls;
      NoCalls(config, capacity);
      for index := 0 to count
        invariant Balanced() && |regions| == index
        invariant forall i :: 0 <= i < |regions| ==> regions[i].length >= capacity
        invariant kernel.calls == old(kernel.calls) + made && |made| == 2 * index
        invariant MapCalls(made, config, capacity, OkStatus)
      {
        ghost var one, before := [], made;
        code, one := MapOne(config, capacity);
        MapBoth(before, one, config, capacity, code);
        made := before + one;
        if !code.OkStatus? {
          return;
        }
      }
      return OkStatus, made;
    }

    /** The part of a preparation that follows the opening of the device. */
    method TakeSession(config: CaptureConfig)
      returns (code: StatusCode, ghost made: seq<KernelCall>, ghost capacity: Size)
      requires ValidDimensions(config.format, config.width, config.height)
      requires Balanced() && state.Created? && fd >= 0 && regions == [] && !kernelBuffers && kernel.withDriver == {}
      modifies this, kernel
      ensures old(kernel.calls) + made <= kernel.calls
      ensures code.OkStatus? ==>
                && Holds() && state.Prepared? && kernel.calls == old(kernel.calls) + made
                && |made| == 6 + 2 * |regions| && negotiated.value.totalCapacity == capacity
                && Describes(negotiated.value, config.format, config.width, config.height, capacity)
      ensures !code.OkStatus? ==> Released()
      ensures Preparation(made, 1, config, capacity, code)
    {
      hide Preparation, Exchange, MapCalls, SizeIs, Laid;
      var format, requested, usable, count;
      ghost var maps;
      format, made := Negotiate(config);
      if format.Failure? {
        capacity := AfterExchange(made, config, format.code);
        code := Rollback(format.code);
        return;
      }
      capacity := format.value.totalCapacity;
      Exchanged(made, config, capacity);
      requested, usable, count := kernel.RequestBuffers();
      RequestFollows(made, requested, usable, count, config, capacity);
      made := made + [BuffersRequested(requested, usable, count)];
      if !requested.Done? {
        code := Rollback(SystemCode(requested));
        return;
      }
      kernelBuffers := true;
      if !usable || count < 2 {
        code := Rollback(CapabilityMismatch);
        return;
      }
      code, maps := MapBuffers(count, config, format.value.totalCapacity);
      MapsFollow(made, maps, config, capacity, code);
      made := made + maps;
      if !code.OkStatus? {
        code := Rollback(code);
        return;
      }
      negotiated, state := Some(format.value), Prepared;
    }

    /** The part of a preparation that follows the checks. */
    method OpenSession(config: CaptureConfig)
      returns (code: StatusCode, ghost made: seq<KernelCall>, ghost capacity: Size)
      requires Released() && ValidDimensions(config.format, config.width, config.height)
      modifies this, kernel
      ensures old(kernel.calls) + made <= kernel.calls
      ensures code.OkStatus? ==>
                && Holds() && state.Prepared? && kernel.calls == old(kernel.calls) + made
                && |made| == 7 + 2 * |regions| && negotiated.value.totalCapacity == capacity
                && Describes(negotiated.value, config.format, config.width, config.height, capacity)
      ensures !code.OkStatus? ==> Released()
      ensures Preparation(made, 0, config, capacity, code)
    {
      hide Preparation, Describes;
      var answer;
      answer, fd := kernel.Open();
      ghost var rest;
      OpenGranted(answer, config);
      if fd < 0 {
        code := Rollback(SystemCode(answer));
        return code, [Opened(answer)], 0;
      }
      code, rest, capacity := TakeSession(config);
      PrefixGranted(answer, rest, config, capacity, code);
      made := [Opened(answer)] + rest;
      assert old(kernel.calls) + made == old(kernel.calls) + [Opened(answer)] + rest;
    }

    /**
     * Opens the device and takes all that a session needs, in order. It fails exactly if the kernel does not grant
     * one of the calls that are `made` for it, with the code for that one, and then holds nothing in the end.
     */
    method Prepare(config: CaptureConfig) returns (code: StatusCode, ghost made: seq<KernelCall>, ghost capacity: Size)
      requires Valid() && config.width > 0 && config.height > 0
      requires config.format in {Yuv420p, Nv12, Yuyv422} ==> ValidDimensions(config.format, config.width, config.height)
      modifies this, kernel
      ensures old(kernel.calls) + made <= kernel.calls
      ensures old(state).Created? && code.OkStatus? ==>
                && Holds() && state.Prepared? && kernel.calls == old(kernel.calls) + made
                && |made| == 7 + 2 * |regions| && negotiated.value.totalCapacity == capacity
                && Describes(negotiated.value, config.format, config.width, config.height, capacity)
      ensures old(state).Created? && !code.OkStatus? ==> Released()
      ensures old(state).Created? ==>
                if config.format in {Yuv420p, Nv12, Yuyv422}
                then Preparation(made, 0, config, capacity, code)
                else code.CapabilityMismatch? && made == []
      ensures !old(state).Created? ==> code.InvalidState? && Valid() && state == old(state) && regions == old(regions)
    {
      made, capacity := [], 0;
      if !state.Created? || fd >= 0 || kernelBuffers || regions != [] {
        return InvalidState, made, capacity;
      }
      if config.format.UnknownFormat? || config.format.Rgb24? {
        return CapabilityMismatch, made, capacity;
      }
      hide Preparation, Describes;
      code, made, capacity := OpenSession(config);
    }

    /** The stream was stopped and the session kept, or given up if the kernel refused that. */
    ghost predicate StopsOrGivesUp(before: seq<KernelCall>)
      reads this, kernel
    {
      exists r :: before + [StreamStopped(r)] <= kernel.calls && (state.Prepared? <==> r.Done?)
    }

    /** Takes back the buffers already queued; if the driver refuses, the whole session is given up. */
    method RollbackStart(first: StatusCode, queued: nat) returns (code: StatusCode)
      requires HoldsSession() && state.Prepared? && !first.OkStatus? && (queued == 0 ==> kernel.withDriver == {})
      modifies this, kernel
      ensures Valid() && !state.Running? && kernel.withDriver == {} && code == first
      ensures old(kernel.calls) <= kernel.calls
      ensures if queued == 0 then kernel.calls == old(kernel.calls) else StopsOrGivesUp(old(kernel.calls))
    {
      if queued == 0 {
        return first;
      }
      var off := kernel.StreamOff();
      if !off.Done? {
        var _, _ := Reset();
      }
      return first;
    }

    /** Hands the buffers to the driver, one after the other. */
    method QueueAll() returns (code: StatusCode, queued: nat, ghost made: seq<KernelCall>)
      requires HoldsSession() && state.Prepared? && kernel.withDriver == {}
      modifies kernel`calls, kernel`withDriver
      ensures HoldsSession() && kernel.calls == old(kernel.calls) + made
      ensures forall i: nat :: i in kernel.withDriver <==> i < queued
      ensures if code.OkStatus? then queued == |regions| && made == QueueCalls(|regions|)
              else StartCalls(made, |regions|, code)
    {
      made, queued := [], 0;
      hide StartCalls;
      for index := 0 to |regions|
        invariant HoldsSession() && queued == index
        invariant forall i: nat :: i in kernel.withDriver <==> i < index
        invariant kernel.calls == old(kernel.calls) + made && made == QueueCalls(index)
      {
        var answer := kernel.Queue(index);
        StartFollows(index, |regions|, answer);
        made := made + [Queued(answer)];
        if !answer.Done? {
          return SystemCode(answer), queued, made;
        }
        queued := queued + 1;
      }
      return OkStatus, queued, made;
    }

    /** The part of a start that follows the checks. */
    method Launch() returns (code: StatusCode, ghost made: seq<KernelCall>)
      requires Holds() && state.Prepared?
      modifies this, kernel
      ensures Valid() && old(kernel.calls) + made <= kernel.calls
      ensures if code.OkStatus? then state.Running? && AllQueued() else !state.Running? && kernel.withDriver == {}
      ensures StartCalls(made, |old(regions)|, code) && (code.OkStatus? ==> kernel.calls == old(kernel.calls) + made)
    {
      hide StartCalls, Describes;
      var queued;
      code, queued, made := QueueAll();
      if !code.OkStatus? {
        code := RollbackStart(code, queued);
        return;
      }
      var on := kernel.StreamOn();
      StreamFollows(|regions|, on);
      made := made + [StreamStarted(on)];
      if !on.Done? {
        code := RollbackStart(SystemCode(on), |regions|);
        return;
      }
      state := Running;
      return OkStatus, made;
    }

    /**
     * Hands all buffers to the driver and starts the stream. It fails exactly if the kernel refuses one of the calls
     * that are `made` for it, with the code for that one, and the driver then has none of the buffers.
     */
    method Start() returns (code: StatusCode, ghost made: seq<KernelCall>)
      requires Valid()
      modifies this, kernel
      ensures Valid() && old(kernel.calls) + made <= kernel.calls
      ensures old(state).Prepared? && code.OkStatus? ==> state.Running? && AllQueued()
      ensures old(state).Prepared? && !code.OkStatus? ==> !state.Running? && kernel.withDriver == {}
      ensures old(state).Prepared? ==> StartCalls(made, |old(regions)|, code)
      ensures code.OkStatus? ==> kernel.calls == old(kernel.calls) + made
      ensures old(state).Running? ==>
                code.OkStatus? && state.Running? && kernel.withDriver == old(kernel.withDriver) && made == []
      ensures old(state).Created? ==> code.InvalidState? && Released() && made == []
    {
      made := [];
      if state.Running? {
        return OkStatus, made;
      }
      if !state.Prepared? || fd < 0 || !kernelBuffers {
        return InvalidState, made;
      }
      code, made := Launch();
    }

    /**
     * Takes a filled buffer from the driver. A running stream is asked exactly once, and its answer says what comes
     * of it.
     */
    method Dequeue() returns (r: Result<Dequeued>, ghost answer: Native, ghost buffer: Dequeued)
      requires Valid()
      modifies kernel`calls, kernel`withDriver
      ensures Valid()
      ensures !state.Running? ==> r == Failure(InvalidState) && kernel.calls == old(kernel.calls)
      ensures state.Running? ==>
                && kernel.calls == old(kernel.calls) + [DequeuedOne(answer, buffer)]
                && r == (if !answer.Done? then Failure(DequeueCode(answer))
                         else if buffer.index >= |regions| then Failure(CorruptData) else Success(buffer))
      ensures r.Success? ==> kernel.withDriver == old(kernel.withDriver) - {r.value.index}
      ensures r.Failure? && old(AllQueued()) ==> AllQueued()
    {
      answer, buffer := Done, Dequeued(0, 0, false, 0, None);
      if !state.Running? || fd < 0 {
        return Failure(InvalidState), answer, buffer;
      }
      var dequeued, d := kernel.Dequeue();
      answer, buffer := dequeued, d;
      if !dequeued.Done? {
        return Failure(DequeueCode(dequeued)), answer, buffer;
      }
      if d.index >= |regions| {
        return Failure(CorruptData), answer, buffer;
      }
      return Success(d), answer, buffer;
    }

    /**
     * Gives a buffer to the driver again; it is with the driver exactly if that succeeds. The driver is asked
     * exactly if the stream runs and the buffer is one of this session, and its answer gives the code.
     */
    method Requeue(index: nat) returns (code: StatusCode, ghost answer: Option<Native>)
      requires Valid()
      modifies kernel`calls, kernel`withDriver
      ensures Valid() && !code.WouldBlock? && !code.EndOfStream?
      ensures answer.Some? <==> state.Running? && index < |regions|
      ensures kernel.calls == old(kernel.calls) + if answer.Some? then [Queued(answer.value)] else []
      ensures code == match answer
                      case Some(r) => ReleaseCode(r)
                      case None => if state.Running? then InvalidArgument else InvalidState
      ensures code.OkStatus? ==>
                state.Running? && index < |regions| && kernel.withDriver == old(kernel.withDriver) + {index}
      ensures !code.OkStatus? ==> kernel.withDriver == old(kernel.withDriver)
    {
      answer := None;
      if !state.Running? || fd < 0 {
        return InvalidState, answer;
      }
      if index >= |regions| {
        return InvalidArgument, answer;
      }
      var queued := kernel.Queue(index);
      return ReleaseCode(queued), Some(queued);
    }

    /** Stops the stream, which takes all buffers from the driver, exactly unless the kernel refuses. */
    method Stop() returns (code: StatusCode)
      requires Valid()
      modifies this`state, kernel`calls, kernel`withDriver
      ensures Valid()
      ensures !old(state).Running? ==> code.OkStatus? && kernel.calls == old(kernel.calls)
      ensures old(state).Running? ==>
                exists r :: kernel.calls == old(kernel.calls) + [StreamStopped(r)] && code == ReleaseCode(r)
      ensures code.OkStatus? ==> !state.Running? && kernel.withDriver == {}
      ensures !code.OkStatus? ==> state == old(state) && kernel.withDriver == old(kernel.withDriver)
    {
      if !state.Running? {
        return OkStatus;
      }
      var off := kernel.StreamOff();
      if !off.Done? {
        return SystemCode(off);
      }
      state := Prepared;
      return OkStatus;
    }
  }
}

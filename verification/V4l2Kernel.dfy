/** The kernel below the video device: every call may be answered in any way, and every answer is recorded. */
module V4l2Kernel {
  import opened Statuses
  import opened SizeArithmetic
  import opened V4l2Layout

  datatype Native = Done | Missing | Gone | OutOfMemory | TryAgain | InputOutput | OtherError

  function SystemCode(r: Native): (code: StatusCode)
    ensures !code.OkStatus? && !code.WouldBlock? && !code.EndOfStream?
  {
    match r
    case Missing => NotFound
    case Gone => DeviceLost
    case OutOfMemory => ResourceExhausted
    case _ => IoError
  }

  function DequeueCode(r: Native): (code: StatusCode)
    ensures !code.OkStatus?
  {
    match r
    case TryAgain => WouldBlock
    case InputOutput => DeviceLost
    case _ => SystemCode(r)
  }

  /** A buffer of the device in the memory of the program. */
  datatype Region = Region(address: int, length: Size)

  datatype Dequeued = Dequeued(index: UInt32, bytesUsed: UInt32, error: bool, sequence: UInt32, timestamp: Option<int>)

  datatype KernelCall =
    | Opened(answer: Native)
    | Closed(answer: Native)
    | CapabilityQueried(answer: Native, capable: bool)
    | FormatSet(answer: Native)
    | FormatGot(answer: Native, kept: bool, stride: UInt32, size: UInt32)
    | IntervalSet(answer: Native)
    | IntervalGot(answer: Native, kept: bool)
    | BuffersRequested(answer: Native, usable: bool, count: UInt32)
    | BuffersReleased(answer: Native)
    | BufferQueried(answer: Native, usable: bool, length: UInt32)
    | Mapped(answer: Native)
    | Unmapped(answer: Native)
    | Queued(answer: Native)
    | DequeuedOne(answer: Native, buffer: Dequeued)
    | StreamStarted(answer: Native)
    | StreamStopped(answer: Native)

  /** What the answer to one call comes to: an error has its code, and so has a driver that offers something else. */
  function CallCode(c: KernelCall): StatusCode {
    if !c.answer.Done? then (if c.DequeuedOne? then DequeueCode(c.answer) else SystemCode(c.answer))
    else
      match c
      case CapabilityQueried(_, capable) => if capable then OkStatus else CapabilityMismatch
      case FormatGot(_, kept, _, _) => if kept then OkStatus else CapabilityMismatch
      case IntervalGot(_, kept) => if kept then OkStatus else CapabilityMismatch
      case BuffersRequested(_, usable, count) => if usable && count >= 2 then OkStatus else CapabilityMismatch
      case BufferQueried(_, usable, _) => if usable then OkStatus else CapabilityMismatch
      case _ => OkStatus
  }

  function Codes(calls: seq<KernelCall>): (codes: seq<StatusCode>)
    ensures |codes| == |calls|
  {
    seq(|calls|, i requires 0 <= i < |calls| => CallCode(calls[i]))
  }

  lemma OneMoreCall(calls: seq<KernelCall>, c: KernelCall)
    ensures FirstFailure(Codes(calls + [c])) == RecordFirst(FirstFailure(Codes(calls)), CallCode(c))
  {
    assert Codes(calls + [c]) == Codes(calls) + [CallCode(c)];
    OneMoreAnswer(Codes(calls), CallCode(c));
  }

  lemma BothCalls(calls: seq<KernelCall>, more: seq<KernelCall>)
    ensures FirstFailure(Codes(calls + more)) == RecordFirst(FirstFailure(Codes(calls)), FirstFailure(Codes(more)))
  {
    assert Codes(calls + more) == Codes(calls) + Codes(more);
    FirstOfBoth(Codes(calls), Codes(more));
  }

  /**
   * What the kernel has given and was not yet asked to take back; every call may answer anything. A session never
   * asks for what it holds already, and gives back only what it holds: no attempt is made twice, nor without need.
   */
  class Kernel {
    ghost var calls: seq<KernelCall>
    ghost var descriptor: Option<int>
    ghost var mapped: multiset<Region>
    ghost var buffers: bool
    /** The buffers that the driver may fill. */
    ghost var withDriver: set<nat>

    constructor ()
      ensures calls == [] && descriptor.None? && mapped == multiset{} && !buffers && withDriver == {}
    {
      calls, descriptor, mapped, buffers, withDriver := [], None, multiset{}, false, {};
    }

    method Open() returns (r: Native, fd: int)
      requires descriptor.None?
      modifies this`calls, this`descriptor
      ensures calls == old(calls) + [Opened(r)] && (r.Done? <==> fd >= 0)
      ensures descriptor == if fd >= 0 then Some(fd) else None
    {
      r, fd := *, *;
      if fd >= 0 {
        r, descriptor := Done, Some(fd);
      } else if r.Done? {
        r := OtherError;
      }
      calls := calls + [Opened(r)];
    }

    method Close(fd: int) returns (r: Native)
      requires descriptor == Some(fd)
      modifies this`calls, this`descriptor, this`withDriver
      ensures calls == old(calls) + [Closed(r)] && descriptor.None? && withDriver == {}
    {
      r := *;
      calls, descriptor, withDriver := calls + [Closed(r)], None, {};
    }

    method QueryCapability() returns (r: Native, capable: bool)
      modifies this`calls
      ensures calls == old(calls) + [CapabilityQueried(r, capable)]
    {
      r, capable := *, *;
      calls := calls + [CapabilityQueried(r, capable)];
    }

    method SetFormat() returns (r: Native)
      modifies this`calls
      ensures calls == old(calls) + [FormatSet(r)]
    {
      r := *;
      calls := calls + [FormatSet(r)];
    }

    method Any32() returns (n: UInt32)
    {
      var any: int := *;
      return if 0 <= any < 0x1_0000_0000 then any else 0;
    }

    /** Whether the driver kept the format and the dimensions, and its stride and image size. */
    method GetFormat() returns (r: Native, kept: bool, stride: UInt32, size: UInt32)
      modifies this`calls
      ensures calls == old(calls) + [FormatGot(r, kept, stride, size)]
    {
      r, kept := *, *;
      stride := Any32();
      size := Any32();
      calls := calls + [FormatGot(r, kept, stride, size)];
    }

    method SetInterval() returns (r: Native)
      modifies this`calls
      ensures calls == old(calls) + [IntervalSet(r)]
    {
      r := *;
      calls := calls + [IntervalSet(r)];
    }

    method GetInterval() returns (r: Native, kept: bool)
      modifies this`calls
      ensures calls == old(calls) + [IntervalGot(r, kept)]
    {
      r, kept := *, *;
      calls := calls + [IntervalGot(r, kept)];
    }

    method RequestBuffers() returns (r: Native, usable: bool, count: UInt32)
      requires !buffers
      modifies this`calls, this`buffers
      ensures calls == old(calls) + [BuffersRequested(r, usable, count)] && (buffers <==> r.Done?)
    {
      r, usable := *, *;
      count := Any32();
      calls, buffers := calls + [BuffersRequested(r, usable, count)], r.Done?;
    }

    method ReleaseBuffers() returns (r: Native)
      requires buffers
      modifies this`calls, this`buffers
      ensures calls == old(calls) + [BuffersReleased(r)] && !buffers
    {
      r := *;
      calls, buffers := calls + [BuffersReleased(r)], false;
    }

    method QueryBuffer() returns (r: Native, usable: bool, length: UInt32)
      modifies this`calls
      ensures calls == old(calls) + [BufferQueried(r, usable, length)]
    {
      r, usable := *, *;
      length := Any32();
      calls := calls + [BufferQueried(r, usable, length)];
    }

    method Map(length: Size) returns (r: Native, region: Region)
      modifies this`calls, this`mapped
      ensures calls == old(calls) + [Mapped(r)] && region.length == length
      ensures mapped == if r.Done? then old(mapped) + multiset{region} else old(mapped)
    {
      var address: int := *;
      r, region := *, Region(address, length);
      calls := calls + [Mapped(r)];
      if r.Done? {
        mapped := mapped + multiset{region};
      }
    }

    method Unmap(region: Region) returns (r: Native)
      requires region in mapped
      modifies this`calls, this`mapped
      ensures calls == old(calls) + [Unmapped(r)] && mapped == old(mapped) - multiset{region}
    {
      r := *;
      calls, mapped := calls + [Unmapped(r)], mapped - multiset{region};
    }

    method Queue(i: nat) returns (r: Native)
      modifies this`calls, this`withDriver
      ensures calls == old(calls) + [Queued(r)]
      ensures withDriver == if r.Done? then old(withDriver) + {i} else old(withDriver)
    {
      r := *;
      calls := calls + [Queued(r)];
      if r.Done? {
        withDriver := withDriver + {i};
      }
    }

    method Dequeue() returns (r: Native, d: Dequeued)
      modifies this`calls, this`withDriver
      ensures calls == old(calls) + [DequeuedOne(r, d)]
      ensures withDriver == if r.Done? then old(withDriver) - {d.index} else old(withDriver)
    {
      var error: bool, timestamp: Option<int> := *, *;
      r := *;
      var index := Any32();
      var bytes := Any32();
      var sequence := Any32();
      d := Dequeued(index, bytes, error, sequence, timestamp);
      calls := calls + [DequeuedOne(r, d)];
      if r.Done? {
        withDriver := withDriver - {d.index};
      }
    }

    method StreamOn() returns (r: Native)
      modifies this`calls
      ensures calls == old(calls) + [StreamStarted(r)]
    {
      r := *;
      calls := calls + [StreamStarted(r)];
    }

    /** Stopping the stream takes all buffers back from the driver. */
    method StreamOff() returns (r: Native)
      modifies this`calls, this`withDriver
      ensures calls == old(calls) + [StreamStopped(r)]
      ensures withDriver == if r.Done? then {} else old(withDriver)
    {
      r := *;
      calls := calls + [StreamStopped(r)];
      if r.Done? {
        withDriver := {};
      }
    }
  }
}

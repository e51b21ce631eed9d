/** Video formats: which plane layouts describe a picture of a given pixel format and size. */
module VideoFormats {
  import opened Statuses
  import opened SizeArithmetic

  datatype PixelFormat = UnknownFormat | Yuyv422 | Rgb24 | Nv12 | Yuv420p

  datatype MemoryDomain = Cpu | Mmap | DmaBuf | DeviceOpaque

  /** Colour metadata is carried along and compared, never interpreted. */
  datatype Color = Color(range: nat, primaries: nat, transfer: nat, matrix: nat)

  datatype Plane = Plane(offset: Size, size: Size, stride: Size)

  datatype FormatFields = FormatFields(
    pixelFormat: PixelFormat, width: Int32, height: Int32, domain: MemoryDomain, planes: seq<Plane>, color: Color)

  predicate Addressable(p: Plane) {
    p.offset + p.size <= SIZE_MAXIMUM
  }

  predicate Overlap(p: Plane, q: Plane) {
    p.offset < q.offset + q.size && q.offset < p.offset + p.size
  }

  predicate Disjoint(planes: seq<Plane>) {
    && (forall i :: 0 <= i < |planes| ==> Addressable(planes[i]))
    && (forall i, j :: 0 <= i < j < |planes| ==> !Overlap(planes[j], planes[i]))
  }

  predicate SubsamplesEvenly(format: PixelFormat, width: Int32, height: Int32) {
    match format
    case UnknownFormat | Rgb24 => true
    case Yuyv422 => width % 2 == 0
    case Nv12 | Yuv420p => width % 2 == 0 && height % 2 == 0
  }

  /** The plane has `rows` rows of at least `bytes` bytes each. */
  predicate Holds(p: Plane, bytes: nat, rows: nat) {
    p.stride >= bytes && p.size >= p.stride * rows
  }

  predicate HoldsPicture(format: PixelFormat, width: nat, height: nat, planes: seq<Plane>) {
    match format
    case UnknownFormat => false
    case Yuyv422 => |planes| == 1 && Holds(planes[0], 2 * width, height)
    case Rgb24 => |planes| == 1 && Holds(planes[0], 3 * width, height)
    case Nv12 =>
      |planes| == 2 && Holds(planes[0], width, height) && Holds(planes[1], width, height / 2)
    case Yuv420p =>
      && |planes| == 3 && Holds(planes[0], width, height)
      && Holds(planes[1], width / 2, height / 2) && Holds(planes[2], width / 2, height / 2)
  }

  function FormatStatus(f: FormatFields): StatusCode {
    if f.width <= 0 || f.height <= 0 || !Disjoint(f.planes) then InvalidArgument
    else if !SubsamplesEvenly(f.pixelFormat, f.width, f.height) then Unsupported
    else if !HoldsPicture(f.pixelFormat, f.width, f.height, f.planes) then InvalidArgument
    else OkStatus
  }

  /** A format object exists only if its creation succeeded. */
  type VideoFormat = f: FormatFields | FormatStatus(f).OkStatus?
    witness FormatFields(Rgb24, 1, 1, Cpu, [Plane(0, 3, 3)], Color(0, 0, 0, 0))

  function ValidatePlane(plane: Plane, minimumStride: Size, rows: Size): (code: StatusCode)
    ensures code == if Holds(plane, minimumStride, rows) then OkStatus else InvalidArgument
  {
    ProductFits(rows, plane.stride);
    if plane.stride < minimumStride then InvalidArgument
    else if rows != 0 && plane.stride > SIZE_MAXIMUM / rows then InvalidArgument
    else if plane.size < plane.stride * rows then InvalidArgument
    else OkStatus
  }

  method ValidatePlaneRanges(planes: seq<Plane>) returns (code: StatusCode)
    ensures code == if Disjoint(planes) then OkStatus else InvalidArgument
  {
    for index := 0 to |planes|
      invariant Disjoint(planes[..index])
    {
      var plane := planes[index];
      if plane.offset > SIZE_MAXIMUM - plane.size {
        return InvalidArgument;
      }
      var end := plane.offset + plane.size;
      for previous := 0 to index
        invariant forall i :: 0 <= i < previous ==> !Overlap(plane, planes[i])
      {
        var other := planes[previous];
        if other.offset > SIZE_MAXIMUM - other.size {
          return InvalidArgument;
        }
        if plane.offset < other.offset + other.size && other.offset < end {
          return InvalidArgument;
        }
      }
      assert planes[..index + 1] == planes[..index] + [plane];
    }
    assert planes[..|planes|] == planes;
    return OkStatus;
  }

  method ValidateFormat(format: PixelFormat, width: Int32, height: Int32, planes: seq<Plane>) returns (code: StatusCode)
    ensures forall domain, color ::
              code == FormatStatus(FormatFields(format, width, height, domain, planes, color))
  {
    if width <= 0 || height <= 0 {
      return InvalidArgument;
    }
    code := ValidatePlaneRanges(planes);
    if !code.OkStatus? {
      return code;
    }
    match format {
      case Yuyv422 =>
        if width % 2 != 0 {
          return Unsupported;
        }
        if |planes| != 1 {
          return InvalidArgument;
        }
        return ValidatePlane(planes[0], width * 2, height);
      case Rgb24 =>
        if |planes| != 1 {
          return InvalidArgument;
        }
        return ValidatePlane(planes[0], width * 3, height);
      case Nv12 =>
        if width % 2 != 0 || height % 2 != 0 {
          return Unsupported;
        }
        if |planes| != 2 {
          return InvalidArgument;
        }
        code := ValidatePlane(planes[0], width, height);
        if !code.OkStatus? {
          return code;
        }
        return ValidatePlane(planes[1], width, height / 2);
      case Yuv420p =>
        if width % 2 != 0 || height % 2 != 0 {
          return Unsupported;
        }
        if |planes| != 3 {
          return InvalidArgument;
        }
        code := ValidatePlane(planes[0], width, height);
        if !code.OkStatus? {
          return code;
        }
        code := ValidatePlane(planes[1], width / 2, height / 2);
        if !code.OkStatus? {
          return code;
        }
        return ValidatePlane(planes[2], width / 2, height / 2);
      case UnknownFormat =>
        return InvalidArgument;
    }
  }

  /** Creates a format object out of its fields, if they describe a picture. */
  method CreateFormat(fields: FormatFields) returns (r: Result<VideoFormat>)
    ensures r == if FormatStatus(fields).OkStatus? then Success(fields) else Failure(FormatStatus(fields))
  {
    var code := ValidateFormat(fields.pixelFormat, fields.width, fields.height, fields.planes);
    assert code == FormatStatus(FormatFields(fields.pixelFormat, fields.width, fields.height, fields.domain,
                                             fields.planes, fields.color));
    if !code.OkStatus? {
      return Failure(code);
    }
    return Success(fields);
  }
}

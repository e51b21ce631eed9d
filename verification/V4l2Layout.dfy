/**
 * Video capture: the plane layout that a driver's stride and size stand for, and the copy of a frame out of a
 * buffer.
 */
module V4l2Layout {
  import opened Statuses
  import opened SizeArithmetic
  import opened VideoFormats

  type UInt32 = x: int | 0 <= x < 0x1_0000_0000

  type Byte = x: int | 0 <= x < 256

  datatype NegotiatedFormat = NegotiatedFormat(
    format: VideoFormat, totalCapacity: Size, visibleRowBytes: seq<Size>, sourceOffsets: seq<Size>)

  /** The dimensions that a capture configuration admits. */
  predicate ValidDimensions(format: PixelFormat, width: Int32, height: Int32) {
    && width > 0 && height > 0 && format in {Yuv420p, Nv12, Yuyv422}
    && SubsamplesEvenly(format, width, height)
  }

  /** How many bytes of a row of each plane show pixels. */
  function VisibleRows(format: PixelFormat, width: Int32): seq<nat>
    requires width >= 0
  {
    match format
    case Yuv420p => [width, width / 2, width / 2]
    case Nv12 => [width, width]
    case Yuyv422 => [2 * width]
    case _ => []
  }

  function PlaneRows(format: PixelFormat, height: Int32, plane: nat): nat
    requires height >= 0
  {
    if format == Yuyv422 || plane == 0 then height else height / 2
  }

  predicate StrideFits(format: PixelFormat, width: Int32, stride: UInt32)
    requires width >= 0
  {
    match format
    case Yuv420p => stride >= width && stride % 2 == 0
    case Nv12 => stride >= width
    case Yuyv422 => stride >= 2 * width
    case _ => false
  }

  function PlaneBytes(stride: nat, rows: nat): nat {
    ProductGrows(stride, 0, rows);
    stride * rows
  }

  /** The bytes that the planes of a picture take, one behind the other. */
  function RequiredBytes(format: PixelFormat, stride: nat, height: nat): nat {
    match format
    case Yuv420p => PlaneBytes(stride, height) + 2 * PlaneBytes(stride / 2, height / 2)
    case Nv12 => PlaneBytes(stride, height) + PlaneBytes(stride, height / 2)
    case _ => PlaneBytes(stride, height)
  }

  /** A picture takes 12 or 16 bits for each pixel of its rows, padding included. */
  lemma RequiredBytesOfPicture(format: PixelFormat, width: Int32, height: Int32, stride: UInt32)
    requires ValidDimensions(format, width, height) && StrideFits(format, width, stride)
    ensures if format == Yuyv422 then RequiredBytes(format, stride, height) == stride * height
            else 2 * RequiredBytes(format, stride, height) == 3 * stride * height
  {
    if format != Yuyv422 {
      var half := height / 2;
      assert height == 2 * half;
      assert stride * height == 2 * (stride * half);
      if format == Yuv420p {
        assert stride == 2 * (stride / 2);
        assert stride * half == 2 * (stride / 2 * half);
      }
    }
  }

  lemma PlaneFits(stride: nat, rows: nat)
    requires stride <= 0xFFFF_FFFF && rows <= 0x7FFF_FFFF
    ensures stride * rows == PlaneBytes(stride, rows) <= 0xFFFF_FFFF * 0x7FFF_FFFF
  {
    ProductGrows(stride, rows, 0x7FFF_FFFF);
    ProductGrows(0x7FFF_FFFF, stride, 0xFFFF_FFFF);
  }

  /** The planes lie one behind the other, from the start of the buffer, and within its capacity. */
  predicate Consecutive(planes: seq<Plane>, capacity: int) {
    && |planes| > 0 && planes[0].offset == 0
    && (forall i :: 0 <= i < |planes| - 1 ==> planes[i + 1].offset == planes[i].offset + planes[i].size)
    && planes[|planes| - 1].offset + planes[|planes| - 1].size <= capacity
  }

  /** The planes and the two lists beside them agree, and the planes end where they must. */
  predicate Laid(planes: seq<Plane>, visible: seq<Size>, offsets: seq<Size>, format: PixelFormat, width: Int32,
                 height: Int32, end: int)
    requires width >= 0 && height >= 0
  {
    && Consecutive(planes, end) && visible == VisibleRows(format, width) && |planes| == |visible| == |offsets|
    && forall i :: 0 <= i < |planes| ==>
                     && offsets[i] == planes[i].offset && visible[i] <= planes[i].stride
                     && planes[i].size == PlaneBytes(planes[i].stride, PlaneRows(format, height, i))
  }

  /** The format and the lists beside it describe the same planes, in a buffer of the given capacity. */
  predicate Describes(n: NegotiatedFormat, format: PixelFormat, width: Int32, height: Int32, capacity: Size)
    requires width >= 0 && height >= 0
  {
    var f := n.format;
    && f.pixelFormat == format && f.width == width && f.height == height && f.domain == Mmap
    && n.totalCapacity == capacity
    && Laid(f.planes, n.visibleRowBytes, n.sourceOffsets, format, width, height, capacity)
  }

  datatype Derived = Derived(planes: seq<Plane>, visible: seq<Size>, offsets: seq<Size>, end: Size)

  ghost predicate DerivedFrom(r: Option<Derived>, format: PixelFormat, width: Int32, height: Int32, stride: UInt32)
    requires width >= 0 && height >= 0
  {
    && (r.Some? <==> StrideFits(format, width, stride))
    && (r.Some? ==>
          && r.value.end == RequiredBytes(format, stride, height)
          && Laid(r.value.planes, r.value.visible, r.value.offsets, format, width, height, r.value.end))
  }

  method DeriveYuv420p(width: Int32, height: Int32, stride: UInt32) returns (r: Option<Derived>)
    requires ValidDimensions(Yuv420p, width, height)
    ensures DerivedFrom(r, Yuv420p, width, height, stride)
  {
    PlaneFits(stride, height);
    PlaneFits(stride / 2, height / 2);
    hide PlaneBytes;
    var first := CheckedMultiply(stride, height);
    if stride < width || stride % 2 != 0 || first.None? {
      return None;
    }
    var second := CheckedMultiply(stride / 2, height / 2);
    if second.None? {
      return None;
    }
    var third := CheckedAdd(first.value, second.value);
    if third.None? {
      return None;
    }
    var end := CheckedAdd(third.value, second.value);
    if end.None? {
      return None;
    }
    return Some(Derived([Plane(0, first.value, stride), Plane(first.value, second.value, stride / 2),
                         Plane(third.value, second.value, stride / 2)],
                        [width, width / 2, width / 2], [0, first.value, third.value], end.value));
  }

  method DeriveNv12(width: Int32, height: Int32, stride: UInt32) returns (r: Option<Derived>)
    requires ValidDimensions(Nv12, width, height)
    ensures DerivedFrom(r, Nv12, width, height, stride)
  {
    PlaneFits(stride, height);
    PlaneFits(stride, height / 2);
    var first := CheckedMultiply(stride, height);
    var second := CheckedMultiply(stride, height / 2);
    if stride < width || first.None? || second.None? {
      return None;
    }
    var end := CheckedAdd(first.value, second.value);
    if end.None? {
      return None;
    }
    return Some(Derived([Plane(0, first.value, stride), Plane(first.value, second.value, stride)],
                        [width, width], [0, first.value], end.value));
  }

  method DeriveYuyv422(width: Int32, height: Int32, stride: UInt32) returns (r: Option<Derived>)
    requires ValidDimensions(Yuyv422, width, height)
    ensures DerivedFrom(r, Yuyv422, width, height, stride)
  {
    PlaneFits(stride, height);
    var bytes := CheckedMultiply(width, 2);
    var first := CheckedMultiply(stride, height);
    if bytes.None? || stride < bytes.value || first.None? {
      return None;
    }
    return Some(Derived([Plane(0, first.value, stride)], [bytes.value], [0], first.value));
  }

  /** The planes end within the capacity, each behind the one before. */
  lemma {:induction false} PlanesWithin(planes: seq<Plane>, capacity: int, i: nat)
    requires Consecutive(planes, capacity) && i < |planes|
    ensures planes[i].offset + planes[i].size <= capacity
    decreases |planes| - i
  {
    if i + 1 < |planes| {
      PlanesWithin(planes, capacity, i + 1);
      assert planes[i + 1].offset == planes[i].offset + planes[i].size;
    }
  }

  lemma {:induction false} PlanesAscend(planes: seq<Plane>, capacity: int, i: nat, j: nat)
    requires Consecutive(planes, capacity) && i < j < |planes|
    ensures planes[i].offset + planes[i].size <= planes[j].offset
    decreases j
  {
    assert planes[j].offset == planes[j - 1].offset + planes[j - 1].size;
    if i < j - 1 {
      PlanesAscend(planes, capacity, i, j - 1);
    }
  }

  lemma ConsecutiveIsDisjoint(planes: seq<Plane>, end: Size)
    requires Consecutive(planes, end)
    ensures Disjoint(planes)
  {
    forall i | 0 <= i < |planes|
      ensures Addressable(planes[i])
    {
      PlanesWithin(planes, end, i);
    }
    forall i, j | 0 <= i < j < |planes|
      ensures !Overlap(planes[j], planes[i])
    {
      PlanesAscend(planes, end, i, j);
    }
  }

  /** Planes that are laid out like this always make a format. */
  lemma LaidIsFormat(planes: seq<Plane>, visible: seq<Size>, offsets: seq<Size>, f: FormatFields, end: Size)
    requires ValidDimensions(f.pixelFormat, f.width, f.height) && f.planes == planes
    requires Laid(planes, visible, offsets, f.pixelFormat, f.width, f.height, end)
    ensures FormatStatus(f).OkStatus?
  {
    ConsecutiveIsDisjoint(planes, end);
    assert HoldsPicture(f.pixelFormat, f.width, f.height, planes) by {
      forall i | 0 <= i < |planes|
        ensures Holds(planes[i], VisibleRows(f.pixelFormat, f.width)[i], PlaneRows(f.pixelFormat, f.height, i))
      {
      }
    }
  }

  /**
   * Derives the planes from what the driver answers. It succeeds exactly when a row fits the stride and the image
   * size covers the planes; no layout that it derives is refused as a format.
   */
  method MakeNegotiatedFormat(format: PixelFormat, width: Int32, height: Int32, stride: UInt32, capacity: UInt32)
    returns (r: Result<NegotiatedFormat>)
    requires ValidDimensions(format, width, height)
    ensures r.Success? <==> StrideFits(format, width, stride) && RequiredBytes(format, stride, height) <= capacity
    ensures r.Failure? ==> r.code == CapabilityMismatch
    ensures r.Success? ==> Describes(r.value, format, width, height, capacity)
  {
    hide RequiredBytes, FormatStatus;
    var derived: Option<Derived>;
    match format {
      case Yuv420p =>
        derived := DeriveYuv420p(width, height, stride);
      case Nv12 =>
        derived := DeriveNv12(width, height, stride);
      case Yuyv422 =>
        derived := DeriveYuyv422(width, height, stride);
    }
    if derived.None? || capacity < derived.value.end {
      return Failure(CapabilityMismatch);
    }
    var d := derived.value;
    var fields := FormatFields(format, width, height, Mmap, d.planes, Color(0, 0, 0, 0));
    LaidIsFormat(d.planes, d.visible, d.offsets, fields, d.end);
    var created := CreateFormat(fields);
    if created.Failure? {
      return Failure(CapabilityMismatch);
    }
    return Success(NegotiatedFormat(created.value, capacity, d.visible, d.offsets));
  }
}

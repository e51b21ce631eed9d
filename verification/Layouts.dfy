/** Plane layouts: the check that a layout meets a capability, and the construction of the least layout that does. */
module Layouts {
  import opened Statuses
  import opened SizeArithmetic
  import opened VideoFormats

  lemma RoundedUp(value: nat, alignment: nat)
    requires alignment > 0
    ensures (value + alignment - 1) / alignment * alignment == AlignedUp(value, alignment)
  {
    var q, r := value / alignment, value % alignment;
    assert value == alignment * q + r;
    if r == 0 {
      QuotientOf(value + alignment - 1, alignment, q, alignment - 1);
    } else {
      QuotientOf(value + alignment - 1, alignment, q + 1, r - 1);
    }
  }

  /** The visible sizes a capability supports, and the alignment of the storage that carries them. */
  datatype DimensionRange = DimensionRange(minimum: Int32, maximum: Int32, step: Int32, alignment: Int32) {

    predicate Valid()
      ensures Valid() <==>
                && 0 < minimum <= maximum && step > 0 && alignment > 0
                && AlignedUp(minimum, alignment) <= maximum
    {
      if minimum <= 0 || maximum < minimum || step <= 0 || alignment <= 0 then false
      else
        RoundedUp(minimum, alignment);
        (minimum + alignment - 1) / alignment * alignment <= maximum
    }

    predicate Contains(value: Int32)
      ensures Contains(value) <==>
                && Valid() && minimum <= value && (value - minimum) % step == 0
                && AlignedUp(value, alignment) <= maximum
    {
      if !Valid() || value < minimum || value > maximum || (value - minimum) % step != 0 then false
      else
        RoundedUp(value, alignment);
        (value + alignment - 1) / alignment * alignment <= maximum
    }
  }

  datatype PlaneConstraint = PlaneConstraint(
    horizontal: Int32, vertical: Int32, bytesPerSample: Size,
    strideAlignment: Size, offsetAlignment: Size, sizeAlignment: Size, addressAlignment: Size) {

    predicate Valid() {
      && horizontal > 0 && vertical > 0 && bytesPerSample > 0 && strideAlignment > 0
      && offsetAlignment > 0 && sizeAlignment > 0 && addressAlignment > 0
    }
  }

  predicate AllValid(cs: seq<PlaneConstraint>) {
    forall i :: 0 <= i < |cs| ==> cs[i].Valid()
  }

  function PlaneCount(format: PixelFormat): nat {
    match format
    case UnknownFormat => 0
    case Yuyv422 | Rgb24 => 1
    case Nv12 => 2
    case Yuv420p => 3
  }

  datatype FormatCapability = FormatCapability(
    pixelFormat: PixelFormat, domain: MemoryDomain, constraints: seq<PlaneConstraint>) {

    predicate Valid() {
      && pixelFormat != UnknownFormat && |constraints| == PlaneCount(pixelFormat)
      && AllValid(constraints)
    }
  }

  /** How many groups of `divisor` cover `a`. */
  function Groups(a: nat, divisor: nat): nat
    requires divisor > 0
  {
    (a + divisor - 1) / divisor
  }

  /** The bytes of one row of `width` pixels. */
  function RowBytes(c: PlaneConstraint, width: nat): nat
    requires c.Valid()
  {
    Groups(width, c.horizontal) * c.bytesPerSample
  }

  function RowCount(c: PlaneConstraint, height: nat): nat
    requires c.Valid()
  {
    Groups(height, c.vertical)
  }

  /** The address of the plane is aligned whenever the buffer it lies in is aligned to `address`. */
  predicate AddressProven(c: PlaneConstraint, p: Plane, address: Size)
    requires c.Valid()
  {
    if c.addressAlignment == 1 then true
    else address != 0 && address % c.addressAlignment == 0 && p.offset % c.addressAlignment == 0
  }

  /** The plane meets its constraint when it stores a picture of `width` by `height`. */
  predicate PlaneMeets(c: PlaneConstraint, p: Plane, width: nat, height: nat, address: Size)
    requires c.Valid()
  {
    && p.stride % c.strideAlignment == 0 && p.stride >= RowBytes(c, width)
    && p.size % c.sizeAlignment == 0 && p.size >= p.stride * RowCount(c, height)
    && p.offset % c.offsetAlignment == 0 && AddressProven(c, p, address)
  }

  /** The planes are apart and each meets its constraint. */
  predicate PlanesMeet(cs: seq<PlaneConstraint>, planes: seq<Plane>, width: nat, height: nat, address: Size)
    requires AllValid(cs)
  {
    && |planes| == |cs| && Disjoint(planes)
    && forall i :: 0 <= i < |cs| ==> PlaneMeets(cs[i], planes[i], width, height, address)
  }

  /** The format needs no conversion: its planes can store the picture, rounded up to the storage extent. */
  predicate Accepts(f: VideoFormat, capability: FormatCapability, widths: DimensionRange, heights: DimensionRange,
                          address: Size)
  {
    && capability.Valid() && widths.Contains(f.width) && heights.Contains(f.height)
    && PlanesMeet(capability.constraints, f.planes, AlignedUp(f.width, widths.alignment),
                  AlignedUp(f.height, heights.alignment), address)
  }

  /** A storage extent is a 32-bit size rounded up to a 32-bit alignment. */
  predicate Extent(x: int) {
    0 < x <= 2 * INT_MAXIMUM
  }

  lemma GroupsShrink(a: nat, divisor: nat)
    requires divisor > 0
    ensures 0 <= Groups(a, divisor) <= a
    ensures a > 0 ==> Groups(a, divisor) > 0
  {
    var q := Groups(a, divisor);
    assert divisor * q <= a + divisor - 1 < divisor * (q + 1);
    if a > 0 && q <= 0 {
      assert false;
    }
    if q > a {
      ProductGrows(divisor, a + 1, q);
      ProductGrows(a, 1, divisor);
      assert false;
    }
  }

  /** The innermost check of a layout: one plane against its constraint. */
  method PlaneMatches(c: PlaneConstraint, plane: Plane, width: Size, height: Size, address: Size) returns (b: bool)
    requires c.Valid() && Extent(width) && Extent(height)
    ensures b <==> PlaneMeets(c, plane, width, height, address)
  {
    var samples := CheckedAdd(width, c.horizontal - 1);
    if samples.None? {
      return false;
    }
    var minimumStride := CheckedMultiply(samples.value / c.horizontal, c.bytesPerSample);
    if minimumStride.None? {
      return false;
    }
    var alignedStride := AlignUp(minimumStride.value, c.strideAlignment);
    if alignedStride.None? {
      if plane.stride % c.strideAlignment == 0 && plane.stride >= minimumStride.value {
        AlignedUpIsLeast(minimumStride.value, c.strideAlignment, plane.stride);
      }
      return false;
    }
    if plane.stride % c.strideAlignment == 0 && plane.stride >= minimumStride.value {
      AlignedUpIsLeast(minimumStride.value, c.strideAlignment, plane.stride);
    }
    if || plane.stride < alignedStride.value
       || plane.stride % c.strideAlignment != 0
       || plane.offset % c.offsetAlignment != 0
       || plane.size % c.sizeAlignment != 0
       || !AddressProven(c, plane, address)
    {
      return false;
    }
    var rows := CheckedAdd(height, c.vertical - 1);
    if rows.None? {
      return false;
    }
    var requiredSize := CheckedMultiply(plane.stride, rows.value / c.vertical);
    if requiredSize.None? || plane.size < requiredSize.value {
      return false;
    }
    return true;
  }

  method LayoutMatches(f: VideoFormat, capability: FormatCapability, widths: DimensionRange, heights: DimensionRange,
                       address: Size)
    returns (b: bool)
    ensures b <==> Accepts(f, capability, widths, heights, address)
  {
    if || !capability.Valid() || |f.planes| != |capability.constraints|
       || !widths.Contains(f.width) || !heights.Contains(f.height)
    {
      return false;
    }
    var width := AlignUp(AsSize(f.width), AsSize(widths.alignment));
    var height := AlignUp(AsSize(f.height), AsSize(heights.alignment));
    if width.None? || height.None? {
      return false;
    }
    for index := 0 to |f.planes|
      invariant Disjoint(f.planes[..index])
      invariant forall i :: 0 <= i < index ==>
                  PlaneMeets(capability.constraints[i], f.planes[i], width.value, height.value, address)
    {
      var plane := f.planes[index];
      if plane.offset > SIZE_MAXIMUM - plane.size {
        return false;
      }
      var end := plane.offset + plane.size;
      for previous := 0 to index
        invariant forall i :: 0 <= i < previous ==> !Overlap(plane, f.planes[i])
      {
        var other := f.planes[previous];
        if other.offset > SIZE_MAXIMUM - other.size {
          return false;
        }
        if plane.offset < other.offset + other.size && other.offset < end {
          return false;
        }
      }
      assert f.planes[..index + 1] == f.planes[..index] + [plane];
      var meets := PlaneMatches(capability.constraints[index], plane, width.value, height.value, address);
      if !meets {
        return false;
      }
    }
    return true;
  }

  // ---- The least layout ----

  /** Where a plane would be placed, had sizes no limit. */
  datatype Placement = Placement(offset: nat, size: nat, stride: nat)

  function End(packed: seq<Placement>): nat {
    if packed == [] then 0 else packed[|packed| - 1].offset + packed[|packed| - 1].size
  }

  function OffsetAlignment(c: PlaneConstraint): (a: nat)
    requires c.Valid()
    ensures a > 0
  {
    LcmIsMultiple(c.offsetAlignment, c.addressAlignment);
    Lcm(c.offsetAlignment, c.addressAlignment)
  }

  function PlaceAfter(c: PlaneConstraint, width: nat, height: nat, end: nat): Placement
    requires c.Valid()
  {
    GroupsShrink(width, c.horizontal);
    GroupsShrink(height, c.vertical);
    ProductGrows(c.bytesPerSample, 0, Groups(width, c.horizontal));
    var stride := AlignedUp(RowBytes(c, width), c.strideAlignment);
    ProductGrows(stride, 0, RowCount(c, height));
    Placement(AlignedUp(end, OffsetAlignment(c)), AlignedUp(stride * RowCount(c, height), c.sizeAlignment), stride)
  }

  /** Every plane right after the one before, each as small as its constraint allows. */
  function Packed(cs: seq<PlaneConstraint>, width: nat, height: nat): (packed: seq<Placement>)
    requires AllValid(cs)
    ensures |packed| == |cs|
  {
    if cs == [] then []
    else
      var before := Packed(cs[..|cs| - 1], width, height);
      before + [PlaceAfter(cs[|cs| - 1], width, height, End(before))]
  }

  predicate InRange(p: Placement) {
    p.stride <= SIZE_MAXIMUM && p.offset + p.size <= SIZE_MAXIMUM
  }

  function AsPlane(p: Placement): Plane
    requires InRange(p)
  {
    Plane(p.offset, p.size, p.stride)
  }

  /** All the numbers of the least layout are sizes, and so are the alignments its offsets must meet. */
  predicate Representable(cs: seq<PlaneConstraint>, width: nat, height: nat)
    requires AllValid(cs)
  {
    var packed := Packed(cs, width, height);
    forall i :: 0 <= i < |cs| ==> InRange(packed[i]) && OffsetAlignment(cs[i]) <= SIZE_MAXIMUM
  }

  /** Rounding the storage extent up to whole groups of samples does not overflow. */
  predicate GroupFits(c: PlaneConstraint, width: nat, height: nat) {
    width + c.horizontal - 1 <= SIZE_MAXIMUM && height + c.vertical - 1 <= SIZE_MAXIMUM
  }

  predicate GroupsFit(cs: seq<PlaneConstraint>, width: nat, height: nat) {
    forall i :: 0 <= i < |cs| ==> GroupFits(cs[i], width, height)
  }

  lemma ExtentFits(value: Int32, alignment: Int32)
    requires value > 0 && alignment > 0
    ensures Extent(AlignedUp(value, alignment))
  {
  }

  /** It never does for an extent that a valid range of dimensions leads to. */
  lemma ExtentGroupsFit(cs: seq<PlaneConstraint>, value: Int32, alignment: Int32, other: Int32, otherAlignment: Int32)
    requires value > 0 && alignment > 0 && other > 0 && otherAlignment > 0
    ensures GroupsFit(cs, AlignedUp(value, alignment), AlignedUp(other, otherAlignment))
  {
    ExtentFits(value, alignment);
    ExtentFits(other, otherAlignment);
  }

  function PackedPlanes(cs: seq<PlaneConstraint>, width: nat, height: nat): (planes: seq<Plane>)
    requires AllValid(cs) && Representable(cs, width, height)
    ensures |planes| == |cs|
  {
    var packed := Packed(cs, width, height);
    seq(|cs|, i requires 0 <= i < |cs| => AsPlane(packed[i]))
  }

  lemma {:induction false} PackedPrefix(cs: seq<PlaneConstraint>, width: nat, height: nat, n: nat)
    requires AllValid(cs) && n <= |cs|
    ensures Packed(cs[..n], width, height) == Packed(cs, width, height)[..n]
    ensures End(Packed(cs[..n], width, height)) <= End(Packed(cs, width, height))
  {
    if n == |cs| {
      assert cs[..n] == cs;
    } else {
      var shorter := cs[..|cs| - 1];
      PackedPrefix(shorter, width, height, n);
      assert shorter[..n] == cs[..n];
    }
  }

  /** Each plane of the least layout lies behind the one before it. */
  lemma PackedAt(cs: seq<PlaneConstraint>, width: nat, height: nat, i: nat)
    requires AllValid(cs) && i < |cs|
    ensures Packed(cs, width, height)[i] == PlaceAfter(cs[i], width, height, End(Packed(cs[..i], width, height)))
    ensures Packed(cs, width, height)[i].offset + Packed(cs, width, height)[i].size <= End(Packed(cs, width, height))
  {
    PackedPrefix(cs, width, height, i + 1);
    assert cs[..i + 1][..i] == cs[..i];
  }

  lemma PlacementBounds(c: PlaneConstraint, width: nat, height: nat, end: nat)
    requires c.Valid() && height > 0
    ensures var p := PlaceAfter(c, width, height, end);
            && RowBytes(c, width) <= p.stride <= p.stride * RowCount(c, height) <= p.size && end <= p.offset
  {
    GroupsShrink(height, c.vertical);
    ProductGrows(PlaceAfter(c, width, height, end).stride, 1, RowCount(c, height));
  }

  /** The format that is offered in the place of `requested`, its picture stored with the alignment of the ranges. */
  function ActualFormat(requested: VideoFormat, capability: FormatCapability, widths: DimensionRange,
                        heights: DimensionRange): (r: Result<VideoFormat>)
  {
    var width := AlignUp(AsSize(requested.width), AsSize(widths.alignment));
    var height := AlignUp(AsSize(requested.height), AsSize(heights.alignment));
    var cs := capability.constraints;
    if !capability.Valid() then Failure(CapabilityMismatch)
    else if width.None? || height.None? then Failure(ResourceExhausted)
    else if !Representable(cs, width.value, height.value) || !GroupsFit(cs, width.value, height.value) then
      Failure(ResourceExhausted)
    else
      var fields := requested.(planes := PackedPlanes(cs, width.value, height.value));
      if FormatStatus(fields).OkStatus? then Success(fields) else Failure(FormatStatus(fields))
  }

  method PlacePlane(c: PlaneConstraint, width: Size, height: Size, nextOffset: Size) returns (r: Option<Plane>)
    requires c.Valid() && height > 0
    ensures r == var p := PlaceAfter(c, width, height, nextOffset);
                 if InRange(p) && OffsetAlignment(c) <= SIZE_MAXIMUM && GroupFits(c, width, height) then
                   Some(AsPlane(p))
                 else
                   None
  {
    PlacementBounds(c, width, height, nextOffset);
    var samples := CheckedAdd(width, c.horizontal - 1);
    if samples.None? {
      return None;
    }
    var minimumStride := CheckedMultiply(samples.value / c.horizontal, c.bytesPerSample);
    if minimumStride.None? {
      return None;
    }
    var stride := AlignUp(minimumStride.value, c.strideAlignment);
    var rows := CheckedAdd(height, c.vertical - 1);
    if stride.None? || rows.None? {
      return None;
    }
    var minimumSize := CheckedMultiply(stride.value, rows.value / c.vertical);
    if minimumSize.None? {
      return None;
    }
    var size := AlignUp(minimumSize.value, c.sizeAlignment);
    if size.None? {
      return None;
    }
    var alignment := LeastCommonMultiple(c.offsetAlignment, c.addressAlignment);
    if alignment.None? {
      return None;
    }
    var offset := AlignUp(nextOffset, alignment.value);
    if offset.None? {
      return None;
    }
    var end := CheckedAdd(offset.value, size.value);
    if end.None? {
      return None;
    }
    return Some(Plane(offset.value, size.value, stride.value));
  }

  lemma NotRepresentable(cs: seq<PlaneConstraint>, width: nat, height: nat, i: nat)
    requires AllValid(cs) && i < |cs|
    requires var p := PlaceAfter(cs[i], width, height, End(Packed(cs[..i], width, height)));
             !(InRange(p) && OffsetAlignment(cs[i]) <= SIZE_MAXIMUM && GroupFits(cs[i], width, height))
    ensures !(Representable(cs, width, height) && GroupsFit(cs, width, height))
  {
    PackedAt(cs, width, height, i);
  }

  method PlacePlanes(cs: seq<PlaneConstraint>, width: Size, height: Size) returns (r: Option<seq<Plane>>)
    requires AllValid(cs) && height > 0
    ensures r == if Representable(cs, width, height) && GroupsFit(cs, width, height) then
                   Some(PackedPlanes(cs, width, height))
                 else
                   None
  {
    hide PlaceAfter, OffsetAlignment, Lcm, Gcd, AlignedUp;
    var planes: seq<Plane> := [];
    var nextOffset: Size := 0;
    for index := 0 to |cs|
      invariant Representable(cs[..index], width, height) && planes == PackedPlanes(cs[..index], width, height)
      invariant GroupsFit(cs[..index], width, height)
      invariant nextOffset == End(Packed(cs[..index], width, height))
    {
      var before, after := cs[..index], cs[..index + 1];
      assert after[..index] == before;
      var placed := PlacePlane(cs[index], width, height, nextOffset);
      if placed.None? {
        NotRepresentable(cs, width, height, index);
        return None;
      }
      planes := planes + [placed.value];
      nextOffset := placed.value.offset + placed.value.size;
      assert planes == PackedPlanes(after, width, height);
    }
    assert cs[..|cs|] == cs;
    return Some(planes);
  }

  method MakeActualFormat(requested: VideoFormat, capability: FormatCapability, widths: DimensionRange,
                          heights: DimensionRange)
    returns (r: Result<VideoFormat>)
    ensures r == ActualFormat(requested, capability, widths, heights)
  {
    if !capability.Valid() {
      return Failure(CapabilityMismatch);
    }
    var width := AlignUp(AsSize(requested.width), AsSize(widths.alignment));
    var height := AlignUp(AsSize(requested.height), AsSize(heights.alignment));
    if width.None? || height.None? {
      return Failure(ResourceExhausted);
    }
    var planes := PlacePlanes(capability.constraints, width.value, height.value);
    if planes.None? {
      return Failure(ResourceExhausted);
    }
    r := CreateFormat(requested.(planes := planes.value));
  }
}

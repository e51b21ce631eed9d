/** What a plane layout means for a picture: a place for every pixel, and no demand beyond that. */
module PicturePixels {
  import opened Statuses
  import opened SizeArithmetic
  import opened VideoFormats
  import opened Layouts

  /** Where byte `b` of the sample of column `x` lies in its row. */
  function SampleByte(c: PlaneConstraint, x: nat, b: nat): int
    requires c.Valid()
  {
    x / c.horizontal * c.bytesPerSample + b
  }

  /**
   * The bytes of the sample that pixel (x, y) shares with its neighbours lie within one stride of the plane, and the
   * row of that sample within its size.
   */
  predicate HasPlace(c: PlaneConstraint, p: Plane, x: nat, y: nat)
    requires c.Valid()
  {
    && (forall b :: 0 <= b < c.bytesPerSample ==> SampleByte(c, x, b) < p.stride)
    && (y / c.vertical + 1) * p.stride <= p.size
  }

  predicate HoldsPixels(c: PlaneConstraint, p: Plane, width: nat, height: nat)
    requires c.Valid()
  {
    forall x, y :: 0 <= x < width && 0 <= y < height ==> HasPlace(c, p, x, y)
  }

  lemma QuotientGrows(x: nat, y: nat, divisor: nat)
    requires divisor > 0 && x <= y
    ensures 0 <= x / divisor <= y / divisor
  {
    var q, q' := x / divisor, y / divisor;
    assert divisor * q <= x && y < divisor * (q' + 1);
    if q' < q { ProductGrows(divisor, q' + 1, q); }
  }

  /** The last of `a` items is in the last group, and every item in one of the groups. */
  lemma LastGroup(a: nat, divisor: nat, x: nat)
    requires divisor > 0 && x < a
    ensures 0 <= x / divisor < Groups(a, divisor)
    ensures Groups(a, divisor) == (a - 1) / divisor + 1
  {
    var q, r := (a - 1) / divisor, (a - 1) % divisor;
    assert a - 1 == divisor * q + r;
    QuotientOf(a + divisor - 1, divisor, q + 1, r);
    QuotientGrows(x, a - 1, divisor);
  }

  /** The place of a pixel in whole samples and rows. */
  lemma PlaceIs(c: PlaneConstraint, p: Plane, x: nat, y: nat)
    requires c.Valid()
    ensures HasPlace(c, p, x, y) <==>
              (x / c.horizontal + 1) * c.bytesPerSample <= p.stride && (y / c.vertical + 1) * p.stride <= p.size
  {
    var first := x / c.horizontal * c.bytesPerSample;
    assert (x / c.horizontal + 1) * c.bytesPerSample == first + c.bytesPerSample;
    assert SampleByte(c, x, c.bytesPerSample - 1) == first + c.bytesPerSample - 1;
  }

  lemma StoredPixel(c: PlaneConstraint, p: Plane, width: nat, height: nat, x: nat, y: nat)
    requires c.Valid() && x < width && y < height
    requires p.stride >= RowBytes(c, width) && p.size >= p.stride * RowCount(c, height)
    ensures HasPlace(c, p, x, y)
  {
    LastGroup(width, c.horizontal, x);
    LastGroup(height, c.vertical, y);
    ProductGrows(c.bytesPerSample, x / c.horizontal + 1, Groups(width, c.horizontal));
    ProductGrows(p.stride, y / c.vertical + 1, RowCount(c, height));
    PlaceIs(c, p, x, y);
  }

  lemma LastPixel(c: PlaneConstraint, p: Plane, width: nat, height: nat)
    requires c.Valid() && width > 0 && height > 0 && HasPlace(c, p, width - 1, height - 1)
    ensures p.stride >= RowBytes(c, width) && p.size >= p.stride * RowCount(c, height)
  {
    LastGroup(width, c.horizontal, width - 1);
    LastGroup(height, c.vertical, height - 1);
    PlaceIs(c, p, width - 1, height - 1);
  }

  /** The stride and the size that a plane needs are those that give every pixel its place, and no more. */
  lemma PlaneHoldsIff(c: PlaneConstraint, p: Plane, width: nat, height: nat)
    requires c.Valid() && width > 0 && height > 0
    ensures HoldsPixels(c, p, width, height) <==>
              p.stride >= RowBytes(c, width) && p.size >= p.stride * RowCount(c, height)
  {
    hide HasPlace, RowBytes, RowCount;
    if p.stride >= RowBytes(c, width) && p.size >= p.stride * RowCount(c, height) {
      forall x, y | 0 <= x < width && 0 <= y < height
        ensures HasPlace(c, p, x, y)
      {
        StoredPixel(c, p, width, height, x, y);
      }
    }
    if HoldsPixels(c, p, width, height) {
      assert HasPlace(c, p, width - 1, height - 1);
      LastPixel(c, p, width, height);
    }
  }

  predicate Covers(p: Plane, byte: nat) {
    p.offset <= byte < p.offset + p.size
  }

  predicate SharesByte(p: Plane, q: Plane) {
    exists byte: Size :: Covers(p, byte) && Covers(q, byte)
  }

  /** Every byte of a plane has an address, and no byte belongs to two planes. */
  predicate Apart(planes: seq<Plane>) {
    && (forall i :: 0 <= i < |planes| ==> Addressable(planes[i]))
    && forall i, j :: 0 <= i < j < |planes| ==> !SharesByte(planes[j], planes[i])
  }

  lemma OverlapShares(p: Plane, q: Plane)
    requires p.size > 0 && q.size > 0 && Addressable(p) && Addressable(q)
    ensures Overlap(p, q) <==> SharesByte(p, q)
  {
    if Overlap(p, q) {
      var byte: Size := if p.offset >= q.offset then p.offset else q.offset;
      assert Covers(p, byte) && Covers(q, byte);
    }
  }

  lemma DisjointIsApart(planes: seq<Plane>)
    requires forall i :: 0 <= i < |planes| ==> planes[i].size > 0
    ensures Disjoint(planes) <==> Apart(planes)
  {
    if forall i :: 0 <= i < |planes| ==> Addressable(planes[i]) {
      forall i, j | 0 <= i < j < |planes|
        ensures Overlap(planes[j], planes[i]) <==> SharesByte(planes[j], planes[i])
      {
        OverlapShares(planes[j], planes[i]);
      }
    }
  }

  lemma PixelsNeedBytes(c: PlaneConstraint, p: Plane, width: nat, height: nat)
    requires c.Valid() && width > 0 && height > 0 && HoldsPixels(c, p, width, height)
    ensures p.size > 0
  {
    assert HasPlace(c, p, 0, 0);
    PlaceIs(c, p, 0, 0);
  }

  /** The alignments that a constraint demands of a plane, whatever it stores. */
  predicate Aligned(c: PlaneConstraint, p: Plane, address: Size)
    requires c.Valid()
  {
    && p.stride % c.strideAlignment == 0 && p.size % c.sizeAlignment == 0 && p.offset % c.offsetAlignment == 0
    && (c.addressAlignment != 1 ==>
          address != 0 && address % c.addressAlignment == 0 && p.offset % c.addressAlignment == 0)
  }

  lemma AllApart(cs: seq<PlaneConstraint>, planes: seq<Plane>, width: nat, height: nat)
    requires AllValid(cs) && |planes| == |cs| && width > 0 && height > 0
    ensures (forall i :: 0 <= i < |cs| ==> HoldsPixels(cs[i], planes[i], width, height)) ==>
              (Disjoint(planes) <==> Apart(planes))
  {
    hide HoldsPixels, Disjoint, Apart;
    if forall i :: 0 <= i < |cs| ==> HoldsPixels(cs[i], planes[i], width, height) {
      forall i | 0 <= i < |planes|
        ensures planes[i].size > 0
      {
        PixelsNeedBytes(cs[i], planes[i], width, height);
      }
      DisjointIsApart(planes);
    }
  }

  /**
   * A layout is accepted exactly if its planes are apart, each is aligned as demanded, and each has a place for every
   * pixel of the storage extent.
   */
  lemma AcceptedIffPixels(f: VideoFormat, capability: FormatCapability, widths: DimensionRange,
                          heights: DimensionRange, address: Size)
    ensures Accepts(f, capability, widths, heights, address) <==>
              && capability.Valid() && widths.Contains(f.width) && heights.Contains(f.height)
              && |f.planes| == |capability.constraints| && Apart(f.planes)
              && forall i :: 0 <= i < |f.planes| ==>
                   && Aligned(capability.constraints[i], f.planes[i], address)
                   && HoldsPixels(capability.constraints[i], f.planes[i], AlignedUp(f.width, widths.alignment),
                                  AlignedUp(f.height, heights.alignment))
  {
    if capability.Valid() && widths.Contains(f.width) && heights.Contains(f.height)
       && |f.planes| == |capability.constraints| {
      var w, h := AlignedUp(f.width, widths.alignment), AlignedUp(f.height, heights.alignment);
      hide HoldsPixels, RowBytes, RowCount, AlignedUp, FormatStatus;
      forall i | 0 <= i < |f.planes|
        ensures HoldsPixels(capability.constraints[i], f.planes[i], w, h) <==>
                  && f.planes[i].stride >= RowBytes(capability.constraints[i], w)
                  && f.planes[i].size >= f.planes[i].stride * RowCount(capability.constraints[i], h)
      {
        PlaneHoldsIff(capability.constraints[i], f.planes[i], w, h);
      }
      hide Apart, Disjoint;
      AllApart(capability.constraints, f.planes, w, h);
    }
  }

  // ---- Pixel formats ----

  /** A plane of samples of `bytes` bytes, each shared by `horizontal` by `vertical` pixels. */
  function Samples(horizontal: Int32, vertical: Int32, bytes: Size): PlaneConstraint {
    PlaneConstraint(horizontal, vertical, bytes, 1, 1, 1, 1)
  }

  /**
   * The samples of each pixel format: Yuyv422 stores two pixels in four bytes, Nv12 one pair of chroma bytes and
   * Yuv420p two chroma planes for every two by two pixels.
   */
  function Sampling(format: PixelFormat): (cs: seq<PlaneConstraint>)
    ensures AllValid(cs) && |cs| == PlaneCount(format)
  {
    match format
    case UnknownFormat => []
    case Yuyv422 => [Samples(2, 1, 4)]
    case Rgb24 => [Samples(1, 1, 3)]
    case Nv12 => [Samples(1, 1, 1), Samples(2, 2, 2)]
    case Yuv420p => [Samples(1, 1, 1), Samples(2, 2, 1), Samples(2, 2, 1)]
  }

  predicate HoldsSamples(cs: seq<PlaneConstraint>, planes: seq<Plane>, width: nat, height: nat)
    requires AllValid(cs)
  {
    |planes| == |cs| && forall i :: 0 <= i < |cs| ==> HoldsPixels(cs[i], planes[i], width, height)
  }

  lemma SamplesHold(c: PlaneConstraint, p: Plane, width: nat, height: nat, bytes: nat, rows: nat)
    requires c.Valid() && width > 0 && height > 0 && RowBytes(c, width) == bytes && RowCount(c, height) == rows
    ensures HoldsPixels(c, p, width, height) <==> Holds(p, bytes, rows)
  {
    PlaneHoldsIff(c, p, width, height);
  }

  lemma WholeGroups(a: nat)
    ensures Groups(a, 1) == a && (a % 2 == 0 ==> Groups(a, 2) == a / 2)
  {
  }

  lemma PackedHold(c: PlaneConstraint, p: Plane, width: nat, height: nat)
    requires width > 0 && height > 0 && ((c == Samples(2, 1, 4) && width % 2 == 0) || c == Samples(1, 1, 3))
    ensures HoldsPixels(c, p, width, height) <==>
              Holds(p, if c.horizontal == 2 then 2 * width else 3 * width, height)
  {
    WholeGroups(width);
    WholeGroups(height);
    SamplesHold(c, p, width, height, if c.horizontal == 2 then 2 * width else 3 * width, height);
  }

  lemma LumaHolds(p: Plane, width: nat, height: nat)
    requires width > 0 && height > 0
    ensures HoldsPixels(Samples(1, 1, 1), p, width, height) <==> Holds(p, width, height)
  {
    WholeGroups(width);
    WholeGroups(height);
    SamplesHold(Samples(1, 1, 1), p, width, height, width, height);
  }

  lemma ChromaHolds(p: Plane, width: nat, height: nat, bytes: Size)
    requires width > 0 && height > 0 && width % 2 == 0 && height % 2 == 0 && bytes > 0
    ensures HoldsPixels(Samples(2, 2, bytes), p, width, height) <==> Holds(p, width / 2 * bytes, height / 2)
  {
    WholeGroups(width);
    WholeGroups(height);
    SamplesHold(Samples(2, 2, bytes), p, width, height, width / 2 * bytes, height / 2);
  }

  lemma SamplingHolds(format: PixelFormat, planes: seq<Plane>, width: Int32, height: Int32)
    requires format != UnknownFormat && width > 0 && height > 0 && SubsamplesEvenly(format, width, height)
    ensures HoldsSamples(Sampling(format), planes, width, height) <==> HoldsPicture(format, width, height, planes)
  {
    hide HoldsPixels, Holds;
    if |planes| == PlaneCount(format) {
      match format
      case Yuyv422 => PackedHold(Samples(2, 1, 4), planes[0], width, height);
      case Rgb24 => PackedHold(Samples(1, 1, 3), planes[0], width, height);
      case Nv12 =>
        LumaHolds(planes[0], width, height);
        ChromaHolds(planes[1], width, height, 2);
      case Yuv420p =>
        LumaHolds(planes[0], width, height);
        ChromaHolds(planes[1], width, height, 1);
        ChromaHolds(planes[2], width, height, 1);
    }
  }

  lemma EvenSampling(format: PixelFormat, width: Int32, height: Int32)
    ensures SubsamplesEvenly(format, width, height) <==>
              forall i :: 0 <= i < PlaneCount(format) ==>
                && width % Sampling(format)[i].horizontal == 0 && height % Sampling(format)[i].vertical == 0
  {
    var cs := Sampling(format);
    assert width % 1 == 0 && height % 1 == 0;
    if format == Nv12 || format == Yuv420p {
      assert cs[1].horizontal == 2 && cs[1].vertical == 2;
    } else if format == Yuyv422 {
      assert cs[0].horizontal == 2;
    }
  }

  lemma UnknownHoldsNothing(f: FormatFields)
    requires f.width > 0 && f.height > 0 && f.pixelFormat == UnknownFormat
    ensures !HoldsPicture(f.pixelFormat, f.width, f.height, f.planes)
  {
  }

  /**
   * Fields describe a picture exactly if the picture is not empty, its size is a whole number of samples, and its
   * planes are apart and have a place for every sample of every pixel.
   */
  lemma FormatIffPixels(f: FormatFields)
    ensures FormatStatus(f).OkStatus? <==>
              && f.width > 0 && f.height > 0 && f.pixelFormat != UnknownFormat && Apart(f.planes)
              && (forall i :: 0 <= i < PlaneCount(f.pixelFormat) ==>
                    && f.width % Sampling(f.pixelFormat)[i].horizontal == 0
                    && f.height % Sampling(f.pixelFormat)[i].vertical == 0)
              && HoldsSamples(Sampling(f.pixelFormat), f.planes, f.width, f.height)
  {
    EvenSampling(f.pixelFormat, f.width, f.height);
    if f.width > 0 && f.height > 0 && |f.planes| == PlaneCount(f.pixelFormat) {
      hide Sampling, Disjoint, Apart;
      AllApart(Sampling(f.pixelFormat), f.planes, f.width, f.height);
    }
    hide Sampling, HoldsSamples, HoldsPicture, SubsamplesEvenly, Disjoint, Apart;
    if f.width > 0 && f.height > 0 && f.pixelFormat != UnknownFormat
       && SubsamplesEvenly(f.pixelFormat, f.width, f.height) {
      SamplingHolds(f.pixelFormat, f.planes, f.width, f.height);
    }
    if f.width > 0 && f.height > 0 && f.pixelFormat == UnknownFormat { UnknownHoldsNothing(f); }
  }

  /** Fields are refused as unsupported exactly if only the size is not whole, and otherwise as invalid. */
  lemma RefusalIs(f: FormatFields)
    requires !FormatStatus(f).OkStatus?
    ensures FormatStatus(f) ==
              if f.width > 0 && f.height > 0 && Disjoint(f.planes)
                 && exists i :: 0 <= i < PlaneCount(f.pixelFormat)
                                && !(f.width % Sampling(f.pixelFormat)[i].horizontal == 0
                                     && f.height % Sampling(f.pixelFormat)[i].vertical == 0)
              then Unsupported else InvalidArgument
  {
    EvenSampling(f.pixelFormat, f.width, f.height);
    hide SubsamplesEvenly, Sampling, Disjoint, HoldsPicture;
  }
}

/** The construction of layouts agrees with the check of layouts: what is built is accepted, and nothing smaller is. */
module LayoutLaws {
  import opened Statuses
  import opened SizeArithmetic
  import opened VideoFormats
  import opened Layouts

  /** A buffer address aligned to `address` is aligned as every plane demands. */
  predicate AlignsAll(cs: seq<PlaneConstraint>, address: Size)
    requires AllValid(cs)
  {
    address > 0 && forall i :: 0 <= i < |cs| ==> address % cs[i].addressAlignment == 0
  }

  ghost predicate InOrder(planes: seq<Plane>) {
    forall i, j :: 0 <= i < j < |planes| ==> planes[i].offset + planes[i].size <= planes[j].offset
  }

  lemma PlacementMeets(c: PlaneConstraint, width: nat, height: nat, end: nat, address: Size)
    requires c.Valid() && height > 0 && address > 0 && address % c.addressAlignment == 0
    requires InRange(PlaceAfter(c, width, height, end))
    ensures PlaneMeets(c, AsPlane(PlaceAfter(c, width, height, end)), width, height, address)
  {
    var p := PlaceAfter(c, width, height, end);
    PlacementBounds(c, width, height, end);
    LcmIsMultiple(c.offsetAlignment, c.addressAlignment);
    DividesThrough(c.offsetAlignment, OffsetAlignment(c), p.offset);
    DividesThrough(c.addressAlignment, OffsetAlignment(c), p.offset);
  }

  lemma PackedInOrder(cs: seq<PlaneConstraint>, width: nat, height: nat, i: nat, j: nat)
    requires AllValid(cs) && i < j < |cs|
    ensures Packed(cs, width, height)[i].offset + Packed(cs, width, height)[i].size
         <= Packed(cs, width, height)[j].offset
  {
    PackedAt(cs, width, height, j);
    PackedPrefix(cs, width, height, j);
    assert cs[..j][i] == cs[i];
    PackedAt(cs[..j], width, height, i);
  }

  /** The least layout passes the check, and its planes come in order. */
  lemma PackedMeets(cs: seq<PlaneConstraint>, width: nat, height: nat, address: Size)
    requires AllValid(cs) && height > 0 && AlignsAll(cs, address) && Representable(cs, width, height)
    ensures PlanesMeet(cs, PackedPlanes(cs, width, height), width, height, address)
    ensures InOrder(PackedPlanes(cs, width, height))
  {
    hide PlaceAfter, PlaneMeets;
    var packed := Packed(cs, width, height);
    forall i | 0 <= i < |cs|
      ensures PlaneMeets(cs[i], AsPlane(packed[i]), width, height, address)
    {
      PackedAt(cs, width, height, i);
      PlacementMeets(cs[i], width, height, End(Packed(cs[..i], width, height)), address);
    }
    forall i, j | 0 <= i < j < |cs|
      ensures packed[i].offset + packed[i].size <= packed[j].offset
    {
      PackedInOrder(cs, width, height, i, j);
    }
  }

  /**
   * Soundness: the format that is offered needs no conversion, and differs from the requested one in its planes
   * only.
   */
  lemma ActualFormatIsAccepted(requested: VideoFormat, capability: FormatCapability, widths: DimensionRange,
                               heights: DimensionRange, address: Size)
    requires widths.Contains(requested.width) && heights.Contains(requested.height)
    requires ActualFormat(requested, capability, widths, heights).Success?
    requires AlignsAll(capability.constraints, address)
    ensures var actual := ActualFormat(requested, capability, widths, heights).value;
            && Accepts(actual, capability, widths, heights, address)
            && actual == requested.(planes := actual.planes)
  {
    PackedMeets(capability.constraints, AlignedUp(requested.width, widths.alignment),
                AlignedUp(requested.height, heights.alignment), address);
  }

  lemma LeastSize(least: nat, stride: nat, rows: nat, alignment: nat, size: nat)
    requires least <= stride && alignment > 0 && size % alignment == 0 && size >= stride * rows
    ensures 0 <= least * rows && AlignedUp(least * rows, alignment) <= size
  {
    ProductGrows(rows, least, stride);
    ProductGrows(least, 0, rows);
    AlignedUpIsLeast(least * rows, alignment, size);
  }

  lemma LeastStrideAndSize(c: PlaneConstraint, p: Plane, width: nat, height: nat, address: Size, end: nat)
    requires c.Valid() && PlaneMeets(c, p, width, height, address)
    ensures PlaceAfter(c, width, height, end).stride <= p.stride
    ensures PlaceAfter(c, width, height, end).size <= p.size
  {
    AlignedUpIsLeast(RowBytes(c, width), c.strideAlignment, p.stride);
    GroupsShrink(height, c.vertical);
    LeastSize(PlaceAfter(c, width, height, end).stride, p.stride, RowCount(c, height), c.sizeAlignment, p.size);
  }

  lemma LeastOffset(c: PlaneConstraint, p: Plane, width: nat, height: nat, address: Size, end: nat)
    requires c.Valid() && PlaneMeets(c, p, width, height, address) && end <= p.offset
    ensures PlaceAfter(c, width, height, end).offset <= p.offset
  {
    if c.addressAlignment == 1 {
      MultipleDivides(1, p.offset);
    }
    LcmIsLeast(c.offsetAlignment, c.addressAlignment, p.offset);
    AlignedUpIsLeast(end, OffsetAlignment(c), p.offset);
  }

  /** Minimality: no layout that passes the check has a smaller stride or a smaller size in any plane. */
  lemma ActualFormatIsLeast(f: VideoFormat, requested: VideoFormat, capability: FormatCapability,
                            widths: DimensionRange, heights: DimensionRange, address: Size, i: nat)
    requires Accepts(f, capability, widths, heights, address)
    requires f.width == requested.width && f.height == requested.height && i < |f.planes|
    requires ActualFormat(requested, capability, widths, heights).Success?
    ensures var least := ActualFormat(requested, capability, widths, heights).value.planes;
            least[i].stride <= f.planes[i].stride && least[i].size <= f.planes[i].size
  {
    var cs := capability.constraints;
    var w, h := AlignedUp(f.width, widths.alignment), AlignedUp(f.height, heights.alignment);
    assert ActualFormat(requested, capability, widths, heights).value.planes == PackedPlanes(cs, w, h);
    assert PlaneMeets(cs[i], f.planes[i], w, h, address);
    hide ActualFormat, PlaneMeets, PlaceAfter, AlignedUp, Accepts;
    PackedAt(cs, w, h, i);
    LeastStrideAndSize(cs[i], f.planes[i], w, h, address, End(Packed(cs[..i], w, h)));
  }

  /** Among layouts with their planes in order, every offset of the least one is least too. */
  lemma {:induction false} PackedIsLeast(cs: seq<PlaneConstraint>, planes: seq<Plane>, width: nat, height: nat,
                                         address: Size, i: nat)
    requires AllValid(cs) && PlanesMeet(cs, planes, width, height, address) && InOrder(planes) && i < |cs|
    ensures var least := Packed(cs, width, height)[i];
            least.offset <= planes[i].offset && least.size <= planes[i].size && least.stride <= planes[i].stride
    decreases i
  {
    hide PlaceAfter, PlaneMeets;
    var end := End(Packed(cs[..i], width, height));
    PackedAt(cs, width, height, i);
    if i > 0 {
      PackedIsLeast(cs, planes, width, height, address, i - 1);
      PackedPrefix(cs, width, height, i);
      assert planes[i - 1].offset + planes[i - 1].size <= planes[i].offset;
    }
    LeastStrideAndSize(cs[i], planes[i], width, height, address, end);
    LeastOffset(cs[i], planes[i], width, height, address, end);
  }

  /** Completeness: room is found exactly when some layout in order fits and no offset alignment overflows. */
  lemma RoomIsFoundIff(cs: seq<PlaneConstraint>, width: nat, height: nat, address: Size)
    requires AllValid(cs) && height > 0 && AlignsAll(cs, address)
    ensures Representable(cs, width, height) <==>
              && (forall i :: 0 <= i < |cs| ==> OffsetAlignment(cs[i]) <= SIZE_MAXIMUM)
              && exists planes :: InOrder(planes) && PlanesMeet(cs, planes, width, height, address)
  {
    if Representable(cs, width, height) {
      PackedMeets(cs, width, height, address);
    }
    if planes :| InOrder(planes) && PlanesMeet(cs, planes, width, height, address) {
      forall i | 0 <= i < |cs|
        ensures InRange(Packed(cs, width, height)[i])
      {
        PackedIsLeast(cs, planes, width, height, address, i);
        assert Addressable(planes[i]);
      }
    }
  }

  /**
   * So for ranges of dimensions that are valid, room is refused exactly when no layout in order fits or an offset
   * alignment overflows.
   */
  lemma RoomIsRefusedIff(requested: VideoFormat, capability: FormatCapability, widths: DimensionRange,
                         heights: DimensionRange, address: Size)
    requires capability.Valid() && widths.Valid() && heights.Valid() && AlignsAll(capability.constraints, address)
    ensures var cs := capability.constraints;
            var w, h := AlignedUp(requested.width, widths.alignment), AlignedUp(requested.height, heights.alignment);
            ActualFormat(requested, capability, widths, heights) == Failure(ResourceExhausted) <==>
              || (exists i :: 0 <= i < |cs| && OffsetAlignment(cs[i]) > SIZE_MAXIMUM)
              || !exists planes :: InOrder(planes) && PlanesMeet(cs, planes, w, h, address)
  {
    var cs := capability.constraints;
    var w, h := AlignedUp(requested.width, widths.alignment), AlignedUp(requested.height, heights.alignment);
    ExtentGroupsFit(cs, requested.width, widths.alignment, requested.height, heights.alignment);
    RoomIsFoundIff(cs, w, h, address);
    hide Representable, PlanesMeet, InOrder, OffsetAlignment;
  }

  /**
   * An aligned layout can exist at offset zero and yet be refused, when its two offset alignments have no size as
   * multiple.
   */
  lemma AlignmentOverflowIsRefused()
    ensures exists requested: VideoFormat, capability, range, address ::
              && Accepts(requested, capability, range, range, address)
              && AlignsAll(capability.constraints, address)
              && ActualFormat(requested, capability, range, range) == Failure(ResourceExhausted)
  {
    var color := Color(0, 0, 0, 0);
    var requested: VideoFormat := FormatFields(Rgb24, 1, 1, Cpu, [Plane(0, 3, 3)], color);
    var half: Size := 0x8000_0000_0000_0000;
    var c := PlaneConstraint(1, 1, 3, 1, half, 1, 3);
    var capability := FormatCapability(Rgb24, Cpu, [c]);
    var range := DimensionRange(1, 1, 1, 1);
    assert Gcd(half, 3) == 1 by {
      assert Gcd(half, 3) == Gcd(3, 2) == Gcd(2, 1) == Gcd(1, 0);
    }
    assert OffsetAlignment(c) == 3 * half > SIZE_MAXIMUM;
    assert AlignedUp(1, 1) == 1;
    assert !Representable(capability.constraints, 1, 1) by {
      var packed := Packed(capability.constraints, 1, 1);
      assert !(InRange(packed[0]) && OffsetAlignment(capability.constraints[0]) <= SIZE_MAXIMUM);
    }
    assert PlaneMeets(c, requested.planes[0], 1, 1, 3);
    assert Accepts(requested, capability, range, range, 3);
  }

  /** Half of all addresses: an alignment that leaves room for two planes only. */
  const HALF: Size := 0x8000_0000_0000_0000

  const CHROMA := PlaneConstraint(2, 2, 1, 1, HALF, 1, 1)

  /** Two planes that may only lie at the two multiples of `HALF`, and one that may lie anywhere. */
  const APART := FormatCapability(Yuv420p, Cpu, [PlaneConstraint(1, 1, 1, 1, 1, 1, 1), CHROMA, CHROMA])

  /** A picture of two by two pixels whose first plane lies between the other two. */
  const SHUFFLED := FormatFields(Yuv420p, 2, 2, Cpu, [Plane(1, 4, 2), Plane(0, 1, 1), Plane(HALF, 1, 1)],
                                 Color(0, 0, 0, 0))

  const TWO := DimensionRange(2, 2, 1, 1)

  lemma ApartAlignment()
    ensures APART.Valid() && AlignsAll(APART.constraints, 1)
    ensures OffsetAlignment(APART.constraints[0]) == 1
    ensures OffsetAlignment(APART.constraints[1]) == OffsetAlignment(APART.constraints[2]) == HALF
  {
    assert Gcd(HALF, 1) == Gcd(1, HALF % 1) == Gcd(1, 0) == 1;
    assert Gcd(1, 1) == Gcd(1, 0) == 1;
  }

  /** In order, the second of them lies behind the first multiple, and the third has no place left. */
  lemma ApartIsNotPacked()
    ensures APART.Valid() && !Representable(APART.constraints, 2, 2)
  {
    ApartAlignment();
    var cs := APART.constraints;
    PackedAt(cs, 2, 2, 0);
    PackedAt(cs, 2, 2, 1);
    PackedAt(cs, 2, 2, 2);
  }

  lemma ShuffledMeets()
    ensures APART.Valid() && FormatStatus(SHUFFLED).OkStatus?
    ensures PlanesMeet(APART.constraints, SHUFFLED.planes, 2, 2, 1)
  {
  }

  lemma TwoFits(f: VideoFormat)
    requires f.width == 2 && f.height == 2
    ensures APART.Valid() && PlanesMeet(APART.constraints, f.planes, 2, 2, 1) ==> Accepts(f, APART, TWO, TWO, 1)
    ensures APART.Valid() && !Representable(APART.constraints, 2, 2) ==>
              ActualFormat(f, APART, TWO, TWO) == Failure(ResourceExhausted)
  {
    hide PlanesMeet, Representable;
    assert AlignedUp(2, 1) == 2;
  }

  /** A layout can fit with its planes out of order only, and is refused then, though no alignment overflows. */
  lemma OutOfOrderIsRefused()
    ensures exists requested: VideoFormat, capability, range, address ::
              && Accepts(requested, capability, range, range, address)
              && AlignsAll(capability.constraints, address)
              && (forall i :: 0 <= i < |capability.constraints| ==>
                                OffsetAlignment(capability.constraints[i]) <= SIZE_MAXIMUM)
              && ActualFormat(requested, capability, range, range) == Failure(ResourceExhausted)
  {
    hide PlanesMeet, Representable, FormatStatus, Accepts, ActualFormat, AlignsAll, OffsetAlignment;
    ShuffledMeets();
    ApartAlignment();
    ApartIsNotPacked();
    TwoFits(SHUFFLED);
    assert forall i :: 0 <= i < |APART.constraints| ==> OffsetAlignment(APART.constraints[i]) <= SIZE_MAXIMUM;
    assert Accepts(SHUFFLED, APART, TWO, TWO, 1);
  }
}

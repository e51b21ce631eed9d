/**
 * Buffers: planes within a storage, slices of planes, and the address alignment that a plane can be relied on to
 * have.
 */
module Buffers {
  import opened Statuses
  import opened SizeArithmetic
  import opened VideoFormats
  import opened Layouts
  import opened V4l2Layout

  /** A storage of `capacity` bytes at an address that is a multiple of `alignment`, and the planes in it. */
  datatype BufferFields = BufferFields(capacity: Size, alignment: Size, planes: seq<Plane>)

  predicate Within(offset: nat, size: nat, capacity: nat) {
    offset + size <= capacity
  }

  /** The planes lie apart in the storage, and each has a stride. */
  predicate PlanesValid(b: BufferFields) {
    && b.planes != [] && b.alignment > 0
    && (forall i :: 0 <= i < |b.planes| ==>
                      b.planes[i].stride > 0 && Within(b.planes[i].offset, b.planes[i].size, b.capacity))
    && (forall i, j :: 0 <= i < j < |b.planes| ==> !Overlap(b.planes[j], b.planes[i]))
  }

  /** A buffer exists only if its planes were found valid. */
  type Buffer = b: BufferFields | PlanesValid(b)
    witness BufferFields(1, 1, [Plane(0, 1, 1)])

  method IsWithin(offset: Size, size: Size, capacity: Size) returns (b: bool)
    ensures b <==> Within(offset, size, capacity)
  {
    b := offset <= capacity && size <= capacity - offset;
  }

  method ValidatePlanes(b: BufferFields) returns (code: StatusCode)
    ensures code == if PlanesValid(b) then OkStatus else InvalidArgument
  {
    if b.planes == [] || b.alignment == 0 {
      return InvalidArgument;
    }
    for index := 0 to |b.planes|
      invariant forall i :: 0 <= i < index ==>
                  b.planes[i].stride > 0 && Within(b.planes[i].offset, b.planes[i].size, b.capacity)
      invariant forall i, j :: 0 <= i < j < index ==> !Overlap(b.planes[j], b.planes[i])
    {
      var plane := b.planes[index];
      if plane.stride == 0 {
        return InvalidArgument;
      }
      var within := IsWithin(plane.offset, plane.size, b.capacity);
      if !within {
        return InvalidArgument;
      }
      for previous := 0 to index
        invariant forall i :: 0 <= i < previous ==> !Overlap(plane, b.planes[i])
      {
        var other := b.planes[previous];
        if plane.offset < other.offset + other.size && other.offset < plane.offset + plane.size {
          return InvalidArgument;
        }
      }
    }
    return OkStatus;
  }

  method CreateBuffer(b: BufferFields) returns (r: Result<Buffer>)
    ensures r == if PlanesValid(b) then Success(b) else Failure(InvalidArgument)
  {
    var code := ValidatePlanes(b);
    if !code.OkStatus? {
      return Failure(code);
    }
    return Success(b);
  }

  /** A stretch of one plane, as a buffer of its own over the same storage. */
  function SlicePlane(b: Buffer, plane: nat, offset: Size, length: Size): (r: Result<Buffer>)
    ensures r.Success? <==> plane < |b.planes| && Within(offset, length, b.planes[plane].size)
    ensures r.Success? ==>
              && |r.value.planes| == 1 && r.value.capacity == b.capacity && r.value.alignment == b.alignment
              && var p, q := b.planes[plane], r.value.planes[0];
                && q.offset == p.offset + offset && q.size == length && q.stride == p.stride
                && q.offset + q.size <= p.offset + p.size
  {
    if plane >= |b.planes| then Failure(InvalidArgument)
    else
      var p := b.planes[plane];
      if !(offset <= p.size && length <= p.size - offset) then Failure(InvalidArgument)
      else Success(BufferFields(b.capacity, b.alignment, [Plane(p.offset + offset, length, p.stride)]))
  }

  /** A slice of a slice is the slice at the sum of the offsets, and never reaches beyond the first one. */
  lemma SliceOfSlice(b: Buffer, plane: nat, offset: Size, length: Size, inner: Size, innerLength: Size)
    requires SlicePlane(b, plane, offset, length).Success?
    ensures var once := SlicePlane(b, plane, offset, length).value;
            if Within(inner, innerLength, length)
            then
              && offset + inner <= SIZE_MAXIMUM
              && SlicePlane(once, 0, inner, innerLength) == SlicePlane(b, plane, offset + inner, innerLength)
            else SlicePlane(once, 0, inner, innerLength).Failure?
  {
  }

  // ---- Address alignment ----

  method PlaneAddressAlignment(b: Buffer, plane: nat) returns (r: Result<Size>)
    ensures r == if plane < |b.planes| then Success(Gcd(b.alignment, b.planes[plane].offset))
                 else Failure(InvalidArgument)
  {
    if plane >= |b.planes| {
      return Failure(InvalidArgument);
    }
    var offset := b.planes[plane].offset;
    if offset == 0 {
      return Success(b.alignment);
    }
    var divisor := GreatestCommonDivisor(b.alignment, offset);
    return Success(divisor);
  }

  predicate IsMultiple(base: nat, alignment: nat) {
    alignment > 0 && base % alignment == 0
  }

  /** The address of the plane is a multiple of `d` wherever the storage lies. */
  ghost predicate Guaranteed(alignment: nat, offset: nat, d: nat)
    requires d > 0
  {
    forall base: nat :: IsMultiple(base, alignment) ==> (base + offset) % d == 0
  }

  lemma DifferenceDivides(d: nat, a: nat, b: nat)
    requires d > 0 && a % d == 0 && b % d == 0
    ensures (a - b) % d == 0
  {
    assert a - b == d * (a / d) - d * (b / d) == d * (a / d - b / d);
    MultipleDivides(d, a / d - b / d);
  }

  lemma Factor(x: int, d: int, p: int)
    ensures x * (d * p) == d * (x * p)
  {
  }

  lemma Combination(a: nat, b: nat, x: int, y: int, d: nat)
    requires d > 0 && a % d == 0 && b % d == 0
    ensures (x * a + y * b) % d == 0
  {
    var p, q := a / d, b / d;
    assert a == d * p && b == d * q;
    assert x * a + y * b == d * (x * p + y * q) by {
      Factor(x, d, p);
      Factor(y, d, q);
    }
    MultipleDivides(d, x * p + y * q);
  }

  /** What divides the greatest common divisor are the common divisors. */
  lemma DividesBoth(a: nat, b: nat, d: nat)
    requires a > 0 && d > 0
    ensures Gcd(a, b) % d == 0 <==> a % d == 0 && b % d == 0
  {
    var x, y := Bezout(a, b);
    var g := Gcd(a, b);
    if g % d == 0 {
      DividesThrough(d, g, a);
      DividesThrough(d, g, b);
    }
    if a % d == 0 && b % d == 0 {
      Combination(a, b, x, y, d);
    }
  }

  /** The alignment that is reported is the best there is: exactly its divisors are guaranteed. */
  lemma AlignmentIsGreatest(alignment: nat, offset: nat, d: nat)
    requires alignment > 0 && d > 0
    ensures Guaranteed(alignment, offset, d) <==> Gcd(alignment, offset) % d == 0
    ensures Gcd(alignment, offset) % d == 0 <==> alignment % d == 0 && offset % d == 0
  {
    DividesBoth(alignment, offset, d);
    if Guaranteed(alignment, offset, d) {
      MultipleDivides(alignment, 0);
      MultipleDivides(alignment, 1);
      assert IsMultiple(0, alignment) && (0 + offset) % d == 0;
      assert IsMultiple(alignment, alignment) && (alignment + offset) % d == 0;
      DifferenceDivides(d, alignment + offset, offset);
    }
    if alignment % d == 0 && offset % d == 0 {
      forall base: nat | IsMultiple(base, alignment)
        ensures (base + offset) % d == 0
      {
        DividesThrough(d, alignment, base);
        SumDivides(d, base, offset, 1);
      }
    }
  }

  /** The check at submission: the format fits, and every plane of the frame is aligned as the provider demands. */
  method ValidateFramePlaneAlignment(f: VideoFormat, b: Buffer, c: FormatCapability) returns (code: StatusCode)
    ensures code.OkStatus? || code.CapabilityMismatch?
    ensures code.OkStatus? <==>
              && c.Valid() && f.pixelFormat == c.pixelFormat && f.domain == c.domain
              && |b.planes| == |c.constraints|
              && forall i :: 0 <= i < |b.planes| ==>
                               Gcd(b.alignment, b.planes[i].offset) % c.constraints[i].addressAlignment == 0
  {
    if !c.Valid() || f.pixelFormat != c.pixelFormat || f.domain != c.domain || |b.planes| != |c.constraints| {
      return CapabilityMismatch;
    }
    for i := 0 to |c.constraints|
      invariant forall j :: 0 <= j < i ==>
                  Gcd(b.alignment, b.planes[j].offset) % c.constraints[j].addressAlignment == 0
    {
      var alignment := PlaneAddressAlignment(b, i);
      if alignment.value % c.constraints[i].addressAlignment != 0 {
        return CapabilityMismatch;
      }
    }
    return OkStatus;
  }

  /** The proof of an address at negotiation and the check of the frame at submission say the same of every plane. */
  lemma AddressProofIsTheCheck(c: PlaneConstraint, p: Plane, alignment: Size)
    requires c.Valid() && alignment > 0
    ensures AddressProven(c, p, alignment) <==> Gcd(alignment, p.offset) % c.addressAlignment == 0
  {
    DividesBoth(alignment, p.offset, c.addressAlignment);
    if c.addressAlignment == 1 {
      MultipleDivides(1, Gcd(alignment, p.offset));
    }
  }

  lemma PositiveStride(c: PlaneConstraint, p: Plane, width: nat, height: nat, address: Size)
    requires c.Valid() && width > 0 && PlaneMeets(c, p, width, height, address)
    ensures p.stride > 0
  {
    GroupsShrink(width, c.horizontal);
    ProductGrows(c.bytesPerSample, 1, Groups(width, c.horizontal));
  }

  /**
   * The promise of a negotiation is kept at submission: a format that was accepted for an address alignment makes a
   * buffer, and every frame in such a buffer passes the alignment check.
   */
  lemma AcceptedIsAligned(f: VideoFormat, c: FormatCapability, widths: DimensionRange, heights: DimensionRange,
                          address: Size, capacity: Size)
    requires Accepts(f, c, widths, heights, address) && address > 0
    requires forall j :: 0 <= j < |f.planes| ==> Within(f.planes[j].offset, f.planes[j].size, capacity)
    ensures PlanesValid(BufferFields(capacity, address, f.planes))
    ensures forall i :: 0 <= i < |f.planes| ==>
                          Gcd(address, f.planes[i].offset) % c.constraints[i].addressAlignment == 0
  {
    forall j | 0 <= j < |f.planes|
      ensures f.planes[j].stride > 0 && Gcd(address, f.planes[j].offset) % c.constraints[j].addressAlignment == 0
    {
      PositiveStride(c.constraints[j], f.planes[j], AlignedUp(f.width, widths.alignment),
                     AlignedUp(f.height, heights.alignment), address);
      AddressProofIsTheCheck(c.constraints[j], f.planes[j], address);
    }
  }

  /** The planes of a negotiated capture format always make a buffer. */
  lemma NegotiatedMakesBuffer(n: NegotiatedFormat, format: PixelFormat, width: Int32, height: Int32)
    requires ValidDimensions(format, width, height) && Describes(n, format, width, height, n.totalCapacity)
    ensures PlanesValid(BufferFields(n.totalCapacity, 1, n.format.planes))
  {
    var planes := n.format.planes;
    ConsecutiveIsDisjoint(planes, n.totalCapacity);
    forall i | 0 <= i < |planes|
      ensures planes[i].stride > 0 && Within(planes[i].offset, planes[i].size, n.totalCapacity)
    {
      PlanesWithin(planes, n.totalCapacity, i);
      assert n.visibleRowBytes[i] == VisibleRows(format, width)[i] > 0;
    }
  }
}

/** Video capture: the copy of a frame, row by row, out of a driver's buffer into one of the program's own. */
module V4l2Copy {
  import opened Statuses
  import opened SizeArithmetic
  import opened VideoFormats
  import opened V4l2Layout

  /** The plane shows a pixel at its byte `k`; the other bytes are padding. */
  predicate Shows(k: nat, stride: nat, visible: nat, rows: nat)
    requires stride > 0
  {
    k < rows * stride && k % stride < visible
  }

  /** Every byte that shows a pixel is among the bytes used. */
  ghost predicate CopyInBounds(used: seq<Byte>, sourceOffset: nat, stride: nat, visible: nat, rows: nat) {
    stride > 0 && forall k :: 0 <= k && Shows(k, stride, visible, rows) ==> sourceOffset + k < |used|
  }

  /** The bytes of a plane of `size` bytes, given the `used` bytes of the source. */
  ghost predicate IsCopy(target: seq<Byte>, used: seq<Byte>, sourceOffset: nat, stride: nat, visible: nat, rows: nat)
    requires CopyInBounds(used, sourceOffset, stride, visible, rows)
  {
    forall k :: 0 <= k < |target| ==>
                  target[k] == if Shows(k, stride, visible, rows) then used[sourceOffset + k] else 0
  }

  /** The end of the last row that is copied. */
  function LastEnd(stride: nat, visible: nat, rows: nat): int {
    stride * (rows - 1) + visible
  }

  predicate RangeValid(mapped: nat, bytesUsed: nat, plane: Plane, sourceOffset: nat, visible: nat, rows: nat,
                       targetSize: nat, targetCapacity: nat)
  {
    && rows > 0 && 0 < visible <= plane.stride && bytesUsed <= mapped
    && sourceOffset + LastEnd(plane.stride, visible, rows) <= bytesUsed
    && LastEnd(plane.stride, visible, rows) <= targetSize
    && plane.offset + LastEnd(plane.stride, visible, rows) <= targetCapacity
  }

  /** The range check succeeds exactly when the copy stays within the bytes used and the target. */
  method ValidateCopyRange(mapped: Size, bytesUsed: UInt32, plane: Plane, sourceOffset: Size, visible: Size, rows: Size,
                           targetSize: Size, targetCapacity: Size)
    returns (code: StatusCode)
    ensures code == if RangeValid(mapped, bytesUsed, plane, sourceOffset, visible, rows, targetSize, targetCapacity)
                    then OkStatus else CorruptData
  {
    if rows == 0 || visible == 0 || visible > plane.stride || bytesUsed > mapped {
      return CorruptData;
    }
    var lastRow := CheckedMultiply(plane.stride, rows - 1);
    if lastRow.None? {
      return CorruptData;
    }
    var sourceRow := CheckedAdd(sourceOffset, lastRow.value);
    if sourceRow.None? {
      return CorruptData;
    }
    var sourceEnd := CheckedAdd(sourceRow.value, visible);
    var targetEnd := CheckedAdd(lastRow.value, visible);
    var targetRow := CheckedAdd(plane.offset, lastRow.value);
    if sourceEnd.None? || targetEnd.None? || targetRow.None? {
      return CorruptData;
    }
    var absoluteEnd := CheckedAdd(targetRow.value, visible);
    if absoluteEnd.None? {
      return CorruptData;
    }
    if || sourceEnd.value > bytesUsed || sourceEnd.value > mapped
       || targetEnd.value > targetSize || absoluteEnd.value > targetCapacity
    {
      return CorruptData;
    }
    return OkStatus;
  }

  lemma ShownIsWithin(k: nat, stride: nat, visible: nat, rows: nat)
    requires stride > 0 && visible <= stride && Shows(k, stride, visible, rows)
    ensures k < LastEnd(stride, visible, rows)
  {
    var row := k / stride;
    assert k == stride * row + k % stride;
    if row >= rows {
      ProductGrows(stride, rows, row);
      assert false;
    }
    ProductGrows(stride, row, rows - 1);
  }

  /** Within a row, the position is the distance from its start. */
  lemma PositionInRow(k: nat, stride: nat, row: nat)
    requires stride > 0 && row * stride <= k < row * stride + stride
    ensures k % stride == k - row * stride
  {
    QuotientOf(k, stride, row, k - row * stride);
  }

  lemma InBounds(used: seq<Byte>, sourceOffset: nat, stride: nat, visible: nat, rows: nat)
    requires stride > 0 && visible <= stride && sourceOffset + LastEnd(stride, visible, rows) <= |used|
    ensures CopyInBounds(used, sourceOffset, stride, visible, rows)
  {
    forall k | 0 <= k && Shows(k, stride, visible, rows)
      ensures sourceOffset + k < |used|
    {
      ShownIsWithin(k, stride, visible, rows);
    }
  }

  /** Copying one more row turns a copy of `row` rows into a copy of `row + 1`. */
  lemma RowCopied(before: seq<Byte>, after: seq<Byte>, used: seq<Byte>, sourceOffset: nat, stride: nat, visible: nat,
                  row: nat)
    requires visible <= stride
    requires CopyInBounds(used, sourceOffset, stride, visible, row + 1)
    requires CopyInBounds(used, sourceOffset, stride, visible, row)
    requires IsCopy(before, used, sourceOffset, stride, visible, row) && |after| == |before|
    requires 0 <= row * stride && sourceOffset + row * stride + visible <= |used|
    requires forall k :: 0 <= k < |after| ==>
                           after[k] == if row * stride <= k < row * stride + visible then used[sourceOffset + k]
                                       else before[k]
    ensures IsCopy(after, used, sourceOffset, stride, visible, row + 1)
  {
    assert (row + 1) * stride == row * stride + stride;
    forall k | 0 <= k < |after|
      ensures after[k] == if Shows(k, stride, visible, row + 1) then used[sourceOffset + k] else 0
    {
      if row * stride <= k < row * stride + stride {
        PositionInRow(k, stride, row);
      }
    }
  }

  lemma RowFits(stride: nat, visible: nat, row: nat, rows: nat)
    requires row < rows
    ensures 0 <= row * stride && row * stride + visible <= LastEnd(stride, visible, rows)
  {
    ProductGrows(stride, 0, row);
    ProductGrows(stride, row, rows - 1);
  }

  lemma FewerRows(used: seq<Byte>, sourceOffset: nat, stride: nat, visible: nat, row: nat, rows: nat)
    requires row <= rows && CopyInBounds(used, sourceOffset, stride, visible, rows)
    ensures CopyInBounds(used, sourceOffset, stride, visible, row)
  {
    ProductGrows(stride, row, rows);
    forall k | 0 <= k && Shows(k, stride, visible, row)
      ensures sourceOffset + k < |used|
    {
      assert Shows(k, stride, visible, rows);
    }
  }

  method CopyRow(source: array<Byte>, from: nat, target: array<Byte>, to: nat, n: nat)
    requires source != target && from + n <= source.Length && to + n <= target.Length
    modifies target
    ensures forall k :: 0 <= k < target.Length ==>
                          target[k] == if to <= k < to + n then source[from + (k - to)] else old(target[k])
  {
    forall k | to <= k < to + n {
      target[k] := source[from + (k - to)];
    }
  }

  /** Clears the plane and copies its visible rows. Nothing outside of the plane is written. */
  method CopyPlane(source: array<Byte>, bytesUsed: nat, plane: Plane, sourceOffset: Size, visible: Size, rows: Size,
                   target: array<Byte>)
    requires source != target && Addressable(plane) && plane.offset + plane.size <= target.Length
    requires RangeValid(source.Length, bytesUsed, plane, sourceOffset, visible, rows, plane.size, target.Length)
    modifies target
    ensures forall k :: 0 <= k < target.Length && !(plane.offset <= k < plane.offset + plane.size) ==>
                          target[k] == old(target[k])
    ensures CopyInBounds(source[..bytesUsed], sourceOffset, plane.stride, visible, rows)
    ensures IsCopy(target[plane.offset..plane.offset + plane.size], source[..bytesUsed], sourceOffset, plane.stride,
                   visible, rows)
  {
    var o, end, stride := plane.offset, plane.offset + plane.size, plane.stride;
    ghost var used := source[..bytesUsed];
    InBounds(used, sourceOffset, stride, visible, rows);
    FewerRows(used, sourceOffset, stride, visible, 0, rows);
    forall k | o <= k < end {
      target[k] := 0;
    }
    for row := 0 to rows
      invariant forall k :: 0 <= k < target.Length && !(o <= k < end) ==> target[k] == old(target[k])
      invariant CopyInBounds(used, sourceOffset, stride, visible, row)
      invariant IsCopy(target[o..end], used, sourceOffset, stride, visible, row)
    {
      ghost var before := target[o..end];
      RowFits(stride, visible, row, rows);
      FewerRows(used, sourceOffset, stride, visible, row + 1, rows);
      CopyRow(source, sourceOffset + row * stride, target, o + row * stride, visible);
      RowCopied(before, target[o..end], used, sourceOffset, stride, visible, row);
    }
  }

  /** The bytes that show pixels in the first `n` planes. */
  ghost function ShownBytes(visible: seq<nat>, format: PixelFormat, height: Int32, n: nat): (total: nat)
    requires n <= |visible| && height >= 0
  {
    if n == 0 then 0
    else
      ProductGrows(visible[n - 1], 0, PlaneRows(format, height, n - 1));
      ShownBytes(visible, format, height, n - 1) + visible[n - 1] * PlaneRows(format, height, n - 1)
  }

  /** A picture has three bytes for two pixels, or two bytes a pixel. */
  lemma ShownBytesOfPicture(format: PixelFormat, width: Int32, height: Int32)
    requires ValidDimensions(format, width, height)
    ensures var visible := VisibleRows(format, width);
            2 * ShownBytes(visible, format, height, |visible|)
            == (if format == Yuyv422 then 4 else 3) * (width * height)
  {
    var visible := VisibleRows(format, width);
    assert ShownBytes(visible, format, height, 0) == 0;
    assert ShownBytes(visible, format, height, 1) == visible[0] * height;
    if format == Yuyv422 {
      Associates(2, width, height);
    } else {
      var a, b := width / 2, height / 2;
      assert width == 2 * a && height == 2 * b;
      assert width * height == 4 * (a * b);
      assert width * b == 2 * (a * b);
      assert ShownBytes(visible, format, height, 2) == width * height + visible[1] * b;
      if format == Yuv420p {
        assert ShownBytes(visible, format, height, 3) == ShownBytes(visible, format, height, 2) + a * b;
      }
    }
  }

  /** The plane of the target is the copy of the same plane in the bytes used. */
  ghost predicate PlaneCopied(target: seq<Byte>, source: seq<Byte>, bytesUsed: nat, n: NegotiatedFormat, i: nat)
    requires i < |n.format.planes| && |n.format.planes| == |n.visibleRowBytes| == |n.sourceOffsets|
  {
    var p, rows := n.format.planes[i], PlaneRows(n.format.pixelFormat, n.format.height, i);
    && bytesUsed <= |source| && p.offset + p.size <= |target|
    && CopyInBounds(source[..bytesUsed], n.sourceOffsets[i], p.stride, n.visibleRowBytes[i], rows)
    && IsCopy(target[p.offset..p.offset + p.size], source[..bytesUsed], n.sourceOffsets[i], p.stride,
              n.visibleRowBytes[i], rows)
  }

  ghost predicate AllCopied(target: seq<Byte>, source: seq<Byte>, bytesUsed: nat, n: NegotiatedFormat, count: nat)
    requires count <= |n.format.planes| == |n.visibleRowBytes| == |n.sourceOffsets|
  {
    forall i :: 0 <= i < count ==> PlaneCopied(target, source, bytesUsed, n, i)
  }

  lemma SliceKept(before: seq<Byte>, after: seq<Byte>, written: Plane, kept: Plane)
    requires |before| == |after| && kept.offset + kept.size <= |after| && !Overlap(written, kept)
    requires forall k :: 0 <= k < |after| && !(written.offset <= k < written.offset + written.size) ==>
                           after[k] == before[k]
    ensures after[kept.offset..kept.offset + kept.size] == before[kept.offset..kept.offset + kept.size]
  {
  }

  /** Writing one plane leaves the others as they are. */
  lemma OneMoreCopied(before: seq<Byte>, after: seq<Byte>, source: seq<Byte>, bytesUsed: nat, n: NegotiatedFormat,
                      i: nat)
    requires i < |n.format.planes| == |n.visibleRowBytes| == |n.sourceOffsets| && |before| == |after|
    requires AllCopied(before, source, bytesUsed, n, i) && PlaneCopied(after, source, bytesUsed, n, i)
    requires var p := n.format.planes[i];
             forall k :: 0 <= k < |after| && !(p.offset <= k < p.offset + p.size) ==> after[k] == before[k]
    ensures AllCopied(after, source, bytesUsed, n, i + 1)
  {
    var planes := n.format.planes;
    forall j | 0 <= j < i
      ensures PlaneCopied(after, source, bytesUsed, n, j)
    {
      assert PlaneCopied(before, source, bytesUsed, n, j);
      SliceKept(before, after, planes[i], planes[j]);
    }
  }

  lemma LastEndWithin(stride: nat, visible: nat, rows: nat)
    requires rows > 0 && visible <= stride
    ensures 0 <= LastEnd(stride, visible, rows) <= stride * rows
  {
    ProductGrows(stride, 0, rows - 1);
    assert stride * rows == stride * (rows - 1) + stride;
  }

  lemma PictureFits(width: Int32, height: Int32)
    requires width >= 0 && height >= 0
    ensures 0 <= 4 * (width * height) <= SIZE_MAXIMUM
  {
    ProductGrows(width, height, INT_MAXIMUM);
    ProductGrows(INT_MAXIMUM, width, INT_MAXIMUM);
    ProductGrows(width, 0, height);
  }

  /** The bytes shown never overflow their count. */
  lemma {:induction false} ShownBytesGrow(visible: seq<nat>, format: PixelFormat, height: Int32, n: nat)
    requires n <= |visible| && height >= 0
    ensures ShownBytes(visible, format, height, n) <= ShownBytes(visible, format, height, |visible|)
    ensures n > 0 ==> 0 <= visible[n - 1] * PlaneRows(format, height, n - 1) <= ShownBytes(visible, format, height, n)
    decreases |visible| - n
  {
    hide PlaneRows;
    if n > 0 {
      ProductGrows(visible[n - 1], 0, PlaneRows(format, height, n - 1));
    }
    if n < |visible| {
      ProductGrows(visible[n], 0, PlaneRows(format, height, n));
      ShownBytesGrow(visible, format, height, n + 1);
    }
  }

  lemma ShownBytesFit(visible: seq<nat>, format: PixelFormat, width: Int32, height: Int32, n: nat)
    requires ValidDimensions(format, width, height) && visible == VisibleRows(format, width) && n <= |visible|
    ensures ShownBytes(visible, format, height, n) <= ShownBytes(visible, format, height, |visible|) <= SIZE_MAXIMUM
    ensures n > 0 ==> 0 <= visible[n - 1] * PlaneRows(format, height, n - 1) <= SIZE_MAXIMUM
  {
    PictureFits(width, height);
    ShownBytesOfPicture(format, width, height);
    ShownBytesGrow(visible, format, height, n);
    hide VisibleRows, ShownBytes;
  }

  /** The driver has filled every byte that shows a pixel of the picture. */
  ghost predicate PictureFilled(source: seq<Byte>, bytesUsed: nat, n: NegotiatedFormat)
    requires n.format.height >= 0 && |n.format.planes| == |n.visibleRowBytes| == |n.sourceOffsets|
  {
    && bytesUsed <= |source|
    && forall i :: 0 <= i < |n.format.planes| ==>
                     CopyInBounds(source[..bytesUsed], n.sourceOffsets[i], n.format.planes[i].stride,
                                  n.visibleRowBytes[i], PlaneRows(n.format.pixelFormat, n.format.height, i))
  }

  lemma LastByteShows(stride: nat, visible: nat, rows: nat)
    requires rows > 0 && 0 < visible <= stride
    ensures 0 < LastEnd(stride, visible, rows) && Shows(LastEnd(stride, visible, rows) - 1, stride, visible, rows)
  {
    LastEndWithin(stride, visible, rows);
    var k := LastEnd(stride, visible, rows) - 1;
    assert k == stride * (rows - 1) + (visible - 1);
    ProductGrows(stride, 0, rows - 1);
    PositionInRow(k, stride, rows - 1);
  }

  /** The range check of a plane passes exactly if the driver has filled what the plane shows. */
  lemma RangeValidIff(n: NegotiatedFormat, format: PixelFormat, width: Int32, height: Int32, source: seq<Byte>,
                      bytesUsed: nat, i: nat)
    requires ValidDimensions(format, width, height) && Describes(n, format, width, height, n.totalCapacity)
    requires bytesUsed <= |source| && i < |n.format.planes|
    ensures var p, rows := n.format.planes[i], PlaneRows(format, height, i);
            RangeValid(|source|, bytesUsed, p, n.sourceOffsets[i], n.visibleRowBytes[i], rows, p.size, n.totalCapacity)
            <==> CopyInBounds(source[..bytesUsed], n.sourceOffsets[i], p.stride, n.visibleRowBytes[i], rows)
  {
    var p, rows, visible := n.format.planes[i], PlaneRows(format, height, i), n.visibleRowBytes[i];
    PlanesWithin(n.format.planes, n.totalCapacity, i);
    assert visible == VisibleRows(format, width)[i];
    LastEndWithin(p.stride, visible, rows);
    LastByteShows(p.stride, visible, rows);
    if RangeValid(|source|, bytesUsed, p, n.sourceOffsets[i], visible, rows, p.size, n.totalCapacity) {
      InBounds(source[..bytesUsed], n.sourceOffsets[i], p.stride, visible, rows);
    }
  }

  /** A buffer of which the driver has filled the whole capacity can be copied. */
  lemma FullBufferIsValid(n: NegotiatedFormat, format: PixelFormat, width: Int32, height: Int32, mapped: nat,
                          bytesUsed: nat, i: nat)
    requires ValidDimensions(format, width, height) && Describes(n, format, width, height, n.totalCapacity)
    requires n.totalCapacity <= bytesUsed <= mapped && i < |n.format.planes|
    ensures var p := n.format.planes[i];
            RangeValid(mapped, bytesUsed, p, n.sourceOffsets[i], n.visibleRowBytes[i], PlaneRows(format, height, i),
                       p.size, n.totalCapacity)
  {
    var p, rows := n.format.planes[i], PlaneRows(format, height, i);
    PlanesWithin(n.format.planes, n.totalCapacity, i);
    assert n.visibleRowBytes[i] == VisibleRows(format, width)[i];
    LastEndWithin(p.stride, n.visibleRowBytes[i], rows);
  }

  lemma CopiedPlane(source: array<Byte>, target: array<Byte>, bytesUsed: nat, n: NegotiatedFormat, i: nat)
    requires i < |n.format.planes| == |n.visibleRowBytes| == |n.sourceOffsets| && bytesUsed <= source.Length
    requires n.format.planes[i].offset + n.format.planes[i].size <= target.Length
    requires var p, rows := n.format.planes[i], PlaneRows(n.format.pixelFormat, n.format.height, i);
             && CopyInBounds(source[..bytesUsed], n.sourceOffsets[i], p.stride, n.visibleRowBytes[i], rows)
             && IsCopy(target[p.offset..p.offset + p.size], source[..bytesUsed], n.sourceOffsets[i], p.stride,
                       n.visibleRowBytes[i], rows)
    ensures PlaneCopied(target[..], source[..], bytesUsed, n, i)
  {
  }

  lemma NotFilled(source: seq<Byte>, bytesUsed: nat, n: NegotiatedFormat, i: nat)
    requires ValidDimensions(n.format.pixelFormat, n.format.width, n.format.height)
    requires Describes(n, n.format.pixelFormat, n.format.width, n.format.height, n.totalCapacity)
    requires i < |n.format.planes|
    requires var p, rows := n.format.planes[i], PlaneRows(n.format.pixelFormat, n.format.height, i);
             !RangeValid(|source|, bytesUsed, p, n.sourceOffsets[i], n.visibleRowBytes[i], rows, p.size,
                         n.totalCapacity)
    ensures !PictureFilled(source, bytesUsed, n)
  {
    if bytesUsed <= |source| {
      RangeValidIff(n, n.format.pixelFormat, n.format.width, n.format.height, source, bytesUsed, i);
    }
  }

  lemma CopiedIsFilled(target: seq<Byte>, source: seq<Byte>, bytesUsed: nat, n: NegotiatedFormat)
    requires ValidDimensions(n.format.pixelFormat, n.format.width, n.format.height)
    requires Describes(n, n.format.pixelFormat, n.format.width, n.format.height, n.totalCapacity)
    requires AllCopied(target, source, bytesUsed, n, |n.format.planes|)
    ensures PictureFilled(source, bytesUsed, n)
  {
    assert PlaneCopied(target, source, bytesUsed, n, 0);
    forall i | 0 <= i < |n.format.planes|
      ensures CopyInBounds(source[..bytesUsed], n.sourceOffsets[i], n.format.planes[i].stride, n.visibleRowBytes[i],
                           PlaneRows(n.format.pixelFormat, n.format.height, i))
    {
      assert PlaneCopied(target, source, bytesUsed, n, i);
    }
  }

  /** Copies all planes of a frame. It fails exactly if the driver has not filled all that the planes show. */
  method CopyFrame(source: array<Byte>, bytesUsed: UInt32, n: NegotiatedFormat, target: array<Byte>)
    returns (code: StatusCode, copied: Size)
    requires ValidDimensions(n.format.pixelFormat, n.format.width, n.format.height)
    requires Describes(n, n.format.pixelFormat, n.format.width, n.format.height, n.totalCapacity)
    requires source != target && target.Length == n.totalCapacity && source.Length <= SIZE_MAXIMUM
    modifies target
    ensures code.OkStatus? || code.CorruptData?
    ensures code.OkStatus? <==> PictureFilled(source[..], bytesUsed, n)
    ensures n.totalCapacity <= bytesUsed <= source.Length ==> code.OkStatus?
    ensures code.OkStatus? ==> AllCopied(target[..], source[..], bytesUsed, n, |n.format.planes|)
    ensures code.OkStatus? ==>
              2 * copied == (if n.format.pixelFormat == Yuyv422 then 4 else 3) * (n.format.width * n.format.height)
  {
    var planes, format, height := n.format.planes, n.format.pixelFormat, n.format.height;
    copied := 0;
    for i := 0 to |planes|
      invariant AllCopied(target[..], source[..], bytesUsed, n, i)
      invariant copied == ShownBytes(n.visibleRowBytes, format, height, i)
    {
      var plane, rows := planes[i], PlaneRows(format, height, i);
      PlanesWithin(planes, n.totalCapacity, i);
      code := ValidateCopyRange(source.Length, bytesUsed, plane, n.sourceOffsets[i], n.visibleRowBytes[i], rows,
                                plane.size, n.totalCapacity);
      if !code.OkStatus? {
        NotFilled(source[..], bytesUsed, n, i);
        if n.totalCapacity <= bytesUsed <= source.Length {
          FullBufferIsValid(n, format, n.format.width, height, source.Length, bytesUsed, i);
        }
        return CorruptData, copied;
      }
      ghost var before := target[..];
      CopyPlane(source, bytesUsed, plane, n.sourceOffsets[i], n.visibleRowBytes[i], rows, target);
      CopiedPlane(source, target, bytesUsed, n, i);
      OneMoreCopied(before, target[..], source[..], bytesUsed, n, i);
      ShownBytesFit(n.visibleRowBytes, format, n.format.width, height, i + 1);
      var shown := CheckedMultiply(n.visibleRowBytes[i], rows);
      if shown.None? {
        return CorruptData, copied;
      }
      var sum := CheckedAdd(copied, shown.value);
      if sum.None? {
        return CorruptData, copied;
      }
      copied := sum.value;
    }
    ShownBytesOfPicture(format, n.format.width, height);
    CopiedIsFilled(target[..], source[..], bytesUsed, n);
    code := OkStatus;
  }
}

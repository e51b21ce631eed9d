/** What processors and encoders can do, which requests they match, and the formats they settle on. */
module Negotiation {
  import opened Statuses
  import opened SizeArithmetic
  import opened VideoFormats
  import opened Layouts
  import opened LayoutLaws

  /** The first supported format of the given pixel format and memory domain. */
  function FindFormat(formats: seq<FormatCapability>, f: VideoFormat): (r: Option<FormatCapability>)
    ensures r.Some? ==> r.value in formats && r.value.pixelFormat == f.pixelFormat && r.value.domain == f.domain
    ensures r.None? ==> forall c :: c in formats ==> !(c.pixelFormat == f.pixelFormat && c.domain == f.domain)
  {
    if formats == [] then None
    else if formats[0].pixelFormat == f.pixelFormat && formats[0].domain == f.domain then Some(formats[0])
    else FindFormat(formats[1..], f)
  }

  lemma {:induction false} FindFormatIgnoresPlanes(formats: seq<FormatCapability>, f: VideoFormat, g: VideoFormat)
    requires f.pixelFormat == g.pixelFormat && f.domain == g.domain
    ensures FindFormat(formats, f) == FindFormat(formats, g)
  {
    if formats != [] {
      FindFormatIgnoresPlanes(formats[1..], f, g);
    }
  }

  /** The format needs no conversion under the first capability that supports it. */
  predicate Direct(formats: seq<FormatCapability>, f: VideoFormat, widths: DimensionRange, heights: DimensionRange,
                   address: Size)
  {
    var found := FindFormat(formats, f);
    found.Some? && Accepts(f, found.value, widths, heights, address)
  }

  /** The capability exists and describes its planes. */
  predicate Supported(formats: seq<FormatCapability>, f: VideoFormat) {
    var found := FindFormat(formats, f);
    found.Some? && found.value.Valid()
  }

  /** A buffer address aligned to `address` is aligned as the planes of the format must be. */
  predicate AlignsFor(formats: seq<FormatCapability>, f: VideoFormat, address: Size) {
    var found := FindFormat(formats, f);
    found.Some? && AllValid(found.value.constraints) && AlignsAll(found.value.constraints, address)
  }

  /** The formats differ in their plane layouts at most. */
  predicate SamePicture(f: VideoFormat, g: VideoFormat) {
    && f.pixelFormat == g.pixelFormat && f.width == g.width && f.height == g.height
    && f.domain == g.domain && f.color == g.color
  }

  // ---- Encoders ----

  datatype EncoderConfig = EncoderConfig(width: Int32, height: Int32, codec: nat, profile: nat, level: int,
                                         rateControl: nat)

  datatype EncoderRequest = EncoderRequest(input: VideoFormat, config: EncoderConfig, address: Size,
                                           requireZeroCopy: bool)

  datatype EncoderCapability = EncoderCapability(
    widths: DimensionRange, heights: DimensionRange, codec: nat, profiles: seq<nat>, levels: seq<int>,
    formats: seq<FormatCapability>, rateControls: seq<nat>, zeroCopy: bool) {

    predicate RequiresConversion(r: EncoderRequest) {
      !Direct(formats, r.input, widths, heights, r.address)
    }

    predicate UsesZeroCopy(r: EncoderRequest) {
      zeroCopy && !RequiresConversion(r)
    }

    predicate Matches(r: EncoderRequest) {
      && widths.Valid() && heights.Valid()
      && widths.Contains(r.config.width) && heights.Contains(r.config.height)
      && r.input.width == r.config.width && r.input.height == r.config.height
      && Supported(formats, r.input)
      && r.config.codec == codec && r.config.profile in profiles && r.config.level in levels
      && r.config.rateControl in rateControls
      && (r.requireZeroCopy ==> zeroCopy) && (r.requireZeroCopy ==> !RequiresConversion(r))
    }

    /** The format the encoder will read, which the producer of the frames must adopt. */
    function ActualInput(r: EncoderRequest): Result<VideoFormat> {
      if !Matches(r) then Failure(CapabilityMismatch)
      else if !RequiresConversion(r) then Success(r.input)
      else ActualFormat(r.input, FindFormat(formats, r.input).value, widths, heights)
    }
  }

  /** An accepted format stays accepted in any buffer whose address is aligned as its planes demand. */
  lemma AcceptedAtAnyAddress(f: VideoFormat, c: FormatCapability, widths: DimensionRange, heights: DimensionRange,
                             address: Size, other: Size)
    requires Accepts(f, c, widths, heights, address) && AlignsAll(c.constraints, other)
    ensures Accepts(f, c, widths, heights, other)
  {
  }

  /** The format that is settled on is direct, wherever a buffer of proper alignment puts it. */
  lemma SettledIsDirect(formats: seq<FormatCapability>, f: VideoFormat, widths: DimensionRange,
                        heights: DimensionRange, address: Size, other: Size)
    requires Supported(formats, f) && widths.Contains(f.width) && heights.Contains(f.height)
    requires AlignsFor(formats, f, other)
    requires !Direct(formats, f, widths, heights, address) ==>
               ActualFormat(f, FindFormat(formats, f).value, widths, heights).Success?
    ensures var settled := if Direct(formats, f, widths, heights, address) then f
                           else ActualFormat(f, FindFormat(formats, f).value, widths, heights).value;
            && Direct(formats, settled, widths, heights, other)
            && SamePicture(settled, f)
            && FindFormat(formats, settled) == FindFormat(formats, f)
  {
    hide Accepts, ActualFormat, AlignsAll;
    var c := FindFormat(formats, f).value;
    if Direct(formats, f, widths, heights, address) {
      AcceptedAtAnyAddress(f, c, widths, heights, address, other);
    } else {
      ActualFormatIsAccepted(f, c, widths, heights, other);
      FindFormatIgnoresPlanes(formats, f, ActualFormat(f, c, widths, heights).value);
    }
  }

  /** Stability: asking again with the format that was settled on needs no conversion and changes nothing. */
  lemma EncoderSettles(e: EncoderCapability, r: EncoderRequest, address: Size)
    requires e.ActualInput(r).Success?
    requires AlignsFor(e.formats, r.input, address)
    ensures var again := r.(input := e.ActualInput(r).value, address := address);
            && e.Matches(again) && !e.RequiresConversion(again)
            && e.ActualInput(again) == e.ActualInput(r)
  {
    hide Accepts, ActualFormat, AlignsAll;
    SettledIsDirect(e.formats, r.input, e.widths, e.heights, r.address, address);
  }

  lemma ConvertedKeepsPicture(f: VideoFormat, c: FormatCapability, widths: DimensionRange, heights: DimensionRange)
    requires ActualFormat(f, c, widths, heights).Success?
    ensures SamePicture(ActualFormat(f, c, widths, heights).value, f)
  {
    hide PackedPlanes, Representable, GroupsFit, FormatStatus;
  }

  /** What an encoder grants is the picture that was asked for, coded as asked, and without a copy if that was asked. */
  lemma GrantedAsAsked(e: EncoderCapability, r: EncoderRequest)
    requires e.ActualInput(r).Success?
    ensures SamePicture(e.ActualInput(r).value, r.input)
    ensures r.input.width == r.config.width && r.input.height == r.config.height
    ensures r.config.codec == e.codec && r.config.profile in e.profiles && r.config.level in e.levels
    ensures r.config.rateControl in e.rateControls
    ensures r.requireZeroCopy ==> e.UsesZeroCopy(r) && e.ActualInput(r).value == r.input
  {
    hide Accepts, Direct, ActualFormat, FormatCapability.Valid, DimensionRange.Valid, DimensionRange.Contains;
    if e.RequiresConversion(r) {
      ConvertedKeepsPicture(r.input, FindFormat(e.formats, r.input).value, e.widths, e.heights);
    }
  }

  /** A format that can be read as it is, coded in a way the encoder knows, is never refused or replaced. */
  lemma DirectIsGranted(e: EncoderCapability, r: EncoderRequest)
    requires e.widths.Valid() && e.heights.Valid()
    requires r.input.width == r.config.width && r.input.height == r.config.height
    requires Direct(e.formats, r.input, e.widths, e.heights, r.address)
    requires r.config.codec == e.codec && r.config.profile in e.profiles && r.config.level in e.levels
    requires r.config.rateControl in e.rateControls && (r.requireZeroCopy ==> e.zeroCopy)
    ensures e.ActualInput(r) == Success(r.input)
  {
  }

  // ---- Processors ----

  datatype Operation = Scaling | Cropping | Rotation | FormatConversion

  datatype ConfigFields = ConfigFields(input: VideoFormat, output: VideoFormat, cropX: Int32, cropY: Int32,
                                       cropWidth: Int32, cropHeight: Int32, rotation: Int32)

  predicate ConfigValid(c: ConfigFields) {
    && c.cropX >= 0 && c.cropY >= 0 && c.cropWidth > 0 && c.cropHeight > 0
    && c.cropX + c.cropWidth <= c.input.width && c.cropY + c.cropHeight <= c.input.height
    && (c.rotation == 0 || c.rotation == 90 || c.rotation == 180 || c.rotation == 270)
  }

  function CreateConfig(c: ConfigFields): (r: Result<ConfigFields>)
    ensures r == if ConfigValid(c) then Success(c) else Failure(InvalidArgument)
  {
    if c.cropX < 0 || c.cropY < 0 || c.cropWidth <= 0 || c.cropHeight <= 0 then Failure(InvalidArgument)
    else if c.cropX > c.input.width - c.cropWidth || c.cropY > c.input.height - c.cropHeight then
      Failure(InvalidArgument)
    else if c.rotation != 0 && c.rotation != 90 && c.rotation != 180 && c.rotation != 270 then
      Failure(InvalidArgument)
    else Success(c)
  }

  predicate Requires(c: ConfigFields, operation: Operation) {
    match operation
    case Scaling =>
      var swaps := c.rotation == 90 || c.rotation == 270;
      || (if swaps then c.cropHeight else c.cropWidth) != c.output.width
      || (if swaps then c.cropWidth else c.cropHeight) != c.output.height
    case Cropping =>
      c.cropX != 0 || c.cropY != 0 || c.cropWidth != c.input.width || c.cropHeight != c.input.height
    case Rotation => c.rotation != 0
    case FormatConversion => c.input.pixelFormat != c.output.pixelFormat
  }

  datatype Extent = Extent(width: int, height: int)

  /** The extent of a picture after `n` quarter turns. */
  function Turned(e: Extent, n: nat): Extent
    decreases n
  {
    if n == 0 then e else Turned(Extent(e.height, e.width), n - 1)
  }

  /** Scaling is needed exactly if the cropped picture, once rotated, has not the size of the output. */
  lemma ScalingIff(c: ConfigFields)
    requires ConfigValid(c)
    ensures Requires(c, Scaling) <==>
              Turned(Extent(c.cropWidth, c.cropHeight), c.rotation / 90) != Extent(c.output.width, c.output.height)
  {
    var crop := Extent(c.cropWidth, c.cropHeight);
    assert Turned(crop, 1) == Turned(Extent(crop.height, crop.width), 0);
    assert Turned(crop, 2) == Turned(Extent(crop.height, crop.width), 1) == crop;
    assert Turned(crop, 3) == Turned(Extent(crop.height, crop.width), 2) == Turned(crop, 1);
  }

  /** Nothing needs to be done exactly if the whole picture is passed on as it is. */
  lemma NothingRequiredIff(c: ConfigFields)
    requires ConfigValid(c)
    ensures (forall o :: !Requires(c, o)) <==>
              && c.cropX == 0 == c.cropY && c.cropWidth == c.input.width == c.output.width
              && c.cropHeight == c.input.height == c.output.height && c.rotation == 0
              && c.input.pixelFormat == c.output.pixelFormat
  {
    if forall o :: !Requires(c, o) {
      assert !Requires(c, Scaling) && !Requires(c, Cropping);
      assert !Requires(c, Rotation) && !Requires(c, FormatConversion);
    }
  }

  datatype ProcessorRequest = ProcessorRequest(
    config: ConfigFields, operations: seq<Operation>, inputAddress: Size, outputAddress: Size, requireZeroCopy: bool)

  datatype ProcessorCapability = ProcessorCapability(
    inputWidths: DimensionRange, inputHeights: DimensionRange,
    outputWidths: DimensionRange, outputHeights: DimensionRange,
    inputFormats: seq<FormatCapability>, outputFormats: seq<FormatCapability>,
    operations: seq<Operation>, zeroCopy: bool, requiresIdenticalFormats: bool) {

    predicate RequiresConversion(r: ProcessorRequest) {
      || !Direct(inputFormats, r.config.input, inputWidths, inputHeights, r.inputAddress)
      || !Direct(outputFormats, r.config.output, outputWidths, outputHeights, r.outputAddress)
    }

    predicate UsesZeroCopy(r: ProcessorRequest) {
      zeroCopy && !RequiresConversion(r)
    }

    predicate Matches(r: ProcessorRequest) {
      && inputWidths.Valid() && inputHeights.Valid() && outputWidths.Valid() && outputHeights.Valid()
      && (requiresIdenticalFormats ==> r.config.input == r.config.output)
      && inputWidths.Contains(r.config.input.width) && inputHeights.Contains(r.config.input.height)
      && outputWidths.Contains(r.config.output.width) && outputHeights.Contains(r.config.output.height)
      && Supported(inputFormats, r.config.input) && Supported(outputFormats, r.config.output)
      && (forall o :: o in r.operations ==> o in operations)
      && (forall o :: o in [Scaling, Cropping, Rotation, FormatConversion] && Requires(r.config, o) ==> o in operations)
      && (r.requireZeroCopy ==> zeroCopy) && (r.requireZeroCopy ==> !RequiresConversion(r))
    }

    /** The configuration the processor will run with. */
    function NegotiatedConfig(r: ProcessorRequest): Result<ConfigFields> {
      if !Matches(r) then Failure(CapabilityMismatch)
      else if !RequiresConversion(r) then Success(r.config)
      else
        var input :=
          ActualFormat(r.config.input, FindFormat(inputFormats, r.config.input).value, inputWidths, inputHeights);
        var output :=
          ActualFormat(r.config.output, FindFormat(outputFormats, r.config.output).value, outputWidths, outputHeights);
        if input.Failure? then Failure(input.code)
        else if output.Failure? then Failure(output.code)
        else CreateConfig(r.config.(input := input.value, output := output.value))
    }
  }

  lemma EveryOperation(o: Operation)
    ensures o in [Scaling, Cropping, Rotation, FormatConversion]
  {
    var all := [Scaling, Cropping, Rotation, FormatConversion];
    assert o == all[match o case Scaling => 0 case Cropping => 1 case Rotation => 2 case FormatConversion => 3];
  }

  lemma MatchesWhatItCanDo(p: ProcessorCapability, r: ProcessorRequest)
    requires p.Matches(r)
    ensures forall o :: o in r.operations || Requires(r.config, o) ==> o in p.operations
    ensures p.requiresIdenticalFormats ==> r.config.input == r.config.output
    ensures r.requireZeroCopy ==> p.UsesZeroCopy(r) && !p.RequiresConversion(r)
  {
    hide Direct, Supported, Requires, DimensionRange.Valid, DimensionRange.Contains;
    forall o | Requires(r.config, o)
      ensures o in p.operations
    {
      EveryOperation(o);
    }
  }

  /** What a processor grants needs nothing that it cannot do, and no copy if that was asked. */
  lemma ProcessorGrantsAsAsked(p: ProcessorCapability, r: ProcessorRequest)
    requires p.NegotiatedConfig(r).Success?
    ensures forall o :: o in r.operations || Requires(r.config, o) ==> o in p.operations
    ensures p.requiresIdenticalFormats ==> r.config.input == r.config.output
    ensures r.requireZeroCopy ==> p.UsesZeroCopy(r) && p.NegotiatedConfig(r).value == r.config
  {
    hide ProcessorCapability.Matches, Direct, Requires, ActualFormat;
    MatchesWhatItCanDo(p, r);
  }

  /** Formats that can be used as they are, with nothing to do but what it can, are never refused or replaced. */
  lemma DirectIsProcessed(p: ProcessorCapability, r: ProcessorRequest)
    requires p.inputWidths.Valid() && p.inputHeights.Valid() && p.outputWidths.Valid() && p.outputHeights.Valid()
    requires Direct(p.inputFormats, r.config.input, p.inputWidths, p.inputHeights, r.inputAddress)
    requires Direct(p.outputFormats, r.config.output, p.outputWidths, p.outputHeights, r.outputAddress)
    requires forall o :: o in r.operations || Requires(r.config, o) ==> o in p.operations
    requires p.requiresIdenticalFormats ==> r.config.input == r.config.output
    requires r.requireZeroCopy ==> p.zeroCopy
    ensures p.NegotiatedConfig(r) == Success(r.config)
  {
    hide Requires;
  }

  lemma MatchesSupports(p: ProcessorCapability, r: ProcessorRequest)
    requires p.Matches(r)
    ensures p.inputWidths.Contains(r.config.input.width) && p.inputHeights.Contains(r.config.input.height)
    ensures p.outputWidths.Contains(r.config.output.width) && p.outputHeights.Contains(r.config.output.height)
    ensures Supported(p.inputFormats, r.config.input) && Supported(p.outputFormats, r.config.output)
  {
  }

  lemma ConvertedIsDirect(formats: seq<FormatCapability>, f: VideoFormat, widths: DimensionRange,
                          heights: DimensionRange, address: Size)
    requires Supported(formats, f) && widths.Contains(f.width) && heights.Contains(f.height)
    requires AlignsFor(formats, f, address)
    requires ActualFormat(f, FindFormat(formats, f).value, widths, heights).Success?
    ensures var settled := ActualFormat(f, FindFormat(formats, f).value, widths, heights).value;
            && Direct(formats, settled, widths, heights, address)
            && SamePicture(settled, f)
            && FindFormat(formats, settled) == FindFormat(formats, f)
  {
    hide Accepts, ActualFormat, AlignsAll;
    var c := FindFormat(formats, f).value;
    ActualFormatIsAccepted(f, c, widths, heights, address);
    FindFormatIgnoresPlanes(formats, f, ActualFormat(f, c, widths, heights).value);
  }

  /** The formats a processor settles on, one for each end. */
  lemma ProcessorSettlesDirect(p: ProcessorCapability, r: ProcessorRequest, inputAddress: Size, outputAddress: Size)
    requires p.NegotiatedConfig(r).Success?
    requires AlignsFor(p.inputFormats, r.config.input, inputAddress)
    requires AlignsFor(p.outputFormats, r.config.output, outputAddress)
    ensures var c := p.NegotiatedConfig(r).value;
            && Direct(p.inputFormats, c.input, p.inputWidths, p.inputHeights, inputAddress)
            && Direct(p.outputFormats, c.output, p.outputWidths, p.outputHeights, outputAddress)
            && c == r.config.(input := c.input, output := c.output)
            && SamePicture(c.input, r.config.input) && SamePicture(c.output, r.config.output)
            && FindFormat(p.inputFormats, c.input) == FindFormat(p.inputFormats, r.config.input)
            && FindFormat(p.outputFormats, c.output) == FindFormat(p.outputFormats, r.config.output)
  {
    hide Accepts, ActualFormat, AlignsAll, ProcessorCapability.Matches;
    assert p.Matches(r);
    MatchesSupports(p, r);
    if !p.RequiresConversion(r) {
      SettledIsDirect(p.inputFormats, r.config.input, p.inputWidths, p.inputHeights, r.inputAddress, inputAddress);
      SettledIsDirect(p.outputFormats, r.config.output, p.outputWidths, p.outputHeights, r.outputAddress,
                      outputAddress);
    } else {
      ConvertedIsDirect(p.inputFormats, r.config.input, p.inputWidths, p.inputHeights, inputAddress);
      ConvertedIsDirect(p.outputFormats, r.config.output, p.outputWidths, p.outputHeights, outputAddress);
    }
  }

  /**
   * Stability: asking again with the configuration that was settled on is granted without a conversion, and
   * changes nothing, exactly unless the processor wants identical formats and has settled on different ones.
   */
  lemma ProcessorSettlesIff(p: ProcessorCapability, r: ProcessorRequest, inputAddress: Size, outputAddress: Size)
    requires p.NegotiatedConfig(r).Success?
    requires AlignsFor(p.inputFormats, r.config.input, inputAddress)
    requires AlignsFor(p.outputFormats, r.config.output, outputAddress)
    ensures var c := p.NegotiatedConfig(r).value;
            var again := r.(config := c, inputAddress := inputAddress, outputAddress := outputAddress);
            && !p.RequiresConversion(again)
            && (p.NegotiatedConfig(again) == p.NegotiatedConfig(r)
                <==> (p.requiresIdenticalFormats ==> c.input == c.output))
  {
    hide Accepts, ActualFormat, AlignsAll;
    ProcessorSettlesDirect(p, r, inputAddress, outputAddress);
    var c := p.NegotiatedConfig(r).value;
    forall o
      ensures Requires(c, o) == Requires(r.config, o)
    {
    }
  }

  /** A single pixel of three bytes, in a row of `stride` bytes. */
  function Pixel(stride: Size): VideoFormat
    requires stride >= 3
  {
    FormatFields(Rgb24, 1, 1, Cpu, [Plane(0, stride, stride)], Color(0, 0, 0, 0))
  }

  function TightPixels(strideAlignment: Size): FormatCapability {
    FormatCapability(Rgb24, Cpu, [PlaneConstraint(1, 1, 3, strideAlignment, 1, 1, 1)])
  }

  lemma PixelPacks(strideAlignment: Size)
    requires strideAlignment == 1 || strideAlignment == 4
    ensures var cs := TightPixels(strideAlignment).constraints;
            && AllValid(cs) && Representable(cs, 1, 1)
            && PackedPlanes(cs, 1, 1) == Pixel(AlignedUp(3, strideAlignment)).planes
  {
  }

  lemma PixelSettles(strideAlignment: Size)
    requires strideAlignment == 1 || strideAlignment == 4
    ensures var c, range := TightPixels(strideAlignment), DimensionRange(1, 1, 1, 1);
            && range.Valid() && range.Contains(1) && c.Valid()
            && ActualFormat(Pixel(3), c, range, range) == Success(Pixel(AlignedUp(3, strideAlignment)))
            && AlignedUp(3, strideAlignment) == strideAlignment + (if strideAlignment == 1 then 2 else 0)
            && (Direct([c], Pixel(3), range, range, 1) <==> strideAlignment == 1)
  {
    PixelPacks(strideAlignment);
    assert AlignedUp(1, 1) == 1;
    assert PlaneMeets(TightPixels(strideAlignment).constraints[0], Pixel(3).planes[0], 1, 1, 1)
      <==> strideAlignment == 1;
  }

  /** A processor that wants identical formats but aligns its two ends differently refuses what it has settled on. */
  lemma IdenticalFormatsMayNotSettle()
    ensures exists p: ProcessorCapability, r: ProcessorRequest ::
              && p.NegotiatedConfig(r).Success?
              && p.NegotiatedConfig(r.(config := p.NegotiatedConfig(r).value)) == Failure(CapabilityMismatch)
  {
    hide Accepts, ActualFormat, AlignedUp, DimensionRange.Valid, DimensionRange.Contains;
    var tight, loose, range := TightPixels(1), TightPixels(4), DimensionRange(1, 1, 1, 1);
    var p := ProcessorCapability(range, range, range, range, [tight], [loose], [], false, true);
    var f := Pixel(3);
    var r := ProcessorRequest(ConfigFields(f, f, 0, 0, 1, 1, 0), [], 1, 1, false);
    PixelSettles(1);
    PixelSettles(4);
    assert p.Matches(r) && p.RequiresConversion(r);
    assert p.NegotiatedConfig(r) == Success(r.config.(output := Pixel(4)));
  }
}

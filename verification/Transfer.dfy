/** Admission of sources to the recording: what a swapchain or viewport must satisfy, and that
    whatever is admitted can be announced, copied and encoded. */
module Transfer {
  import opened Wrappers
  import opened Messages
  import opened Wire
  import opened WireProofs
  import Cadence
  import Pacing
  import ReplayState

  const MIN_SOURCE_WIDTH: nat := 320
  const MIN_SOURCE_HEIGHT: nat := 180
  const SWAPCHAIN_CREATE_INFO: u32 := 1_000_001_000

  function SaturatingMul32(a: nat, b: nat): nat { if a * b > U32_MAX then U32_MAX else a * b }

  datatype Config = Config(requested: bool, targetFramesPerSecond: byte, variableRate: bool)

  /** From the two launch values. */
  function FromValues(requested: Option<string>, frameRate: Option<string>): Config {
    Config(requested == Some("1"), if frameRate == Some("variable") then 120 else 60, frameRate == Some("variable"))
  }

  /** The creation metadata that decides; flag bits are given as booleans. */
  datatype CreateInfo = CreateInfo(
    structureType: u32,
    isProtected: bool,
    arrayLayers: u32,
    transferSource: bool,
    width: u32,
    height: u32,
    format: u32)

  datatype Plan = Plan(candidate: SourceCandidate, frameIntervalNs: nat, maximumInFlightImages: nat)

  function FormatOf(code: u32): Option<PixelFormat> {
    if code == 37 then Some(Rgba8Unorm) else if code == 43 then Some(Rgba8Srgb)
    else if code == 44 then Some(Bgra8Unorm) else if code == 50 then Some(Bgra8Srgb)
    else if code == 64 then Some(A2b10g10r10Unorm) else if code == 58 then Some(A2r10g10b10Unorm) else None
  }

  predicate FullHd(width: nat, height: nat) { (width <= 1_920 && height <= 1_080) || (height <= 1_920 && width <= 1_080) }

  predicate ExceedsThroughput(width: nat, height: nat, framesPerSecond: nat) {
    SaturatingMul32(SaturatingMul32(DivCeil(width, 16), DivCeil(height, 16)), framesPerSecond)
    > Cadence.MAX_ENCODE_MACROBLOCKS_PER_SECOND
  }

  /** Inspect only immutable creation metadata. */
  function PlanFor(config: Config, info: CreateInfo): Result<Plan, SourceRejection>
    requires config.targetFramesPerSecond > 0
  {
    if info.structureType != SWAPCHAIN_CREATE_INFO then Err(InvalidStructure)
    else if info.isProtected then Err(ProtectedSwapchain)
    else if info.arrayLayers != 1 then Err(ArrayLayersUnsupported)
    else if !info.transferSource then Err(TransferSourceUsageMissing)
    else if info.width < MIN_SOURCE_WIDTH || info.height < MIN_SOURCE_HEIGHT
            || !SourceDimensionsSupported(info.width, info.height) then Err(DimensionsUnsupported)
    else if FormatOf(info.format).None? then Err(PixelFormatUnsupported)
    else if config.targetFramesPerSecond == 120 && !config.variableRate && !FullHd(info.width, info.height) then
      Err(DimensionsUnsupported)
    else if !config.variableRate && ExceedsThroughput(info.width, info.height, config.targetFramesPerSecond) then
      Err(DimensionsUnsupported)
    else
      Ok(Plan(
        SourceCandidate(None, info.width, info.height, FormatOf(info.format).value, config.targetFramesPerSecond),
        Cadence.NANOSECONDS_PER_SECOND / config.targetFramesPerSecond,
        ReplayState.ProducerContextCount(config.variableRate)))
  }

  /** The OpenGL producer's selection from a viewport. */
  function SourceFor(targetFps: byte, variableRate: bool, width: u32, height: u32): Result<SourceCandidate, SourceRejection> {
    if width < MIN_SOURCE_WIDTH || height < MIN_SOURCE_HEIGHT || !SourceDimensionsSupported(width, height) then
      Err(DimensionsUnsupported)
    else if targetFps == 120 && !variableRate
            && !((width <= 1_920 && height <= 1_080) || (width <= 1_080 && height <= 1_920)) then
      Err(DimensionsUnsupported)
    else if !variableRate && ExceedsThroughput(width, height, targetFps) then Err(DimensionsUnsupported)
    else Ok(SourceCandidate(None, width, height, Rgba8Unorm, targetFps))
  }

  // ---- What admission means ----

  /** Supported axes are small enough for 32-bit products to be exact. */
  lemma MacroblocksExact(width: nat, height: nat, fps: nat)
    requires SourceDimensionsSupported(width, height) && fps <= 120
    ensures ExceedsThroughput(width, height, fps)
            <==> Macroblocks(width, height) * fps > Cadence.MAX_ENCODE_MACROBLOCKS_PER_SECOND
  {
    Bounded(Macroblocks(width, height), fps);
  }

  lemma Bounded(macroblocks: nat, fps: nat)
    requires macroblocks <= MAX_SOURCE_MACROBLOCKS && fps <= 120
    ensures macroblocks * fps <= U32_MAX
  {
    assert macroblocks * fps <= MAX_SOURCE_MACROBLOCKS * 120;
  }

  predicate StructureAllows(info: CreateInfo) {
    && info.structureType == SWAPCHAIN_CREATE_INFO && !info.isProtected && info.arrayLayers == 1 && info.transferSource
    && FormatOf(info.format).Some?
  }

  /** A supported source has at most 32,940 macroblocks: short of both the 34,560 that one fixed-rate
      interval allows and the separate macroblock limit, which the pixel limit therefore implies. */
  lemma SupportedMacroblocks(width: nat, height: nat)
    requires 0 < width <= MAX_REPLAY_SOURCE_WIDTH && 0 < height <= MAX_REPLAY_SOURCE_HEIGHT
    requires width * height <= MAX_REPLAY_SOURCE_PIXELS
    ensures Macroblocks(width, height) <= 32_940
  {
    var across, down := DivCeil(width, 16), DivCeil(height, 16);
    AxesSum(width, height);
    CeilingProduct(width, height, across, down);
    assert across * down <= 32_940;
  }

  lemma AxesSum(width: nat, height: nat)
    requires width <= MAX_REPLAY_SOURCE_WIDTH && height <= MAX_REPLAY_SOURCE_HEIGHT
    requires width * height <= MAX_REPLAY_SOURCE_PIXELS
    ensures width + height <= 9_204
  {
    assert 0 <= (8_192 - width) * (8_192 - height) == 8_192 * 8_192 - 8_192 * width - 8_192 * height + width * height;
  }

  lemma CeilingProduct(width: nat, height: nat, across: nat, down: nat)
    requires 16 * across <= width + 15 && 16 * down <= height + 15
    ensures 256 * (across * down) <= width * height + 15 * (width + height) + 225
  {
    var a, b, x, y := 16 * across, 16 * down, width + 15, height + 15;
    ProductGrows(a, b, x, y);
    assert a * b == 256 * (across * down);
    assert x * y == width * height + 15 * (width + height) + 225;
  }

  lemma ProductGrows(a: nat, b: nat, x: nat, y: nat)
    requires a <= x && b <= y
    ensures a * b <= x * y
  {
    assert a * b <= a * y;
    assert a * y <= x * y;
  }

  /** The full-HD branch and the throughput branch are both dead: under every launch configuration,
      fixed-rate or variable-rate, exactly the structurally sound supported sources are admitted. */
  lemma AdmittedExactly(requested: Option<string>, frameRate: Option<string>, info: CreateInfo)
    ensures PlanFor(FromValues(requested, frameRate), info).Ok?
            <==> (StructureAllows(info) && info.width >= MIN_SOURCE_WIDTH && info.height >= MIN_SOURCE_HEIGHT
                  && SourceDimensionsSupported(info.width, info.height))
  {
    if SourceDimensionsSupported(info.width, info.height) {
      SupportedMacroblocks(info.width, info.height);
      MacroblocksExact(info.width, info.height, 60);
    }
  }

  /** Both producers admit the same sizes at the same rates and differ only in pixel format. */
  lemma ProducersAdmitAlike(config: Config, info: CreateInfo)
    requires config.targetFramesPerSecond > 0 && StructureAllows(info)
    ensures var plan := PlanFor(config, info);
            var source := SourceFor(config.targetFramesPerSecond, config.variableRate, info.width, info.height);
            && (plan.Ok? <==> source.Ok?)
            && (plan.Ok? ==> plan.value.candidate == source.value.(pixelFormat := FormatOf(info.format).value))
  {
  }

  /** An admitted source can be announced on the wire, its copies can be reported, and its
      producer owns more buffers than the encoder pipeline is deep. */
  lemma AdmittedIsEncodable(requested: Option<string>, frameRate: Option<string>, info: CreateInfo, session: seq<byte>,
                            sequence: u64, checksum: u64)
    requires SessionOk(session) && PlanFor(FromValues(requested, frameRate), info).Ok?
    ensures var plan := PlanFor(FromValues(requested, frameRate), info).value;
            var source := plan.candidate;
            var bytes := source.width * source.height * 4;
            && Encode(ReplaySourceCandidate(session, source)).Ok?
            && bytes <= U32_MAX && Encode(ReplayFrameCopied(session, sequence, source, bytes, checksum)).Ok?
            && plan.maximumInFlightImages > REPLAY_ENCODER_PIPELINE_DEPTH
            && 0 < plan.frameIntervalNs <= 1_000_000_000
  {
    var source := PlanFor(FromValues(requested, frameRate), info).value.candidate;
    assert source.width * source.height * 4 <= MAX_REPLAY_SOURCE_PIXELS * 4;
  }

  /** Every admitted source fits the encoder's macroblock budget within each capture interval of its
      producer, at the fixed rate and at the variable rate, although intervals are rounded to nanoseconds. */
  lemma CaptureRateFitsEncoder(requested: Option<string>, frameRate: Option<string>, info: CreateInfo)
    requires PlanFor(FromValues(requested, frameRate), info).Ok?
    ensures var config := FromValues(requested, frameRate);
            var plan := PlanFor(config, info).value;
            var interval := if config.variableRate then Cadence.VulkanVariableInterval(info.width, info.height)
                            else Cadence.FrameIntervalForFps(config.targetFramesPerSecond);
            && Macroblocks(info.width, info.height) * 1_000_000_000 <= 2_073_600 * interval
            && plan.frameIntervalNs == Cadence.FrameIntervalForFps(plan.candidate.targetFramesPerSecond)
  {
    SupportedMacroblocks(info.width, info.height);
    Pacing.IntervalIsQuotient(60);
  }

  // ---- Requirements in their own terms ----

  /** Vulkan's own number of each accepted pixel format. */
  function VulkanNumber(format: PixelFormat): nat {
    match format
    case Rgba8Unorm => 37
    case Rgba8Srgb => 43
    case Bgra8Unorm => 44
    case Bgra8Srgb => 50
    case A2r10g10b10Unorm => 58
    case A2b10g10r10Unorm => 64
  }

  /** What a swapchain must satisfy to be recorded, in the order of the reasons. */
  predicate Meets(info: CreateInfo, reason: SourceRejection) {
    match reason
    case InvalidStructure => info.structureType == 1_000_001_000
    case ProtectedSwapchain => !info.isProtected
    case ArrayLayersUnsupported => info.arrayLayers == 1
    case TransferSourceUsageMissing => info.transferSource
    case DimensionsUnsupported =>
      320 <= info.width <= 8_192 && 180 <= info.height <= 8_192 && info.width * info.height <= 8_294_400
    case PixelFormatUnsupported => info.format in {37, 43, 44, 50, 58, 64}
    case _ => true
  }

  /** The place of a requirement in the order of the checks. */
  function Rank(reason: SourceRejection): nat {
    match reason
    case InvalidStructure => 0
    case ProtectedSwapchain => 1
    case ArrayLayersUnsupported => 2
    case TransferSourceUsageMissing => 3
    case DimensionsUnsupported => 4
    case PixelFormatUnsupported => 5
    case _ => 6
  }

  predicate MeetsBefore(info: CreateInfo, rank: nat) { forall reason :: Rank(reason) < rank ==> Meets(info, reason) }

  /** A swapchain is recorded exactly when it meets every requirement, and is otherwise refused for
      the first one it misses. What is recorded is its own size and pixel format at 60 frames a second, or up
      to 120 with three more buffers at the variable rate. */
  lemma FirstUnmetIsReported(requested: Option<string>, frameRate: Option<string>, info: CreateInfo)
    ensures var plan := PlanFor(FromValues(requested, frameRate), info);
            && (plan.Ok? <==> MeetsBefore(info, 6))
            && (forall reason :: plan == Err(reason) <==> !Meets(info, reason) && MeetsBefore(info, Rank(reason)))
            && (plan.Ok? ==>
                  var source, variable := plan.value.candidate, frameRate == Some("variable");
                  && source.width == info.width && source.height == info.height && source.gpuIdentity.None?
                  && VulkanNumber(source.pixelFormat) == info.format
                  && source.targetFramesPerSecond == (if variable then 120 else 60)
                  && plan.value.maximumInFlightImages == (if variable then 8 else 5))
  {
    SupportedExactly(info.width, info.height);
    if SourceDimensionsSupported(info.width, info.height) {
      SupportedMacroblocks(info.width, info.height);
      MacroblocksExact(info.width, info.height, 60);
    }
    EarlierRequirements(info);
  }

  lemma SupportedExactly(width: nat, height: nat)
    ensures SourceDimensionsSupported(width, height)
            <==> 0 < width <= 8_192 && 0 < height <= 8_192 && width * height <= 8_294_400
  {
    if 0 < width <= 8_192 && 0 < height <= 8_192 && width * height <= 8_294_400 {
      SupportedMacroblocks(width, height);
    }
  }

  lemma EarlierRequirements(info: CreateInfo)
    ensures MeetsBefore(info, 0)
    ensures MeetsBefore(info, 1) <==> MeetsBefore(info, 0) && Meets(info, InvalidStructure)
    ensures MeetsBefore(info, 2) <==> MeetsBefore(info, 1) && Meets(info, ProtectedSwapchain)
    ensures MeetsBefore(info, 3) <==> MeetsBefore(info, 2) && Meets(info, ArrayLayersUnsupported)
    ensures MeetsBefore(info, 4) <==> MeetsBefore(info, 3) && Meets(info, TransferSourceUsageMissing)
    ensures MeetsBefore(info, 5) <==> MeetsBefore(info, 4) && Meets(info, DimensionsUnsupported)
    ensures MeetsBefore(info, 6) <==> MeetsBefore(info, 5) && Meets(info, PixelFormatUnsupported)
  {
    assert forall reason :: Rank(reason) < 1 ==> reason == InvalidStructure;
    assert Rank(InvalidStructure) == 0 && Rank(ProtectedSwapchain) == 1 && Rank(ArrayLayersUnsupported) == 2;
    assert Rank(TransferSourceUsageMissing) == 3 && Rank(DimensionsUnsupported) == 4 && Rank(PixelFormatUnsupported) == 5;
  }
}

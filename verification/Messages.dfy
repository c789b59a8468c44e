/** Values carried by the capture protocol and shared by every producer. */
module Messages {
  import opened Wrappers

  const U16_MAX: nat := 0xFFFF
  const U32_MAX: nat := 0xFFFF_FFFF
  const U64_MAX: nat := 0xFFFF_FFFF_FFFF_FFFF
  const MAX_REPLAY_SOURCE_WIDTH: nat := 8_192
  const MAX_REPLAY_SOURCE_HEIGHT: nat := 8_192
  const MAX_REPLAY_SOURCE_PIXELS: nat := 3_840 * 2_160
  const MAX_SOURCE_MACROBLOCKS: nat := 36_864
  const REPLAY_ENCODER_PIPELINE_DEPTH: nat := 4
  const REPLAY_PRODUCER_CONTEXT_COUNT: nat := REPLAY_ENCODER_PIPELINE_DEPTH + 1
  const NVIDIA_VENDOR_ID: nat := 0x10de

  type byte = x: nat | x < 256
  type u16 = x: nat | x <= U16_MAX
  type u32 = x: nat | x <= U32_MAX
  type u64 = x: nat | x <= U64_MAX

  datatype GpuIdentity = GpuIdentity(vendorId: u32, deviceUuid: seq<byte>, driverUuid: seq<byte>)

  datatype PixelFormat =
    | Rgba8Unorm | Rgba8Srgb | Bgra8Unorm | Bgra8Srgb | A2b10g10r10Unorm | A2r10g10b10Unorm

  datatype SourceCandidate = SourceCandidate(
    gpuIdentity: Option<GpuIdentity>,
    width: u32,
    height: u32,
    pixelFormat: PixelFormat,
    targetFramesPerSecond: byte)

  datatype SourceRejection =
    | InvalidStructure | ProtectedSwapchain | ArrayLayersUnsupported | TransferSourceUsageMissing
    | DimensionsUnsupported | PixelFormatUnsupported | ExternalMemoryUnsupported
    | EncoderBackendUnavailable | VideoEncodeUnsupported | GpuIdentityUnavailable

  function DivCeil(n: nat, d: nat): nat
    requires d > 0
  {
    (n + d - 1) / d
  }

  /** Width and height in 16x16 encoder macroblocks. */
  function Macroblocks(width: nat, height: nat): nat {
    DivCeil(width, 16) * DivCeil(height, 16)
  }

  predicate SourceDimensionsSupported(width: nat, height: nat) {
    && 0 < width <= MAX_REPLAY_SOURCE_WIDTH
    && 0 < height <= MAX_REPLAY_SOURCE_HEIGHT
    && width * height <= MAX_REPLAY_SOURCE_PIXELS
    && Macroblocks(width, height) <= MAX_SOURCE_MACROBLOCKS
  }

  predicate CandidateValid(candidate: SourceCandidate) {
    && SourceDimensionsSupported(candidate.width, candidate.height)
    && candidate.targetFramesPerSecond in {30, 60, 120}
  }

  predicate IsNvidia(candidate: SourceCandidate) {
    candidate.gpuIdentity.Some? && candidate.gpuIdentity.value.vendorId == NVIDIA_VENDOR_ID
  }
}

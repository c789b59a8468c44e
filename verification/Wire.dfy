/** The bounded local capture protocol: ten message kinds, their layout and their decoder. */
module Wire {
  import opened Wrappers
  import opened Messages
  import opened Bytes

  const PROTOCOL_VERSION: u16 := 7
  const MAX_FRAME_INTERVALS: nat := 128
  const HEADER_BYTES: nat := 32
  const FRAME_BATCH_PREFIX_BYTES: nat := 16
  const IDENTITY_BYTES: nat := 40
  const MAX_MESSAGE_BYTES: nat := HEADER_BYTES + FRAME_BATCH_PREFIX_BYTES + 8 * MAX_FRAME_INTERVALS
  const MAGIC: seq<byte> := [82, 68, 67, 65, 80, 48, 48, 49]

  datatype Api = Vulkan | OpenGl
  datatype GoodbyeReason = Normal | ProcessExit | ProducerError
  datatype OverlayFailure =
    | VulkanFunctionsUnavailable | GraphicsQueueUnavailable | RendererCapacityReached | OpenGlFunctionsUnavailable
  datatype OverlayStatus = Requested | Active | Error(reason: OverlayFailure)

  datatype Message =
    | GpuIdentityReport(session: seq<byte>, api: Api, identity: Option<GpuIdentity>)
    | Hello(session: seq<byte>, processId: u32, api: Api, started: u64)
    | FrameBatch(session: seq<byte>, api: Api, firstSequence: u64, intervals: seq<u64>)
    | Goodbye(session: seq<byte>, api: Api, lastSequence: u64, reason: GoodbyeReason)
    | ReplaySourceCandidate(session: seq<byte>, candidate: SourceCandidate)
    | ReplaySourceRejected(session: seq<byte>, rejection: SourceRejection)
    | ReplayFrameCopied(session: seq<byte>, sequence: u64, source: SourceCandidate, copiedBytes: u32, checksum: u64)
    | ReplayFrameExported(session: seq<byte>, sequence: u64, fdNumber: u32, source: SourceCandidate, offset: u32,
                          stride: u32, modifier: u64, timestamp: u64, duration: u64)
    | ReplayFrameReleased(session: seq<byte>, sequence: u64)
    | OverlayReport(session: seq<byte>, status: OverlayStatus)

  datatype ProtocolError =
    | Truncated | ExceedsLimit | InvalidMagic | UnsupportedVersion | ReservedHeader | LengthMismatch | ZeroSession
    | InvalidPayloadSize | UnsupportedKind | ReservedPayload | UnsupportedApi | UnsupportedReason | UnsupportedRejection
    | UnsupportedPixelFormat | UnsupportedOverlayFailure | InvalidOverlayStatus | ReservedIdentity | IdentityUnavailable
    | CountMismatch | EmptyBatch | OversizedBatch | ZeroInterval | InvalidDimensions | InvalidFrameRate
    | CopiedBytesOverflow | CopiedBytesMismatch | InvalidFd | InvalidStride | InvalidDuration | TimestampOverflow
    | OutputTooSmall

  // ---- What types guarantee of values ----

  predicate SessionOk(session: seq<byte>) { |session| == 16 && !AllZero(session) }

  predicate IdentityOk(identity: GpuIdentity) {
    && 0 < identity.vendorId <= U16_MAX
    && |identity.deviceUuid| == 16 && |identity.driverUuid| == 16
    && !AllZero(identity.deviceUuid) && !AllZero(identity.driverUuid)
  }

  predicate OptionalIdentityOk(identity: Option<GpuIdentity>) { identity.Some? ==> IdentityOk(identity.value) }

  /** Sessions and identities can only be built by their checked constructors. */
  predicate WellTyped(m: Message) {
    && SessionOk(m.session)
    && match m
       case GpuIdentityReport(_, _, identity) => OptionalIdentityOk(identity)
       case ReplaySourceCandidate(_, candidate) => OptionalIdentityOk(candidate.gpuIdentity)
       case ReplayFrameCopied(_, _, source, _, _) => OptionalIdentityOk(source.gpuIdentity)
       case ReplayFrameExported(_, _, _, source, _, _, _, _, _) => OptionalIdentityOk(source.gpuIdentity)
       case _ => true
  }

  function NewIdentity(vendorId: u32, deviceUuid: seq<byte>, driverUuid: seq<byte>): (r: Result<GpuIdentity, ProtocolError>)
    requires |deviceUuid| == 16 && |driverUuid| == 16
    ensures r.Ok? <==> IdentityOk(GpuIdentity(vendorId, deviceUuid, driverUuid))
    ensures r.Ok? ==> r.value == GpuIdentity(vendorId, deviceUuid, driverUuid)
  {
    if vendorId == 0 || vendorId > U16_MAX || AllZero(deviceUuid) || AllZero(driverUuid) then Err(IdentityUnavailable)
    else Ok(GpuIdentity(vendorId, deviceUuid, driverUuid))
  }

  // ---- Field values on the wire ----

  function ApiByte(api: Api): byte { match api case Vulkan => 1 case OpenGl => 2 }

  function ApiFromWire(b: byte): Result<Api, ProtocolError> {
    if b == 1 then Ok(Vulkan) else if b == 2 then Ok(OpenGl) else Err(UnsupportedApi)
  }

  function ReasonByte(reason: GoodbyeReason): byte {
    match reason case Normal => 1 case ProcessExit => 2 case ProducerError => 3
  }

  function ReasonFromWire(b: byte): Result<GoodbyeReason, ProtocolError> {
    if b == 1 then Ok(Normal) else if b == 2 then Ok(ProcessExit) else if b == 3 then Ok(ProducerError)
    else Err(UnsupportedReason)
  }

  function FailureByte(reason: OverlayFailure): byte {
    match reason
    case VulkanFunctionsUnavailable => 1
    case GraphicsQueueUnavailable => 2
    case RendererCapacityReached => 3
    case OpenGlFunctionsUnavailable => 4
  }

  function FailureFromWire(b: byte): Result<OverlayFailure, ProtocolError> {
    if b == 1 then Ok(VulkanFunctionsUnavailable) else if b == 2 then Ok(GraphicsQueueUnavailable)
    else if b == 3 then Ok(RendererCapacityReached) else if b == 4 then Ok(OpenGlFunctionsUnavailable)
    else Err(UnsupportedOverlayFailure)
  }

  function PixelFormatByte(format: PixelFormat): byte {
    match format
    case Rgba8Unorm => 1
    case Rgba8Srgb => 2
    case Bgra8Unorm => 3
    case Bgra8Srgb => 4
    case A2b10g10r10Unorm => 5
    case A2r10g10b10Unorm => 6
  }

  function PixelFormatFromWire(b: byte): Result<PixelFormat, ProtocolError> {
    if b == 1 then Ok(Rgba8Unorm) else if b == 2 then Ok(Rgba8Srgb) else if b == 3 then Ok(Bgra8Unorm)
    else if b == 4 then Ok(Bgra8Srgb) else if b == 5 then Ok(A2b10g10r10Unorm)
    else if b == 6 then Ok(A2r10g10b10Unorm) else Err(UnsupportedPixelFormat)
  }

  function RejectionByte(reason: SourceRejection): byte {
    match reason
    case InvalidStructure => 1
    case ProtectedSwapchain => 2
    case ArrayLayersUnsupported => 3
    case TransferSourceUsageMissing => 4
    case DimensionsUnsupported => 5
    case PixelFormatUnsupported => 6
    case ExternalMemoryUnsupported => 7
    case EncoderBackendUnavailable => 8
    case VideoEncodeUnsupported => 9
    case GpuIdentityUnavailable => 10
  }

  function RejectionFromWire(b: byte): Result<SourceRejection, ProtocolError> {
    if b == 1 then Ok(InvalidStructure) else if b == 2 then Ok(ProtectedSwapchain)
    else if b == 3 then Ok(ArrayLayersUnsupported) else if b == 4 then Ok(TransferSourceUsageMissing)
    else if b == 5 then Ok(DimensionsUnsupported) else if b == 6 then Ok(PixelFormatUnsupported)
    else if b == 7 then Ok(ExternalMemoryUnsupported) else if b == 8 then Ok(EncoderBackendUnavailable)
    else if b == 9 then Ok(VideoEncodeUnsupported) else if b == 10 then Ok(GpuIdentityUnavailable)
    else Err(UnsupportedRejection)
  }

  function StatusBytes(status: OverlayStatus): seq<byte> {
    match status
    case Requested => [1, 0]
    case Active => [2, 0]
    case Error(reason) => [3, FailureByte(reason)]
  }

  // ---- Validation ----

  function ValidateSource(source: SourceCandidate): Option<ProtocolError> {
    if !SourceDimensionsSupported(source.width, source.height) then Some(InvalidDimensions)
    else if source.targetFramesPerSecond !in {30, 60, 120} then Some(InvalidFrameRate)
    else None
  }

  /** Products are checked in 32 bits. */
  function ValidateCopiedBytes(source: SourceCandidate, copiedBytes: u32): Option<ProtocolError> {
    if source.width * source.height > U32_MAX || source.width * source.height * 4 > U32_MAX then Some(CopiedBytesOverflow)
    else if copiedBytes != source.width * source.height * 4 then Some(CopiedBytesMismatch)
    else None
  }

  function ValidateExport(fdNumber: u32, stride: u32, timestamp: u64, duration: u64): Option<ProtocolError> {
    if !(3 <= fdNumber <= 1_000_000) then Some(InvalidFd)
    else if stride == 0 || stride > MAX_REPLAY_SOURCE_WIDTH * 4 then Some(InvalidStride)
    else if duration == 0 || duration > 1_000_000_000 then Some(InvalidDuration)
    else if timestamp + duration > U64_MAX then Some(TimestampOverflow)
    else None
  }

  function ValidateIntervals(intervals: seq<u64>): Option<ProtocolError> {
    if intervals == [] then Some(EmptyBatch)
    else if |intervals| > MAX_FRAME_INTERVALS then Some(OversizedBatch)
    else if exists i :: 0 <= i < |intervals| && intervals[i] == 0 then Some(ZeroInterval)
    else None
  }

  function Validate(m: Message): Option<ProtocolError> {
    match m
    case FrameBatch(_, _, _, intervals) => ValidateIntervals(intervals)
    case ReplaySourceCandidate(_, candidate) => ValidateSource(candidate)
    case ReplayFrameCopied(_, _, source, copiedBytes, _) =>
      var invalid := ValidateSource(source);
      if invalid.Some? then invalid else ValidateCopiedBytes(source, copiedBytes)
    case ReplayFrameExported(_, _, fdNumber, source, _, stride, _, timestamp, duration) =>
      var invalid := ValidateSource(source);
      if invalid.Some? then invalid else ValidateExport(fdNumber, stride, timestamp, duration)
    case _ => None
  }

  // ---- Layout ----

  function Kind(m: Message): byte {
    match m
    case Hello(_, _, _, _) => 1
    case FrameBatch(_, _, _, _) => 2
    case Goodbye(_, _, _, _) => 3
    case ReplaySourceCandidate(_, _) => 4
    case ReplaySourceRejected(_, _) => 5
    case ReplayFrameCopied(_, _, _, _, _) => 6
    case OverlayReport(_, _) => 7
    case ReplayFrameExported(_, _, _, _, _, _, _, _, _) => 8
    case ReplayFrameReleased(_, _) => 9
    case GpuIdentityReport(_, _, _) => 10
  }

  function IdentityBytes(identity: Option<GpuIdentity>): (r: seq<byte>)
    requires OptionalIdentityOk(identity)
    ensures |r| == IDENTITY_BYTES
  {
    if identity.None? then Zeros(40)
    else Le(4, identity.value.vendorId) + identity.value.deviceUuid + identity.value.driverUuid + Zeros(4)
  }

  function IntervalBytes(intervals: seq<u64>): (r: seq<byte>)
    ensures |r| == 8 * |intervals|
  {
    if intervals == [] then [] else IntervalBytes(intervals[..|intervals| - 1]) + Le(8, intervals[|intervals| - 1])
  }

  /** Width, height, format and frame rate as they open every source description. */
  function SourceBytes(source: SourceCandidate): (r: seq<byte>)
    ensures |r| == 10
  {
    Le(4, source.width) + Le(4, source.height) + [PixelFormatByte(source.pixelFormat), source.targetFramesPerSecond]
  }

  function BodyLength(m: Message): nat {
    match m
    case FrameBatch(_, _, _, intervals) => 16 + 8 * |intervals|
    case ReplaySourceCandidate(_, _) => 16 + IDENTITY_BYTES
    case ReplaySourceRejected(_, _) => 8
    case ReplayFrameCopied(_, _, _, _, _) => 32 + IDENTITY_BYTES
    case ReplayFrameExported(_, _, _, _, _, _, _, _, _) => 56 + IDENTITY_BYTES
    case OverlayReport(_, _) => 8
    case GpuIdentityReport(_, _, _) => IDENTITY_BYTES + 8
    case _ => 16
  }

  function Body(m: Message): (r: seq<byte>)
    requires WellTyped(m) && (m.FrameBatch? ==> |m.intervals| <= MAX_FRAME_INTERVALS)
    ensures |r| == BodyLength(m)
  {
    match m
    case GpuIdentityReport(_, api, identity) => IdentityBytes(identity) + [ApiByte(api)] + Zeros(7)
    case Hello(_, processId, api, started) => Le(4, processId) + [ApiByte(api)] + Zeros(3) + Le(8, started)
    case FrameBatch(_, api, firstSequence, intervals) =>
      Le(8, firstSequence) + Le(2, |intervals|) + [ApiByte(api)] + Zeros(5) + IntervalBytes(intervals)
    case Goodbye(_, api, lastSequence, reason) => Le(8, lastSequence) + [ReasonByte(reason), ApiByte(api)] + Zeros(6)
    case ReplaySourceCandidate(_, candidate) =>
      SourceBytes(candidate) + Zeros(6) + IdentityBytes(candidate.gpuIdentity)
    case ReplaySourceRejected(_, rejection) => [RejectionByte(rejection)] + Zeros(7)
    case ReplayFrameCopied(_, sequence, source, copiedBytes, checksum) =>
      Le(8, sequence) + Le(4, copiedBytes) + SourceBytes(source) + Zeros(2) + Le(8, checksum)
      + IdentityBytes(source.gpuIdentity)
    case ReplayFrameExported(_, sequence, fdNumber, source, offset, stride, modifier, timestamp, duration) =>
      Le(8, sequence) + Le(4, fdNumber) + SourceBytes(source) + Zeros(2) + Le(4, offset) + Le(4, stride)
      + Le(8, modifier) + Le(8, timestamp) + Le(8, duration) + IdentityBytes(source.gpuIdentity)
    case ReplayFrameReleased(_, sequence) => Le(8, sequence) + Zeros(8)
    case OverlayReport(_, status) => StatusBytes(status) + Zeros(6)
  }

  function Header(kind: byte, length: u16, session: seq<byte>): (r: seq<byte>)
    requires |session| == 16
    ensures |r| == HEADER_BYTES
  {
    MAGIC + Le(2, PROTOCOL_VERSION) + [kind, 0] + Le(2, length) + Zeros(2) + session
  }

  function Encode(m: Message): Result<seq<byte>, ProtocolError>
    requires WellTyped(m)
  {
    var invalid := Validate(m);
    if invalid.Some? then Err(invalid.value)
    else Ok(Header(Kind(m), BodyLength(m), m.session) + Body(m))
  }

  // ---- Decoding ----

  datatype Envelope = Envelope(kind: byte, length: nat, session: seq<byte>)

  function DecodeHeader(input: seq<byte>): (r: Result<Envelope, ProtocolError>)
    ensures r.Ok? ==> |input| == HEADER_BYTES + r.value.length && SessionOk(r.value.session)
  {
    if |input| < HEADER_BYTES then Err(Truncated)
    else if |input| > MAX_MESSAGE_BYTES then Err(ExceedsLimit)
    else if input[..8] != MAGIC then Err(InvalidMagic)
    else if Read16(input, 8) != PROTOCOL_VERSION then Err(UnsupportedVersion)
    else if input[11] != 0 || Read16(input, 14) != 0 then Err(ReservedHeader)
    else if |input| != HEADER_BYTES + Read16(input, 12) then Err(LengthMismatch)
    else if AllZero(input[16..32]) then Err(ZeroSession)
    else Ok(Envelope(input[10], Read16(input, 12), input[16..32]))
  }

  function DecodeIdentity(b: seq<byte>): (r: Result<Option<GpuIdentity>, ProtocolError>)
    requires |b| >= IDENTITY_BYTES
    ensures r.Ok? ==> OptionalIdentityOk(r.value)
  {
    if AllZero(b[..40]) then Ok(None)
    else if !AllZero(b[36..40]) then Err(ReservedIdentity)
    else
      var identity := NewIdentity(Read32(b, 0), b[4..20], b[20..36]);
      if identity.Err? then Err(identity.error) else Ok(Some(identity.value))
  }

  /** Identity at one offset, source fields at another; identity errors come first. */
  function DecodeSource(b: seq<byte>, identityAt: nat, at: nat): (r: Result<SourceCandidate, ProtocolError>)
    requires at + 10 <= |b| && identityAt + IDENTITY_BYTES <= |b|
    ensures r.Ok? ==> OptionalIdentityOk(r.value.gpuIdentity) && ValidateSource(r.value).None?
  {
    var identity := DecodeIdentity(b[identityAt..]);
    if identity.Err? then Err(identity.error)
    else
      var format := PixelFormatFromWire(b[at + 8]);
      if format.Err? then Err(format.error)
      else
        var source := SourceCandidate(identity.value, Read32(b, at), Read32(b, at + 4), format.value, b[at + 9]);
        var invalid := ValidateSource(source);
        if invalid.Some? then Err(invalid.value) else Ok(source)
  }

  function ReadIntervals(b: seq<byte>, count: nat): (r: seq<u64>)
    requires 16 + 8 * count <= |b|
    ensures |r| == count
  {
    if count == 0 then [] else ReadIntervals(b, count - 1) + [Read64(b, 16 + 8 * (count - 1))]
  }

  function DecodeGpuIdentity(session: seq<byte>, b: seq<byte>): Result<Message, ProtocolError>
    requires |b| == 48
  {
    if !AllZero(b[41..]) then Err(ReservedPayload)
    else
      var api := ApiFromWire(b[40]);
      if api.Err? then Err(api.error)
      else
        var identity := DecodeIdentity(b);
        if identity.Err? then Err(identity.error) else Ok(GpuIdentityReport(session, api.value, identity.value))
  }

  function DecodeHello(session: seq<byte>, b: seq<byte>): Result<Message, ProtocolError>
    requires |b| == 16
  {
    var api := ApiFromWire(b[4]);
    if api.Err? then Err(api.error) else Ok(Hello(session, Read32(b, 0), api.value, Read64(b, 8)))
  }

  function DecodeFrameBatch(session: seq<byte>, b: seq<byte>): Result<Message, ProtocolError>
    requires |b| >= FRAME_BATCH_PREFIX_BYTES
  {
    if !AllZero(b[11..16]) then Err(ReservedPayload)
    else if |b| != FRAME_BATCH_PREFIX_BYTES + Read16(b, 8) * 8 then Err(CountMismatch)
    else
      var intervals := ReadIntervals(b, Read16(b, 8));
      var invalid := ValidateIntervals(intervals);
      if invalid.Some? then Err(invalid.value)
      else
        var api := ApiFromWire(b[10]);
        if api.Err? then Err(api.error) else Ok(FrameBatch(session, api.value, Read64(b, 0), intervals))
  }

  function DecodeGoodbye(session: seq<byte>, b: seq<byte>): Result<Message, ProtocolError>
    requires |b| == 16
  {
    if !AllZero(b[10..16]) then Err(ReservedPayload)
    else
      var api := ApiFromWire(b[9]);
      if api.Err? then Err(api.error)
      else
        var reason := ReasonFromWire(b[8]);
        if reason.Err? then Err(reason.error) else Ok(Goodbye(session, api.value, Read64(b, 0), reason.value))
  }

  function DecodeCandidate(session: seq<byte>, b: seq<byte>): Result<Message, ProtocolError>
    requires |b| == 56
  {
    if !AllZero(b[10..16]) then Err(ReservedPayload)
    else
      var source := DecodeSource(b, 16, 0);
      if source.Err? then Err(source.error) else Ok(ReplaySourceCandidate(session, source.value))
  }

  function DecodeRejection(session: seq<byte>, b: seq<byte>): Result<Message, ProtocolError>
    requires |b| == 8
  {
    if !AllZero(b[1..8]) then Err(ReservedPayload)
    else
      var reason := RejectionFromWire(b[0]);
      if reason.Err? then Err(reason.error) else Ok(ReplaySourceRejected(session, reason.value))
  }

  function DecodeCopied(session: seq<byte>, b: seq<byte>): Result<Message, ProtocolError>
    requires |b| == 72
  {
    if !AllZero(b[22..24]) then Err(ReservedPayload)
    else
      var source := DecodeSource(b, 32, 12);
      if source.Err? then Err(source.error)
      else
        var invalid := ValidateCopiedBytes(source.value, Read32(b, 8));
        if invalid.Some? then Err(invalid.value)
        else Ok(ReplayFrameCopied(session, Read64(b, 0), source.value, Read32(b, 8), Read64(b, 24)))
  }

  function DecodeExported(session: seq<byte>, b: seq<byte>): Result<Message, ProtocolError>
    requires |b| == 96
  {
    if !AllZero(b[22..24]) then Err(ReservedPayload)
    else
      var source := DecodeSource(b, 56, 12);
      if source.Err? then Err(source.error)
      else
        var invalid := ValidateExport(Read32(b, 8), Read32(b, 28), Read64(b, 40), Read64(b, 48));
        if invalid.Some? then Err(invalid.value)
        else Ok(ReplayFrameExported(session, Read64(b, 0), Read32(b, 8), source.value, Read32(b, 24), Read32(b, 28),
                                    Read64(b, 32), Read64(b, 40), Read64(b, 48)))
  }

  function DecodeReleased(session: seq<byte>, b: seq<byte>): Result<Message, ProtocolError>
    requires |b| == 16
  {
    if !AllZero(b[8..16]) then Err(ReservedPayload) else Ok(ReplayFrameReleased(session, Read64(b, 0)))
  }

  function DecodeOverlayStatus(session: seq<byte>, b: seq<byte>): Result<Message, ProtocolError>
    requires |b| == 8
  {
    if !AllZero(b[2..8]) then Err(ReservedPayload)
    else if b[0] == 1 && b[1] == 0 then Ok(OverlayReport(session, Requested))
    else if b[0] == 2 && b[1] == 0 then Ok(OverlayReport(session, Active))
    else if b[0] == 3 then
      var reason := FailureFromWire(b[1]);
      if reason.Err? then Err(reason.error) else Ok(OverlayReport(session, Error(reason.value)))
    else Err(InvalidOverlayStatus)
  }

  /** Payload size of each fixed-size kind. */
  function FixedLength(kind: byte): Option<nat> {
    if kind in {1, 3, 9} then Some(16) else if kind == 4 then Some(56) else if kind in {5, 7} then Some(8)
    else if kind == 6 then Some(72) else if kind == 8 then Some(96) else if kind == 10 then Some(48) else None
  }

  function DecodeBody(e: Envelope, b: seq<byte>): Result<Message, ProtocolError>
    requires |b| == e.length
  {
    if e.kind == 2 then
      if e.length >= FRAME_BATCH_PREFIX_BYTES then DecodeFrameBatch(e.session, b) else Err(InvalidPayloadSize)
    else if FixedLength(e.kind).None? then Err(UnsupportedKind)
    else if FixedLength(e.kind) != Some(e.length) then Err(InvalidPayloadSize)
    else if e.kind == 1 then DecodeHello(e.session, b)
    else if e.kind == 3 then DecodeGoodbye(e.session, b)
    else if e.kind == 4 then DecodeCandidate(e.session, b)
    else if e.kind == 5 then DecodeRejection(e.session, b)
    else if e.kind == 6 then DecodeCopied(e.session, b)
    else if e.kind == 7 then DecodeOverlayStatus(e.session, b)
    else if e.kind == 8 then DecodeExported(e.session, b)
    else if e.kind == 9 then DecodeReleased(e.session, b)
    else DecodeGpuIdentity(e.session, b)
  }

  /** Defined on every byte string: no input makes a read fall outside it. */
  function Decode(input: seq<byte>): Result<Message, ProtocolError> {
    var envelope := DecodeHeader(input);
    if envelope.Err? then Err(envelope.error) else DecodeBody(envelope.value, input[HEADER_BYTES..])
  }
}

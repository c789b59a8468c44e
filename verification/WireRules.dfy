/** The protocol in numbers: what each kind accepts and where its fields lie. */
module WireRules {
  import opened Wrappers
  import opened Messages
  import opened Bytes
  import opened Wire
  import opened WireProofs
  import Transfer

  // ---- What can be sent ----

  /** Sources of supported size at a rate the protocol knows. */
  predicate SourceInRange(source: SourceCandidate) {
    && 0 < source.width <= 8_192 && 0 < source.height <= 8_192 && source.width * source.height <= 8_294_400
    && source.targetFramesPerSecond in {30, 60, 120}
  }

  predicate InRange(m: Message) {
    match m
    case FrameBatch(_, _, _, intervals) =>
      1 <= |intervals| <= 128 && forall i :: 0 <= i < |intervals| ==> intervals[i] > 0
    case ReplaySourceCandidate(_, candidate) => SourceInRange(candidate)
    case ReplayFrameCopied(_, _, source, copiedBytes, _) =>
      SourceInRange(source) && copiedBytes == source.width * source.height * 4
    case ReplayFrameExported(_, _, fdNumber, source, _, stride, _, timestamp, duration) =>
      && SourceInRange(source) && 3 <= fdNumber <= 1_000_000 && 0 < stride <= 32_768
      && 0 < duration <= 1_000_000_000 && timestamp + duration <= 0xFFFF_FFFF_FFFF_FFFF
    case _ => true
  }

  /** A well-typed message encodes if and only if its values are in range. */
  lemma EncodesExactlyInRange(m: Message)
    requires WellTyped(m)
    ensures Encode(m).Ok? <==> InRange(m)
  {
    match m
    case ReplaySourceCandidate(_, candidate) => SourceRange(candidate);
    case ReplayFrameCopied(_, _, source, _, _) => SourceRange(source);
    case ReplayFrameExported(_, _, _, source, _, _, _, _, _) => SourceRange(source);
    case _ =>
  }

  lemma SourceRange(source: SourceCandidate)
    ensures ValidateSource(source).None? <==> SourceInRange(source)
    ensures SourceInRange(source) ==> source.width * source.height * 4 <= 33_177_600
  {
    if SourceInRange(source) {
      Transfer.SupportedMacroblocks(source.width, source.height);
    }
  }

  /** Whatever is decoded is in range: the decoder accepts no value the encoder refuses. */
  lemma DecodedIsInRange(input: seq<byte>)
    requires Decode(input).Ok?
    ensures InRange(Decode(input).value)
  {
    var b := input[32..];
    match Decode(input).value
    case ReplaySourceCandidate(_, candidate) => SourceRange(candidate);
    case ReplayFrameCopied(_, _, source, _, _) => SourceRange(source);
    case ReplayFrameExported(_, _, _, source, _, _, _, _, _) => SourceRange(source);
    case _ =>
  }

  /** Every admitted source's frames can be announced: at four bytes a pixel, a stride of four widths, the
      plan's frame duration and any usable descriptor. */
  lemma AdmittedFramesEncode(requested: Option<string>, frameRate: Option<string>, info: Transfer.CreateInfo,
                             session: seq<byte>, sequence: u64, fdNumber: u32, modifier: u64, timestamp: u64)
    requires SessionOk(session) && 3 <= fdNumber <= 1_000_000
    requires Transfer.PlanFor(Transfer.FromValues(requested, frameRate), info).Ok?
    requires timestamp <= 0xFFFF_FFFF_FFFF_FFFF - 1_000_000_000
    ensures var plan := Transfer.PlanFor(Transfer.FromValues(requested, frameRate), info).value;
            && 0 < plan.frameIntervalNs <= 1_000_000_000
            && Encode(ReplayFrameExported(session, sequence, fdNumber, plan.candidate, 0, 4 * info.width, modifier,
                                          timestamp, plan.frameIntervalNs)).Ok?
  {
    var plan := Transfer.PlanFor(Transfer.FromValues(requested, frameRate), info).value;
    EncodesExactlyInRange(ReplayFrameExported(session, sequence, fdNumber, plan.candidate, 0, 4 * info.width, modifier,
                                              timestamp, plan.frameIntervalNs));
  }

  // ---- Where the fields lie ----

  /** Numbers are little-endian: each byte counts 256 times the one before it. */
  lemma LittleEndian(s: seq<byte>, at: nat)
    requires at + 4 <= |s|
    ensures Read16(s, at) == (s[at] as int) + 256 * (s[at + 1] as int)
    ensures Read32(s, at) == (s[at] as int) + 256 * (s[at + 1] as int) + 65_536 * (s[at + 2] as int)
                             + 16_777_216 * (s[at + 3] as int)
  {
    var two, four := s[at..at + 2], s[at..at + 4];
    assert two[1..] == [s[at + 1]] && two[1..][1..] == [];
    assert FromLe(two[1..]) == s[at + 1] as int;
    assert four[1..][1..] == [s[at + 2], s[at + 3]] && four[1..][1..][1..] == [s[at + 3]];
    assert four[1..][1..][1..][1..] == [];
    assert FromLe(four[1..][1..][1..]) == s[at + 3] as int;
    assert FromLe(four[1..][1..]) == (s[at + 2] as int) + 256 * (s[at + 3] as int);
    assert FromLe(four[1..]) == (s[at + 1] as int) + 256 * FromLe(four[1..][1..]);
  }

  predicate ApiCode(api: Api, code: byte) { code == (if api == Vulkan then 1 else 2) }

  predicate FormatCode(format: PixelFormat, code: byte) {
    1 <= code <= 6 && format == [Rgba8Unorm, Rgba8Srgb, Bgra8Unorm, Bgra8Srgb, A2b10g10r10Unorm, A2r10g10b10Unorm][code - 1]
  }

  predicate ReasonCode(reason: GoodbyeReason, code: byte) {
    1 <= code <= 3 && reason == [Normal, ProcessExit, ProducerError][code - 1]
  }

  predicate RejectionCode(reason: SourceRejection, code: byte) {
    1 <= code <= 10
    && reason == [InvalidStructure, ProtectedSwapchain, ArrayLayersUnsupported, TransferSourceUsageMissing,
                  DimensionsUnsupported, PixelFormatUnsupported, ExternalMemoryUnsupported, EncoderBackendUnavailable,
                  VideoEncodeUnsupported, GpuIdentityUnavailable][code - 1]
  }

  predicate StatusCode(status: OverlayStatus, code: byte, detail: byte) {
    match status
    case Requested => code == 1 && detail == 0
    case Active => code == 2 && detail == 0
    case Error(reason) =>
      code == 3 && 1 <= detail <= 4
      && reason == [VulkanFunctionsUnavailable, GraphicsQueueUnavailable, RendererCapacityReached,
                    OpenGlFunctionsUnavailable][detail - 1]
  }

  predicate IdentityAt(b: seq<byte>, at: nat, identity: Option<GpuIdentity>) {
    && at + 40 <= |b|
    && (identity.None? <==> AllZero(b[at..at + 40]))
    && (identity.Some? ==>
          && identity.value.vendorId == Read32(b, at) && identity.value.deviceUuid == b[at + 4..at + 20]
          && identity.value.driverUuid == b[at + 20..at + 36])
  }

  predicate SourceAt(b: seq<byte>, at: nat, source: SourceCandidate) {
    && at + 10 <= |b|
    && source.width == Read32(b, at) && source.height == Read32(b, at + 4) && FormatCode(source.pixelFormat, b[at + 8])
    && source.targetFramesPerSecond == b[at + 9]
  }

  /** Kind and payload of a message, by offset into the payload. */
  predicate LaidOut(m: Message, kind: byte, b: seq<byte>) {
    match m
    case Hello(_, processId, api, started) =>
      kind == 1 && |b| == 16 && processId == Read32(b, 0) && ApiCode(api, b[4]) && started == Read64(b, 8)
    case FrameBatch(_, api, first, intervals) =>
      && kind == 2 && |b| == 16 + 8 * |intervals| && first == Read64(b, 0) && Read16(b, 8) == |intervals|
      && ApiCode(api, b[10]) && forall i :: 0 <= i < |intervals| ==> intervals[i] == Read64(b, 16 + 8 * i)
    case Goodbye(_, api, last, reason) =>
      kind == 3 && |b| == 16 && last == Read64(b, 0) && ReasonCode(reason, b[8]) && ApiCode(api, b[9])
    case ReplaySourceCandidate(_, candidate) =>
      kind == 4 && |b| == 56 && SourceAt(b, 0, candidate) && IdentityAt(b, 16, candidate.gpuIdentity)
    case ReplaySourceRejected(_, rejection) => kind == 5 && |b| == 8 && RejectionCode(rejection, b[0])
    case ReplayFrameCopied(_, sequence, source, copiedBytes, checksum) =>
      && kind == 6 && |b| == 72 && sequence == Read64(b, 0) && copiedBytes == Read32(b, 8) && SourceAt(b, 12, source)
      && checksum == Read64(b, 24) && IdentityAt(b, 32, source.gpuIdentity)
    case OverlayReport(_, status) => kind == 7 && |b| == 8 && StatusCode(status, b[0], b[1])
    case ReplayFrameExported(_, sequence, fdNumber, source, offset, stride, modifier, timestamp, duration) =>
      && kind == 8 && |b| == 96 && sequence == Read64(b, 0) && fdNumber == Read32(b, 8) && SourceAt(b, 12, source)
      && offset == Read32(b, 24) && stride == Read32(b, 28) && modifier == Read64(b, 32) && timestamp == Read64(b, 40)
      && duration == Read64(b, 48) && IdentityAt(b, 56, source.gpuIdentity)
    case ReplayFrameReleased(_, sequence) => kind == 9 && |b| == 16 && sequence == Read64(b, 0)
    case GpuIdentityReport(_, api, identity) =>
      kind == 10 && |b| == 48 && IdentityAt(b, 0, identity) && ApiCode(api, b[40])
  }

  lemma {:induction false} IntervalsAt(b: seq<byte>, count: nat)
    requires 16 + 8 * count <= |b|
    ensures forall i :: 0 <= i < count ==> ReadIntervals(b, count)[i] == Read64(b, 16 + 8 * i)
  {
    if count > 0 {
      IntervalsAt(b, count - 1);
    }
  }

  lemma DecodedIdentityAt(b: seq<byte>, at: nat)
    requires at + 40 <= |b| && DecodeIdentity(b[at..]).Ok?
    ensures IdentityAt(b, at, DecodeIdentity(b[at..]).value)
  {
    var tail := b[at..];
    assert tail[..40] == b[at..at + 40] && tail[4..20] == b[at + 4..at + 20] && tail[20..36] == b[at + 20..at + 36];
    assert tail[0..4] == b[at..at + 4];
  }

  lemma DecodedSourceAt(b: seq<byte>, identityAt: nat, at: nat)
    requires at + 10 <= |b| && identityAt + 40 <= |b| && DecodeSource(b, identityAt, at).Ok?
    ensures var source := DecodeSource(b, identityAt, at).value;
            SourceAt(b, at, source) && IdentityAt(b, identityAt, source.gpuIdentity)
  {
    DecodedIdentityAt(b, identityAt);
  }

  lemma BodyLayout(e: Envelope, b: seq<byte>)
    requires |b| == e.length && DecodeBody(e, b).Ok?
    ensures LaidOut(DecodeBody(e, b).value, e.kind, b)
  {
    match e.kind
    case 2 => IntervalsAt(b, Read16(b, 8));
    case 4 => DecodedSourceAt(b, 16, 0);
    case 6 => DecodedSourceAt(b, 32, 12);
    case 8 => DecodedSourceAt(b, 56, 12);
    case 10 =>
      assert b[0..] == b;
      DecodedIdentityAt(b, 0);
    case _ => SmallLayout(e, b);
  }

  lemma SmallLayout(e: Envelope, b: seq<byte>)
    requires |b| == e.length && DecodeBody(e, b).Ok? && e.kind in {1, 3, 5, 7, 9}
    ensures LaidOut(DecodeBody(e, b).value, e.kind, b)
  {
  }

  /** Every accepted message has the magic, version 7, its kind, its length and its session in the header and
      its fields at these offsets. */
  lemma AcceptedLayout(input: seq<byte>)
    requires Decode(input).Ok?
    ensures |input| >= 32 && input[..8] == [82, 68, 67, 65, 80, 48, 48, 49] && Read16(input, 8) == 7
    ensures Read16(input, 12) == |input| - 32 && input[16..32] == Decode(input).value.session
    ensures LaidOut(Decode(input).value, input[10], input[32..])
  {
    BodyLayout(DecodeHeader(input).value, input[HEADER_BYTES..]);
    assert input[8..10] == input[8..8 + 2];
  }
}

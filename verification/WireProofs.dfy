/** The codec is exact: encodings decode to themselves, and nothing else is accepted, except
    for three bytes of a hello that the decoder ignores. */
module WireProofs {
  import opened Wrappers
  import opened Messages
  import opened Bytes
  import opened Wire

  // ---- Shared pieces ----

  lemma IdentityRoundTrip(identity: Option<GpuIdentity>, b: seq<byte>)
    requires OptionalIdentityOk(identity) && |b| >= 40 && b[..40] == IdentityBytes(identity)
    ensures DecodeIdentity(b) == Ok(identity)
  {
    if identity.Some? {
      var i := identity.value;
      assert b[0..4] == b[..40][0..4] == Le(4, i.vendorId);
      ReadsBack32(b, 0, i.vendorId);
      assert b[4..20] == b[..40][4..20] == i.deviceUuid;
      assert b[20..36] == b[..40][20..36] == i.driverUuid;
      assert b[36..40] == b[..40][36..40] == Zeros(4);
      var k :| 0 <= k < 16 && i.deviceUuid[k] != 0;
      assert b[..40][4 + k] == b[4..20][k];
    }
  }

  lemma IdentityCanonical(b: seq<byte>)
    requires |b| >= 40 && DecodeIdentity(b).Ok?
    ensures IdentityBytes(DecodeIdentity(b).value) == b[..40]
  {
    if AllZero(b[..40]) {
      ZerosAre(b[..40]);
    } else {
      WritesBack32(b, 0);
      ZerosAre(b[36..40]);
      assert b[..40] == b[0..4] + b[4..20] + b[20..36] + b[36..40];
    }
  }

  lemma SourceRoundTrip(source: SourceCandidate, b: seq<byte>, identityAt: nat, at: nat)
    requires at + 10 <= |b| && identityAt + 40 <= |b|
    requires OptionalIdentityOk(source.gpuIdentity) && ValidateSource(source).None?
    requires b[at..at + 10] == SourceBytes(source) && b[identityAt..identityAt + 40] == IdentityBytes(source.gpuIdentity)
    ensures DecodeSource(b, identityAt, at) == Ok(source)
  {
    assert b[identityAt..][..40] == b[identityAt..identityAt + 40];
    IdentityRoundTrip(source.gpuIdentity, b[identityAt..]);
    SourcePieces(source);
    Within(b, at, at + 10, 0, 4);
    ReadsBack32(b, at, source.width);
    Within(b, at, at + 10, 4, 8);
    ReadsBack32(b, at + 4, source.height);
    assert b[at + 8] == b[at..at + 10][8] && b[at + 9] == b[at..at + 10][9];
  }

  lemma SourcePieces(source: SourceCandidate)
    ensures var s := SourceBytes(source);
            && s[0..4] == Le(4, source.width) && s[4..8] == Le(4, source.height)
            && s[8] == PixelFormatByte(source.pixelFormat) && s[9] == source.targetFramesPerSecond
  {
  }

  lemma SourceCanonical(b: seq<byte>, identityAt: nat, at: nat)
    requires at + 10 <= |b| && identityAt + 40 <= |b| && DecodeSource(b, identityAt, at).Ok?
    ensures var source := DecodeSource(b, identityAt, at).value;
            b[at..at + 10] == SourceBytes(source) && b[identityAt..identityAt + 40] == IdentityBytes(source.gpuIdentity)
  {
    IdentityCanonical(b[identityAt..]);
    assert b[identityAt..][..40] == b[identityAt..identityAt + 40];
    SourceFromPieces(b, at);
  }

  lemma SourceFromPieces(b: seq<byte>, at: nat)
    requires at + 10 <= |b|
    ensures b[at..at + 10] == Le(4, Read32(b, at)) + Le(4, Read32(b, at + 4)) + [b[at + 8], b[at + 9]]
  {
    WritesBack32(b, at);
    WritesBack32(b, at + 4);
    Joins(b, at, at + 4, at + 8);
    Joins(b, at, at + 8, at + 10);
    assert b[at + 8..at + 10] == [b[at + 8], b[at + 9]];
  }

  lemma {:induction false} IntervalsRoundTrip(b: seq<byte>, intervals: seq<u64>)
    requires 16 + 8 * |intervals| <= |b| && b[16..16 + 8 * |intervals|] == IntervalBytes(intervals)
    ensures ReadIntervals(b, |intervals|) == intervals
  {
    if intervals != [] {
      var n := |intervals| - 1;
      AppendedCuts(b, 16, 16 + 8 * n, 24 + 8 * n, IntervalBytes(intervals[..n]), Le(8, intervals[n]));
      IntervalsRoundTrip(b, intervals[..n]);
      ReadsBack64(b, 16 + 8 * n, intervals[n]);
    }
  }

  lemma AppendedCuts(b: seq<byte>, start: nat, middle: nat, end: nat, x: seq<byte>, y: seq<byte>)
    requires start <= middle <= end <= |b| && |x| == middle - start && b[start..end] == x + y
    ensures b[start..middle] == x && b[middle..end] == y
  {
    Within(b, start, end, 0, |x|);
    Within(b, start, end, |x|, |x| + |y|);
    assert (x + y)[0..|x|] == x && (x + y)[|x|..|x| + |y|] == y;
  }

  lemma {:induction false} IntervalsCanonical(b: seq<byte>, count: nat)
    requires 16 + 8 * count <= |b|
    ensures IntervalBytes(ReadIntervals(b, count)) == b[16..16 + 8 * count]
  {
    if count > 0 {
      IntervalsCanonical(b, count - 1);
      NextInterval(b, count - 1, ReadIntervals(b, count - 1));
    }
  }

  lemma NextInterval(b: seq<byte>, count: nat, intervals: seq<u64>)
    requires 24 + 8 * count <= |b| && IntervalBytes(intervals) == b[16..16 + 8 * count]
    ensures IntervalBytes(intervals + [Read64(b, 16 + 8 * count)]) == b[16..16 + 8 * (count + 1)]
  {
    WritesBack64(b, 16 + 8 * count);
    IntervalAppended(b, 16 + 8 * count, intervals, Read64(b, 16 + 8 * count));
  }

  lemma IntervalAppended(b: seq<byte>, at: nat, intervals: seq<u64>, last: u64)
    requires 16 <= at && at + 8 <= |b| && IntervalBytes(intervals) == b[16..at] && Le(8, last) == b[at..at + 8]
    ensures IntervalBytes(intervals + [last]) == b[16..at + 8]
  {
    LastInterval(intervals, last);
    Joins(b, 16, at, at + 8);
  }

  lemma LastInterval(intervals: seq<u64>, last: u64)
    ensures IntervalBytes(intervals + [last]) == IntervalBytes(intervals) + Le(8, last)
  {
    assert (intervals + [last])[..|intervals|] == intervals;
  }

  // ---- Bodies decode to their message ----

  predicate Encodable(m: Message) { WellTyped(m) && Validate(m).None? }

  lemma GpuIdentityRoundTrip(m: Message)
    requires m.GpuIdentityReport? && Encodable(m)
    ensures DecodeGpuIdentity(m.session, Body(m)) == Ok(m)
  {
    assert Body(m)[..40] == IdentityBytes(m.identity);
    IdentityRoundTrip(m.identity, Body(m));
  }

  lemma HelloRoundTrip(m: Message)
    requires m.Hello? && Encodable(m)
    ensures DecodeHello(m.session, Body(m)) == Ok(m)
  {
    assert Body(m)[0..4] == Le(4, m.processId) && Body(m)[8..16] == Le(8, m.started);
    ReadsBack32(Body(m), 0, m.processId);
    ReadsBack64(Body(m), 8, m.started);
  }

  lemma FrameBatchRoundTrip(m: Message)
    requires m.FrameBatch? && Encodable(m)
    ensures DecodeFrameBatch(m.session, Body(m)) == Ok(m)
  {
    var b := Body(m);
    BatchPieces(m.firstSequence, |m.intervals|, ApiByte(m.api), IntervalBytes(m.intervals));
    ReadsBack64(b, 0, m.firstSequence);
    ReadsBack16(b, 8, |m.intervals|);
    IntervalsRoundTrip(b, m.intervals);
  }

  lemma BatchPieces(first: u64, count: u16, api: byte, intervals: seq<byte>)
    ensures var b := Le(8, first) + Le(2, count) + [api] + Zeros(5) + intervals;
            && b[0..8] == Le(8, first) && b[8..10] == Le(2, count) && b[10] == api && AllZero(b[11..16])
            && b[16..] == intervals && b[16..|b|] == intervals
  {
  }

  lemma GoodbyeRoundTrip(m: Message)
    requires m.Goodbye? && Encodable(m)
    ensures DecodeGoodbye(m.session, Body(m)) == Ok(m)
  {
    assert Body(m)[0..8] == Le(8, m.lastSequence);
    ReadsBack64(Body(m), 0, m.lastSequence);
  }

  lemma CandidateRoundTrip(m: Message)
    requires m.ReplaySourceCandidate? && Encodable(m)
    ensures DecodeCandidate(m.session, Body(m)) == Ok(m)
  {
    var b := Body(m);
    assert b[0..10] == SourceBytes(m.candidate) && b[16..56] == IdentityBytes(m.candidate.gpuIdentity);
    SourceRoundTrip(m.candidate, b, 16, 0);
  }

  lemma CopiedRoundTrip(m: Message)
    requires m.ReplayFrameCopied? && Encodable(m)
    ensures DecodeCopied(m.session, Body(m)) == Ok(m)
  {
    var b := Body(m);
    assert b[0..8] == Le(8, m.sequence) && b[8..12] == Le(4, m.copiedBytes) && b[24..32] == Le(8, m.checksum);
    assert b[12..22] == SourceBytes(m.source) && b[32..72] == IdentityBytes(m.source.gpuIdentity);
    SourceRoundTrip(m.source, b, 32, 12);
    ReadsBack64(b, 0, m.sequence);
    ReadsBack32(b, 8, m.copiedBytes);
    ReadsBack64(b, 24, m.checksum);
  }

  lemma ExportedRoundTrip(m: Message)
    requires m.ReplayFrameExported? && Encodable(m)
    ensures DecodeExported(m.session, Body(m)) == Ok(m)
  {
    var b := Body(m);
    ExportedPieces(Le(8, m.sequence), Le(4, m.fdNumber), SourceBytes(m.source), Le(4, m.offset), Le(4, m.stride),
                   Le(8, m.modifier), Le(8, m.timestamp), Le(8, m.duration), IdentityBytes(m.source.gpuIdentity));
    SourceRoundTrip(m.source, b, 56, 12);
    ReadsBack64(b, 0, m.sequence);
    ReadsBack32(b, 8, m.fdNumber);
    ReadsBack32(b, 24, m.offset);
    ReadsBack32(b, 28, m.stride);
    ReadsBack64(b, 32, m.modifier);
    ReadsBack64(b, 40, m.timestamp);
    ReadsBack64(b, 48, m.duration);
  }

  lemma ExportedPieces(sequence: seq<byte>, fd: seq<byte>, source: seq<byte>, offset: seq<byte>, stride: seq<byte>,
                       modifier: seq<byte>, timestamp: seq<byte>, duration: seq<byte>, identity: seq<byte>)
    requires |sequence| == |modifier| == |timestamp| == |duration| == 8 && |fd| == |offset| == |stride| == 4
    requires |source| == 10 && |identity| == 40
    ensures var b := sequence + fd + source + Zeros(2) + offset + stride + modifier + timestamp + duration + identity;
            && b[0..8] == sequence && b[8..12] == fd && b[12..22] == source && AllZero(b[22..24])
            && b[24..28] == offset && b[28..32] == stride && b[32..40] == modifier
            && b[40..48] == timestamp && b[48..56] == duration && b[56..96] == identity
  {
  }

  lemma ReleasedRoundTrip(m: Message)
    requires m.ReplayFrameReleased? && Encodable(m)
    ensures DecodeReleased(m.session, Body(m)) == Ok(m)
  {
    assert Body(m)[0..8] == Le(8, m.sequence);
    ReadsBack64(Body(m), 0, m.sequence);
  }

  lemma RejectionRoundTrip(m: Message)
    requires m.ReplaySourceRejected? && Encodable(m)
    ensures DecodeRejection(m.session, Body(m)) == Ok(m)
  {
    assert Body(m)[0] == RejectionByte(m.rejection) && AllZero(Body(m)[1..8]);
  }

  lemma OverlayRoundTrip(m: Message)
    requires m.OverlayReport? && Encodable(m)
    ensures DecodeOverlayStatus(m.session, Body(m)) == Ok(m)
  {
    assert Body(m)[..2] == StatusBytes(m.status) && AllZero(Body(m)[2..8]);
  }

  predicate IsReplay(m: Message) {
    m.ReplaySourceCandidate? || m.ReplaySourceRejected? || m.ReplayFrameCopied? || m.ReplayFrameExported?
    || m.ReplayFrameReleased?
  }

  lemma ReplayBodyRoundTrip(m: Message)
    requires Encodable(m) && IsReplay(m)
    ensures DecodeBody(Envelope(Kind(m), BodyLength(m), m.session), Body(m)) == Ok(m)
  {
    match m
    case ReplaySourceCandidate(_, _) => CandidateRoundTrip(m);
    case ReplaySourceRejected(_, _) => RejectionRoundTrip(m);
    case ReplayFrameCopied(_, _, _, _, _) => CopiedRoundTrip(m);
    case ReplayFrameExported(_, _, _, _, _, _, _, _, _) => ExportedRoundTrip(m);
    case ReplayFrameReleased(_, _) => ReleasedRoundTrip(m);
  }

  lemma BodyRoundTrip(m: Message)
    requires Encodable(m)
    ensures DecodeBody(Envelope(Kind(m), BodyLength(m), m.session), Body(m)) == Ok(m)
  {
    if IsReplay(m) {
      ReplayBodyRoundTrip(m);
    } else {
      match m
      case GpuIdentityReport(_, _, _) => GpuIdentityRoundTrip(m);
      case Hello(_, _, _, _) => HelloRoundTrip(m);
      case FrameBatch(_, _, _, _) => FrameBatchRoundTrip(m);
      case Goodbye(_, _, _, _) => GoodbyeRoundTrip(m);
      case OverlayReport(_, _) => OverlayRoundTrip(m);
    }
  }

  lemma HeaderRoundTrip(kind: byte, length: u16, session: seq<byte>, body: seq<byte>)
    requires SessionOk(session) && |body| == length && HEADER_BYTES + length <= MAX_MESSAGE_BYTES
    ensures DecodeHeader(Header(kind, length, session) + body) == Ok(Envelope(kind, length, session))
  {
    var h := Header(kind, length, session) + body;
    assert h[..8] == MAGIC && h[8..10] == Le(2, PROTOCOL_VERSION) && h[12..14] == Le(2, length);
    assert h[14..16] == Zeros(2) && h[16..32] == session;
    ReadsBack16(h, 8, PROTOCOL_VERSION);
    ReadsBack16(h, 12, length);
    assert Le(2, 0) == Zeros(2);
    ReadsBack16(h, 14, 0);
  }

  /** Every message the encoder accepts decodes from its own bytes to itself, for all ten
      kinds; the encoder accepts exactly the valid messages. */
  lemma RoundTrip(m: Message)
    requires WellTyped(m)
    ensures Encode(m).Ok? <==> Validate(m).None?
    ensures Encode(m).Ok? ==> Decode(Encode(m).value) == Ok(m) && |Encode(m).value| <= MAX_MESSAGE_BYTES
  {
    if Validate(m).None? {
      var bytes := Encode(m).value;
      HeaderRoundTrip(Kind(m), BodyLength(m), m.session, Body(m));
      assert bytes[HEADER_BYTES..] == Body(m);
      BodyRoundTrip(m);
    }
  }

  // ---- Accepted bodies re-encode to themselves ----

  /** The bytes are the encoding of the message. */
  predicate Canonical(m: Message, kind: byte, b: seq<byte>) {
    Encodable(m) && Kind(m) == kind && Body(m) == b
  }

  lemma GpuIdentityCanonical(session: seq<byte>, b: seq<byte>)
    requires SessionOk(session) && |b| == 48 && DecodeGpuIdentity(session, b).Ok?
    ensures Canonical(DecodeGpuIdentity(session, b).value, 10, b)
  {
    IdentityCanonical(b);
    ZerosAre(b[41..]);
    assert b == b[..40] + [b[40]] + b[41..];
  }

  lemma FrameBatchCanonical(session: seq<byte>, b: seq<byte>)
    requires SessionOk(session) && |b| >= 16 && DecodeFrameBatch(session, b).Ok?
    ensures Canonical(DecodeFrameBatch(session, b).value, 2, b)
  {
    BatchBodyCanonical(b);
  }

  lemma BatchBodyCanonical(b: seq<byte>)
    requires |b| >= 16 && |b| == 16 + 8 * Read16(b, 8) && AllZero(b[11..16])
    ensures b == Le(8, Read64(b, 0)) + Le(2, Read16(b, 8)) + [b[10]] + Zeros(5)
                 + IntervalBytes(ReadIntervals(b, Read16(b, 8)))
  {
    var count := Read16(b, 8);
    IntervalsCanonical(b, count);
    WritesBack64(b, 0);
    WritesBack16(b, 8);
    BatchFromPieces(b, Le(8, Read64(b, 0)), Le(2, count), IntervalBytes(ReadIntervals(b, count)));
  }

  lemma BatchFromPieces(b: seq<byte>, first: seq<byte>, count: seq<byte>, intervals: seq<byte>)
    requires |b| >= 16 && b[0..8] == first && b[8..10] == count && AllZero(b[11..16]) && b[16..|b|] == intervals
    ensures b == first + count + [b[10]] + Zeros(5) + intervals
  {
    Joins(b, 0, 8, 10);
    Joins(b, 0, 10, 11);
    Joins(b, 0, 11, 16);
    Joins(b, 0, 16, |b|);
    ZerosAre(b[11..16]);
  }

  lemma GoodbyeCanonical(session: seq<byte>, b: seq<byte>)
    requires SessionOk(session) && |b| == 16 && DecodeGoodbye(session, b).Ok?
    ensures Canonical(DecodeGoodbye(session, b).value, 3, b)
  {
    WritesBack64(b, 0);
    ZerosAre(b[10..16]);
    assert b == b[0..8] + [b[8], b[9]] + b[10..16];
  }

  lemma CandidateCanonical(session: seq<byte>, b: seq<byte>)
    requires SessionOk(session) && |b| == 56 && DecodeCandidate(session, b).Ok?
    ensures Canonical(DecodeCandidate(session, b).value, 4, b)
  {
    CandidateBodyCanonical(b, DecodeSource(b, 16, 0).value);
  }

  lemma CandidateBodyCanonical(b: seq<byte>, source: SourceCandidate)
    requires |b| == 56 && AllZero(b[10..16]) && DecodeSource(b, 16, 0) == Ok(source)
    ensures b == SourceBytes(source) + Zeros(6) + IdentityBytes(source.gpuIdentity)
  {
    SourceCanonical(b, 16, 0);
    ZerosAre(b[10..16]);
    Joins(b, 0, 10, 16);
    Joins(b, 0, 16, 56);
  }

  lemma RejectionCanonical(session: seq<byte>, b: seq<byte>)
    requires SessionOk(session) && |b| == 8 && DecodeRejection(session, b).Ok?
    ensures Canonical(DecodeRejection(session, b).value, 5, b)
  {
    ZerosAre(b[1..8]);
    assert b == [b[0]] + b[1..8];
  }

  lemma CopiedCanonical(session: seq<byte>, b: seq<byte>)
    requires SessionOk(session) && |b| == 72 && DecodeCopied(session, b).Ok?
    ensures Canonical(DecodeCopied(session, b).value, 6, b)
  {
    CopiedBodyCanonical(b, DecodeSource(b, 32, 12).value);
  }

  lemma CopiedBodyCanonical(b: seq<byte>, source: SourceCandidate)
    requires |b| == 72 && AllZero(b[22..24]) && DecodeSource(b, 32, 12) == Ok(source)
    ensures b == Le(8, Read64(b, 0)) + Le(4, Read32(b, 8)) + SourceBytes(source) + Zeros(2) + Le(8, Read64(b, 24))
                 + IdentityBytes(source.gpuIdentity)
  {
    SourceCanonical(b, 32, 12);
    WritesBack64(b, 0);
    WritesBack32(b, 8);
    WritesBack64(b, 24);
    ZerosAre(b[22..24]);
    Joins(b, 0, 8, 12);
    Joins(b, 0, 12, 22);
    Joins(b, 0, 22, 24);
    Joins(b, 0, 24, 32);
    Joins(b, 0, 32, 72);
  }

  lemma OverlayCanonical(session: seq<byte>, b: seq<byte>)
    requires SessionOk(session) && |b| == 8 && DecodeOverlayStatus(session, b).Ok?
    ensures Canonical(DecodeOverlayStatus(session, b).value, 7, b)
  {
    ZerosAre(b[2..8]);
    assert b == [b[0], b[1]] + b[2..8];
  }

  lemma ExportedCanonical(session: seq<byte>, b: seq<byte>)
    requires SessionOk(session) && |b| == 96 && DecodeExported(session, b).Ok?
    ensures Canonical(DecodeExported(session, b).value, 8, b)
  {
    ExportedBodyCanonical(b, DecodeSource(b, 56, 12).value);
  }

  lemma ExportedBodyCanonical(b: seq<byte>, source: SourceCandidate)
    requires |b| == 96 && AllZero(b[22..24]) && DecodeSource(b, 56, 12) == Ok(source)
    ensures b == Le(8, Read64(b, 0)) + Le(4, Read32(b, 8)) + SourceBytes(source) + Zeros(2) + Le(4, Read32(b, 24))
                 + Le(4, Read32(b, 28)) + Le(8, Read64(b, 32)) + Le(8, Read64(b, 40)) + Le(8, Read64(b, 48))
                 + IdentityBytes(source.gpuIdentity)
  {
    SourceCanonical(b, 56, 12);
    WritesBack64(b, 0);
    WritesBack32(b, 8);
    WritesBack32(b, 24);
    WritesBack32(b, 28);
    WritesBack64(b, 32);
    WritesBack64(b, 40);
    WritesBack64(b, 48);
    ExportedFromPieces(b, Le(8, Read64(b, 0)), Le(4, Read32(b, 8)), SourceBytes(source), Le(4, Read32(b, 24)),
                       Le(4, Read32(b, 28)), Le(8, Read64(b, 32)), Le(8, Read64(b, 40)), Le(8, Read64(b, 48)),
                       IdentityBytes(source.gpuIdentity));
  }

  lemma ExportedFromPieces(b: seq<byte>, sequence: seq<byte>, fd: seq<byte>, source: seq<byte>, offset: seq<byte>,
                           stride: seq<byte>, modifier: seq<byte>, timestamp: seq<byte>, duration: seq<byte>,
                           identity: seq<byte>)
    requires |b| == 96 && b[0..8] == sequence && b[8..12] == fd && b[12..22] == source && AllZero(b[22..24])
    requires b[24..28] == offset && b[28..32] == stride && b[32..40] == modifier && b[40..48] == timestamp
    requires b[48..56] == duration && b[56..96] == identity
    ensures b == sequence + fd + source + Zeros(2) + offset + stride + modifier + timestamp + duration + identity
  {
    ZerosAre(b[22..24]);
    Joins(b, 0, 8, 12);
    Joins(b, 0, 12, 22);
    Joins(b, 0, 22, 24);
    Joins(b, 0, 24, 28);
    Joins(b, 0, 28, 32);
    Joins(b, 0, 32, 40);
    Joins(b, 0, 40, 48);
    Joins(b, 0, 48, 56);
    Joins(b, 0, 56, 96);
  }

  lemma ReleasedCanonical(session: seq<byte>, b: seq<byte>)
    requires SessionOk(session) && |b| == 16 && DecodeReleased(session, b).Ok?
    ensures Canonical(DecodeReleased(session, b).value, 9, b)
  {
    WritesBack64(b, 0);
    ZerosAre(b[8..16]);
    assert b == b[0..8] + b[8..16];
  }

  /** A hello keeps everything but bytes 5 to 7 of its payload. */
  lemma HelloNearlyCanonical(session: seq<byte>, b: seq<byte>)
    requires SessionOk(session) && |b| == 16 && DecodeHello(session, b).Ok?
    ensures var m := DecodeHello(session, b).value;
            Encodable(m) && Kind(m) == 1 && Body(m) == b[..5] + Zeros(3) + b[8..]
  {
    WritesBack32(b, 0);
    WritesBack64(b, 8);
    assert b[..5] == b[0..4] + [b[4]] && b[8..] == b[8..16];
  }

  lemma ReplayBodyCanonical(e: Envelope, b: seq<byte>)
    requires SessionOk(e.session) && |b| == e.length && DecodeBody(e, b).Ok? && e.kind in {4, 5, 6, 8, 9}
    ensures DecodeBody(e, b).value.session == e.session && Canonical(DecodeBody(e, b).value, e.kind, b)
  {
    if e.kind == 4 {
      CandidateCanonical(e.session, b);
    } else if e.kind == 5 {
      RejectionCanonical(e.session, b);
    } else if e.kind == 6 {
      CopiedCanonical(e.session, b);
    } else if e.kind == 8 {
      ExportedCanonical(e.session, b);
    } else {
      ReleasedCanonical(e.session, b);
    }
  }

  lemma BodyCanonical(e: Envelope, b: seq<byte>)
    requires SessionOk(e.session) && |b| == e.length && DecodeBody(e, b).Ok?
    ensures var m := DecodeBody(e, b).value;
            m.session == e.session && (m.Hello? <==> e.kind == 1) && (e.kind != 1 ==> Canonical(m, e.kind, b))
  {
    if e.kind in {4, 5, 6, 8, 9} {
      ReplayBodyCanonical(e, b);
    } else if e.kind == 2 {
      FrameBatchCanonical(e.session, b);
    } else if e.kind == 3 {
      GoodbyeCanonical(e.session, b);
    } else if e.kind == 7 {
      OverlayCanonical(e.session, b);
    } else if e.kind == 10 {
      GpuIdentityCanonical(e.session, b);
    }
  }

  lemma HeaderCanonical(input: seq<byte>)
    requires DecodeHeader(input).Ok?
    ensures var e := DecodeHeader(input).value;
            e.length <= U16_MAX && input == Header(e.kind, e.length, e.session) + input[HEADER_BYTES..]
  {
    var e := DecodeHeader(input).value;
    WritesBack16(input, 8);
    WritesBack16(input, 12);
    WritesBack16(input, 14);
    assert Le(2, 0) == Zeros(2);
    Joins(input, 0, 8, 10);
    assert input[10..12] == [input[10], input[11]];
    Joins(input, 0, 10, 12);
    Joins(input, 0, 12, 14);
    Joins(input, 0, 14, 16);
    Joins(input, 0, 16, 32);
    Joins(input, 0, 32, |input|);
  }

  /** The decoder accepts only encodings of valid messages: every accepted byte string other
      than a hello is, byte for byte, what the encoder writes for the decoded message. */
  lemma AcceptedIsCanonical(input: seq<byte>)
    requires Decode(input).Ok? && !Decode(input).value.Hello?
    ensures WellTyped(Decode(input).value) && Encode(Decode(input).value) == Ok(input)
  {
    HeaderCanonical(input);
    BodyCanonical(DecodeHeader(input).value, input[HEADER_BYTES..]);
  }

  /** A hello re-encodes to itself exactly when bytes 37 to 39 are zero, because the decoder
      ignores them; all other bytes are kept. */
  lemma HelloCanonicalUnlessPadded(input: seq<byte>)
    requires Decode(input).Ok? && Decode(input).value.Hello?
    ensures WellTyped(Decode(input).value) && |input| == 48
    ensures Encode(Decode(input).value) == Ok(input[..37] + Zeros(3) + input[40..])
    ensures Encode(Decode(input).value) == Ok(input) <==> AllZero(input[37..40])
  {
    var e := DecodeHeader(input).value;
    HeaderCanonical(input);
    var b := input[HEADER_BYTES..];
    BodyCanonical(e, b);
    HelloNearlyCanonical(e.session, b);
    PaddedHello(Header(e.kind, e.length, e.session), b, input);
  }

  lemma PaddedHello(h: seq<byte>, b: seq<byte>, input: seq<byte>)
    requires |h| == 32 && |b| == 16 && input == h + b
    ensures h + (b[..5] + Zeros(3) + b[8..]) == input[..37] + Zeros(3) + input[40..]
    ensures input[..37] + Zeros(3) + input[40..] == input <==> AllZero(input[37..40])
  {
    var padded := input[..37] + Zeros(3) + input[40..];
    assert input == input[..37] + input[37..40] + input[40..];
    if AllZero(input[37..40]) {
      ZerosAre(input[37..40]);
    }
    assert padded[37..40] == Zeros(3);
  }

  /** Hence decoding is injective outside hellos. */
  lemma DecodingIsInjective(a: seq<byte>, b: seq<byte>)
    requires Decode(a).Ok? && Decode(b) == Decode(a) && !Decode(a).value.Hello?
    ensures a == b
  {
    AcceptedIsCanonical(a);
    AcceptedIsCanonical(b);
  }

  /** The accepted byte strings other than hellos are exactly the encodings of valid messages. */
  lemma AcceptedExactlyEncodings(input: seq<byte>)
    ensures (Decode(input).Ok? && !Decode(input).value.Hello?)
            <==> exists m :: WellTyped(m) && !m.Hello? && Encode(m) == Ok(input)
  {
    if Decode(input).Ok? && !Decode(input).value.Hello? {
      AcceptedIsCanonical(input);
    }
    forall m | WellTyped(m) && Encode(m) == Ok(input)
      ensures Decode(input) == Ok(m)
    {
      RoundTrip(m);
    }
  }
}

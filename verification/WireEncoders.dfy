/** The encoders as they run on the presentation path: they fill a caller's buffer in place,
    field by field, and allocate nothing. */
module WireEncoders {
  import opened Wrappers
  import opened Messages
  import opened Bytes
  import opened Wire

  // ---- Writing into a buffer ----

  method CopyInto(output: array<byte>, at: nat, bytes: seq<byte>)
    requires at + |bytes| <= output.Length
    modifies output
    ensures output[..] == old(output[..at]) + bytes + old(output[at + |bytes|..])
  {
    var i := 0;
    while i < |bytes|
      invariant 0 <= i <= |bytes|
      invariant forall j :: 0 <= j < i ==> output[at + j] == bytes[j]
      invariant forall k :: 0 <= k < output.Length && !(at <= k < at + i) ==> output[k] == old(output[k])
    {
      output[at + i] := bytes[i];
      i := i + 1;
    }
    assert forall k :: at <= k < at + |bytes| ==> output[k] == bytes[k - at];
  }

  method FillZero(output: array<byte>, at: nat, n: nat)
    requires at + n <= output.Length
    modifies output
    ensures output[..] == old(output[..at]) + Zeros(n) + old(output[at + n..])
  {
    var i := at;
    while i < at + n
      invariant at <= i <= at + n
      invariant forall k :: at <= k < i ==> output[k] == 0
      invariant forall k :: 0 <= k < output.Length && !(at <= k < i) ==> output[k] == old(output[k])
    {
      output[i] := 0;
      i := i + 1;
    }
  }

  /** A message being built: header, the fields written so far, zeros up to the payload's end,
      and the untouched rest of the buffer. */
  ghost predicate Building(s: seq<byte>, header: seq<byte>, fields: seq<byte>, length: nat, rest: seq<byte>) {
    |fields| <= length && s == header + fields + Zeros(length - |fields|) + rest
  }

  ghost function Padded(fields: seq<byte>, at: nat): (r: seq<byte>)
    requires |fields| <= at
    ensures |r| == at
  {
    if |fields| == at then fields else fields + Zeros(at - |fields|)
  }

  /** The fields after one more is written at an offset. */
  ghost function Extended(fields: seq<byte>, at: nat, bytes: seq<byte>): (r: seq<byte>)
    requires |fields| <= at
    ensures |r| == at + |bytes|
  {
    if at == 0 then bytes else Padded(fields, at) + bytes
  }

  lemma BuildingWrite(s: seq<byte>, s': seq<byte>, header: seq<byte>, fields: seq<byte>, length: nat, rest: seq<byte>,
                      at: nat, bytes: seq<byte>)
    requires Building(s, header, fields, length, rest)
    requires |fields| <= at && at + |bytes| <= length
    requires s' == s[..|header| + at] + bytes + s[|header| + at + |bytes|..]
    ensures Building(s', header, Extended(fields, at, bytes), length, rest)
  {
    assert s[..|header| + at] == header + Padded(fields, at);
    assert s[|header| + at + |bytes|..] == Zeros(length - at - |bytes|) + rest;
    if at == 0 {
      assert header + fields == header;
    } else {
      assert header + Padded(fields, at) + bytes == header + (Padded(fields, at) + bytes);
    }
  }

  /** Zeros that are already there can be counted as fields. */
  lemma PaddedBuilding(s: seq<byte>, header: seq<byte>, fields: seq<byte>, at: nat, length: nat, rest: seq<byte>)
    requires Building(s, header, fields, length, rest) && |fields| <= at <= length
    ensures Building(s, header, Padded(fields, at), length, rest)
  {
    if |fields| < at {
      assert header + fields + Zeros(length - |fields|) + rest
          == header + (fields + Zeros(at - |fields|)) + Zeros(length - at) + rest;
    }
  }

  /** Write one field at an offset from the base; fields are written left to right. */
  method WriteAt(output: array<byte>, base: nat, at: nat, bytes: seq<byte>, ghost header: seq<byte>,
                 ghost fields: seq<byte>, ghost length: nat, ghost rest: seq<byte>)
    returns (ghost fields': seq<byte>)
    requires |header| == base && Building(output[..], header, fields, length, rest)
    requires |fields| <= at && at + |bytes| <= length
    modifies output
    ensures fields' == Extended(fields, at, bytes) && Building(output[..], header, fields', length, rest)
  {
    ghost var before := output[..];
    CopyInto(output, base + at, bytes);
    fields' := Extended(fields, at, bytes);
    BuildingWrite(before, output[..], header, fields, length, rest, at, bytes);
  }

  method Write(output: array<byte>, at: nat, bytes: seq<byte>, ghost header: seq<byte>, ghost fields: seq<byte>,
               ghost length: nat, ghost rest: seq<byte>)
    returns (ghost fields': seq<byte>)
    requires |header| == HEADER_BYTES && Building(output[..], header, fields, length, rest)
    requires |fields| <= at && at + |bytes| <= length
    modifies output
    ensures fields' == Extended(fields, at, bytes) && Building(output[..], header, fields', length, rest)
  {
    fields' := WriteAt(output, HEADER_BYTES, at, bytes, header, fields, length, rest);
  }

  /** Clear the identity field, then write vendor and identifiers if there is an identity. */
  method WriteIdentity(output: array<byte>, at: nat, identity: Option<GpuIdentity>, ghost header: seq<byte>,
                       ghost fields: seq<byte>, ghost length: nat, ghost rest: seq<byte>)
    returns (ghost fields': seq<byte>)
    requires OptionalIdentityOk(identity)
    requires |header| == HEADER_BYTES && Building(output[..], header, fields, length, rest)
    requires |fields| <= at && at + IDENTITY_BYTES <= length
    modifies output
    ensures fields' == Extended(fields, at, IdentityBytes(identity)) && Building(output[..], header, fields', length, rest)
  {
    ghost var before := output[..];
    FillZero(output, HEADER_BYTES + at, IDENTITY_BYTES);
    ClearingIsIdle(before, header, fields, length, rest, at);
    fields' := fields;
    if identity.Some? {
      fields' := Write(output, at, Le(4, identity.value.vendorId), header, fields', length, rest);
      fields' := Write(output, at + 4, identity.value.deviceUuid, header, fields', length, rest);
      fields' := Write(output, at + 20, identity.value.driverUuid, header, fields', length, rest);
    }
    PaddedBuilding(output[..], header, fields', at + IDENTITY_BYTES, length, rest);
    IdentityAssembled(fields, at, identity);
    fields' := Padded(fields', at + IDENTITY_BYTES);
  }

  lemma ClearingIsIdle(s: seq<byte>, header: seq<byte>, fields: seq<byte>, length: nat, rest: seq<byte>, at: nat)
    requires Building(s, header, fields, length, rest) && |fields| <= at && at + IDENTITY_BYTES <= length
    ensures var start := |header| + at;
            s[..start] + Zeros(IDENTITY_BYTES) + s[start + IDENTITY_BYTES..] == s
  {
    var start := |header| + at;
    assert s[start..start + IDENTITY_BYTES] == Zeros(IDENTITY_BYTES);
  }

  lemma IdentityAssembled(fields: seq<byte>, at: nat, identity: Option<GpuIdentity>)
    requires OptionalIdentityOk(identity) && |fields| <= at
    ensures identity.None? ==>
              Padded(fields, at + IDENTITY_BYTES) == Extended(fields, at, IdentityBytes(identity))
    ensures identity.Some? ==>
              var f1 := Extended(fields, at, Le(4, identity.value.vendorId));
              var f2 := Extended(f1, at + 4, identity.value.deviceUuid);
              var f3 := Extended(f2, at + 20, identity.value.driverUuid);
              Padded(f3, at + IDENTITY_BYTES) == Extended(fields, at, IdentityBytes(identity))
  {
  }

  // ---- Whole messages ----

  /** Zero the message area, then magic, version, kind, payload length and session. */
  method WriteHeader(output: array<byte>, kind: byte, length: u16, session: seq<byte>)
    requires |session| == 16 && HEADER_BYTES + length <= output.Length
    modifies output
    ensures Building(output[..], Header(kind, length, session), [], length, old(output[HEADER_BYTES + length..]))
  {
    ghost var n := HEADER_BYTES + length;
    ghost var rest := output[n..];
    FillZero(output, 0, HEADER_BYTES + length);
    assert Building(output[..], [], [], n, rest);
    ghost var f := WriteAt(output, 0, 0, MAGIC, [], [], n, rest);
    f := WriteAt(output, 0, 8, Le(2, PROTOCOL_VERSION), [], f, n, rest);
    f := WriteAt(output, 0, 10, [kind], [], f, n, rest);
    f := WriteAt(output, 0, 12, Le(2, length), [], f, n, rest);
    f := WriteAt(output, 0, 16, session, [], f, n, rest);
    HeaderComplete(output[..], f, kind, length, session, rest);
  }

  lemma HeaderComplete(s: seq<byte>, fields: seq<byte>, kind: byte, length: u16, session: seq<byte>, rest: seq<byte>)
    requires |session| == 16
    requires fields == MAGIC + Le(2, PROTOCOL_VERSION) + [kind] + Zeros(1) + Le(2, length) + Zeros(2) + session
    requires Building(s, [], fields, HEADER_BYTES + length, rest)
    ensures Building(s, Header(kind, length, session), [], length, rest)
  {
    var before := MAGIC + Le(2, PROTOCOL_VERSION);
    assert before + [kind] + Zeros(1) == before + [kind, 0];
    assert [] + fields == fields && fields + [] == fields;
  }

  method WriteSource(output: array<byte>, at: nat, source: SourceCandidate, ghost header: seq<byte>,
                     ghost fields: seq<byte>, ghost length: nat, ghost rest: seq<byte>)
    returns (ghost fields': seq<byte>)
    requires |header| == HEADER_BYTES && Building(output[..], header, fields, length, rest)
    requires |fields| == at && at + 10 <= length
    modifies output
    ensures fields' == Extended(fields, at, SourceBytes(source)) && Building(output[..], header, fields', length, rest)
  {
    fields' := Write(output, at, Le(4, source.width), header, fields, length, rest);
    fields' := Write(output, at + 4, Le(4, source.height), header, fields', length, rest);
    fields' := Write(output, at + 8, [PixelFormatByte(source.pixelFormat)], header, fields', length, rest);
    fields' := Write(output, at + 9, [source.targetFramesPerSecond], header, fields', length, rest);
    SourceAssembled(fields, at, source);
  }

  lemma SourceAssembled(fields: seq<byte>, at: nat, source: SourceCandidate)
    requires |fields| == at
    ensures var f1 := Extended(fields, at, Le(4, source.width));
            var f2 := Extended(f1, at + 4, Le(4, source.height));
            var f3 := Extended(f2, at + 8, [PixelFormatByte(source.pixelFormat)]);
            Extended(f3, at + 9, [source.targetFramesPerSecond]) == Extended(fields, at, SourceBytes(source))
  {
    assert fields + SourceBytes(source) == fields + Le(4, source.width) + Le(4, source.height)
                                           + [PixelFormatByte(source.pixelFormat)] + [source.targetFramesPerSecond];
  }

  ghost function BatchPrefix(api: Api, firstSequence: u64, count: u16): (r: seq<byte>)
    ensures |r| == 16
  {
    Le(8, firstSequence) + Le(2, count) + [ApiByte(api)] + Zeros(5)
  }

  method WriteBatchPrefix(output: array<byte>, api: Api, firstSequence: u64, count: u16, ghost header: seq<byte>,
                          ghost length: nat, ghost rest: seq<byte>)
    returns (ghost fields: seq<byte>)
    requires |header| == HEADER_BYTES && length >= 16 && Building(output[..], header, [], length, rest)
    modifies output
    ensures fields == BatchPrefix(api, firstSequence, count) && Building(output[..], header, fields, length, rest)
  {
    fields := Write(output, 0, Le(8, firstSequence), header, [], length, rest);
    fields := Write(output, 8, Le(2, count), header, fields, length, rest);
    fields := Write(output, 10, [ApiByte(api)], header, fields, length, rest);
    PaddedBuilding(output[..], header, fields, 16, length, rest);
    fields := Padded(fields, 16);
  }

  /** First sequence, count, API, then every interval. */
  method WriteBatch(output: array<byte>, api: Api, firstSequence: u64, intervals: seq<u64>, ghost header: seq<byte>,
                    ghost rest: seq<byte>)
    returns (ghost fields: seq<byte>)
    requires |intervals| <= MAX_FRAME_INTERVALS && |header| == HEADER_BYTES
    requires Building(output[..], header, [], 16 + 8 * |intervals|, rest)
    modifies output
    ensures fields == BatchPrefix(api, firstSequence, |intervals|) + IntervalBytes(intervals)
    ensures Building(output[..], header, fields, 16 + 8 * |intervals|, rest)
  {
    ghost var length := 16 + 8 * |intervals|;
    ghost var prefix := WriteBatchPrefix(output, api, firstSequence, |intervals|, header, length, rest);
    fields := prefix;
    assert prefix + IntervalBytes([]) == prefix;
    var i := 0;
    while i < |intervals|
      invariant 0 <= i <= |intervals|
      invariant fields == prefix + IntervalBytes(intervals[..i])
      invariant Building(output[..], header, fields, length, rest)
    {
      fields := Write(output, 16 + 8 * i, Le(8, intervals[i]), header, fields, length, rest);
      IntervalExtended(prefix, intervals, i);
      i := i + 1;
    }
    assert intervals[..|intervals|] == intervals;
  }

  lemma IntervalExtended(prefix: seq<byte>, intervals: seq<u64>, i: nat)
    requires |prefix| == 16 && i < |intervals|
    ensures Extended(prefix + IntervalBytes(intervals[..i]), 16 + 8 * i, Le(8, intervals[i]))
         == prefix + IntervalBytes(intervals[..i + 1])
  {
    assert intervals[..i + 1][..i] == intervals[..i];
    var front := IntervalBytes(intervals[..i]);
    assert prefix + front + Le(8, intervals[i]) == prefix + (front + Le(8, intervals[i]));
  }

  /** The outcome both encoders promise: exactly the encoding at the front of the buffer, or an
      error and an untouched buffer. */
  ghost predicate Outcome(before: seq<byte>, after: seq<byte>, r: Result<nat, ProtocolError>,
                          encoding: Result<seq<byte>, ProtocolError>) {
    match encoding
    case Err(error) => r == Err(error) && after == before
    case Ok(bytes) =>
      if |before| < |bytes| then r == Err(OutputTooSmall) && after == before
      else r == Ok(|bytes|) && after == bytes + before[|bytes|..]
  }

  lemma BuiltOutcome(m: Message, before: seq<byte>, after: seq<byte>, fields: seq<byte>)
    requires WellTyped(m) && Validate(m).None? && HEADER_BYTES + BodyLength(m) <= |before|
    requires Building(after, Header(Kind(m), BodyLength(m), m.session), fields, BodyLength(m),
                      before[HEADER_BYTES + BodyLength(m)..])
    requires Padded(fields, BodyLength(m)) == Body(m)
    ensures Outcome(before, after, Ok(HEADER_BYTES + BodyLength(m)), Encode(m))
  {
    PaddedBuilding(after, Header(Kind(m), BodyLength(m), m.session), fields, BodyLength(m), BodyLength(m),
                   before[HEADER_BYTES + BodyLength(m)..]);
    assert Header(Kind(m), BodyLength(m), m.session) + Body(m) + Zeros(0) == Header(Kind(m), BodyLength(m), m.session) + Body(m);
  }

  /** Encode a batch directly from borrowed intervals. */
  method EncodeFrameBatch(session: seq<byte>, api: Api, firstSequence: u64, intervals: seq<u64>, output: array<byte>)
    returns (r: Result<nat, ProtocolError>)
    requires SessionOk(session)
    modifies output
    ensures Outcome(old(output[..]), output[..], r, Encode(FrameBatch(session, api, firstSequence, intervals)))
  {
    ghost var m := FrameBatch(session, api, firstSequence, intervals);
    var invalid := ValidateIntervals(intervals);
    if invalid.Some? {
      return Err(invalid.value);
    }
    var length := FRAME_BATCH_PREFIX_BYTES + 8 * |intervals|;
    if output.Length < HEADER_BYTES + length {
      return Err(OutputTooSmall);
    }
    ghost var before := output[..];
    WriteHeader(output, 2, length, session);
    ghost var fields := WriteBatch(output, api, firstSequence, intervals, Header(2, length, session),
                                   before[HEADER_BYTES + length..]);
    BuiltOutcome(m, before, output[..], fields);
    r := Ok(HEADER_BYTES + length);
  }

  // ---- Payloads by kind ----

  ghost predicate Start(s: seq<byte>, h: seq<byte>, m: Message, rest: seq<byte>) {
    |h| == HEADER_BYTES && Building(s, h, [], BodyLength(m), rest)
  }

  /** The payload is complete up to trailing zeros. */
  ghost predicate Complete(s: seq<byte>, h: seq<byte>, f: seq<byte>, m: Message, rest: seq<byte>)
    requires WellTyped(m) && (m.FrameBatch? ==> |m.intervals| <= MAX_FRAME_INTERVALS)
  {
    |f| <= BodyLength(m) && Padded(f, BodyLength(m)) == Body(m) && Building(s, h, f, BodyLength(m), rest)
  }

  /** Sequence, a 32-bit word and the source, as both frame messages begin. */
  method WriteFrame(output: array<byte>, sequence: u64, word: u32, source: SourceCandidate, ghost h: seq<byte>,
                    ghost n: nat, ghost rest: seq<byte>)
    returns (ghost f: seq<byte>)
    requires n >= 22 && |h| == HEADER_BYTES && Building(output[..], h, [], n, rest)
    modifies output
    ensures f == Le(8, sequence) + Le(4, word) + SourceBytes(source) && Building(output[..], h, f, n, rest)
  {
    f := Write(output, 0, Le(8, sequence), h, [], n, rest);
    f := Write(output, 8, Le(4, word), h, f, n, rest);
    f := WriteSource(output, 12, source, h, f, n, rest);
  }

  method WriteCopied(m: Message, output: array<byte>, ghost h: seq<byte>, ghost rest: seq<byte>)
    returns (ghost f: seq<byte>)
    requires WellTyped(m) && m.ReplayFrameCopied? && Start(output[..], h, m, rest)
    modifies output
    ensures Complete(output[..], h, f, m, rest)
  {
    f := WriteFrame(output, m.sequence, m.copiedBytes, m.source, h, 72, rest);
    f := Write(output, 24, Le(8, m.checksum), h, f, 72, rest);
    f := WriteIdentity(output, 32, m.source.gpuIdentity, h, f, 72, rest);
  }

  /** Offset, stride and modifier. */
  method WritePlane(output: array<byte>, offset: u32, stride: u32, modifier: u64, ghost h: seq<byte>, ghost f0: seq<byte>,
                    ghost rest: seq<byte>)
    returns (ghost f: seq<byte>)
    requires |h| == HEADER_BYTES && |f0| == 22 && Building(output[..], h, f0, 96, rest)
    modifies output
    ensures f == f0 + Zeros(2) + Le(4, offset) + Le(4, stride) + Le(8, modifier) && Building(output[..], h, f, 96, rest)
  {
    f := Write(output, 24, Le(4, offset), h, f0, 96, rest);
    f := Write(output, 28, Le(4, stride), h, f, 96, rest);
    f := Write(output, 32, Le(8, modifier), h, f, 96, rest);
  }

  method WriteExported(m: Message, output: array<byte>, ghost h: seq<byte>, ghost rest: seq<byte>)
    returns (ghost f: seq<byte>)
    requires WellTyped(m) && m.ReplayFrameExported? && Start(output[..], h, m, rest)
    modifies output
    ensures Complete(output[..], h, f, m, rest)
  {
    f := WriteFrame(output, m.sequence, m.fdNumber, m.source, h, 96, rest);
    f := WritePlane(output, m.offset, m.stride, m.modifier, h, f, rest);
    f := Write(output, 40, Le(8, m.timestamp), h, f, 96, rest);
    f := Write(output, 48, Le(8, m.duration), h, f, 96, rest);
    f := WriteIdentity(output, 56, m.source.gpuIdentity, h, f, 96, rest);
  }

  method WriteCandidate(m: Message, output: array<byte>, ghost h: seq<byte>, ghost rest: seq<byte>)
    returns (ghost f: seq<byte>)
    requires WellTyped(m) && m.ReplaySourceCandidate? && Start(output[..], h, m, rest)
    modifies output
    ensures Complete(output[..], h, f, m, rest)
  {
    f := WriteSource(output, 0, m.candidate, h, [], 56, rest);
    f := WriteIdentity(output, 16, m.candidate.gpuIdentity, h, f, 56, rest);
  }

  method WriteGpuIdentity(m: Message, output: array<byte>, ghost h: seq<byte>, ghost rest: seq<byte>)
    returns (ghost f: seq<byte>)
    requires WellTyped(m) && m.GpuIdentityReport? && Start(output[..], h, m, rest)
    modifies output
    ensures Complete(output[..], h, f, m, rest)
  {
    f := WriteIdentity(output, 0, m.identity, h, [], 48, rest);
    f := Write(output, 40, [ApiByte(m.api)], h, f, 48, rest);
  }

  method WriteHello(m: Message, output: array<byte>, ghost h: seq<byte>, ghost rest: seq<byte>)
    returns (ghost f: seq<byte>)
    requires WellTyped(m) && m.Hello? && Start(output[..], h, m, rest)
    modifies output
    ensures Complete(output[..], h, f, m, rest)
  {
    f := Write(output, 0, Le(4, m.processId), h, [], 16, rest);
    f := Write(output, 4, [ApiByte(m.api)], h, f, 16, rest);
    f := Write(output, 8, Le(8, m.started), h, f, 16, rest);
  }

  method WriteGoodbye(m: Message, output: array<byte>, ghost h: seq<byte>, ghost rest: seq<byte>)
    returns (ghost f: seq<byte>)
    requires WellTyped(m) && m.Goodbye? && Start(output[..], h, m, rest)
    modifies output
    ensures Complete(output[..], h, f, m, rest)
  {
    f := Write(output, 0, Le(8, m.lastSequence), h, [], 16, rest);
    f := Write(output, 8, [ReasonByte(m.reason)], h, f, 16, rest);
    f := Write(output, 9, [ApiByte(m.api)], h, f, 16, rest);
    assert f == Le(8, m.lastSequence) + [ReasonByte(m.reason), ApiByte(m.api)];
  }

  /** Status and reason, or a rejection or sequence: messages of one or two leading fields. */
  method WriteShort(m: Message, output: array<byte>, ghost h: seq<byte>, ghost rest: seq<byte>)
    returns (ghost f: seq<byte>)
    requires WellTyped(m) && (m.ReplaySourceRejected? || m.ReplayFrameReleased? || m.OverlayReport?)
    requires Start(output[..], h, m, rest)
    modifies output
    ensures Complete(output[..], h, f, m, rest)
  {
    if m.ReplaySourceRejected? {
      f := Write(output, 0, [RejectionByte(m.rejection)], h, [], 8, rest);
    } else if m.ReplayFrameReleased? {
      f := Write(output, 0, Le(8, m.sequence), h, [], 16, rest);
    } else {
      f := Write(output, 0, [StatusBytes(m.status)[0]], h, [], 8, rest);
      f := Write(output, 1, [StatusBytes(m.status)[1]], h, f, 8, rest);
      assert f == StatusBytes(m.status);
    }
  }

  method WriteBody(m: Message, output: array<byte>, ghost h: seq<byte>, ghost rest: seq<byte>)
    returns (ghost f: seq<byte>)
    requires WellTyped(m) && (m.FrameBatch? ==> |m.intervals| <= MAX_FRAME_INTERVALS)
    requires Start(output[..], h, m, rest)
    modifies output
    ensures Complete(output[..], h, f, m, rest)
  {
    match m {
      case GpuIdentityReport(_, _, _) => f := WriteGpuIdentity(m, output, h, rest);
      case Hello(_, _, _, _) => f := WriteHello(m, output, h, rest);
      case FrameBatch(_, api, firstSequence, intervals) =>
        f := WriteBatch(output, api, firstSequence, intervals, h, rest);
      case Goodbye(_, _, _, _) => f := WriteGoodbye(m, output, h, rest);
      case ReplaySourceCandidate(_, _) => f := WriteCandidate(m, output, h, rest);
      case ReplayFrameCopied(_, _, _, _, _) => f := WriteCopied(m, output, h, rest);
      case ReplayFrameExported(_, _, _, _, _, _, _, _, _) => f := WriteExported(m, output, h, rest);
      case _ => f := WriteShort(m, output, h, rest);
    }
  }

  /** Encode one message into a caller's buffer. */
  method EncodeMessage(m: Message, output: array<byte>) returns (r: Result<nat, ProtocolError>)
    requires WellTyped(m)
    modifies output
    ensures Outcome(old(output[..]), output[..], r, Encode(m))
  {
    var invalid := Validate(m);
    if invalid.Some? {
      return Err(invalid.value);
    }
    var length := BodyLength(m);
    if output.Length < HEADER_BYTES + length {
      return Err(OutputTooSmall);
    }
    ghost var before := output[..];
    WriteHeader(output, Kind(m), length, m.session);
    ghost var fields := WriteBody(m, output, Header(Kind(m), length, m.session), before[HEADER_BYTES + length..]);
    BuiltOutcome(m, before, output[..], fields);
    r := Ok(HEADER_BYTES + length);
  }

  /** The decoder's loop over the intervals of a batch. */
  method ReadBatchIntervals(payload: seq<byte>, count: nat) returns (intervals: seq<u64>)
    requires FRAME_BATCH_PREFIX_BYTES + 8 * count <= |payload|
    ensures intervals == ReadIntervals(payload, count)
  {
    intervals := [];
    var i := 0;
    while i < count
      invariant 0 <= i <= count && intervals == ReadIntervals(payload, i)
    {
      intervals := intervals + [Read64(payload, FRAME_BATCH_PREFIX_BYTES + 8 * i)];
      i := i + 1;
    }
  }
}

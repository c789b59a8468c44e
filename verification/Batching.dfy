/** Frame intervals on their way to the daemon: presents become (sequence, interval) pairs,
    pairs are buffered in contiguous batches, and batches leave as datagrams. */
module Batching {
  import opened Subsequences
  import opened Wrappers
  import opened Messages
  import opened Bytes
  import opened Wire
  import opened WireProofs
  import WireEncoders

  const BATCH_INTERVALS: nat := 64
  const MAX_BATCH_LATENCY_NS: nat := 250_000_000

  /** One presented frame. */
  datatype Frame = Frame(sequence: nat, interval: u64)

  /** `latency` is the OpenGL producer's flush deadline; the Vulkan producer has none. */
  datatype Config = Config(session: seq<byte>, api: Api, latency: Option<nat>)

  function VulkanConfig(session: seq<byte>): Config { Config(session, Vulkan, None) }

  function OpenGlConfig(session: seq<byte>): Config { Config(session, OpenGl, Some(MAX_BATCH_LATENCY_NS)) }

  datatype Batch = Batch(first: u64, intervals: seq<u64>)

  /** The producer's buffer, and the batches whose datagrams the socket delivered. */
  datatype Producer = Producer(
    connected: bool,
    first: u64,
    intervals: seq<u64>,
    previous: Option<u64>,
    lastFlush: nat,
    sent: seq<Batch>)

  function Start(connected: bool): Producer { Producer(connected, 0, [], None, 0, []) }

  predicate ConfigOk(c: Config) { SessionOk(c.session) }

  /** The encoder refuses a batch exactly when its intervals do not validate. */
  function Flush(p: Producer, now: nat, delivered: bool): Producer {
    if p.intervals == [] then p
    else if !p.connected then p.(intervals := [])
    else
      var encodable := ValidateIntervals(p.intervals).None?;
      p.(intervals := [], lastFlush := now,
         sent := if encodable && delivered then p.sent + [Batch(p.first, p.intervals)] else p.sent)
  }

  predicate Gap(p: Producer, sequence: u64) {
    p.previous.Some? && sequence != (if p.previous.value == U64_MAX then U64_MAX else p.previous.value + 1)
  }

  predicate Due(c: Config, p: Producer, now: nat) {
    |p.intervals| == BATCH_INTERVALS
    || (c.latency.Some? && (if now < p.lastFlush then 0 else now - p.lastFlush) >= c.latency.value)
  }

  function Append(p: Producer, sequence: u64, interval: u64): Producer {
    p.(first := if p.intervals == [] then sequence else p.first,
       intervals := p.intervals + [interval],
       previous := Some(sequence))
  }

  function FlushAtGap(p: Producer, sequence: u64, now: nat, delivered: bool): Producer {
    if Gap(p, sequence) then Flush(p, now, delivered) else p
  }

  function FlushIfDue(c: Config, p: Producer, now: nat, delivered: bool): Producer {
    if Due(c, p, now) then Flush(p, now, delivered) else p
  }

  /** `delivered` answers the two sends one push can attempt. */
  function Push(c: Config, p: Producer, sequence: u64, interval: u64, now: nat, delivered: (bool, bool)): Producer {
    if !p.connected then p
    else FlushIfDue(c, Append(FlushAtGap(p, sequence, now, delivered.0), sequence, interval), now, delivered.1)
  }

  // ---- Meaning of the batches ----

  function Pairs(first: nat, intervals: seq<u64>): (r: seq<Frame>)
    ensures |r| == |intervals|
  {
    if intervals == [] then []
    else
      var n := |intervals| - 1;
      Pairs(first, intervals[..n]) + [Frame(first + n, intervals[n])]
  }

  function AllPairs(sent: seq<Batch>): seq<Frame> {
    if sent == [] then []
    else
      var n := |sent| - 1;
      AllPairs(sent[..n]) + Pairs(sent[n].first, sent[n].intervals)
  }

  /** Everything delivered so far, then what still waits in the buffer. */
  function Everything(p: Producer): seq<Frame> { AllPairs(p.sent) + Pairs(p.first, p.intervals) }

  /** The buffer is one contiguous run of positive intervals that ends at the last push. */
  predicate Contiguous(p: Producer) {
    && |p.intervals| <= BATCH_INTERVALS
    && (forall i :: 0 <= i < |p.intervals| ==> p.intervals[i] > 0)
    && (p.intervals != [] ==> p.previous == Some(p.first + |p.intervals| - 1))
    && (p.previous.Some? ==> p.previous.value < U64_MAX)
  }

  predicate BufferOk(p: Producer) { Contiguous(p) && |p.intervals| < BATCH_INTERVALS }

  // ---- One flush, one push ----

  lemma AllPairsGrow(sent: seq<Batch>, batch: Batch)
    ensures AllPairs(sent + [batch]) == AllPairs(sent) + Pairs(batch.first, batch.intervals)
  {
    assert (sent + [batch])[..|sent|] == sent;
  }

  /** The encoder never refuses a buffered batch. */
  lemma FlushKeeps(p: Producer, now: nat, delivered: bool)
    requires Contiguous(p)
    ensures var p' := Flush(p, now, delivered);
            && BufferOk(p') && p'.intervals == [] && p'.previous == p.previous && p'.connected == p.connected
            && (p.connected && delivered ==> Everything(p') == Everything(p))
            && (!(p.connected && delivered) ==> Everything(p') == AllPairs(p.sent))
  {
    AllPairsGrow(p.sent, Batch(p.first, p.intervals));
    var p' := Flush(p, now, delivered);
    assert AllPairs(p'.sent) + [] == AllPairs(p'.sent);
  }

  lemma PairsGrow(first: nat, intervals: seq<u64>, interval: u64)
    ensures Pairs(first, intervals + [interval]) == Pairs(first, intervals) + [Frame(first + |intervals|, interval)]
  {
    assert (intervals + [interval])[..|intervals|] == intervals;
  }

  /** Appending to the buffer appends one pair to everything. */
  lemma AppendKeeps(p: Producer, sequence: u64, interval: u64)
    requires BufferOk(p) && interval > 0 && sequence < U64_MAX && (p.intervals == [] || !Gap(p, sequence))
    ensures Contiguous(Append(p, sequence, interval))
    ensures Everything(Append(p, sequence, interval)) == Everything(p) + [Frame(sequence, interval)]
  {
    var p' := Append(p, sequence, interval);
    PairsGrow(p'.first, p.intervals, interval);
    assert p'.first + |p.intervals| == sequence;
    Associate(AllPairs(p.sent), Pairs(p.first, p.intervals), [Frame(sequence, interval)]);
  }

  lemma Associate(a: seq<Frame>, b: seq<Frame>, c: seq<Frame>)
    ensures a + (b + c) == a + b + c
  {
  }

  lemma FlushAtGapKeeps(p: Producer, sequence: u64, now: nat, delivered: bool)
    requires BufferOk(p) && p.connected
    ensures var p' := FlushAtGap(p, sequence, now, delivered);
            && BufferOk(p') && p'.connected && (p'.intervals == [] || !Gap(p', sequence))
            && (Everything(p') == Everything(p) || (!delivered && Everything(p') == AllPairs(p.sent)))
  {
    FlushKeeps(p, now, delivered);
  }

  lemma FlushIfDueKeeps(c: Config, p: Producer, now: nat, delivered: bool)
    requires Contiguous(p) && p.connected
    ensures var p' := FlushIfDue(c, p, now, delivered);
            && BufferOk(p') && p'.connected && p'.previous == p.previous
            && (Everything(p') == Everything(p) || (!delivered && Everything(p') == AllPairs(p.sent)))
  {
    FlushKeeps(p, now, delivered);
  }

  /** A push leaves fewer than 64 intervals behind and adds exactly its frame, whatever gap
      precedes it. */
  lemma PushKeeps(c: Config, p: Producer, sequence: u64, interval: u64, now: nat, delivered: (bool, bool))
    requires BufferOk(p) && p.connected && interval > 0 && sequence < U64_MAX
    ensures var p' := Push(c, p, sequence, interval, now, delivered);
            && BufferOk(p') && p'.connected && p'.previous == Some(sequence)
            && (delivered == (true, true) ==> Everything(p') == Everything(p) + [Frame(sequence, interval)])
  {
    var p1 := FlushAtGap(p, sequence, now, delivered.0);
    FlushAtGapKeeps(p, sequence, now, delivered.0);
    AppendKeeps(p1, sequence, interval);
    FlushIfDueKeeps(c, Append(p1, sequence, interval), now, delivered.1);
  }

  /** Failed sends can only lose what was buffered. */
  lemma PushLosesBuffer(c: Config, p: Producer, sequence: u64, interval: u64, now: nat, delivered: (bool, bool))
    requires BufferOk(p) && p.connected && interval > 0 && sequence < U64_MAX
    ensures LosesSuffixOnly(Everything(p), Everything(Push(c, p, sequence, interval, now, delivered)),
                            Frame(sequence, interval))
  {
    var p1 := FlushAtGap(p, sequence, now, delivered.0);
    FlushAtGapKeeps(p, sequence, now, delivered.0);
    AppendKeeps(p1, sequence, interval);
    var p2 := Append(p1, sequence, interval);
    FlushIfDueKeeps(c, p2, now, delivered.1);
    PushLoses(AllPairs(p.sent), Pairs(p.first, p.intervals), AllPairs(p1.sent), Pairs(p1.first, p1.intervals),
              Everything(FlushIfDue(c, p2, now, delivered.1)), Frame(sequence, interval));
  }

  /** The three outcomes of a push: the frame appended, appended to a shorter past, or lost with
      the buffer. */
  lemma PushLoses(read: seq<Frame>, buffered: seq<Frame>, read1: seq<Frame>, buffered1: seq<Frame>, after: seq<Frame>,
                  pushed: Frame)
    requires read1 + buffered1 == read + buffered || read1 + buffered1 == read
    requires after == read1 + buffered1 + [pushed] || after == read1
    ensures LosesSuffixOnly(read + buffered, after, pushed)
  {
    assert Keeps(read + buffered, read1 + buffered1);
    assert Keeps(read + buffered, read1);
  }

  predicate Keeps(before: seq<Frame>, kept: seq<Frame>) { kept <= before }

  /** After one push, what was delivered and buffered lost at most a suffix and gained at most
      the new frame. */
  ghost predicate LosesSuffixOnly(before: seq<Frame>, after: seq<Frame>, pushed: Frame) {
    exists kept :: Keeps(before, kept) && (after == kept || after == kept + [pushed])
  }

  // ---- Runs of presents ----

  /** One intercepted present: the clock, whether the producer lock was busy, and send outcomes. */
  datatype Present = Present(now: u64, busy: bool, delivered: (bool, bool))

  /** Last present time, next frame sequence, producer. */
  datatype Recorder = Recorder(last: u64, next: u64, producer: Producer)

  function RecordPresent(c: Config, r: Recorder, e: Present): Recorder
    requires r.next < U64_MAX
  {
    if r.last == 0 || e.now <= r.last then r.(last := e.now)
    else if e.busy then Recorder(e.now, r.next + 1, r.producer)
    else Recorder(e.now, r.next + 1, Push(c, r.producer, r.next, e.now - r.last, e.now, e.delivered))
  }

  function Record(c: Config, r: Recorder, presents: seq<Present>): (r': Recorder)
    requires r.next + |presents| <= U64_MAX
    ensures r.next <= r'.next <= r.next + |presents|
  {
    if presents == [] then r
    else
      var n := |presents| - 1;
      var before := Record(c, r, presents[..n]);
      RecordPresent(c, before, presents[n])
  }

  datatype Observation = Observation(last: u64, next: nat, frames: seq<Frame>)

  /** The pair one present contributes: consecutive sequences, one per forward step of the
      clock, of which those met by a busy lock are skipped. */
  function ObserveNext(o: Observation, e: Present): Observation {
    if o.last == 0 || e.now <= o.last then o.(last := e.now)
    else Observation(e.now, o.next + 1, if e.busy then o.frames else o.frames + [Frame(o.next, e.now - o.last)])
  }

  function Observed(last: u64, next: nat, presents: seq<Present>): Observation {
    if presents == [] then Observation(last, next, [])
    else ObserveNext(Observed(last, next, presents[..|presents| - 1]), presents[|presents| - 1])
  }

  /** The recorder and the observer agree. */
  predicate Agree(r: Recorder, o: Observation) {
    r.last == o.last && r.next == o.next && BufferOk(r.producer) && r.producer.connected
  }

  /** A present that reaches the producer pushes its frame. */
  predicate Pushes(r: Recorder, e: Present) { r.last != 0 && e.now > r.last && !e.busy }

  lemma PresentPushes(c: Config, r: Recorder, e: Present)
    requires r.next < U64_MAX && BufferOk(r.producer) && r.producer.connected && Pushes(r, e)
    ensures var p' := RecordPresent(c, r, e).producer;
            && BufferOk(p') && p'.connected
            && (e.delivered == (true, true) ==>
                  Everything(p') == Everything(r.producer) + [Frame(r.next, e.now - r.last)])
  {
    PushKeeps(c, r.producer, r.next, e.now - r.last, e.now, e.delivered);
    assert RecordPresent(c, r, e).producer == Push(c, r.producer, r.next, e.now - r.last, e.now, e.delivered);
  }

  lemma PresentLosesBuffer(c: Config, r: Recorder, e: Present)
    requires r.next < U64_MAX && BufferOk(r.producer) && r.producer.connected && Pushes(r, e)
    ensures LosesSuffixOnly(Everything(r.producer), Everything(RecordPresent(c, r, e).producer),
                            Frame(r.next, e.now - r.last))
  {
    PushLosesBuffer(c, r.producer, r.next, e.now - r.last, e.now, e.delivered);
    assert RecordPresent(c, r, e).producer == Push(c, r.producer, r.next, e.now - r.last, e.now, e.delivered);
  }

  lemma PresentAgrees(c: Config, r: Recorder, o: Observation, e: Present)
    requires r.next < U64_MAX && Agree(r, o)
    ensures Agree(RecordPresent(c, r, e), ObserveNext(o, e))
  {
    if Pushes(r, e) {
      PresentPushes(c, r, e);
    }
  }

  lemma PresentKeeps(c: Config, r: Recorder, o: Observation, base: seq<Frame>, e: Present)
    requires r.next < U64_MAX && Agree(r, o) && e.delivered == (true, true)
    requires Everything(r.producer) == base + o.frames
    ensures Everything(RecordPresent(c, r, e).producer) == base + ObserveNext(o, e).frames
  {
    if Pushes(r, e) {
      PresentPushes(c, r, e);
      Associate(base, o.frames, [Frame(r.next, e.now - r.last)]);
    }
  }

  lemma {:induction false} RecordKeeps(c: Config, r: Recorder, presents: seq<Present>)
    requires r.next + |presents| <= U64_MAX && BufferOk(r.producer) && r.producer.connected
    requires forall i :: 0 <= i < |presents| ==> presents[i].delivered == (true, true)
    ensures var o := Observed(r.last, r.next, presents);
            var r' := Record(c, r, presents);
            Agree(r', o) && Everything(r'.producer) == Everything(r.producer) + o.frames
    decreases |presents|
  {
    if presents == [] {
      assert Everything(r.producer) + [] == Everything(r.producer);
    } else {
      var n := |presents| - 1;
      RecordKeeps(c, r, presents[..n]);
      PresentAgrees(c, Record(c, r, presents[..n]), Observed(r.last, r.next, presents[..n]), presents[n]);
      PresentKeeps(c, Record(c, r, presents[..n]), Observed(r.last, r.next, presents[..n]), Everything(r.producer),
                   presents[n]);
    }
  }

  // ---- What the daemon decodes ----

  /** The datagram of a batch, as the encoder writes it. */
  function Datagram(c: Config, batch: Batch): seq<byte>
    requires ConfigOk(c)
  {
    var datagram := Encode(FrameBatch(c.session, c.api, batch.first, batch.intervals));
    if datagram.Ok? then datagram.value else []
  }

  function Datagrams(c: Config, sent: seq<Batch>): seq<seq<byte>>
    requires ConfigOk(c)
  {
    seq(|sent|, i requires 0 <= i < |sent| => Datagram(c, sent[i]))
  }

  /** What a daemon reads out of one datagram. */
  function Received(datagram: seq<byte>): seq<Frame> {
    var m := Decode(datagram);
    if m.Ok? && m.value.FrameBatch? then Pairs(m.value.firstSequence, m.value.intervals) else []
  }

  function AllReceived(datagrams: seq<seq<byte>>): seq<Frame> {
    if datagrams == [] then []
    else
      var n := |datagrams| - 1;
      AllReceived(datagrams[..n]) + Received(datagrams[n])
  }

  lemma DatagramsGrow(c: Config, sent: seq<Batch>, batch: Batch)
    requires ConfigOk(c)
    ensures Datagrams(c, sent + [batch]) == Datagrams(c, sent) + [Datagram(c, batch)]
  {
  }

  predicate Encodables(sent: seq<Batch>) { forall i :: 0 <= i < |sent| ==> ValidateIntervals(sent[i].intervals).None? }

  lemma BatchArrives(c: Config, batch: Batch)
    requires ConfigOk(c) && ValidateIntervals(batch.intervals).None?
    ensures Received(Datagram(c, batch)) == Pairs(batch.first, batch.intervals)
  {
    RoundTrip(FrameBatch(c.session, c.api, batch.first, batch.intervals));
  }

  lemma {:induction false} BatchesArrive(c: Config, sent: seq<Batch>)
    requires ConfigOk(c) && Encodables(sent)
    ensures AllReceived(Datagrams(c, sent)) == AllPairs(sent)
  {
    if sent != [] {
      var n := |sent| - 1;
      BatchesArrive(c, sent[..n]);
      BatchArrives(c, sent[n]);
      assert Datagrams(c, sent)[..n] == Datagrams(c, sent[..n]);
    }
  }

  lemma {:induction false} RecordedEncodable(c: Config, r: Recorder, presents: seq<Present>)
    requires r.next + |presents| <= U64_MAX && Encodables(r.producer.sent)
    ensures Encodables(Record(c, r, presents).producer.sent)
    decreases |presents|
  {
    if presents != [] {
      RecordedEncodable(c, r, presents[..|presents| - 1]);
    }
  }

  lemma RecordedFrames(c: Config, presents: seq<Present>)
    requires |presents| <= U64_MAX
    requires forall i :: 0 <= i < |presents| ==> presents[i].delivered == (true, true)
    ensures var p := Record(c, Recorder(0, 0, Start(true)), presents).producer;
            BufferOk(p) && p.connected && Encodables(p.sent) && Everything(p) == Observed(0, 0, presents).frames
  {
    var r := Recorder(0, 0, Start(true));
    RecordKeeps(c, r, presents);
    assert Everything(r.producer) + Observed(0, 0, presents).frames == Observed(0, 0, presents).frames;
    RecordedEncodable(c, r, presents);
  }

  lemma FlushedFrames(p: Producer, end: nat)
    requires BufferOk(p) && p.connected && Encodables(p.sent)
    ensures Encodables(Flush(p, end, true).sent) && AllPairs(Flush(p, end, true).sent) == Everything(p)
  {
    FlushKeeps(p, end, true);
    var flushed := Flush(p, end, true);
    assert AllPairs(flushed.sent) + [] == AllPairs(flushed.sent);
  }

  /** End to end: with every send delivered, for any clock readings and any busy locks, the
      daemon decodes exactly the presented (sequence, interval) pairs in order, followed by
      fewer than 64 still buffered; finishing delivers those too. */
  lemma DaemonReadsWhatWasPresented(c: Config, presents: seq<Present>, end: nat)
    requires ConfigOk(c) && |presents| <= U64_MAX
    requires forall i :: 0 <= i < |presents| ==> presents[i].delivered == (true, true)
    ensures var p := Record(c, Recorder(0, 0, Start(true)), presents).producer;
            var frames := Observed(0, 0, presents).frames;
            && AllReceived(Datagrams(c, p.sent)) + Pairs(p.first, p.intervals) == frames
            && |p.intervals| < BATCH_INTERVALS
            && AllReceived(Datagrams(c, Flush(p, end, true).sent)) == frames
  {
    RecordedFrames(c, presents);
    var p := Record(c, Recorder(0, 0, Start(true)), presents).producer;
    FlushedFrames(p, end);
    BatchesArrive(c, p.sent);
    BatchesArrive(c, Flush(p, end, true).sent);
  }

  /** Observed sequences strictly increase, and no interval is zero. */
  lemma {:induction false} ObservedIncreases(last: u64, next: nat, presents: seq<Present>)
    ensures var o := Observed(last, next, presents);
            && next <= o.next
            && (forall i :: 0 <= i < |o.frames| ==> next <= o.frames[i].sequence < o.next && o.frames[i].interval > 0)
            && forall i, j :: 0 <= i < j < |o.frames| ==> o.frames[i].sequence < o.frames[j].sequence
    decreases |presents|
  {
    if presents != [] {
      ObservedIncreases(last, next, presents[..|presents| - 1]);
    }
  }

  // ---- Runs with failing sends ----

  /** A present leaves everything as it was, or pushes one frame and loses at most a suffix. */
  ghost predicate OneStep(before: seq<Frame>, after: seq<Frame>, frames: seq<Frame>, frames': seq<Frame>) {
    || (after == before && frames' == frames)
    || (frames' != [] && frames' == frames + [frames'[|frames'| - 1]]
        && LosesSuffixOnly(before, after, frames'[|frames'| - 1]))
  }

  lemma PresentIsOneStep(c: Config, r: Recorder, o: Observation, e: Present)
    requires r.next < U64_MAX && Agree(r, o)
    ensures OneStep(Everything(r.producer), Everything(RecordPresent(c, r, e).producer), o.frames,
                    ObserveNext(o, e).frames)
  {
    if Pushes(r, e) {
      PresentLosesBuffer(c, r, e);
    }
  }

  lemma StepSubsequence(before: seq<Frame>, after: seq<Frame>, frames: seq<Frame>, frames': seq<Frame>)
    requires Subsequence(before, frames) && OneStep(before, after, frames, frames')
    ensures Subsequence(after, frames')
  {
    if !(after == before && frames' == frames) {
      OnePushSubsequence(before, after, frames, frames'[|frames'| - 1]);
    }
  }

  lemma {:induction false} LossyRecord(c: Config, r: Recorder, presents: seq<Present>)
    requires r.next + |presents| <= U64_MAX && BufferOk(r.producer) && r.producer.connected
    requires Everything(r.producer) == []
    ensures var o := Observed(r.last, r.next, presents);
            var r' := Record(c, r, presents);
            Agree(r', o) && Subsequence(Everything(r'.producer), o.frames)
    decreases |presents|
  {
    if presents != [] {
      var n := |presents| - 1;
      LossyRecord(c, r, presents[..n]);
      PresentAgrees(c, Record(c, r, presents[..n]), Observed(r.last, r.next, presents[..n]), presents[n]);
      PresentIsOneStep(c, Record(c, r, presents[..n]), Observed(r.last, r.next, presents[..n]), presents[n]);
      StepSubsequence(Everything(Record(c, r, presents[..n]).producer), Everything(Record(c, r, presents).producer),
                      Observed(r.last, r.next, presents[..n]).frames, Observed(r.last, r.next, presents).frames);
    }
  }

  lemma OnePushSubsequence(before: seq<Frame>, after: seq<Frame>, pairs: seq<Frame>, pushed: Frame)
    requires Subsequence(before, pairs) && LosesSuffixOnly(before, after, pushed)
    ensures Subsequence(after, pairs + [pushed])
  {
    assert (pairs + [pushed])[..|pairs|] == pairs;
    var kept :| Keeps(before, kept) && (after == kept || after == kept + [pushed]);
    assert kept == before[..|kept|];
    SubsequencePrefix(before, pairs, |kept|);
    if after == kept + [pushed] {
      assert after[..|after| - 1] == kept;
    }
  }

  /** Whatever sends fail, the daemon never sees a pair twice, out of order, or one that was
      not presented. */
  lemma LostSendsOnlyDelete(c: Config, presents: seq<Present>)
    requires ConfigOk(c) && |presents| <= U64_MAX
    ensures var p := Record(c, Recorder(0, 0, Start(true)), presents).producer;
            Subsequence(AllReceived(Datagrams(c, p.sent)), Observed(0, 0, presents).frames)
  {
    var r := Recorder(0, 0, Start(true));
    LossyRecord(c, r, presents);
    var p := Record(c, r, presents).producer;
    SubsequencePrefix(Everything(p), Observed(0, 0, presents).frames, |AllPairs(p.sent)|);
    assert Everything(p)[..|AllPairs(p.sent)|] == AllPairs(p.sent);
    RecordedEncodable(c, r, presents);
    BatchesArrive(c, p.sent);
  }

  // ---- The producer's own form ----

  class BatchProducer {
    const config: Config
    const intervals: array<u64>
    const buffer: array<byte>
    var connected: bool
    var count: nat
    var first: u64
    var previous: Option<u64>
    var lastFlush: nat
    /** The process-wide time of the last present and the next frame sequence. */
    var lastPresent: u64
    var nextSequence: u64
    ghost var sent: seq<Batch>
    /** The delivered bytes. */
    ghost var wire: seq<seq<byte>>

    ghost predicate Valid()
      reads this, intervals
    {
      && ConfigOk(config) && intervals.Length == BATCH_INTERVALS && buffer.Length == MAX_MESSAGE_BYTES
      && count <= BATCH_INTERVALS && wire == Datagrams(config, sent)
    }

    ghost function Value(): Producer
      reads this, intervals
      requires Valid()
    {
      Producer(connected, first, intervals[..count], previous, lastFlush, sent)
    }

    ghost function Here(): Recorder
      reads this, intervals
      requires Valid()
    {
      Recorder(lastPresent, nextSequence, Value())
    }

    constructor (config: Config, connected: bool)
      requires ConfigOk(config)
      ensures Valid() && this.config == config && BufferOk(Value()) && Here() == Recorder(0, 0, Start(connected))
      ensures fresh(intervals) && fresh(buffer)
    {
      this.config := config;
      intervals := new u64[BATCH_INTERVALS](_ => 0);
      buffer := new byte[MAX_MESSAGE_BYTES](_ => 0);
      this.connected := connected;
      count, first, previous, lastFlush := 0, 0, None, 0;
      lastPresent, nextSequence := 0, 0;
      sent, wire := [], [];
    }

    /** Encode the buffered batch into the scratch buffer; its length, unless refused. */
    method EncodeBuffered() returns (length: Option<nat>)
      requires Valid() && Contiguous(Value()) && count > 0
      modifies buffer
      ensures length.Some? <==> ValidateIntervals(intervals[..count]).None?
      ensures length.Some? ==> length.value <= buffer.Length
                               && buffer[..length.value] == Datagram(config, Batch(first, intervals[..count]))
    {
      RoundTrip(FrameBatch(config.session, config.api, first, intervals[..count]));
      var r := WireEncoders.EncodeFrameBatch(config.session, config.api, first, intervals[..count], buffer);
      length := if r.Ok? then Some(r.value) else None;
    }

    method FlushBatch(now: nat, delivered: bool)
      requires Valid() && Contiguous(Value())
      modifies this, buffer
      ensures lastPresent == old(lastPresent) && nextSequence == old(nextSequence)
      ensures Valid() && Value() == Flush(old(Value()), now, delivered)
    {
      if count == 0 {
        return;
      }
      if !connected {
        count := 0;
        return;
      }
      var length := EncodeBuffered();
      if length.Some? && delivered {
        DatagramsGrow(config, sent, Batch(first, intervals[..count]));
        sent := sent + [Batch(first, intervals[..count])];
        wire := wire + [buffer[..length.value]];
      }
      count := 0;
      lastFlush := now;
    }

    method CloseAtGap(sequence: u64, now: nat, delivered: bool)
      requires Valid() && BufferOk(Value())
      modifies this, buffer
      ensures lastPresent == old(lastPresent) && nextSequence == old(nextSequence)
      ensures Valid() && BufferOk(Value())
      ensures Value() == FlushAtGap(old(Value()), sequence, now, delivered)
    {
      if previous.Some? && sequence != (if previous.value == U64_MAX then U64_MAX else previous.value + 1) {
        FlushKeeps(Value(), now, delivered);
        FlushBatch(now, delivered);
      }
    }

    method CloseIfDue(now: nat, delivered: bool)
      requires Valid() && Contiguous(Value())
      modifies this, buffer
      ensures lastPresent == old(lastPresent) && nextSequence == old(nextSequence)
      ensures Valid()
      ensures Value() == FlushIfDue(config, old(Value()), now, delivered)
    {
      if count == BATCH_INTERVALS
         || (config.latency.Some? && (if now < lastFlush then 0 else now - lastFlush) >= config.latency.value)
      {
        FlushBatch(now, delivered);
      }
    }

    method AppendInterval(sequence: u64, interval: u64)
      requires Valid() && count < BATCH_INTERVALS
      modifies this, intervals
      ensures lastPresent == old(lastPresent) && nextSequence == old(nextSequence)
      ensures Valid() && Value() == Append(old(Value()), sequence, interval)
    {
      if count == 0 {
        first := sequence;
      }
      intervals[count] := interval;
      count := count + 1;
      previous := Some(sequence);
    }

    method PushConnected(sequence: u64, interval: u64, now: nat, delivered: (bool, bool))
      requires Valid() && BufferOk(Value()) && connected && interval > 0 && sequence < U64_MAX
      modifies this, intervals, buffer
      ensures lastPresent == old(lastPresent) && nextSequence == old(nextSequence)
      ensures Valid() && Value() == Push(config, old(Value()), sequence, interval, now, delivered)
    {
      FlushAtGapKeeps(Value(), sequence, now, delivered.0);
      CloseAtGap(sequence, now, delivered.0);
      AppendKeeps(Value(), sequence, interval);
      AppendInterval(sequence, interval);
      CloseIfDue(now, delivered.1);
    }

    method PushInterval(sequence: u64, interval: u64, now: nat, delivered: (bool, bool))
      requires Valid() && BufferOk(Value()) && interval > 0 && sequence < U64_MAX
      modifies this, intervals, buffer
      ensures lastPresent == old(lastPresent) && nextSequence == old(nextSequence)
      ensures Valid() && BufferOk(Value()) && Value() == Push(config, old(Value()), sequence, interval, now, delivered)
    {
      if connected {
        PushKeeps(config, Value(), sequence, interval, now, delivered);
        PushConnected(sequence, interval, now, delivered);
      }
    }

    /** One intercepted present. */
    method RecordPresentAt(e: Present)
      requires Valid() && BufferOk(Value()) && nextSequence < U64_MAX
      modifies this, intervals, buffer
      ensures Valid() && BufferOk(Value()) && Here() == RecordPresent(config, old(Here()), e)
    {
      var before := lastPresent;
      lastPresent := e.now;
      if before == 0 || e.now <= before {
        return;
      }
      var sequence := nextSequence;
      nextSequence := nextSequence + 1;
      if e.busy {
        return;
      }
      PushInterval(sequence, e.now - before, e.now, e.delivered);
    }
  }
}

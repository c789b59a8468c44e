/** When buffered frame intervals leave: after 64 of them, at a gap, and for OpenGL within 250 ms. */
module BatchLatency {
  import opened Wrappers
  import opened Messages
  import opened Wire
  import opened Batching

  function Sum(intervals: seq<u64>): nat {
    if intervals == [] then 0 else Sum(intervals[..|intervals| - 1]) + intervals[|intervals| - 1]
  }

  lemma SumAppends(intervals: seq<u64>, interval: u64)
    ensures Sum(intervals + [interval]) == Sum(intervals) + interval
  {
    assert (intervals + [interval])[..|intervals|] == intervals;
  }

  // ---- One push ----

  predicate Follows(p: Producer, sequence: u64) { p.previous.None? || sequence == p.previous.value + 1 }

  /** The buffer as this push fills it: on its own after a gap. */
  function Filled(p: Producer, sequence: u64, interval: u64): seq<u64> {
    (if Follows(p, sequence) then p.intervals else []) + [interval]
  }

  /** A push sends its batch exactly when that is full or, for OpenGL, when 250 ms have passed since the
      last flush; otherwise it only buffers. A gap sends what was buffered before. */
  lemma PushSendsExactly(c: Config, p: Producer, sequence: u64, interval: u64, now: nat)
    requires c == VulkanConfig(c.session) || c == OpenGlConfig(c.session)
    requires BufferOk(p) && p.connected && interval > 0
    ensures var p' := Push(c, p, sequence, interval, now, (true, true));
            var flushed := !Follows(p, sequence) && p.intervals != [];
            var first := if flushed then [Batch(p.first, p.intervals)] else [];
            var since := if flushed then now else p.lastFlush;
            var batch := Filled(p, sequence, interval);
            var leaves := |batch| == 64 || (c.api == OpenGl && since + 250_000_000 <= now);
            && p'.intervals == (if leaves then [] else batch)
            && p'.lastFlush == (if leaves then now else since)
            && |p'.sent| == |p.sent| + |first| + (if leaves then 1 else 0)
            && (leaves ==> p'.sent[|p'.sent| - 1].intervals == batch)
  {
  }

  // ---- Runs ----

  /** The monotonic clock never goes back. */
  predicate Monotonic(last: u64, presents: seq<Present>) {
    && (forall i :: 0 <= i < |presents| ==> last <= presents[i].now)
    && forall i, j :: 0 <= i < j < |presents| ==> presents[i].now <= presents[j].now
  }

  /** The clock readings of the buffered frames span less than the latency. */
  predicate Young(r: Recorder) {
    var p := r.producer;
    && p.lastFlush <= r.last && (p.previous.Some? ==> p.previous.value < r.next)
    && (p.intervals != [] ==>
          && r.last > 0 && Sum(p.intervals[1..]) < 250_000_000
          && (p.previous == Some(r.next - 1) ==>
                p.lastFlush + Sum(p.intervals[1..]) <= r.last < p.lastFlush + 250_000_000))
  }

  lemma PushStaysYoung(session: seq<byte>, r: Recorder, e: Present)
    requires Young(r) && BufferOk(r.producer) && r.producer.connected && r.next < U64_MAX
    requires Pushes(r, e)
    ensures Young(RecordPresent(OpenGlConfig(session), r, e))
  {
    var p, interval := r.producer, e.now - r.last;
    if Follows(p, r.next) && p.intervals != [] {
      assert (p.intervals + [interval])[1..] == p.intervals[1..] + [interval];
      SumAppends(p.intervals[1..], interval);
    } else {
      assert [interval][1..] == [] && [] + [interval] == [interval];
    }
  }

  lemma {:induction false} RecordStaysYoung(session: seq<byte>, r: Recorder, presents: seq<Present>)
    requires Young(r) && BufferOk(r.producer) && r.producer.connected && r.next + |presents| <= U64_MAX
    requires Monotonic(r.last, presents)
    ensures var r' := Record(OpenGlConfig(session), r, presents);
            Young(r') && BufferOk(r'.producer) && r'.producer.connected
            && r'.last == (if presents == [] then r.last else presents[|presents| - 1].now)
    decreases |presents|
  {
    if presents != [] {
      var n := |presents| - 1;
      RecordStaysYoung(session, r, presents[..n]);
      var before := Record(OpenGlConfig(session), r, presents[..n]);
      if Pushes(before, presents[n]) {
        PushStaysYoung(session, before, presents[n]);
        PresentPushes(OpenGlConfig(session), before, presents[n]);
      }
    }
  }

  /** In every OpenGL run the presents whose intervals still wait in the buffer lie within 250 ms of each
      other, and there are fewer than 64 of them, whatever sends fail and locks are busy. */
  lemma OpenGlFramesWaitBriefly(session: seq<byte>, presents: seq<Present>)
    requires |presents| <= U64_MAX && Monotonic(0, presents)
    ensures var p := Record(OpenGlConfig(session), Recorder(0, 0, Start(true)), presents).producer;
            && |p.intervals| < 64
            && (p.intervals != [] ==> Sum(p.intervals[1..]) < 250_000_000)
  {
    RecordStaysYoung(session, Recorder(0, 0, Start(true)), presents);
  }

  /** After every present of every OpenGL run that reaches the producer, on any clock and whatever was
      delivered: a batch that still waits is younger than 250 ms, counted from the last flush, and a present
      that takes it to that age has sent it. */
  lemma WaitingBatchIsYoung(session: seq<byte>, presents: seq<Present>)
    requires 0 < |presents| <= U64_MAX
    requires Pushes(Record(OpenGlConfig(session), Recorder(0, 0, Start(true)), presents[..|presents| - 1]),
                    presents[|presents| - 1])
    ensures var p := Record(OpenGlConfig(session), Recorder(0, 0, Start(true)), presents).producer;
            var now := presents[|presents| - 1].now;
            if p.intervals != [] then now < p.lastFlush + 250_000_000 else p.lastFlush == now
  {
    var n := |presents| - 1;
    LossyRecord(OpenGlConfig(session), Recorder(0, 0, Start(true)), presents[..n]);
    PushLeavesYoung(session, Record(OpenGlConfig(session), Recorder(0, 0, Start(true)), presents[..n]), presents[n]);
  }

  lemma PushLeavesYoung(session: seq<byte>, r: Recorder, e: Present)
    requires r.next < U64_MAX && BufferOk(r.producer) && r.producer.connected && Pushes(r, e)
    ensures var p := RecordPresent(OpenGlConfig(session), r, e).producer;
            if p.intervals != [] then e.now < p.lastFlush + 250_000_000 else p.lastFlush == e.now
  {
    PresentPushes(OpenGlConfig(session), r, e);
  }

  /** Every batch sent so far is full. */
  predicate FullBatches(p: Producer) { forall i :: 0 <= i < |p.sent| ==> |p.sent[i].intervals| == 64 }

  lemma {:induction false} VulkanRecordFills(session: seq<byte>, r: Recorder, presents: seq<Present>)
    requires BufferOk(r.producer) && r.producer.connected && r.next + |presents| <= U64_MAX && FullBatches(r.producer)
    requires r.producer.previous.None? || r.producer.previous.value + 1 == r.next
    requires forall i :: 0 <= i < |presents| ==> !presents[i].busy
    ensures var r' := Record(VulkanConfig(session), r, presents);
            && BufferOk(r'.producer) && r'.producer.connected && FullBatches(r'.producer)
            && (r'.producer.previous.None? || r'.producer.previous.value + 1 == r'.next)
    decreases |presents|
  {
    if presents != [] {
      var n := |presents| - 1;
      VulkanRecordFills(session, r, presents[..n]);
      var before := Record(VulkanConfig(session), r, presents[..n]);
      if Pushes(before, presents[n]) {
        PresentPushes(VulkanConfig(session), before, presents[n]);
      }
    }
  }

  /** A Vulkan run without busy locks sends nothing but full batches of 64, whatever the clock does. */
  lemma VulkanBatchesAreFull(session: seq<byte>, presents: seq<Present>)
    requires |presents| <= U64_MAX && forall i :: 0 <= i < |presents| ==> !presents[i].busy
    ensures FullBatches(Record(VulkanConfig(session), Recorder(0, 0, Start(true)), presents).producer)
  {
    VulkanRecordFills(session, Recorder(0, 0, Start(true)), presents);
  }
}

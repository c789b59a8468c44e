/** OpenGL export pools and the capture step that drives them. */
module GlPools {
  import opened Wrappers
  import opened Messages
  import opened GlSlots
  import Cadence

  const SLOT_COUNT: nat := REPLAY_PRODUCER_CONTEXT_COUNT + 1
  const NVIDIA_SLOT_COUNT: nat := 8
  const MAX_POOLS: nat := 4

  /** `id` stands for the pool's flip surface. */
  datatype Pool = Pool(
    id: nat,
    context: nat,
    source: SourceCandidate,
    slots: seq<Slot>,
    nextCapture: nat,
    exports: nat,
    drops: nat)

  datatype State = State(pools: seq<Pool>, lastExport: nat, announced: Option<SourceCandidate>, nextSequence: nat)

  datatype Gl = Gl(s: State, w: GlWorld)

  const Initial: Gl := Gl(State([], 0, None, 1), GlWorld({}, {}, {}, {}, map[], {}, {}, map[], [], map[], {}))

  // ---- Passes over the slots of one pool ----

  function Lost(before: Slot, after: Slot): nat { if before.source.Some? && after.source.None? then 1 else 0 }

  /** Poll every slot from k on; a copy that fails in the bridge counts as a drop. */
  function PollSlots(w: GlWorld, slots: seq<Slot>, polls: seq<Poll>, k: nat, drops: nat)
    : (r: (GlWorld, seq<Slot>, nat))
    requires k <= |slots| == |polls|
    ensures |r.1| == |slots|
    decreases |slots| - k
  {
    if k == |slots| then (w, slots, drops)
    else
      var (w1, s1, _) := CopyReady(w, slots[k], polls[k]);
      PollSlots(w1, slots[k := s1], polls, k + 1, drops + Lost(slots[k], s1))
  }

  /** Drain a stale pool's slots: finished copies are discarded without publication. */
  function RetireSlots(w: GlWorld, slots: seq<Slot>, polls: seq<Poll>, k: nat, drops: nat)
    : (r: (GlWorld, seq<Slot>, nat))
    requires k <= |slots| == |polls|
    ensures |r.1| == |slots|
    decreases |slots| - k
  {
    if k == |slots| then (w, slots, drops)
    else
      var s := slots[k];
      var (w1, s1, _) := if s.sync != 0 || s.copyPending then CopyReady(w, s, polls[k]) else (w, s, false);
      var (s2, dropped) := DiscardRetiredCopy(s1);
      RetireSlots(w1, slots[k := s2], polls, k + 1, if dropped then drops + 1 else drops)
  }

  /** Check the slots in order and stop at the first that is not completed. */
  function CompleteSlots(w: GlWorld, slots: seq<Slot>, polls: seq<Poll>, k: nat): (r: (GlWorld, seq<Slot>, bool))
    requires k <= |slots| == |polls|
    ensures |r.1| == |slots|
    decreases |slots| - k
  {
    if k == |slots| then (w, slots, true)
    else
      var (w1, s1, done) := Completed(w, slots[k], polls[k]);
      if done then CompleteSlots(w1, slots[k := s1], polls, k + 1) else (w1, slots[k := s1], false)
  }

  function ReleaseSlots(w: GlWorld, slots: seq<Slot>): GlWorld
    decreases slots
  {
    if slots == [] then w else ReleaseSlots(DeleteSlot(w, slots[0]), slots[1..])
  }

  // ---- Publication ----

  /** The slot with the smallest timestamp among those that carry a copy; ties by index. */
  function OldestPendingSlot(slots: seq<Slot>): (r: Option<nat>)
    ensures r.None? <==> forall j :: 0 <= j < |slots| ==> slots[j].source.None?
    ensures r.Some? ==> r.value < |slots| && slots[r.value].source.Some?
    ensures r.Some? ==> forall j :: 0 <= j < |slots| && slots[j].source.Some? ==>
                          slots[r.value].timestamp <= slots[j].timestamp
  {
    if slots == [] then None
    else
      var n := |slots| - 1;
      var before := OldestPendingSlot(slots[..n]);
      if slots[n].source.Some? && (before.None? || slots[n].timestamp < slots[before.value].timestamp)
      then Some(n) else before
  }

  /** Progress of one publication pass. */
  datatype Pass = Pass(w: GlWorld, slots: seq<Slot>, exports: nat, drops: nat, next: nat)

  /** Answers used while publishing: a poll, whether the descriptor could be duplicated, and
      whether the announcement was sent. */
  datatype Attempt = Attempt(poll: Poll, duplicated: bool, sent: bool)

  function PublishSlot(p: Pass, pool: nat, ordered: bool, k: nat, a: Attempt): Pass
    requires k < |p.slots|
  {
    var s := p.slots[k];
    var cleared := s.(source := None, timestamp := 0);
    if !a.duplicated then p.(slots := p.slots[k := cleared], drops := p.drops + 1)
    else
      var w1 := Announce(p.w, pool, ordered, s, p.next, a.sent);
      if a.sent then Pass(w1, p.slots[k := cleared.(exportSequence := Some(p.next))], p.exports + 1, p.drops, p.next + 1)
      else Pass(w1, p.slots[k := cleared], p.exports, p.drops + 1, p.next + 1)
  }

  /** NVIDIA: publish the oldest copy while it is finished; never let a newer one overtake. */
  function PublishOldest(p: Pass, pool: nat, attempts: seq<Attempt>): Pass
    decreases attempts
  {
    var oldest := OldestPendingSlot(p.slots);
    if attempts == [] || oldest.None? then p
    else
      var k := oldest.value;
      var (w1, s1, ready) := CopyReady(p.w, p.slots[k], attempts[0].poll);
      var p1 := p.(w := w1, slots := p.slots[k := s1]);
      if !ready then p1 else PublishOldest(PublishSlot(p1, pool, true, k, attempts[0]), pool, attempts[1..])
  }

  /** Other vendors: publish finished copies in slot order. */
  function PublishByIndex(p: Pass, pool: nat, attempts: seq<Attempt>, k: nat): Pass
    requires k <= |p.slots| == |attempts|
    decreases |p.slots| - k
  {
    if k == |p.slots| then p
    else
      var (w1, s1, ready) := CopyReady(p.w, p.slots[k], attempts[k].poll);
      var p1 := p.(w := w1, slots := p.slots[k := s1]);
      PublishByIndex(if ready then PublishSlot(p1, pool, false, k, attempts[k]) else p1, pool, attempts, k + 1)
  }

  /** The first slot that lost its storage. */
  function FirstUnallocated(slots: seq<Slot>, k: nat): (r: Option<nat>)
    requires k <= |slots|
    ensures r.Some? ==> k <= r.value < |slots| && !Allocated(slots[r.value])
    decreases |slots| - k
  {
    if k == |slots| then None else if !Allocated(slots[k]) then Some(k) else FirstUnallocated(slots, k + 1)
  }

  /** Fresh storage from the driver. */
  predicate FreshSlot(s: Slot, w: GlWorld, nvidia: bool) {
    && Allocated(s) && s.memory !in w.memories
    && s == IDLE.(memory := s.memory, buffer := s.buffer, fd := s.fd, native := s.native, semaphores := nvidia)
    && (nvidia <==> s.native != 0)
  }

  function Refill(w: GlWorld, slots: seq<Slot>, replacement: Option<Slot>): (GlWorld, seq<Slot>) {
    var missing := FirstUnallocated(slots, 0);
    if missing.None? || replacement.None? then (w, slots)
    else (w.(memories := w.memories + {replacement.value.memory}), slots[missing.value := replacement.value])
  }

  /** All answers one publication pass of a pool needs. */
  datatype PublishCalls = PublishCalls(replacement: Option<Slot>, polls: seq<Poll>, attempts: seq<Attempt>)

  predicate PublishCallsFit(pool: Pool, w: GlWorld, calls: PublishCalls) {
    && |calls.polls| == |calls.attempts| == |pool.slots|
    && (calls.replacement.Some? ==> FreshSlot(calls.replacement.value, w, IsNvidia(pool.source)))
  }

  function PublishReady(w: GlWorld, pool: Pool, next: nat, calls: PublishCalls): (GlWorld, Pool, nat)
    requires PublishCallsFit(pool, w, calls)
  {
    if IsNvidia(pool.source) then
      var (w1, filled) := Refill(w, pool.slots, calls.replacement);
      var (w2, polled, drops) := PollSlots(w1, filled, calls.polls, 0, pool.drops);
      var p := PublishOldest(Pass(w2, polled, pool.exports, drops, next), pool.id, calls.attempts);
      (p.w, pool.(slots := p.slots, exports := p.exports, drops := p.drops), p.next)
    else
      var p := PublishByIndex(Pass(w, pool.slots, pool.exports, pool.drops, next), pool.id, calls.attempts, 0);
      (p.w, pool.(slots := p.slots, exports := p.exports, drops := p.drops), p.next)
  }

  // ---- All pools ----

  predicate Stale(pool: Pool, context: nat, source: SourceCandidate) {
    pool.context == context && pool.source != source
  }

  predicate Active(pool: Pool, context: nat, source: SourceCandidate) {
    pool.context == context && pool.source == source
  }

  datatype RetireCalls = RetireCalls(drain: seq<Poll>, check: seq<Poll>)

  /** What becomes of one pool: untouched unless stale, then drained, and gone once finished. */
  function RetireOne(w: GlWorld, pool: Pool, context: nat, source: SourceCandidate, answers: RetireCalls)
    : (GlWorld, seq<Pool>)
    requires |answers.drain| == |answers.check| == |pool.slots|
  {
    if !Stale(pool, context, source) then (w, [pool])
    else
      var (w1, drained, drops) := RetireSlots(w, pool.slots, answers.drain, 0, pool.drops);
      var (w2, checked, done) := CompleteSlots(w1, drained, answers.check, 0);
      if done then (ReleaseSlots(w2, checked), []) else (w2, [pool.(slots := checked, drops := drops)])
  }

  /** Drain the stale pools of this context and delete those that are entirely finished. */
  function RetireStale(w: GlWorld, pools: seq<Pool>, context: nat, source: SourceCandidate, calls: seq<RetireCalls>)
    : (GlWorld, seq<Pool>)
    requires RetireCallsFit(pools, calls)
    decreases pools
  {
    if pools == [] then (w, [])
    else
      var (w1, kept) := RetireOne(w, pools[0], context, source, calls[0]);
      var (w2, rest) := RetireStale(w1, pools[1..], context, source, calls[1..]);
      (w2, kept + rest)
  }

  predicate RetireCallsFit(pools: seq<Pool>, calls: seq<RetireCalls>) {
    && |calls| == |pools|
    && forall i :: 0 <= i < |pools| ==> |calls[i].drain| == |calls[i].check| == |pools[i].slots|
  }

  /** Publish from every pool of the active generation. */
  function PublishActive(w: GlWorld, pools: seq<Pool>, context: nat, source: SourceCandidate, next: nat,
                         calls: seq<PublishCalls>): (GlWorld, seq<Pool>, nat)
    requires |calls| == |pools| && PublishAllFit(w, pools, context, source, next, calls)
    decreases pools
  {
    if pools == [] then (w, [], next)
    else
      var (w1, head, next1) := if Active(pools[0], context, source) then PublishReady(w, pools[0], next, calls[0])
                               else (w, pools[0], next);
      var (w2, rest, next2) := PublishActive(w1, pools[1..], context, source, next1, calls[1..]);
      (w2, [head] + rest, next2)
  }

  predicate PublishAllFit(w: GlWorld, pools: seq<Pool>, context: nat, source: SourceCandidate, next: nat,
                          calls: seq<PublishCalls>)
    requires |calls| == |pools|
    decreases pools
  {
    pools == [] ||
    if Active(pools[0], context, source) then
      PublishCallsFit(pools[0], w, calls[0])
      && var (w1, head, next1) := PublishReady(w, pools[0], next, calls[0]);
         PublishAllFit(w1, pools[1..], context, source, next1, calls[1..])
    else PublishAllFit(w, pools[1..], context, source, next, calls[1..])
  }

  function FindActive(pools: seq<Pool>, context: nat, source: SourceCandidate): (r: Option<nat>)
    ensures r.Some? ==> r.value < |pools| && Active(pools[r.value], context, source)
    ensures r.None? ==> forall i :: 0 <= i < |pools| ==> !Active(pools[i], context, source)
  {
    if pools == [] then None
    else if Active(pools[0], context, source) then Some(0)
    else
      var rest := FindActive(pools[1..], context, source);
      if rest.None? then None else Some(rest.value + 1)
  }

  function FirstAvailable(slots: seq<Slot>): (r: Option<nat>)
    ensures r.Some? ==> r.value < |slots| && Available(slots[r.value])
    ensures r.None? ==> forall i :: 0 <= i < |slots| ==> !Available(slots[i])
  {
    if slots == [] then None
    else if Available(slots[0]) then Some(0)
    else
      var rest := FirstAvailable(slots[1..]);
      if rest.None? then None else Some(rest.value + 1)
  }

  /** Fresh storage for a whole pool. */
  predicate FreshPool(pool: Pool, w: GlWorld, context: nat, source: SourceCandidate) {
    && pool == Pool(pool.id, context, source, pool.slots, 0, 0, 0)
    && |pool.slots| == (if IsNvidia(source) then NVIDIA_SLOT_COUNT else SLOT_COUNT)
    && pool.id !in w.newest
    && (forall i :: 0 <= i < |pool.slots| ==> FreshSlot(pool.slots[i], w, IsNvidia(source)))
    && (forall i, j :: 0 <= i < j < |pool.slots| ==> pool.slots[i].memory != pool.slots[j].memory)
  }

  function Memories(slots: seq<Slot>): set<nat> { set i | 0 <= i < |slots| :: slots[i].memory }

  /** Driver, clock and socket answers of one intercepted presentation. */
  datatype CaptureCalls = CaptureCalls(
    now: nat,
    variable: bool,
    retire: seq<RetireCalls>,
    publish: seq<PublishCalls>,
    created: Option<Pool>,
    rearm: Completion,
    outcome: CopyOutcome)

  /** The pool index to capture into, creating a pool within the process-wide budget. */
  function EnsurePool(w: GlWorld, pools: seq<Pool>, context: nat, source: SourceCandidate, created: Option<Pool>)
    : (r: (GlWorld, seq<Pool>, Option<nat>))
    ensures r.2.Some? ==> r.2.value < |r.1|
  {
    var found := FindActive(pools, context, source);
    if found.Some? then (w, pools, found)
    else if |pools| >= MAX_POOLS || created.None? then (w, pools, None)
    else (w.(memories := w.memories + Memories(created.value.slots),
             newest := w.newest[created.value.id := 0],
             charges := w.charges[created.value.id := []]), pools + [created.value], Some(|pools|))
  }

  /** Charge the cadence and start a copy into the first available slot. */
  function StartDue(g: Gl, k: nat, source: SourceCandidate, calls: CaptureCalls): Gl
    requires k < |g.s.pools| && source.targetFramesPerSecond > 0
  {
    var pool := g.s.pools[k];
    if !Cadence.OpenGlCaptureDue(calls.variable, source.width, source.height, pool.nextCapture, calls.now) then g
    else
      var (presentation, interval) := Cadence.OpenGlCaptureTiming(calls.variable, source, pool.nextCapture, calls.now);
      var charged := pool.(nextCapture := Cadence.AdvanceCaptureDeadline(calls.variable, pool.nextCapture, calls.now, interval));
      var w0 := Charge(g.w, pool.id, presentation);
      var free := FirstAvailable(pool.slots);
      if free.None? then Gl(g.s.(pools := g.s.pools[k := charged.(drops := pool.drops + 1)]), w0)
      else
        var timestamp := Cadence.MonotonicExportTimestamp(g.s.lastExport, presentation);
        var (w1, slot, started) := StartCopy(w0, pool.slots[free.value], source, timestamp, calls.rearm, calls.outcome);
        var used := charged.(slots := pool.slots[free.value := slot], drops := if started then pool.drops else pool.drops + 1);
        Gl(g.s.(pools := g.s.pools[k := used], lastExport := Cadence.Max(g.s.lastExport, timestamp)), w1)
  }

  predicate CaptureFit(g: Gl, context: nat, source: SourceCandidate, calls: CaptureCalls) {
    && source.targetFramesPerSecond > 0
    && RetireCallsFit(g.s.pools, calls.retire)
    && var (w1, kept) := RetireStale(g.w, g.s.pools, context, source, calls.retire);
       && |calls.publish| == |kept|
       && PublishAllFit(w1, kept, context, source, g.s.nextSequence, calls.publish)
       && var (w2, published, next) := PublishActive(w1, kept, context, source, g.s.nextSequence, calls.publish);
          calls.created.Some? ==> FreshPool(calls.created.value, w2, context, source)
  }

  /** One intercepted presentation of a context. */
  function Capture(g: Gl, context: nat, source: SourceCandidate, calls: CaptureCalls): Gl
    requires CaptureFit(g, context, source, calls)
  {
    var (w1, kept) := RetireStale(g.w, g.s.pools, context, source, calls.retire);
    var (w2, published, next) := PublishActive(w1, kept, context, source, g.s.nextSequence, calls.publish);
    var (w3, pools, index) := EnsurePool(w2, published, context, source, calls.created);
    var ready := Gl(g.s.(pools := pools, nextSequence := next), w3);
    if index.None? then ready
    else
      var announced := ready.(s := ready.s.(announced := Some(source)));
      StartDue(announced, index.value, source, calls)
  }

  /** One daemon acknowledgement; false while the lock is busy. */
  function Release(g: Gl, sequence: nat, busy: bool): (Gl, bool) {
    if busy then (g, false)
    else
      var pools := seq(|g.s.pools|, p requires 0 <= p < |g.s.pools| => ReleasePool(g.s.pools[p], sequence));
      (Gl(g.s.(pools := pools), MarkApplied(g.w, sequence)), true)
  }

  function MarkApplied(w: GlWorld, sequence: nat): GlWorld {
    if sequence in w.released then w.(applied := w.applied + {sequence}) else w
  }

  function ReleasePool(pool: Pool, sequence: nat): Pool {
    pool.(slots := seq(|pool.slots|, i requires 0 <= i < |pool.slots| => ReleaseExport(pool.slots[i], sequence)))
  }

  /** Forget the pools of a context that is being destroyed. */
  function WithoutContext(pools: seq<Pool>, context: nat): (r: seq<Pool>)
    ensures |r| <= |pools|
  {
    if pools == [] then []
    else if pools[0].context == context then WithoutContext(pools[1..], context)
    else [pools[0]] + WithoutContext(pools[1..], context)
  }
}

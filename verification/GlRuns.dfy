/** Runs of the OpenGL producer: in every reachable state each slot is in one phase, copies
    never enter leased or busy storage, stale pools are deleted only when finished, and
    NVIDIA pools publish in timestamp order. */
module GlRuns {
  import opened Wrappers
  import opened Messages
  import opened GlSlots
  import opened GlPools
  import opened GlInvariant
  import opened GlPublication
  import opened GlSafety
  import Cadence

  // ---- Steps ----

  datatype Event =
    | Presented(context: nat, source: SourceCandidate, busy: bool, calls: CaptureCalls)
    | ReleaseReceived(sequence: nat, busy: bool)
    | ContextDestroyed(context: nat)
    | SessionFinished(busy: bool)
    | GpuCompletes(memory: nat)
    | BridgeCompletes(memory: nat)
    | DaemonReleases(sequence: nat)

  function Present(g: Gl, e: Event): Gl
    requires e.Presented? && (e.busy || CaptureFit(g, e.context, e.source, e.calls))
  {
    if e.context == 0 || e.busy then g else Capture(g, e.context, e.source, e.calls)
  }

  function Destroy(g: Gl, context: nat): Gl {
    if context == 0 then g else g.(s := g.s.(pools := WithoutContext(g.s.pools, context)))
  }

  function FinishSession(g: Gl, busy: bool): Gl {
    if busy then g else g.(s := g.s.(pools := [], announced := None))
  }

  /** Drivers return fresh storage, clocks stay below the end of 64-bit time, and the daemon
      returns a token only after it dropped the lease; tokens may be stale or repeated. */
  predicate Allowed(g: Gl, e: Event) {
    match e
    case Presented(context, source, busy, calls) =>
      (busy || CaptureFit(g, context, source, calls)) && g.s.lastExport < U64_MAX
    case ReleaseReceived(sequence, _) => sequence !in g.w.leases
    case ContextDestroyed(_) => true
    case SessionFinished(_) => true
    case GpuCompletes(memory) => memory in g.w.work
    case BridgeCompletes(memory) => memory in g.w.bridge
    case DaemonReleases(sequence) => sequence in g.w.leases
  }

  function Step(g: Gl, e: Event): Gl
    requires Allowed(g, e)
  {
    match e
    case Presented(_, _, _, _) => Present(g, e)
    case ReleaseReceived(sequence, busy) => Release(g, sequence, busy).0
    case ContextDestroyed(context) => Destroy(g, context)
    case SessionFinished(busy) => FinishSession(g, busy)
    case GpuCompletes(memory) => g.(w := Finish(g.w, memory))
    case BridgeCompletes(memory) => g.(w := FinishBridge(g.w, memory))
    case DaemonReleases(sequence) => g.(w := Acknowledge(g.w, sequence))
  }

  predicate AllAllowed(g: Gl, events: seq<Event>)
    decreases |events|
  {
    events == [] || (Allowed(g, events[0]) && AllAllowed(Step(g, events[0]), events[1..]))
  }

  function Run(g: Gl, events: seq<Event>): Gl
    requires AllAllowed(g, events)
    decreases |events|
  {
    if events == [] then g else Run(Step(g, events[0]), events[1..])
  }

  predicate Inv(g: Gl) {
    && PoolsFit(g.s.pools, g.w, g.s.nextSequence, g.s.lastExport)
    && |g.s.pools| <= MAX_POOLS
  }

  // ---- All pools of the active generation publish ----

  function AllOwned(pools: seq<Pool>): set<nat> {
    if pools == [] then {} else Owned(pools[0].slots) + AllOwned(pools[1..])
  }

  function Ids(pools: seq<Pool>): set<nat> {
    if pools == [] then {} else {pools[0].id} + Ids(pools[1..])
  }

  lemma {:induction false} ApartFromAll(pool: Pool, pools: seq<Pool>)
    requires ApartFrom(pool, pools)
    ensures Owned(pool.slots) !! AllOwned(pools) && pool.id !in Ids(pools)
  {
    if pools != [] {
      assert pool.id != pools[0].id && Owned(pool.slots) !! Owned(pools[0].slots);
      ApartFromAll(pool, pools[1..]);
    }
  }

  lemma {:induction false} AllOwnedInMemories(pools: seq<Pool>, w: GlWorld, next: nat, lastExport: nat)
    requires PoolsFit(pools, w, next, lastExport)
    ensures AllOwned(pools) <= w.memories
  {
    if pools != [] {
      TailFits(pools, w, next, lastExport);
      AllOwnedInMemories(pools[1..], w, next, lastExport);
      assert PoolFits(pools[0], w, next, lastExport);
      OwnedInMemories(pools[0].slots, w, next);
    }
  }

  /** Same pool, whose storage is its own or was fresh. */
  predicate Continues(pool: Pool, pool': Pool, w: GlWorld) {
    && pool'.id == pool.id && pool'.context == pool.context && pool'.source == pool.source
    && pool'.nextCapture == pool.nextCapture
    && |pool'.slots| == |pool.slots|
    && forall x :: x in Owned(pool'.slots) ==> x in Owned(pool.slots) || x !in w.memories
  }

  predicate AllContinue(pools: seq<Pool>, pools': seq<Pool>, w: GlWorld) {
    && |pools'| == |pools|
    && forall p :: 0 <= p < |pools| ==> Continues(pools[p], pools'[p], w)
  }

  /** The other pools do not notice that the first one published. */
  lemma TailUntouched(w: GlWorld, w1: GlWorld, pools: seq<Pool>, next: nat, next1: nat, lastExport: nat)
    requires pools != [] && PoolsFit(pools, w, next, lastExport) && next <= next1 && WorldOk(w1, next1)
    requires Published(w, w1, Owned(pools[0].slots) + (w1.memories - w.memories), {pools[0].id})
    ensures PoolsFit(pools[1..], w1, next1, lastExport)
  {
    forall p | 0 <= p < |pools[1..]|
      ensures PoolFits(pools[1..][p], w1, next1, lastExport)
    {
      assert PoolFits(pools[p + 1], w, next, lastExport);
      OwnedInMemories(pools[p + 1].slots, w, next);
      UntouchedPoolFits(w, w1, Owned(pools[0].slots) + (w1.memories - w.memories), {pools[0].id}, pools[p + 1],
                        next, next1, lastExport);
    }
  }

  /** Putting the published head back in front of the published tail. */
  lemma HeadRejoins(w: GlWorld, w1: GlWorld, w2: GlWorld, pools: seq<Pool>, head: Pool, rest: seq<Pool>,
                    next: nat, next1: nat, next2: nat, lastExport: nat)
    requires pools != [] && PoolsFit(pools, w, next, lastExport) && next1 <= next2
    requires Continues(pools[0], head, w) && PoolFits(head, w1, next1, lastExport)
    requires w.memories <= w1.memories && PoolsFit(pools[1..], w1, next1, lastExport)
    requires Published(w1, w2, AllOwned(pools[1..]) + (w2.memories - w1.memories), Ids(pools[1..]))
    requires PoolsFit(rest, w2, next2, lastExport) && AllContinue(pools[1..], rest, w1)
    ensures PoolsFit([head] + rest, w2, next2, lastExport)
    ensures AllContinue(pools, [head] + rest, w)
  {
    var tail := pools[1..];
    OwnedInMemories(head.slots, w1, next1);
    forall p | 0 <= p < |tail|
      ensures Owned(tail[p].slots) <= w.memories
      ensures head.id != tail[p].id && Owned(head.slots) !! Owned(tail[p].slots)
    {
      assert PoolFits(pools[p + 1], w, next, lastExport);
      OwnedInMemories(pools[p + 1].slots, w, next);
      assert Owned(pools[0].slots) !! Owned(pools[p + 1].slots);
    }
    ApartFromAll(head, tail);
    UntouchedPoolFits(w1, w2, AllOwned(tail) + (w2.memories - w1.memories), Ids(tail), head, next1, next2, lastExport);
    forall p | 0 <= p < |rest|
      ensures head.id != rest[p].id && Owned(head.slots) !! Owned(rest[p].slots)
      ensures Continues(pools[p + 1], rest[p], w)
    {
      assert Continues(tail[p], rest[p], w1);
    }
    ConsFits(head, rest, w2, next2, lastExport);
    forall p | 0 <= p < |pools|
      ensures Continues(pools[p], ([head] + rest)[p], w)
    {
      if p > 0 { assert ([head] + rest)[p] == rest[p - 1]; }
    }
  }

  lemma {:induction false} PublishActiveFits(w: GlWorld, pools: seq<Pool>, context: nat, source: SourceCandidate, next: nat,
                                             calls: seq<PublishCalls>, lastExport: nat)
    requires |calls| == |pools| && PublishAllFit(w, pools, context, source, next, calls)
    requires PoolsFit(pools, w, next, lastExport)
    ensures var (w', pools', next') := PublishActive(w, pools, context, source, next, calls);
            && PoolsFit(pools', w', next', lastExport) && next <= next' && AllContinue(pools, pools', w)
            && w'.charges == w.charges
            && Published(w, w', AllOwned(pools) + (w'.memories - w.memories), Ids(pools))
    decreases pools
  {
    if pools != [] {
      var (w1, head, next1) := if Active(pools[0], context, source) then PublishReady(w, pools[0], next, calls[0])
                               else (w, pools[0], next);
      if Active(pools[0], context, source) {
        PublishReadyFits(w, pools[0], next, calls[0], lastExport);
      }
      TailUntouched(w, w1, pools, next, next1, lastExport);
      PublishActiveFits(w1, pools[1..], context, source, next1, calls[1..], lastExport);
      var (w2, rest, next2) := PublishActive(w1, pools[1..], context, source, next1, calls[1..]);
      HeadRejoins(w, w1, w2, pools, head, rest, next, next1, next2, lastExport);
    }
  }

  // ---- Creating a pool ----

  lemma FreshPoolFits(w: GlWorld, pool: Pool, context: nat, source: SourceCandidate, next: nat, lastExport: nat)
    requires WorldOk(w, next) && FreshPool(pool, w, context, source)
    ensures var w' := w.(memories := w.memories + Memories(pool.slots), newest := w.newest[pool.id := 0],
                         charges := w.charges[pool.id := []]);
            PoolFits(pool, w', next, lastExport) && WorldOk(w', next)
  {
    var w' := w.(memories := w.memories + Memories(pool.slots), newest := w.newest[pool.id := 0],
                 charges := w.charges[pool.id := []]);
    forall i | 0 <= i < |pool.slots|
      ensures SlotFits(pool.slots[i], w', next) && pool.slots[i].source.None?
    {
      assert FreshSlot(pool.slots[i], w, IsNvidia(source));
    }
  }

  lemma EnsurePoolFits(w: GlWorld, pools: seq<Pool>, context: nat, source: SourceCandidate, created: Option<Pool>, next: nat,
                       lastExport: nat)
    requires PoolsFit(pools, w, next, lastExport) && |pools| <= MAX_POOLS
    requires created.Some? ==> FreshPool(created.value, w, context, source)
    ensures var (w', pools', index) := EnsurePool(w, pools, context, source, created);
            && PoolsFit(pools', w', next, lastExport) && |pools'| <= MAX_POOLS && w'.faults == w.faults && w'.applied == w.applied
            && (index.Some? ==> index.value < |pools'| && Active(pools'[index.value], context, source))
  {
    var (w', pools', index) := EnsurePool(w, pools, context, source, created);
    if pools' != pools {
      var pool := created.value;
      FreshPoolFits(w, pool, context, source, next, lastExport);
      var added := w'.memories - w.memories;
      forall p | 0 <= p < |pools|
        ensures PoolFits(pools[p], w', next, lastExport)
        ensures pools[p].id != pool.id && Owned(pools[p].slots) !! Owned(pool.slots)
      {
        assert PoolFits(pools[p], w, next, lastExport);
        OwnedInMemories(pools[p].slots, w, next);
        UntouchedPoolFits(w, w', added, {pool.id}, pools[p], next, next, lastExport);
        FreshOwned(pool, w, context, source);
      }
    }
  }

  lemma FreshOwned(pool: Pool, w: GlWorld, context: nat, source: SourceCandidate)
    requires FreshPool(pool, w, context, source)
    ensures Owned(pool.slots) !! w.memories
  {
    forall i | 0 <= i < |pool.slots|
      ensures pool.slots[i].memory !in w.memories
    {
      assert FreshSlot(pool.slots[i], w, IsNvidia(source));
    }
  }

  // ---- Starting a copy ----

  /** Only GPU work on one memory was added. */
  predicate WorkOn(w: GlWorld, w': GlWorld, memory: nat) {
    && w' == w.(work := w'.work, unfenced := w'.unfenced, bridge := w'.bridge)
    && (w'.work == w.work || w'.work == w.work + {memory})
    && (w'.unfenced == w.unfenced || w'.unfenced == w.unfenced + {memory})
    && (w'.bridge == w.bridge || w'.bridge == w.bridge + {memory})
  }

  lemma OtherPoolFits(w: GlWorld, w': GlWorld, memory: nat, pool: Pool, next: nat, lastExport: nat, lastExport': nat)
    requires WorkOn(w, w', memory) && PoolFits(pool, w, next, lastExport) && memory !in Owned(pool.slots)
    requires lastExport <= lastExport'
    ensures PoolFits(pool, w', next, lastExport')
  {
    forall i | 0 <= i < |pool.slots|
      ensures SlotFits(pool.slots[i], w', next)
    {
      assert SlotFits(pool.slots[i], w, next);
      assert Allocated(pool.slots[i]) ==> pool.slots[i].memory in Owned(pool.slots);
    }
  }

  /** The new copy is newer than everything stamped before. */
  lemma StartedPoolFits(w: GlWorld, w': GlWorld, pool: Pool, k: nat, slot: Slot, next: nat, lastExport: nat, timestamp: nat)
    requires PoolFits(pool, w, next, lastExport) && k < |pool.slots| && Allocated(pool.slots[k])
    requires lastExport < timestamp && WorkOn(w, w', pool.slots[k].memory)
    requires SlotFits(slot, w', next) && Descends(pool.slots[k], slot)
    requires slot.source.None? || slot.timestamp == timestamp
    ensures PoolFits(pool.(slots := pool.slots[k := slot]), w', next, timestamp)
    ensures Owned(pool.slots[k := slot]) <= Owned(pool.slots)
  {
    var slots' := pool.slots[k := slot];
    forall i | 0 <= i < |slots'|
      ensures SlotFits(slots'[i], w', next)
    {
      assert SlotFits(pool.slots[i], w, next);
      if i != k && Allocated(pool.slots[i]) {
        assert pool.slots[i].memory != pool.slots[k].memory;
      }
    }
    assert DistinctMemory(slots');
    forall x | x in Owned(slots')
      ensures x in Owned(pool.slots)
    {
      var i :| 0 <= i < |slots'| && Allocated(slots'[i]) && slots'[i].memory == x;
      if i != k { assert slots'[i] == pool.slots[i]; }
    }
  }

  lemma ReplacePoolFits(w: GlWorld, w': GlWorld, pools: seq<Pool>, k: nat, pool: Pool, memory: nat, next: nat,
                        lastExport: nat, lastExport': nat)
    requires PoolsFit(pools, w, next, lastExport) && k < |pools| && lastExport <= lastExport'
    requires WorkOn(w, w', memory) && memory in Owned(pools[k].slots) && WorldOk(w', next)
    requires PoolFits(pool, w', next, lastExport') && pool.id == pools[k].id
    requires Owned(pool.slots) <= Owned(pools[k].slots)
    ensures PoolsFit(pools[k := pool], w', next, lastExport')
  {
    var pools' := pools[k := pool];
    forall p | 0 <= p < |pools'|
      ensures PoolFits(pools'[p], w', next, lastExport')
    {
      if p != k {
        assert PoolFits(pools[p], w, next, lastExport);
        OtherPoolFits(w, w', memory, pools[p], next, lastExport, lastExport');
      }
    }
  }

  lemma ChargedFits(g: Gl, k: nat, pool: Pool)
    requires Inv(g) && k < |g.s.pools|
    requires pool == g.s.pools[k].(nextCapture := pool.nextCapture, drops := pool.drops)
    ensures Inv(g.(s := g.s.(pools := g.s.pools[k := pool])))
  {
    var pools' := g.s.pools[k := pool];
    forall p | 0 <= p < |pools'|
      ensures PoolFits(pools'[p], g.w, g.s.nextSequence, g.s.lastExport)
    {
      assert PoolFits(g.s.pools[p], g.w, g.s.nextSequence, g.s.lastExport);
    }
  }

  /** Slots do not see the cadence. */
  lemma ChargeKeeps(g: Gl, pool: nat, stamp: nat)
    requires Inv(g)
    ensures Inv(g.(w := Charge(g.w, pool, stamp)))
  {
    var w' := Charge(g.w, pool, stamp);
    forall p | 0 <= p < |g.s.pools|
      ensures PoolFits(g.s.pools[p], w', g.s.nextSequence, g.s.lastExport)
    {
      assert PoolFits(g.s.pools[p], g.w, g.s.nextSequence, g.s.lastExport);
      assert forall i :: 0 <= i < |g.s.pools[p].slots| && SlotFits(g.s.pools[p].slots[i], g.w, g.s.nextSequence) ==>
                           SlotFits(g.s.pools[p].slots[i], w', g.s.nextSequence);
    }
  }

  lemma StartDueFits(g: Gl, k: nat, source: SourceCandidate, calls: CaptureCalls)
    requires Inv(g) && k < |g.s.pools| && source.targetFramesPerSecond > 0 && g.s.lastExport < U64_MAX
    ensures Inv(StartDue(g, k, source, calls)) && StartDue(g, k, source, calls).w.faults == g.w.faults
    ensures StartDue(g, k, source, calls).w.applied == g.w.applied
  {
    var pool := g.s.pools[k];
    if Cadence.OpenGlCaptureDue(calls.variable, source.width, source.height, pool.nextCapture, calls.now) {
      var (presentation, interval) := Cadence.OpenGlCaptureTiming(calls.variable, source, pool.nextCapture, calls.now);
      var charged := pool.(nextCapture := Cadence.AdvanceCaptureDeadline(calls.variable, pool.nextCapture, calls.now, interval));
      var free := FirstAvailable(pool.slots);
      var g0 := g.(w := Charge(g.w, pool.id, presentation));
      ChargeKeeps(g, pool.id, presentation);
      if free.None? {
        ChargedFits(g0, k, charged.(drops := pool.drops + 1));
      } else {
        var timestamp := Cadence.MonotonicExportTimestamp(g.s.lastExport, presentation);
        var started := StartCopy(g0.w, pool.slots[free.value], source, timestamp, calls.rearm, calls.outcome).2;
        StartChosenFits(g0, k, charged, free.value, if started then pool.drops else pool.drops + 1, source, timestamp,
                        calls.rearm, calls.outcome);
      }
    }
  }

  lemma StartChosenFits(g: Gl, k: nat, charged: Pool, i: nat, drops: nat, source: SourceCandidate, timestamp: nat,
                        rearm: Completion, outcome: CopyOutcome)
    requires Inv(g) && k < |g.s.pools| && g.s.lastExport < timestamp
    requires charged == g.s.pools[k].(nextCapture := charged.nextCapture)
    requires i < |charged.slots| && Available(charged.slots[i])
    ensures var (w', slot, started) := StartCopy(g.w, charged.slots[i], source, timestamp, rearm, outcome);
            && Inv(Gl(g.s.(pools := g.s.pools[k := charged.(slots := charged.slots[i := slot], drops := drops)],
                           lastExport := timestamp), w'))
            && w'.faults == g.w.faults && w'.applied == g.w.applied
  {
    var slot := charged.slots[i];
    var next := g.s.nextSequence;
    assert PoolFits(g.s.pools[k], g.w, next, g.s.lastExport);
    StartCopyFits(g.w, slot, source, timestamp, rearm, outcome, next);
    var (w', slot', started) := StartCopy(g.w, slot, source, timestamp, rearm, outcome);
    StartedPoolFits(g.w, w', charged, i, slot', next, g.s.lastExport, timestamp);
    assert slot.memory in Owned(charged.slots);
    var used := charged.(slots := charged.slots[i := slot'], drops := drops);
    ReplacePoolFits(g.w, w', g.s.pools, k, used, slot.memory, next, g.s.lastExport, timestamp);
  }

  // ---- Every step ----

  lemma PresentKeeps(g: Gl, e: Event)
    requires e.Presented? && Inv(g) && Allowed(g, e)
    ensures Inv(Present(g, e)) && Present(g, e).w.faults == g.w.faults && Present(g, e).w.applied == g.w.applied
  {
    if e.context != 0 && !e.busy {
      var next := g.s.nextSequence;
      var last := g.s.lastExport;
      RetireStaleFits(g.w, g.s.pools, e.context, e.source, e.calls.retire, next, last);
      var (w1, kept) := RetireStale(g.w, g.s.pools, e.context, e.source, e.calls.retire);
      PublishActiveFits(w1, kept, e.context, e.source, next, e.calls.publish, last);
      var (w2, published, next2) := PublishActive(w1, kept, e.context, e.source, next, e.calls.publish);
      EnsurePoolFits(w2, published, e.context, e.source, e.calls.created, next2, last);
      var (w3, pools, index) := EnsurePool(w2, published, e.context, e.source, e.calls.created);
      if index.Some? {
        var ready := Gl(g.s.(pools := pools, nextSequence := next2, announced := Some(e.source)), w3);
        StartDueFits(ready, index.value, e.source, e.calls);
      }
    }
  }

  lemma ReleaseKeeps(g: Gl, sequence: nat, busy: bool)
    requires Inv(g) && sequence !in g.w.leases
    ensures Inv(Release(g, sequence, busy).0) && Release(g, sequence, busy).0.w.faults == g.w.faults
  {
    if !busy {
      var pools' := Release(g, sequence, busy).0.s.pools;
      forall p | 0 <= p < |pools'|
        ensures PoolFits(pools'[p], MarkApplied(g.w, sequence), g.s.nextSequence, g.s.lastExport)
        ensures pools'[p].id == g.s.pools[p].id && Owned(pools'[p].slots) == Owned(g.s.pools[p].slots)
      {
        assert PoolFits(g.s.pools[p], g.w, g.s.nextSequence, g.s.lastExport);
        ReleasedPoolFits(g.w, g.s.pools[p], sequence, g.s.nextSequence, g.s.lastExport);
      }
    }
  }

  lemma ReleasedPoolFits(w: GlWorld, pool: Pool, sequence: nat, next: nat, lastExport: nat)
    requires PoolFits(pool, w, next, lastExport) && sequence !in w.leases
    ensures PoolFits(ReleasePool(pool, sequence), MarkApplied(w, sequence), next, lastExport)
    ensures Owned(ReleasePool(pool, sequence).slots) == Owned(pool.slots)
  {
    var slots' := ReleasePool(pool, sequence).slots;
    forall i | 0 <= i < |slots'|
      ensures SlotFits(slots'[i], MarkApplied(w, sequence), next)
      ensures (Allocated(slots'[i]) <==> Allocated(pool.slots[i])) && slots'[i].memory == pool.slots[i].memory
    {
      assert SlotFits(pool.slots[i], w, next);
      ReleaseFits(w, pool.slots[i], next, sequence);
    }
    OwnedByMemory(pool.slots, slots');
  }

  lemma {:induction false} WithoutContextFits(w: GlWorld, pools: seq<Pool>, context: nat, next: nat, lastExport: nat)
    requires PoolsFit(pools, w, next, lastExport)
    ensures PoolsFit(WithoutContext(pools, context), w, next, lastExport) && Shrinks(pools, WithoutContext(pools, context))
  {
    if pools != [] {
      TailFits(pools, w, next, lastExport);
      WithoutContextFits(w, pools[1..], context, next, lastExport);
      var rest := WithoutContext(pools[1..], context);
      if pools[0].context == context {
        TailShrinks(pools, rest);
      } else {
        HeadKept(pools, pools[0], rest, w, next, lastExport);
      }
    }
  }

  lemma CompletionKeeps(g: Gl, g': Gl)
    requires Inv(g) && g' == g.(w := g.w.(work := g'.w.work, bridge := g'.w.bridge))
    requires g'.w.work <= g.w.work && g'.w.bridge <= g.w.bridge
    ensures Inv(g')
  {
    var w' := g'.w;
    forall p | 0 <= p < |g.s.pools|
      ensures PoolFits(g.s.pools[p], w', g.s.nextSequence, g.s.lastExport)
    {
      assert PoolFits(g.s.pools[p], g.w, g.s.nextSequence, g.s.lastExport);
      forall i | 0 <= i < |g.s.pools[p].slots|
        ensures SlotFits(g.s.pools[p].slots[i], w', g.s.nextSequence)
      {
        assert SlotFits(g.s.pools[p].slots[i], g.w, g.s.nextSequence);
      }
    }
  }

  lemma AcknowledgeKeeps(g: Gl, sequence: nat)
    requires Inv(g) && sequence in g.w.leases
    ensures Inv(g.(w := Acknowledge(g.w, sequence)))
  {
    var w' := Acknowledge(g.w, sequence);
    forall p | 0 <= p < |g.s.pools|
      ensures PoolFits(g.s.pools[p], w', g.s.nextSequence, g.s.lastExport)
    {
      assert PoolFits(g.s.pools[p], g.w, g.s.nextSequence, g.s.lastExport);
      forall i | 0 <= i < |g.s.pools[p].slots|
        ensures SlotFits(g.s.pools[p].slots[i], w', g.s.nextSequence)
      {
        assert SlotFits(g.s.pools[p].slots[i], g.w, g.s.nextSequence);
      }
    }
  }

  lemma StepKeeps(g: Gl, e: Event)
    requires Inv(g) && Allowed(g, e)
    ensures Inv(Step(g, e)) && Step(g, e).w.faults == g.w.faults && g.w.applied <= Step(g, e).w.applied
  {
    match e
    case Presented(_, _, _, _) => PresentKeeps(g, e);
    case ReleaseReceived(sequence, busy) => ReleaseKeeps(g, sequence, busy);
    case ContextDestroyed(context) =>
      WithoutContextFits(g.w, g.s.pools, context, g.s.nextSequence, g.s.lastExport);
    case SessionFinished(_) =>
    case GpuCompletes(memory) => CompletionKeeps(g, g.(w := Finish(g.w, memory)));
    case BridgeCompletes(memory) => CompletionKeeps(g, g.(w := FinishBridge(g.w, memory)));
    case DaemonReleases(sequence) => AcknowledgeKeeps(g, sequence);
  }

  lemma {:induction false} RunKeeps(g: Gl, events: seq<Event>)
    requires Inv(g) && AllAllowed(g, events)
    ensures Inv(Run(g, events)) && Run(g, events).w.faults == g.w.faults
    decreases |events|
  {
    if events != [] {
      StepKeeps(g, events[0]);
      RunKeeps(Step(g, events[0]), events[1..]);
    }
  }

  // ---- What runs guarantee ----

  /** In every run, with out-of-order completion, failed fences, bridges, transfers and
      sends, busy locks, stale tokens and changing sources: no copy enters storage that the
      daemon holds or the GPU still uses, storage is deleted only when finished, only
      finished copies are announced, and NVIDIA pools announce them in strictly increasing
      timestamp order. */
  lemma EveryRunIsSafe(events: seq<Event>)
    requires AllAllowed(Initial, events)
    ensures Run(Initial, events).w.faults == {}
  {
    RunKeeps(Initial, events);
  }

  /** In every reachable state each slot is in exactly one phase with no release owed, at most
      four pools exist, and storage the daemon holds belongs to an exported slot. */
  lemma EverySlotHasOnePhase(events: seq<Event>, p: nat, i: nat)
    requires AllAllowed(Initial, events)
    requires p < |Run(Initial, events).s.pools| && i < |Run(Initial, events).s.pools[p].slots|
    ensures var g := Run(Initial, events);
            var s := g.s.pools[p].slots[i];
            && |g.s.pools| <= MAX_POOLS
            && !s.exportReleased
            && (exists phase :: InPhase(s, phase))
            && (forall a, b :: InPhase(s, a) && InPhase(s, b) ==> a == b)
            && (Allocated(s) && Leased(g.w, s.memory) ==> InPhase(s, Exported))
            && (Allocated(s) && Busy(g.w, s) ==> InPhase(s, Copying) || InPhase(s, Quarantined))
  {
    RunKeeps(Initial, events);
    var g := Run(Initial, events);
    assert PoolFits(g.s.pools[p], g.w, g.s.nextSequence, g.s.lastExport);
    var s := g.s.pools[p].slots[i];
    assert SlotFits(s, g.w, g.s.nextSequence);
    ExactlyOnePhase(s, 0);
  }

  /** A token the daemon returned and this path applied once changes nothing when it is applied
      again at any later time, even after its slot was refilled and exported again. */
  lemma RetriedTokenChangesNothing(events: seq<Event>, sequence: nat, later: seq<Event>)
    requires AllAllowed(Initial, events) && sequence in Run(Initial, events).w.released
    requires AllAllowed(Release(Run(Initial, events), sequence, false).0, later)
    ensures var g := Run(Release(Run(Initial, events), sequence, false).0, later);
            Release(g, sequence, false).0 == g
  {
    RunKeeps(Initial, events);
    var g0 := Run(Initial, events);
    ReleaseKeeps(g0, sequence, false);
    var g1 := Release(g0, sequence, false).0;
    RunKeeps(g1, later);
    AppliedTokensStay(g1, later, sequence);
    AppliedTokenIsIdle(Run(g1, later), sequence);
  }

  lemma AppliedTokenIsIdle(g: Gl, sequence: nat)
    requires Inv(g) && sequence in g.w.applied
    ensures Release(g, sequence, false).0 == g
  {
    forall p | 0 <= p < |g.s.pools|
      ensures ReleasePool(g.s.pools[p], sequence) == g.s.pools[p]
    {
      assert PoolFits(g.s.pools[p], g.w, g.s.nextSequence, g.s.lastExport);
      forall i | 0 <= i < |g.s.pools[p].slots|
        ensures ReleaseExport(g.s.pools[p].slots[i], sequence) == g.s.pools[p].slots[i]
      {
        assert SlotFits(g.s.pools[p].slots[i], g.w, g.s.nextSequence);
      }
      assert ReleasePool(g.s.pools[p], sequence).slots == g.s.pools[p].slots;
    }
    assert Release(g, sequence, false).0.s.pools == g.s.pools;
    assert g.w.applied + {sequence} == g.w.applied;
  }

  lemma {:induction false} AppliedTokensStay(g: Gl, events: seq<Event>, sequence: nat)
    requires Inv(g) && AllAllowed(g, events) && sequence in g.w.applied
    ensures sequence in Run(g, events).w.applied && sequence in Run(g, events).w.released
    decreases |events|
  {
    if events != [] {
      StepKeeps(g, events[0]);
      AppliedTokensStay(Step(g, events[0]), events[1..], sequence);
    }
  }
}

/** The OpenGL replay producer as the object it is: a pool vector whose slots are polled,
    published, drained and released in loops, each proved to take exactly the step that the
    theorems are about. */
module GlReplay {
  import opened Wrappers
  import opened Messages
  import opened GlSlots
  import opened GlPools
  import opened GlInvariant
  import opened GlSafety
  import opened GlRuns
  import Cadence

  // ---- Slot operations; the driver's side of each is returned with the slot ----

  method PollCopy(w: GlWorld, s: Slot, poll: Poll) returns (w': GlWorld, slot: Slot, ready: bool)
    ensures (w', slot, ready) == CopyReady(w, s, poll)
  {
    w', slot := w, s;
    if slot.failed {
      return w', slot, false;
    }
    if slot.sync != 0 {
      var status := FenceStatus(w, slot.memory, poll);
      if status != Signaled {
        if status == WaitFailed {
          slot := slot.(failed := true, source := None, timestamp := 0);
        }
        return w', slot, false;
      }
      slot := slot.(sync := 0);
    }
    if slot.copyPending {
      match BridgeStatus(w, slot.memory, poll) {
        case Pending => return w', slot, false;
        case Failed =>
          w' := DetachSlot(w', slot);
          return w', IDLE, false;
        case Ready => slot := slot.(copyPending := false);
      }
    }
    ready := slot.source.Some?;
  }

  method CheckCompleted(w: GlWorld, s: Slot, poll: Poll) returns (w': GlWorld, slot: Slot, done: bool)
    ensures (w', slot, done) == Completed(w, s, poll)
  {
    w', slot := w, s;
    if slot.failed {
      return w', slot, false;
    }
    if slot.sync != 0 || slot.copyPending {
      var ready;
      w', slot, ready := PollCopy(w', slot, poll);
      if !ready {
        return w', slot, false;
      }
    }
    if slot.exportReleased {
      slot := slot.(exportSequence := None, exportReleased := false);
    }
    done := slot.source.None? && slot.exportSequence.None?;
  }

  method CopyInto(w: GlWorld, s: Slot, source: SourceCandidate, timestamp: nat, rearm: Completion, outcome: CopyOutcome)
    returns (w': GlWorld, slot: Slot, started: bool)
    ensures (w', slot, started) == StartCopy(w, s, source, timestamp, rearm, outcome)
  {
    w', slot, started := w, s, false;
    if rearm == Pending {
      return;
    }
    if rearm == Failed {
      w', slot := DeleteSlot(w', slot), IDLE;
      return;
    }
    if slot.semaphores {
      slot := slot.(failed := true);
    }
    if outcome == EarlyError {
      return;
    }
    if outcome == FenceMissing || outcome.sync == 0 {
      w' := BeginCopy(w', slot, false);
      return;
    }
    w' := BeginCopy(w', slot, true);
    slot := slot.(failed := false, copyPending := slot.native != 0, source := Some(source), timestamp := timestamp,
                  sync := outcome.sync);
    started := true;
  }

  /** What the publication loop still does from visit i on. */
  ghost function Publication(p: Pass, pool: nat, nvidia: bool, attempts: seq<GlPools.Attempt>, i: nat): Pass
    requires i <= |attempts| == |p.slots|
  {
    if nvidia then PublishOldest(p, pool, attempts[i..]) else PublishByIndex(p, pool, attempts, i)
  }

  /** One visit: stop, skip or publish. */
  lemma PublicationStep(p: Pass, pool: nat, nvidia: bool, attempts: seq<GlPools.Attempt>, i: nat)
    requires i <= |attempts| == |p.slots|
    ensures i == |attempts| ==> Publication(p, pool, nvidia, attempts, i) == p
    ensures i < |attempts| && nvidia && OldestPendingSlot(p.slots).None? ==>
              Publication(p, pool, nvidia, attempts, i) == p
    ensures i < |attempts| && (nvidia ==> OldestPendingSlot(p.slots).Some?) ==>
              var index := if nvidia then OldestPendingSlot(p.slots).value else i;
              var (w, slot, ready) := CopyReady(p.w, p.slots[index], attempts[i].poll);
              var polled := p.(w := w, slots := p.slots[index := slot]);
              Publication(p, pool, nvidia, attempts, i)
              == if ready then Publication(PublishSlot(polled, pool, nvidia, index, attempts[i]), pool, nvidia, attempts, i + 1)
                 else if nvidia then polled else Publication(polled, pool, nvidia, attempts, i + 1)
  {
    if i < |attempts| {
      assert attempts[i..][1..] == attempts[i + 1..];
    }
  }

  /** The state retirement reaches from a position in the vector and in the answers. */
  ghost function Retirement(w: GlWorld, pools: seq<Pool>, index: nat, context: nat, source: SourceCandidate,
                            calls: seq<RetireCalls>, visited: nat): (GlWorld, seq<Pool>)
    requires Retiring(pools, index, calls, visited)
  {
    var rest := RetireStale(w, pools[index..], context, source, calls[visited..]);
    (rest.0, pools[..index] + rest.1)
  }

  ghost predicate Retiring(pools: seq<Pool>, index: nat, calls: seq<RetireCalls>, visited: nat) {
    index <= |pools| && visited <= |calls| && RetireCallsFit(pools[index..], calls[visited..])
  }

  /** Retirement handles the pool at an index and goes on with the pools after it. */
  lemma RetirementStep(w: GlWorld, pools: seq<Pool>, index: nat, context: nat, source: SourceCandidate,
                       calls: seq<RetireCalls>, visited: nat)
    requires Retiring(pools, index, calls, visited) && index < |pools|
    ensures |calls[visited].drain| == |calls[visited].check| == |pools[index].slots|
    ensures var (w', kept) := RetireOne(w, pools[index], context, source, calls[visited]);
            var pools' := pools[..index] + kept + pools[index + 1..];
            && Retiring(pools', index + |kept|, calls, visited + 1)
            && Retirement(w, pools, index, context, source, calls, visited)
            == Retirement(w', pools', index + |kept|, context, source, calls, visited + 1)
  {
    assert pools[index..][0] == pools[index] && calls[visited..][0] == calls[visited];
    var (w', kept) := RetireOne(w, pools[index], context, source, calls[visited]);
    var pools' := pools[..index] + kept + pools[index + 1..];
    assert pools'[index + |kept|..] == pools[index + 1..] == pools[index..][1..];
    assert pools'[..index + |kept|] == pools[..index] + kept;
    assert calls[visited..][1..] == calls[visited + 1..];
    var tail, answers := pools[index + 1..], calls[visited + 1..];
    forall i | 0 <= i < |tail|
      ensures |answers[i].drain| == |answers[i].check| == |tail[i].slots|
    {
      assert pools[index..][i + 1] == tail[i] && calls[visited..][i + 1] == answers[i];
    }
    var rest := RetireStale(w', tail, context, source, answers);
    assert RetireStale(w, pools[index..], context, source, calls[visited..]) == (rest.0, kept + rest.1);
    assert pools[..index] + (kept + rest.1) == pools[..index] + kept + rest.1;
  }

  /** The state publication reaches from a position in the vector. */
  ghost function PublicationFrom(w: GlWorld, pools: seq<Pool>, p: nat, context: nat, source: SourceCandidate, next: nat,
                                 calls: seq<PublishCalls>): (GlWorld, seq<Pool>, nat)
    requires PublishingFrom(w, pools, p, context, source, next, calls)
  {
    var rest := PublishActive(w, pools[p..], context, source, next, calls[p..]);
    (rest.0, pools[..p] + rest.1, rest.2)
  }

  ghost predicate PublishingFrom(w: GlWorld, pools: seq<Pool>, p: nat, context: nat, source: SourceCandidate, next: nat,
                                 calls: seq<PublishCalls>) {
    p <= |pools| == |calls| && PublishAllFit(w, pools[p..], context, source, next, calls[p..])
  }

  /** Publication handles the pool at an index and goes on with the pools after it. */
  lemma PublicationOfPool(w: GlWorld, pools: seq<Pool>, p: nat, context: nat, source: SourceCandidate, next: nat,
                          calls: seq<PublishCalls>)
    requires PublishingFrom(w, pools, p, context, source, next, calls) && p < |pools|
    ensures Active(pools[p], context, source) ==> PublishCallsFit(pools[p], w, calls[p])
    ensures var (w1, head, next1) := if Active(pools[p], context, source) then PublishReady(w, pools[p], next, calls[p])
                                     else (w, pools[p], next);
            && PublishingFrom(w1, pools[p := head], p + 1, context, source, next1, calls)
            && PublicationFrom(w, pools, p, context, source, next, calls)
            == PublicationFrom(w1, pools[p := head], p + 1, context, source, next1, calls)
  {
    assert pools[p..][1..] == pools[p + 1..] && calls[p..][1..] == calls[p + 1..];
    assert pools[p..][0] == pools[p] && calls[p..][0] == calls[p];
    var (w1, head, next1) := if Active(pools[p], context, source) then PublishReady(w, pools[p], next, calls[p])
                             else (w, pools[p], next);
    assert pools[p := head][p + 1..] == pools[p + 1..];
    var rest := PublishActive(w1, pools[p + 1..], context, source, next1, calls[p + 1..]);
    assert pools[..p] + ([head] + rest.1) == pools[p := head][..p + 1] + rest.1;
  }

  class ReplayExport {
    var pools: seq<Pool>
    var lastExport: nat
    var announced: Option<SourceCandidate>
    var nextSequence: nat
    /** The GL driver and the daemon, which fence polls, copies and announcements talk to. */
    var world: GlWorld

    function Here(): Gl
      reads this
    {
      Gl(State(pools, lastExport, announced, nextSequence), world)
    }

    ghost predicate Valid()
      reads this
    {
      Inv(Here())
    }

    constructor ()
      ensures Here() == Initial && Valid()
    {
      pools, lastExport, announced, nextSequence := [], 0, None, 1;
      world := Initial.w;
    }

    // ---- Publication ----

    method PollPool(slots: seq<Slot>, polls: seq<Poll>, drops: nat) returns (polled: seq<Slot>, dropped: nat)
      requires |slots| == |polls|
      modifies this`world
      ensures (world, polled, dropped) == PollSlots(old(world), slots, polls, 0, drops)
    {
      polled, dropped := slots, drops;
      var k := 0;
      while k < |polled|
        invariant 0 <= k <= |polled| == |polls|
        invariant PollSlots(old(world), slots, polls, 0, drops) == PollSlots(world, polled, polls, k, dropped)
      {
        var pending := polled[k].source.Some?;
        var w, slot, _ := PollCopy(world, polled[k], polls[k]);
        world, polled := w, polled[k := slot];
        if pending && slot.source.None? {
          dropped := dropped + 1;
        }
        k := k + 1;
      }
    }

    /** Duplicate the descriptor of a finished copy and announce it. */
    method Transfer(pool: nat, ordered: bool, slots: seq<Slot>, k: nat, exports: nat, drops: nat, a: GlPools.Attempt)
      returns (slots': seq<Slot>, exports': nat, drops': nat)
      requires k < |slots|
      modifies this`world, this`nextSequence
      ensures Pass(world, slots', exports', drops', nextSequence)
           == PublishSlot(Pass(old(world), slots, exports, drops, old(nextSequence)), pool, ordered, k, a)
    {
      var slot := slots[k];
      exports', drops' := exports, drops;
      if a.duplicated {
        var sequence := nextSequence;
        nextSequence := nextSequence + 1;
        world := Announce(world, pool, ordered, slot, sequence, a.sent);
        if a.sent {
          slot := slot.(exportSequence := Some(sequence));
          exports' := exports' + 1;
        } else {
          drops' := drops' + 1;
        }
      } else {
        drops' := drops' + 1;
      }
      slots' := slots[k := slot.(source := None, timestamp := 0)];
    }

    /** One visit per slot: the oldest pending copy on NVIDIA pools, the next slot on others. */
    method Publish(pool: nat, nvidia: bool, slots: seq<Slot>, exports: nat, drops: nat, attempts: seq<GlPools.Attempt>)
      returns (slots': seq<Slot>, exports': nat, drops': nat)
      requires |slots| == |attempts|
      modifies this`world, this`nextSequence
      ensures Pass(world, slots', exports', drops', nextSequence)
           == Publication(Pass(old(world), slots, exports, drops, old(nextSequence)), pool, nvidia, attempts, 0)
    {
      slots', exports', drops' := slots, exports, drops;
      ghost var start := Pass(world, slots, exports, drops, nextSequence);
      var i := 0;
      while i < |slots'|
        invariant 0 <= i <= |slots'| == |attempts|
        invariant Publication(start, pool, nvidia, attempts, 0)
               == Publication(Pass(world, slots', exports', drops', nextSequence), pool, nvidia, attempts, i)
      {
        PublicationStep(Pass(world, slots', exports', drops', nextSequence), pool, nvidia, attempts, i);
        var index := i;
        if nvidia {
          var oldest := OldestPendingSlot(slots');
          if oldest.None? {
            break;
          }
          index := oldest.value;
        }
        var w, slot, ready := PollCopy(world, slots'[index], attempts[i].poll);
        world, slots' := w, slots'[index := slot];
        if !ready && nvidia {
          break;
        }
        if ready {
          slots', exports', drops' := Transfer(pool, nvidia, slots', index, exports', drops', attempts[i]);
        }
        i := i + 1;
      }
    }

    method PublishReadyExports(p: nat, calls: PublishCalls)
      requires p < |pools| && PublishCallsFit(pools[p], world, calls)
      modifies this
      ensures var (w, pool, next) := PublishReady(old(world), old(pools)[p], old(nextSequence), calls);
              Here() == Gl(old(Here()).s.(pools := old(pools)[p := pool], nextSequence := next), w)
    {
      var pool := pools[p];
      var nvidia := IsNvidia(pool.source);
      var slots, exports, drops := pool.slots, pool.exports, pool.drops;
      if nvidia {
        var missing := FirstUnallocated(slots, 0);
        if missing.Some? && calls.replacement.Some? {
          slots := slots[missing.value := calls.replacement.value];
          world := world.(memories := world.memories + {calls.replacement.value.memory});
        }
        slots, drops := PollPool(slots, calls.polls, drops);
      }
      slots, exports, drops := Publish(pool.id, nvidia, slots, exports, drops, calls.attempts);
      pools := pools[p := pool.(slots := slots, exports := exports, drops := drops)];
    }

    // ---- Retirement ----

    method DrainSlots(slots: seq<Slot>, polls: seq<Poll>, drops: nat) returns (drained: seq<Slot>, dropped: nat)
      requires |slots| == |polls|
      modifies this`world
      ensures (world, drained, dropped) == RetireSlots(old(world), slots, polls, 0, drops)
    {
      drained, dropped := slots, drops;
      var k := 0;
      while k < |drained|
        invariant 0 <= k <= |drained| == |polls|
        invariant RetireSlots(old(world), slots, polls, 0, drops) == RetireSlots(world, drained, polls, k, dropped)
      {
        var slot := drained[k];
        if slot.sync != 0 || slot.copyPending {
          var w, polled, _ := PollCopy(world, slot, polls[k]);
          world, slot := w, polled;
        }
        var (kept, lost) := DiscardRetiredCopy(slot);
        drained := drained[k := kept];
        if lost {
          dropped := dropped + 1;
        }
        k := k + 1;
      }
    }

    method Retirable(slots: seq<Slot>, polls: seq<Poll>) returns (checked: seq<Slot>, done: bool)
      requires |slots| == |polls|
      modifies this`world
      ensures (world, checked, done) == CompleteSlots(old(world), slots, polls, 0)
    {
      checked, done := slots, true;
      var k := 0;
      while k < |checked| && done
        invariant 0 <= k <= |checked| == |polls|
        invariant done ==> CompleteSlots(old(world), slots, polls, 0) == CompleteSlots(world, checked, polls, k)
        invariant !done ==> CompleteSlots(old(world), slots, polls, 0) == (world, checked, false)
      {
        var w, slot, finished := CheckCompleted(world, checked[k], polls[k]);
        world, checked, done := w, checked[k := slot], finished;
        k := k + 1;
      }
    }

    method ReleaseStorage(slots: seq<Slot>)
      modifies this`world
      ensures world == ReleaseSlots(old(world), slots)
    {
      var k := 0;
      while k < |slots|
        invariant 0 <= k <= |slots|
        invariant ReleaseSlots(old(world), slots) == ReleaseSlots(world, slots[k..])
      {
        assert slots[k..][1..] == slots[k + 1..];
        world := DeleteSlot(world, slots[k]);
        k := k + 1;
      }
    }

    /** Drain the pool at an index if it is stale; remove it when nothing uses it. Returns the
        next index. */
    method RetireAt(index: nat, context: nat, source: SourceCandidate, answers: RetireCalls) returns (next: nat)
      requires index < |pools| && |answers.drain| == |answers.check| == |pools[index].slots|
      modifies this`world, this`pools
      ensures var (w, kept) := RetireOne(old(world), old(pools)[index], context, source, answers);
              && world == w && next == index + |kept|
              && pools == old(pools)[..index] + kept + old(pools)[index + 1..]
    {
      next := index + 1;
      if Stale(pools[index], context, source) {
        var slots, drops := DrainSlots(pools[index].slots, answers.drain, pools[index].drops);
        var checked, done := Retirable(slots, answers.check);
        if done {
          ReleaseStorage(checked);
          pools := pools[..index] + pools[index + 1..];
          next := index;
        } else {
          pools := pools[index := pools[index].(slots := checked, drops := drops)];
        }
      }
    }

    /** Drain the pools of another source generation and remove the finished ones. */
    method RetireStalePools(context: nat, source: SourceCandidate, calls: seq<RetireCalls>)
      requires RetireCallsFit(pools, calls)
      modifies this`world, this`pools
      ensures world == RetireStale(old(world), old(pools), context, source, calls).0
      ensures pools == RetireStale(old(world), old(pools), context, source, calls).1
    {
      var index: nat := 0;
      ghost var visited: nat := 0;
      assert pools[index..] == pools && calls[visited..] == calls;
      ghost var whole := RetireStale(world, pools, context, source, calls);
      assert pools[..index] + whole.1 == whole.1;
      while index < |pools|
        invariant Retiring(pools, index, calls, visited)
        invariant Retirement(world, pools, index, context, source, calls, visited)
               == RetireStale(old(world), old(pools), context, source, calls)
        decreases |pools| - index
      {
        RetirementStep(world, pools, index, context, source, calls, visited);
        index := RetireAt(index, context, source, calls[|calls| - (|pools| - index)]);
        visited := visited + 1;
      }
      assert pools[index..] == [] && pools[..index] + [] == pools;
    }

    // ---- Other entry points ----

    /** Forget the pools of a context; returns how many there were. */
    method RemoveContextPools(context: nat) returns (removed: nat)
      modifies this`pools
      ensures pools == WithoutContext(old(pools), context)
      ensures removed == |old(pools)| - |pools|
    {
      var index := 0;
      removed := 0;
      while index < |pools|
        invariant 0 <= index <= |pools| && removed == |old(pools)| - |pools|
        invariant WithoutContext(old(pools), context) == pools[..index] + WithoutContext(pools[index..], context)
        decreases |pools| - index
      {
        assert pools[index..][1..] == pools[index + 1..];
        if pools[index].context != context {
          assert pools[..index] + ([pools[index]] + WithoutContext(pools[index + 1..], context))
              == pools[..index + 1] + WithoutContext(pools[index + 1..], context);
          index := index + 1;
        } else {
          ghost var was := pools;
          pools := pools[..index] + pools[index + 1..];
          assert pools[..index] == was[..index] && pools[index..] == was[index + 1..];
          removed := removed + 1;
        }
      }
    }

    method DestroyContext(context: nat)
      requires Valid()
      modifies this`pools
      ensures Valid() && Here() == Destroy(old(Here()), context)
    {
      WithoutContextFits(world, pools, context, nextSequence, lastExport);
      if context != 0 {
        var removed := RemoveContextPools(context);
      }
    }

    method Finish(busy: bool)
      requires Valid()
      modifies this`pools, this`announced
      ensures Valid() && Here() == FinishSession(old(Here()), busy)
    {
      if !busy {
        pools, announced := [], None;
      }
    }

    /** Apply one daemon token to every slot of every pool; false while the lock is busy. */
    method ReleaseSequence(sequence: nat, busy: bool) returns (applied: bool)
      requires Valid() && sequence !in world.leases
      modifies this`pools, this`world
      ensures Valid() && (Here(), applied) == Release(old(Here()), sequence, busy)
    {
      ReleaseKeeps(Here(), sequence, busy);
      if busy {
        return false;
      }
      var p := 0;
      while p < |pools|
        invariant 0 <= p <= |pools| == |old(pools)| && world == old(world)
        invariant forall q :: 0 <= q < p ==> pools[q] == ReleasePool(old(pools)[q], sequence)
        invariant forall q :: p <= q < |pools| ==> pools[q] == old(pools)[q]
      {
        var slots := pools[p].slots;
        var i := 0;
        while i < |slots|
          invariant 0 <= i <= |slots| == |pools[p].slots|
          invariant forall j :: 0 <= j < i ==> slots[j] == ReleaseExport(pools[p].slots[j], sequence)
          invariant forall j :: i <= j < |slots| ==> slots[j] == pools[p].slots[j]
        {
          slots := slots[i := ReleaseExport(slots[i], sequence)];
          i := i + 1;
        }
        assert slots == ReleasePool(pools[p], sequence).slots;
        pools := pools[p := pools[p].(slots := slots)];
        p := p + 1;
      }
      assert pools == Release(old(Here()), sequence, false).0.s.pools;
      world := MarkApplied(world, sequence);
      applied := true;
    }

    // ---- Capture ----

    method PublishActivePools(context: nat, source: SourceCandidate, calls: seq<PublishCalls>)
      requires |calls| == |pools| && PublishAllFit(world, pools, context, source, nextSequence, calls)
      modifies this
      ensures var (w, published, next) := PublishActive(old(world), old(pools), context, source, old(nextSequence), calls);
              Here() == Gl(old(Here()).s.(pools := published, nextSequence := next), w)
    {
      var p: nat := 0;
      assert pools[p..] == pools && calls[p..] == calls;
      ghost var whole := PublishActive(world, pools, context, source, nextSequence, calls);
      assert pools[..p] + whole.1 == whole.1;
      while p < |pools|
        invariant PublishingFrom(world, pools, p, context, source, nextSequence, calls)
        invariant Here().s == old(Here()).s.(pools := pools, nextSequence := nextSequence)
        invariant PublicationFrom(world, pools, p, context, source, nextSequence, calls)
               == PublishActive(old(world), old(pools), context, source, old(nextSequence), calls)
      {
        PublicationOfPool(world, pools, p, context, source, nextSequence, calls);
        if Active(pools[p], context, source) {
          PublishReadyExports(p, calls[p]);
        } else {
          assert pools[p := pools[p]] == pools;
        }
        p := p + 1;
      }
      assert pools[p..] == [] && pools[..p] + [] == pools;
    }

    /** The index of the pool to capture into; a new pool needs room in the budget. */
    method PoolFor(context: nat, source: SourceCandidate, created: Option<Pool>) returns (index: Option<nat>)
      modifies this`world, this`pools
      ensures (world, pools, index) == EnsurePool(old(world), old(pools), context, source, created)
    {
      index := FindActive(pools, context, source);
      if index.None? && |pools| < MAX_POOLS && created.Some? {
        world := world.(memories := world.memories + Memories(created.value.slots),
                        newest := world.newest[created.value.id := 0],
                        charges := world.charges[created.value.id := []]);
        index := Some(|pools|);
        pools := pools + [created.value];
      }
    }

    method StartDueCopy(k: nat, source: SourceCandidate, calls: CaptureCalls)
      requires k < |pools| && source.targetFramesPerSecond > 0
      modifies this
      ensures Here() == StartDue(old(Here()), k, source, calls)
    {
      var deadline := pools[k].nextCapture;
      if !Cadence.OpenGlCaptureDue(calls.variable, source.width, source.height, deadline, calls.now) {
        return;
      }
      var (presentation, interval) := Cadence.OpenGlCaptureTiming(calls.variable, source, deadline, calls.now);
      var pool := pools[k].(
        nextCapture := Cadence.AdvanceCaptureDeadline(calls.variable, deadline, calls.now, interval));
      world := Charge(world, pool.id, presentation);
      var free := FirstAvailable(pool.slots);
      if free.None? {
        pools := pools[k := pool.(drops := pool.drops + 1)];
        return;
      }
      var timestamp := Cadence.MonotonicExportTimestamp(lastExport, presentation);
      lastExport := Cadence.Max(lastExport, timestamp);
      var w, slot, started := CopyInto(world, pool.slots[free.value], source, timestamp, calls.rearm, calls.outcome);
      world := w;
      pools := pools[k := pool.(slots := pool.slots[free.value := slot],
                                drops := if started then pool.drops else pool.drops + 1)];
    }

    /** One intercepted presentation keeps the invariant and never trips a monitor. */
    method CapturePresented(context: nat, source: SourceCandidate, busy: bool, calls: CaptureCalls)
      requires Valid() && Allowed(Here(), Presented(context, source, busy, calls))
      modifies this
      ensures Here() == Present(old(Here()), Presented(context, source, busy, calls))
      ensures Valid() && world.faults == old(world.faults)
    {
      PresentKeeps(Here(), Presented(context, source, busy, calls));
      if context == 0 || busy {
        return;
      }
      RetireStalePools(context, source, calls.retire);
      PublishActivePools(context, source, calls.publish);
      var index := PoolFor(context, source, calls.created);
      if index.None? {
        return;
      }
      announced := Some(source);
      StartDueCopy(index.value, source, calls);
    }
  }
}

/** Publication and copy start: ordered timestamps, leases on finished copies only, and
    copies only into storage that nothing uses. */
module GlPublication {
  import opened Wrappers
  import opened Messages
  import opened GlSlots
  import opened GlPools
  import opened GlInvariant
  import Cadence

  /** Facts about the world that no slot is part of. */
  predicate WorldOk(w: GlWorld, next: nat) {
    && 0 !in w.memories && w.work <= w.memories && w.unfenced <= w.memories && w.bridge <= w.memories
    && (forall q :: q in w.leases ==> w.leases[q] in w.memories && q < next && q !in w.released)
    && (forall q :: q in w.released ==> q < next)
    && w.applied <= w.released
  }

  function Owned(slots: seq<Slot>): set<nat> { set i | 0 <= i < |slots| && Allocated(slots[i]) :: slots[i].memory }

  /** Only leases on the given memories, and the newest publication of one pool, changed. */
  predicate LeasesOnly(w: GlWorld, w': GlWorld, owned: set<nat>, pool: nat) {
    && w'.work == w.work && w'.unfenced == w.unfenced && w'.bridge == w.bridge
    && w.memories <= w'.memories && w'.released == w.released
    && w'.applied == w.applied && w'.charges == w.charges
    && w'.faults == w.faults
    && (forall q :: q in w'.leases && w'.leases[q] !in owned ==> q in w.leases && w.leases[q] == w'.leases[q])
    && (forall id :: id in w.newest ==> id in w'.newest && (id != pool ==> w'.newest[id] == w.newest[id]))
  }

  lemma DerivedOwned(slots: seq<Slot>, slots': seq<Slot>)
    requires Derived(slots, slots')
    ensures Owned(slots') <= Owned(slots)
  {
    forall i | 0 <= i < |slots'| && Allocated(slots'[i])
      ensures slots'[i].memory in Owned(slots)
    {
      assert Descends(slots[i], slots'[i]);
    }
  }

  // ---- Publishing one copy ----

  predicate NewestIs(w: GlWorld, pool: nat, newest: nat) { pool in w.newest && w.newest[pool] == newest }

  /** A pass in progress: slots, world and order agree. */
  predicate PassFits(p: Pass, pool: nat, ordered: bool, lastExport: nat) {
    && WorldOk(p.w, p.next) && SlotsFit(p.slots, p.w, p.next) && pool in p.w.newest
    && (ordered ==> Ordered(p.slots, p.w.newest[pool], lastExport))
    && forall i :: 0 <= i < |p.slots| && p.slots[i].source.Some? ==> p.slots[i].timestamp <= lastExport
  }

  /** The slot holds a finished copy, older than every other pending one. */
  predicate PublishableAt(p: Pass, k: nat, ordered: bool) {
    && k < |p.slots|
    && var s := p.slots[k];
       && s.source.Some? && s.sync == 0 && !s.copyPending && !s.failed && !Busy(p.w, s)
       && (ordered ==> forall i :: 0 <= i < |p.slots| && p.slots[i].source.Some? ==> s.timestamp <= p.slots[i].timestamp)
  }

  lemma PublishSlotFits(p: Pass, pool: nat, ordered: bool, k: nat, a: GlPools.Attempt, lastExport: nat)
    requires PassFits(p, pool, ordered, lastExport) && PublishableAt(p, k, ordered)
    ensures var p' := PublishSlot(p, pool, ordered, k, a);
            && PassFits(p', pool, ordered, lastExport)
            && |p'.slots| == |p.slots| && p.next <= p'.next
            && Owned(p'.slots) == Owned(p.slots)
            && LeasesOnly(p.w, p'.w, Owned(p.slots), pool)
  {
    var p' := PublishSlot(p, pool, ordered, k, a);
    var s := p.slots[k];
    assert SlotFits(s, p.w, p.next);
    assert s.memory in Owned(p.slots);
    forall i | 0 <= i < |p.slots|
      ensures SlotFits(p'.slots[i], p'.w, p'.next)
      ensures Allocated(p'.slots[i]) <==> Allocated(p.slots[i])
      ensures p'.slots[i].memory == p.slots[i].memory
    {
      assert SlotFits(p.slots[i], p.w, p.next);
    }
    if ordered {
      PublishKeepsOrder(p, pool, k, a, lastExport);
    }
    OwnedByMemory(p.slots, p'.slots);
  }

  /** Whatever is still pending is newer than what was just published. */
  lemma PublishKeepsOrder(p: Pass, pool: nat, k: nat, a: GlPools.Attempt, lastExport: nat)
    requires PassFits(p, pool, true, lastExport) && PublishableAt(p, k, true)
    ensures var p' := PublishSlot(p, pool, true, k, a);
            pool in p'.w.newest && Ordered(p'.slots, p'.w.newest[pool], lastExport)
  {
    var p' := PublishSlot(p, pool, true, k, a);
    forall i | 0 <= i < |p'.slots| && p'.slots[i].source.Some?
      ensures i != k && p'.slots[i] == p.slots[i] && p'.w.newest[pool] < p'.slots[i].timestamp <= lastExport
    {
    }
  }

  lemma OwnedByMemory(slots: seq<Slot>, slots': seq<Slot>)
    requires |slots'| == |slots|
    requires forall i :: 0 <= i < |slots| ==>
               (Allocated(slots'[i]) <==> Allocated(slots[i])) && slots'[i].memory == slots[i].memory
    ensures Owned(slots') == Owned(slots)
  {
  }

  /** Replacing one slot by its polled version inside a pass. */
  lemma PolledPassFits(p: Pass, pool: nat, ordered: bool, k: nat, poll: Poll, lastExport: nat)
    requires PassFits(p, pool, ordered, lastExport) && k < |p.slots|
    ensures var (w1, s1, ready) := CopyReady(p.w, p.slots[k], poll);
            var p1 := p.(w := w1, slots := p.slots[k := s1]);
            && w1 == p.w && PassFits(p1, pool, ordered, lastExport) && Derived(p.slots, p1.slots)
  {
    CopyReadyFits(p.w, p.slots[k], poll, p.next);
    var (w1, s1, ready) := CopyReady(p.w, p.slots[k], poll);
    UpdateDerived(p.slots, k, s1, p.w, p.next);
    DerivedKeeps(p.slots, p.slots[k := s1], if ordered then p.w.newest[pool] else 0, lastExport);
  }

  /** What a publication pass keeps, relative to where it started. */
  predicate PassKept(p: Pass, p': Pass, pool: nat, ordered: bool, lastExport: nat) {
    && PassFits(p', pool, ordered, lastExport)
    && |p'.slots| == |p.slots| && p.next <= p'.next
    && Owned(p'.slots) <= Owned(p.slots)
    && LeasesOnly(p.w, p'.w, Owned(p.slots), pool)
  }

  lemma PassKeptTransitive(a: Pass, b: Pass, c: Pass, pool: nat, ordered: bool, lastExport: nat)
    requires PassKept(a, b, pool, ordered, lastExport) && PassKept(b, c, pool, ordered, lastExport)
    ensures PassKept(a, c, pool, ordered, lastExport)
  {
  }

  /** NVIDIA publication keeps strictly increasing timestamps in every case: unfinished,
      failed, not duplicated, not sent. */
  lemma {:induction false} PublishOldestFits(p: Pass, pool: nat, attempts: seq<GlPools.Attempt>, lastExport: nat)
    requires PassFits(p, pool, true, lastExport)
    ensures PassKept(p, PublishOldest(p, pool, attempts), pool, true, lastExport)
    decreases attempts
  {
    var oldest := OldestPendingSlot(p.slots);
    if attempts != [] && oldest.Some? {
      var k := oldest.value;
      PolledPassFits(p, pool, true, k, attempts[0].poll, lastExport);
      CopyReadyFits(p.w, p.slots[k], attempts[0].poll, p.next);
      var (w1, s1, ready) := CopyReady(p.w, p.slots[k], attempts[0].poll);
      var p1 := p.(w := w1, slots := p.slots[k := s1]);
      DerivedOwned(p.slots, p1.slots);
      if ready {
        assert PublishableAt(p1, k, true);
        PublishSlotFits(p1, pool, true, k, attempts[0], lastExport);
        var p2 := PublishSlot(p1, pool, true, k, attempts[0]);
        PublishOldestFits(p2, pool, attempts[1..], lastExport);
        PassKeptTransitive(p, p2, PublishOldest(p2, pool, attempts[1..]), pool, true, lastExport);
      }
    }
  }

  lemma {:induction false} PublishByIndexFits(p: Pass, pool: nat, attempts: seq<GlPools.Attempt>, k: nat, lastExport: nat)
    requires PassFits(p, pool, false, lastExport) && k <= |p.slots| == |attempts|
    ensures PassKept(p, PublishByIndex(p, pool, attempts, k), pool, false, lastExport)
    decreases |p.slots| - k
  {
    if k < |p.slots| {
      PolledPassFits(p, pool, false, k, attempts[k].poll, lastExport);
      CopyReadyFits(p.w, p.slots[k], attempts[k].poll, p.next);
      var (w1, s1, ready) := CopyReady(p.w, p.slots[k], attempts[k].poll);
      var p1 := p.(w := w1, slots := p.slots[k := s1]);
      DerivedOwned(p.slots, p1.slots);
      if ready {
        PublishSlotFits(p1, pool, false, k, attempts[k], lastExport);
      }
      var p2 := if ready then PublishSlot(p1, pool, false, k, attempts[k]) else p1;
      PublishByIndexFits(p2, pool, attempts, k + 1, lastExport);
      PassKeptTransitive(p, p2, PublishByIndex(p2, pool, attempts, k + 1), pool, false, lastExport);
    }
  }

  // ---- Starting a copy ----

  /** A copy starts only into storage without work and without a lease. */
  lemma StartCopyFits(w: GlWorld, s: Slot, source: SourceCandidate, timestamp: nat, rearm: Completion,
                      outcome: CopyOutcome, next: nat)
    requires SlotFits(s, w, next) && Available(s) && WorldOk(w, next)
    ensures var (w', s', started) := StartCopy(w, s, source, timestamp, rearm, outcome);
            && w'.faults == w.faults && SlotFits(s', w', next) && Descends(s, s') && WorldOk(w', next)
            && w' == w.(work := w'.work, unfenced := w'.unfenced, bridge := w'.bridge)
            && (w'.work == w.work || w'.work == w.work + {s.memory})
            && (w'.unfenced == w.unfenced || w'.unfenced == w.unfenced + {s.memory})
            && (w'.bridge == w.bridge || w'.bridge == w.bridge + {s.memory})
            && (s'.source.None? || (s'.source == Some(source) && s'.timestamp == timestamp))
  {
  }
}

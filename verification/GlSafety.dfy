/** What holds of all OpenGL pools together, and how retiring stale pools and publishing one
    pool keep it. */
module GlSafety {
  import opened Wrappers
  import opened Messages
  import opened GlSlots
  import opened GlPools
  import opened GlInvariant
  import opened GlPublication
  import Cadence

  // ---- The invariant ----

  predicate PoolFits(pool: Pool, w: GlWorld, next: nat, lastExport: nat) {
    && SlotsFit(pool.slots, w, next)
    && pool.id in w.newest
    && (IsNvidia(pool.source) ==> Ordered(pool.slots, w.newest[pool.id], lastExport))
    && forall i :: 0 <= i < |pool.slots| && pool.slots[i].source.Some? ==> pool.slots[i].timestamp <= lastExport
  }

  /** Pools have their own identity and storage. */
  predicate Apart(pools: seq<Pool>) {
    forall p, q :: 0 <= p < q < |pools| ==>
      pools[p].id != pools[q].id && Owned(pools[p].slots) !! Owned(pools[q].slots)
  }

  predicate PoolsFit(pools: seq<Pool>, w: GlWorld, next: nat, lastExport: nat) {
    && WorldOk(w, next)
    && (forall p :: 0 <= p < |pools| ==> PoolFits(pools[p], w, next, lastExport))
    && Apart(pools)
  }

  lemma TailFits(pools: seq<Pool>, w: GlWorld, next: nat, lastExport: nat)
    requires PoolsFit(pools, w, next, lastExport) && pools != []
    ensures PoolsFit(pools[1..], w, next, lastExport)
  {
  }

  /** A pool and a list that shares nothing with it. */
  predicate ApartFrom(pool: Pool, pools: seq<Pool>) {
    forall p :: 0 <= p < |pools| ==> pool.id != pools[p].id && Owned(pool.slots) !! Owned(pools[p].slots)
  }

  lemma ConsFits(pool: Pool, rest: seq<Pool>, w: GlWorld, next: nat, lastExport: nat)
    requires PoolFits(pool, w, next, lastExport) && PoolsFit(rest, w, next, lastExport) && ApartFrom(pool, rest)
    ensures PoolsFit([pool] + rest, w, next, lastExport)
  {
    var all := [pool] + rest;
    forall p | 0 <= p < |all|
      ensures PoolFits(all[p], w, next, lastExport)
    {
      if p > 0 { assert all[p] == rest[p - 1]; }
    }
  }

  // ---- Retiring stale pools ----

  /** The pool is one of the originals, with no more storage. */
  predicate From(pools: seq<Pool>, pool: Pool) {
    exists p :: 0 <= p < |pools| && pools[p].id == pool.id && Owned(pool.slots) <= Owned(pools[p].slots)
  }

  predicate Shrinks(pools: seq<Pool>, pools': seq<Pool>) {
    && |pools'| <= |pools|
    && forall q :: 0 <= q < |pools'| ==> From(pools, pools'[q])
  }

  lemma {:induction false} RetireStaleFits(w: GlWorld, pools: seq<Pool>, context: nat, source: SourceCandidate,
                                           calls: seq<RetireCalls>, next: nat, lastExport: nat)
    requires RetireCallsFit(pools, calls) && PoolsFit(pools, w, next, lastExport)
    ensures var (w', pools') := RetireStale(w, pools, context, source, calls);
            w' == w && PoolsFit(pools', w, next, lastExport) && Shrinks(pools, pools')
    decreases pools
  {
    if pools != [] {
      TailFits(pools, w, next, lastExport);
      RetireOneFits(w, pools[0], context, source, calls[0], next, lastExport);
      var (w1, kept) := RetireOne(w, pools[0], context, source, calls[0]);
      RetireStaleFits(w1, pools[1..], context, source, calls[1..], next, lastExport);
      var (_, rest) := RetireStale(w1, pools[1..], context, source, calls[1..]);
      if kept == [] {
        assert kept + rest == rest;
        TailShrinks(pools, rest);
      } else {
        assert kept == [kept[0]];
        HeadKept(pools, kept[0], rest, w, next, lastExport);
      }
    }
  }

  /** Draining keeps a stale pool sound, and deleting a finished one disturbs nothing. */
  lemma RetireOneFits(w: GlWorld, pool: Pool, context: nat, source: SourceCandidate, calls: RetireCalls, next: nat,
                      lastExport: nat)
    requires PoolFits(pool, w, next, lastExport) && WorldOk(w, next)
    requires |calls.drain| == |calls.check| == |pool.slots|
    ensures var (w', kept) := RetireOne(w, pool, context, source, calls);
            && w' == w && |kept| <= 1
            && (kept != [] ==> kept[0].id == pool.id && PoolFits(kept[0], w, next, lastExport)
                               && Owned(kept[0].slots) <= Owned(pool.slots))
  {
    if Stale(pool, context, source) {
      RetireSlotsFit(w, pool.slots, calls.drain, 0, pool.drops, next);
      var (w1, drained, drops) := RetireSlots(w, pool.slots, calls.drain, 0, pool.drops);
      CompleteSlotsFit(w, drained, calls.check, 0, next);
      var (w2, checked, done) := CompleteSlots(w1, drained, calls.check, 0);
      DerivedTransitive(pool.slots, drained, checked);
      DerivedKeeps(pool.slots, checked, w.newest[pool.id], lastExport);
      DerivedOwned(pool.slots, checked);
      if done {
        ReleaseSlotsIsSafe(w, checked, next);
      }
    }
  }

  lemma TailShrinks(pools: seq<Pool>, rest: seq<Pool>)
    requires pools != [] && Shrinks(pools[1..], rest)
    ensures Shrinks(pools, rest)
  {
    forall q | 0 <= q < |rest|
      ensures From(pools, rest[q])
    {
      assert From(pools[1..], rest[q]);
      var p :| 0 <= p < |pools[1..]| && pools[1..][p].id == rest[q].id
               && Owned(rest[q].slots) <= Owned(pools[1..][p].slots);
      assert pools[p + 1] == pools[1..][p];
    }
  }

  lemma HeadKept(pools: seq<Pool>, head: Pool, rest: seq<Pool>, w: GlWorld, next: nat, lastExport: nat)
    requires pools != [] && PoolsFit(pools, w, next, lastExport)
    requires head.id == pools[0].id && Owned(head.slots) <= Owned(pools[0].slots)
    requires PoolFits(head, w, next, lastExport)
    requires PoolsFit(rest, w, next, lastExport) && Shrinks(pools[1..], rest)
    ensures PoolsFit([head] + rest, w, next, lastExport) && Shrinks(pools, [head] + rest)
  {
    forall q | 0 <= q < |rest|
      ensures head.id != rest[q].id && Owned(head.slots) !! Owned(rest[q].slots)
    {
      assert From(pools[1..], rest[q]);
      var p :| 0 <= p < |pools[1..]| && pools[1..][p].id == rest[q].id
               && Owned(rest[q].slots) <= Owned(pools[1..][p].slots);
      assert pools[p + 1] == pools[1..][p];
    }
    ConsFits(head, rest, w, next, lastExport);
    TailShrinks(pools, rest);
    var all := [head] + rest;
    forall q | 0 <= q < |all|
      ensures From(pools, all[q])
    {
      if q == 0 {
        assert pools[0].id == all[0].id;
      } else {
        assert all[q] == rest[q - 1];
      }
    }
  }

  // ---- Publishing ----

  /** What publication may change in the world, seen from the pools it does not touch. */
  predicate Published(w: GlWorld, w': GlWorld, owned: set<nat>, ids: set<nat>) {
    && w'.work == w.work && w'.unfenced == w.unfenced && w'.bridge == w.bridge
    && w.memories <= w'.memories
    && w'.released == w.released && w'.applied == w.applied && w'.faults == w.faults
    && (forall q :: q in w'.leases && w'.leases[q] !in owned ==> q in w.leases && w.leases[q] == w'.leases[q])
    && (forall id :: id in w.newest ==> id in w'.newest && (id !in ids ==> w'.newest[id] == w.newest[id]))
  }

  lemma UntouchedPoolFits(w: GlWorld, w': GlWorld, owned: set<nat>, ids: set<nat>, pool: Pool, next: nat, next': nat,
                          lastExport: nat)
    requires Published(w, w', owned, ids) && PoolFits(pool, w, next, lastExport) && next <= next'
    requires Owned(pool.slots) !! owned && pool.id !in ids
    ensures PoolFits(pool, w', next', lastExport)
  {
    forall i | 0 <= i < |pool.slots|
      ensures SlotFits(pool.slots[i], w', next')
    {
      assert SlotFits(pool.slots[i], w, next);
      assert Allocated(pool.slots[i]) ==> pool.slots[i].memory in Owned(pool.slots);
    }
  }

  lemma OwnedInMemories(slots: seq<Slot>, w: GlWorld, next: nat)
    requires SlotsFit(slots, w, next)
    ensures Owned(slots) <= w.memories
  {
    forall i | 0 <= i < |slots| && Allocated(slots[i])
      ensures slots[i].memory in w.memories
    {
      assert SlotFits(slots[i], w, next);
    }
  }

  /** Fresh storage replaces a slot that lost its own. */
  lemma RefillFits(w: GlWorld, pool: Pool, replacement: Option<Slot>, next: nat, lastExport: nat)
    requires PoolFits(pool, w, next, lastExport) && WorldOk(w, next) && IsNvidia(pool.source)
    requires replacement.Some? ==> FreshSlot(replacement.value, w, true)
    ensures var (w', slots) := Refill(w, pool.slots, replacement);
            && |slots| == |pool.slots| && WorldOk(w', next) && PoolFits(pool.(slots := slots), w', next, lastExport)
            && w' == w.(memories := w'.memories) && w.memories <= w'.memories
            && (forall x :: x in Owned(slots) ==> x in Owned(pool.slots) || x !in w.memories)
  {
    var (w', slots) := Refill(w, pool.slots, replacement);
    if w' != w {
      var k := FirstUnallocated(pool.slots, 0).value;
      OwnedInMemories(pool.slots, w, next);
      forall i | 0 <= i < |slots|
        ensures SlotFits(slots[i], w', next)
      {
        assert SlotFits(pool.slots[i], w, next);
      }
      forall i, j | 0 <= i < j < |slots| && Allocated(slots[i]) && Allocated(slots[j])
        ensures slots[i].memory != slots[j].memory
      {
        assert i != k ==> slots[i].memory in Owned(pool.slots);
        assert j != k ==> slots[j].memory in Owned(pool.slots);
      }
      forall x | x in Owned(slots)
        ensures x in Owned(pool.slots) || x !in w.memories
      {
        var i :| 0 <= i < |slots| && Allocated(slots[i]) && slots[i].memory == x;
        if i != k { assert slots[i] == pool.slots[i]; }
      }
    }
  }

  lemma PublishReadyFits(w: GlWorld, pool: Pool, next: nat, calls: PublishCalls, lastExport: nat)
    requires PublishCallsFit(pool, w, calls) && PoolFits(pool, w, next, lastExport) && WorldOk(w, next)
    ensures var (w', pool', next') := PublishReady(w, pool, next, calls);
            && WorldOk(w', next') && PoolFits(pool', w', next', lastExport) && next <= next'
            && pool'.id == pool.id && pool'.context == pool.context && pool'.source == pool.source
            && pool'.nextCapture == pool.nextCapture && w'.charges == w.charges
            && |pool'.slots| == |pool.slots|
            && (forall x :: x in Owned(pool'.slots) ==> x in Owned(pool.slots) || x !in w.memories)
            && Published(w, w', Owned(pool.slots) + (w'.memories - w.memories), {pool.id})
  {
    if IsNvidia(pool.source) {
      RefillFits(w, pool, calls.replacement, next, lastExport);
      var (w1, filled) := Refill(w, pool.slots, calls.replacement);
      PollSlotsFit(w1, filled, calls.polls, 0, pool.drops, next);
      var (w2, polled, drops) := PollSlots(w1, filled, calls.polls, 0, pool.drops);
      DerivedKeeps(filled, polled, w1.newest[pool.id], lastExport);
      DerivedOwned(filled, polled);
      var start := Pass(w2, polled, pool.exports, drops, next);
      PublishOldestFits(start, pool.id, calls.attempts, lastExport);
      OwnedAfterRefill(w, pool, calls.replacement, polled);
    } else {
      var start := Pass(w, pool.slots, pool.exports, pool.drops, next);
      PublishByIndexFits(start, pool.id, calls.attempts, 0, lastExport);
    }
  }

  lemma OwnedAfterRefill(w: GlWorld, pool: Pool, replacement: Option<Slot>, polled: seq<Slot>)
    requires var (w1, filled) := Refill(w, pool.slots, replacement); Owned(polled) <= Owned(filled)
    ensures var (w1, filled) := Refill(w, pool.slots, replacement);
            forall x :: x in Owned(polled) && (x in Owned(pool.slots) || x !in w.memories) ==>
              x in Owned(pool.slots) + (w1.memories - w.memories)
  {
    var (w1, filled) := Refill(w, pool.slots, replacement);
    forall x | x in Owned(polled) && x !in Owned(pool.slots) && x !in w.memories
      ensures x in w1.memories
    {
      var i :| 0 <= i < |filled| && Allocated(filled[i]) && filled[i].memory == x;
    }
  }
}

/** The order in which pools without the NVIDIA bridge announce their copies: by slot, not by time. */
module GlOrder {
  import opened Wrappers
  import opened Messages
  import opened GlSlots
  import opened GlPools
  import opened GlPublication
  import opened GlRuns
  import opened GlProgress
  import Cadence

  // ---- The exact condition ----

  function Stamps(log: seq<Announcement>): seq<nat> {
    seq(|log|, i requires 0 <= i < |log| => log[i].timestamp)
  }

  predicate IncreasingAbove(bound: nat, stamps: seq<nat>) {
    && (forall i :: 0 <= i < |stamps| ==> bound < stamps[i])
    && forall i, j :: 0 <= i < j < |stamps| ==> stamps[i] < stamps[j]
  }

  /** This visit will find the copy finished, and its descriptor and announcement get through. */
  predicate Leaves(w: GlWorld, s: Slot, a: GlPools.Attempt) { CopyReady(w, s, a.poll).2 && Delivers(a) }

  /** The copies that leave from slot k on are newer than the bound and in time order by slot. */
  predicate SlotOrder(w: GlWorld, slots: seq<Slot>, attempts: seq<GlPools.Attempt>, k: nat, bound: nat)
    requires |slots| == |attempts|
  {
    && (forall i :: k <= i < |slots| && Leaves(w, slots[i], attempts[i]) ==> bound < slots[i].timestamp)
    && forall i, j :: k <= i < j < |slots| && Leaves(w, slots[i], attempts[i]) && Leaves(w, slots[j], attempts[j]) ==>
         slots[i].timestamp < slots[j].timestamp
  }

  function LeavingStamps(w: GlWorld, slots: seq<Slot>, attempts: seq<GlPools.Attempt>, k: nat): seq<nat>
    requires k <= |slots| == |attempts|
    decreases |slots| - k
  {
    if k == |slots| then []
    else (if Leaves(w, slots[k], attempts[k]) then [slots[k].timestamp] else [])
         + LeavingStamps(w, slots, attempts, k + 1)
  }

  /** Whether a copy leaves depends on its slot and on the GPU only. */
  lemma {:induction false} LeavingFrame(w: GlWorld, w': GlWorld, slots: seq<Slot>, slots': seq<Slot>,
                                        attempts: seq<GlPools.Attempt>, k: nat)
    requires k <= |slots| == |slots'| == |attempts| && w'.work == w.work && w'.bridge == w.bridge
    requires forall i :: k <= i < |slots| ==> slots'[i] == slots[i]
    ensures LeavingStamps(w', slots', attempts, k) == LeavingStamps(w, slots, attempts, k)
    decreases |slots| - k
  {
    if k < |slots| {
      assert CopyReady(w', slots[k], attempts[k].poll).2 == CopyReady(w, slots[k], attempts[k].poll).2;
      LeavingFrame(w, w', slots, slots', attempts, k + 1);
    }
  }

  /** One visit of the pass announces the slot's copy if it leaves, and nothing otherwise. */
  lemma VisitAnnounces(p: Pass, pool: nat, a: GlPools.Attempt, k: nat)
    requires k < |p.slots|
    ensures var (w1, s1, ready) := CopyReady(p.w, p.slots[k], a.poll);
            var p1 := p.(w := w1, slots := p.slots[k := s1]);
            var p2 := if ready then PublishSlot(p1, pool, false, k, a) else p1;
            && |p2.slots| == |p.slots| && p2.w.work == p.w.work && p2.w.bridge == p.w.bridge
            && (forall i :: k < i < |p.slots| ==> p2.slots[i] == p.slots[i])
            && Stamps(p2.w.log)
               == Stamps(p.w.log) + (if Leaves(p.w, p.slots[k], a) then [p.slots[k].timestamp] else [])
  {
  }

  lemma {:induction false} PassAnnounces(p: Pass, pool: nat, attempts: seq<GlPools.Attempt>, k: nat)
    requires k <= |p.slots| == |attempts|
    ensures Stamps(PublishByIndex(p, pool, attempts, k).w.log)
            == Stamps(p.w.log) + LeavingStamps(p.w, p.slots, attempts, k)
    decreases |p.slots| - k
  {
    if k < |p.slots| {
      var (w1, s1, ready) := CopyReady(p.w, p.slots[k], attempts[k].poll);
      var p1 := p.(w := w1, slots := p.slots[k := s1]);
      var p2 := if ready then PublishSlot(p1, pool, false, k, attempts[k]) else p1;
      VisitAnnounces(p, pool, attempts[k], k);
      PassAnnounces(p2, pool, attempts, k + 1);
      LeavingFrame(p.w, p2.w, p.slots, p2.slots, attempts, k + 1);
      var one := if Leaves(p.w, p.slots[k], attempts[k]) then [p.slots[k].timestamp] else [];
      assert (Stamps(p.w.log) + one) + LeavingStamps(p.w, p.slots, attempts, k + 1)
          == Stamps(p.w.log) + LeavingStamps(p.w, p.slots, attempts, k);
    }
  }

  lemma ConsIncreases(bound: nat, x: nat, rest: seq<nat>)
    ensures IncreasingAbove(bound, [x] + rest) <==> bound < x && IncreasingAbove(x, rest)
  {
    var all := [x] + rest;
    if IncreasingAbove(bound, all) {
      assert all[0] == x;
      assert forall i :: 0 <= i < |rest| ==> all[i + 1] == rest[i];
    }
  }

  lemma {:induction false} OrderAgrees(w: GlWorld, slots: seq<Slot>, attempts: seq<GlPools.Attempt>, k: nat, bound: nat)
    requires k <= |slots| == |attempts|
    ensures IncreasingAbove(bound, LeavingStamps(w, slots, attempts, k)) <==> SlotOrder(w, slots, attempts, k, bound)
    decreases |slots| - k
  {
    if k < |slots| {
      var rest := LeavingStamps(w, slots, attempts, k + 1);
      if Leaves(w, slots[k], attempts[k]) {
        ConsIncreases(bound, slots[k].timestamp, rest);
        OrderAgrees(w, slots, attempts, k + 1, slots[k].timestamp);
      } else {
        assert [] + rest == rest;
        OrderAgrees(w, slots, attempts, k + 1, bound);
      }
    }
  }

  /** A pool without the bridge announces strictly increasing timestamps above a bound, such as its newest
      announcement, if and only if the finished copies that leave are in time order by slot and newer
      than that bound. */
  lemma IndexOrderExactly(w: GlWorld, pool: Pool, next: nat, calls: PublishCalls, bound: nat)
    requires PublishCallsFit(pool, w, calls) && !IsNvidia(pool.source)
    ensures var log := PublishReady(w, pool, next, calls).0.log;
            && w.log <= log
            && (IncreasingAbove(bound, Stamps(log[|w.log|..])) <==> SlotOrder(w, pool.slots, calls.attempts, 0, bound))
  {
    var p := Pass(w, pool.slots, pool.exports, pool.drops, next);
    var log := PublishReady(w, pool, next, calls).0.log;
    PassAnnounces(p, pool.id, calls.attempts, 0);
    LogGrows(p, pool.id, calls.attempts, 0);
    OrderAgrees(w, pool.slots, calls.attempts, 0, bound);
    assert Stamps(log[|w.log|..]) == Stamps(log)[|w.log|..] == LeavingStamps(w, pool.slots, calls.attempts, 0);
  }

  lemma {:induction false} LogGrows(p: Pass, pool: nat, attempts: seq<GlPools.Attempt>, k: nat)
    requires k <= |p.slots| == |attempts|
    ensures p.w.log <= PublishByIndex(p, pool, attempts, k).w.log
    decreases |p.slots| - k
  {
    if k < |p.slots| {
      var (w1, s1, ready) := CopyReady(p.w, p.slots[k], attempts[k].poll);
      var p1 := p.(w := w1, slots := p.slots[k := s1]);
      LogGrows(if ready then PublishSlot(p1, pool, false, k, attempts[k]) else p1, pool, attempts, k + 1);
    }
  }
}

/** The promises of the Vulkan replay hand-off, read off the invariant of every run. */
module ReplayTheorems {
  import opened Wrappers
  import opened Messages
  import opened ReplayWorld
  import opened ReplayState
  import opened ReplayMachine
  import opened ReplayInvariant
  import opened ReplayRouteLemmas
  import opened ReplaySlotLemmas
  import opened ReplayMapSteps
  import opened ReplaySlotSteps
  import opened ReplayPresentSteps
  import opened ReplaySafety
  import Cadence

  // ---- Leases ----

  /** The flags that guard exported buffers, in every reachable state: pending copies are in
      usable contexts, a usable context without one has a signalled fence, and a context the
      daemon holds carries the leased sequence, unreleased and without a copy in progress. */
  lemma LeasedBuffersAreGuarded(events: seq<Event>, slot: nat)
    requires AllAllowed(Initial, events) && slot < 5
    ensures var m := Run(Initial, events);
            |m.s.retired| == 2
            && (Slot(m.s, slot).Some? ==>
                  var r := Slot(m.s, slot).value;
                  && r.id in m.w.gpus
                  && |m.w.gpus[r.id].fences| == |r.contexts|
                  && (forall k :: 0 <= k < |r.contexts| ==>
                        && (r.contexts[k].pending ==> r.contexts[k].usable)
                        && (r.contexts[k].usable && !r.contexts[k].pending ==> m.w.gpus[r.id].fences[k] == Signaled))
                  && (forall q :: q in m.w.leases && m.w.leases[q].0 == r.id ==> LeaseHeld(r, m.w.leases[q].1, q)))
  {
    InitialInv();
    RunKeeps(Initial, events);
    var m := Run(Initial, events);
    if Slot(m.s, slot).Some? {
      var r := Slot(m.s, slot).value;
      assert RouteOk(r, m.s.nextSequence, m.w);
      var g := m.w.gpus[r.id];
      assert forall k :: 0 <= k < |r.contexts| ==> ContextOk(r.contexts[k], g.fences[k], g.buffers[k], r.exportRequired);
    }
  }

  // ---- Conservation ----

  function SlotContexts(s: State, k: nat): nat
    requires |s.retired| == 2 && k < 5
  {
    if Slot(s, k).Some? then |Slot(s, k).value.contexts| else 0
  }

  function TotalContexts(s: State): nat
    requires |s.retired| == 2
  {
    SlotContexts(s, 0) + SlotContexts(s, 1) + SlotContexts(s, 2) + SlotContexts(s, 3) + SlotContexts(s, 4)
  }

  function SlotIds(s: State): set<nat>
    requires |s.retired| == 2
  {
    set k | 0 <= k < 5 && Slot(s, k).Some? :: Slot(s, k).value.id
  }

  /** The routes not yet destroyed are exactly those of the slots, one slot each; an
      overflow route excludes an active one; a swapchain waiting beside an active route is
      its replacement. */
  predicate RoutesAccounted(s: State, alive: set<nat>) {
    && |s.retired| == 2
    && alive == SlotIds(s)
    && (forall j, k :: 0 <= j < k < 5 && Slot(s, j).Some? && Slot(s, k).Some? ==>
          Slot(s, j).value.id != Slot(s, k).value.id)
    && s.quarantined.None?
    && (s.abandoned.Some? ==> s.route.None?)
    && (s.pendingSwapchain.Some? && s.route.Some? ==> s.pendingSwapchain.value.replaced == s.route.value.swapchain)
  }

  lemma AccountFromInv(m: Machine)
    requires Inv(m)
    ensures RoutesAccounted(m.s, m.w.alive)
    ensures TotalContexts(m.s) <= 24
  {
    var s := m.s;
    forall k | 0 <= k < 5 && Slot(s, k).Some?
      ensures Slot(s, k).value.id in m.w.alive && |Slot(s, k).value.contexts| <= 8
    {
      assert RouteOk(Slot(s, k).value, s.nextSequence, m.w);
    }
    forall id | id in m.w.alive
      ensures id in SlotIds(s)
    {
      var k :| 0 <= k < 5 && Slot(s, k).Some? && Slot(s, k).value.id == id;
    }
    assert Slot(s, 0) == s.route && Slot(s, 3) == s.abandoned && Slot(s, 4) == s.quarantined;
  }

  lemma AtMostThreeAlive(s: State, alive: set<nat>)
    requires RoutesAccounted(s, alive)
    ensures |alive| <= 3
  {
    assert Slot(s, 0) == s.route && Slot(s, 3) == s.abandoned && Slot(s, 4) == s.quarantined;
    SmallUnion(alive, if s.route.Some? then s.route else s.abandoned, s.retired[0], s.retired[1]);
  }

  /** In every reachable state all routes are accounted for, none was leaked or destroyed
      twice, and at most three routes with 24 contexts exist. */
  lemma RoutesAreConserved(events: seq<Event>)
    requires AllAllowed(Initial, events)
    ensures var m := Run(Initial, events);
            && RoutesAccounted(m.s, m.w.alive)
            && Leaked !in m.w.faults && DestroyedTwice !in m.w.faults
            && |m.w.alive| <= 3 && TotalContexts(m.s) <= 24
  {
    InitialInv();
    RunKeeps(Initial, events);
    var m := Run(Initial, events);
    AccountFromInv(m);
    AtMostThreeAlive(m.s, m.w.alive);
  }

  lemma SmallUnion(ids: set<nat>, a: Option<Route>, b: Option<Route>, c: Option<Route>)
    requires forall id :: id in ids ==>
               (a.Some? && id == a.value.id) || (b.Some? && id == b.value.id) || (c.Some? && id == c.value.id)
    ensures |ids| <= 3
  {
    var x := if a.Some? then {a.value.id} else {};
    var y := if b.Some? then {b.value.id} else {};
    var z := if c.Some? then {c.value.id} else {};
    assert ids <= x + y + z;
    CardinalityMonotone(ids, x + y + z);
  }

  lemma {:induction false} CardinalityMonotone(a: set<nat>, b: set<nat>)
    requires a <= b
    ensures |a| <= |b|
  {
    if a != {} {
      var x :| x in a;
      CardinalityMonotone(a - {x}, b - {x});
    }
  }

  // ---- Exported timestamps ----

  /** Timestamps delivered to the daemon strictly increase over the whole process, across
      route replacement. */
  lemma ExportedTimestampsIncrease(events: seq<Event>)
    requires AllAllowed(Initial, events)
    ensures var exports := Run(Initial, events).w.exports;
            forall i, j :: 0 <= i < j < |exports| ==> exports[i] < exports[j]
  {
    InitialInv();
    RunKeeps(Initial, events);
  }

  // ---- Queue-family ownership ----

  /** Barriers of the copy that reuses an exported buffer pair with the earlier release
      exactly when the earlier copy carried a nonzero capture time. */
  lemma ReusePairsIffStampNonzero(stamp: nat)
    ensures var afterFirst := Execute(Ownership(Producer, PresentSource), RecordCopy(true, false));
            && afterFirst == Some(Ownership(Foreign, PresentSource))
            && (Execute(afterFirst.value, RecordCopy(true, stamp != 0)).Some? <==> stamp != 0)
  {
    RecordedBarriersPair(true, false);
    if stamp != 0 {
      RecordedBarriersPair(true, true);
    } else {
      var start := Ownership(Foreign, PresentSource);
      var commands := RecordCopy(true, false);
      assert commands[1..][0] == CopyImageToBuffer;
      assert Execute(start, commands) == Execute(start.(image := TransferSource), commands[1..]);
    }
  }
}

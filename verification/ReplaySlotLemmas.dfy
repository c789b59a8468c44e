/** How moving routes between slots, creating and destroying them keeps the invariant. */
module ReplaySlotLemmas {
  import opened Wrappers
  import opened Messages
  import opened ReplayWorld
  import opened ReplayState
  import opened ReplayMachine
  import opened ReplayInvariant
  import opened ReplayRouteLemmas

  /** Everything a step can see of the slots other than the routes' mutable fields. */
  predicate SameSlots(s: State, s': State)
    requires |s.retired| == |s'.retired| == 2
  {
    && s'.devices == s.devices
    && s'.pendingSwapchain == s.pendingSwapchain
    && s'.disabled == s.disabled
    && forall k :: 0 <= k < 5 ==>
         (Slot(s', k).Some? <==> Slot(s, k).Some?)
         && (Slot(s, k).Some? ==> SamePlace(Slot(s, k).value, Slot(s', k).value))
  }

  lemma UpdatedSlotsKeep(m: Machine, m': Machine)
    requires Inv(m) && |m'.s.retired| == 2 && SameSlots(m.s, m'.s) && RoutesOk(m')
    requires m'.w.alive == m.w.alive && m'.w.live == m.w.live
    requires m'.s.route.Some? ==> !m'.s.route.value.gpuIdle
    ensures Conserved(m'.s, m'.w.alive) && SlotsOk(m'.s, m'.w)
  {
    forall id | id in m'.w.alive
      ensures exists k :: 0 <= k < 5 && Slot(m'.s, k).Some? && Slot(m'.s, k).value.id == id
    {
      var k :| 0 <= k < 5 && Slot(m.s, k).Some? && Slot(m.s, k).value.id == id;
      assert Slot(m'.s, k).Some? && SamePlace(Slot(m.s, k).value, Slot(m'.s, k).value);
    }
    assert Slot(m.s, 0).Some? ==> SamePlace(Slot(m.s, 0).value, Slot(m'.s, 0).value);
    assert Slot(m.s, 3).Some? <==> Slot(m'.s, 3).Some?;
    assert Slot(m.s, 4).Some? <==> Slot(m'.s, 4).Some?;
  }

  /** A retained route that is reclaimable may be destroyed: nothing is in flight, waited
      for or leased. */
  lemma ReclaimableIsFree(r: Route, next: nat, w: World)
    requires RouteOk(r, next, w) && RetiredRouteReclaimable(r)
    requires forall q :: q in w.leases ==> 0 < q
    ensures DestroyRoute(w, r.id, false).faults == w.faults
  {
    var g := w.gpus[r.id];
    assert NoWaits(g);
  }

  /** The part of the invariant about which routes exist. */
  predicate Core(m: Machine) {
    |m.s.retired| == 2 && RoutesOk(m) && Conserved(m.s, m.w.alive)
  }

  /** State s' is s without the route of slot k. */
  predicate SlotCleared(s: State, s': State, k: nat)
    requires |s.retired| == 2 && k < 5
  {
    && |s'.retired| == 2
    && s'.nextSequence == s.nextSequence
    && Slot(s', k).None?
    && forall j :: 0 <= j < 5 && j != k ==> Slot(s', j) == Slot(s, j)
  }

  lemma DestroyKeepsCore(m: Machine, s': State, k: nat, withDevice: bool)
    requires Core(m) && k < 5 && Slot(m.s, k).Some? && SlotCleared(m.s, s', k)
    ensures Core(Machine(s', DestroyRoute(m.w, Slot(m.s, k).value.id, withDevice)))
  {
    var gone := Slot(m.s, k).value.id;
    var w' := DestroyRoute(m.w, gone, withDevice);
    forall j | 0 <= j < 5 && Slot(s', j).Some?
      ensures RouteOk(Slot(s', j).value, s'.nextSequence, w')
    {
      assert j != k && Slot(m.s, j) == Slot(s', j);
      assert RouteOk(Slot(m.s, j).value, m.s.nextSequence, m.w);
    }
    forall id | id in w'.alive
      ensures exists j :: 0 <= j < 5 && Slot(s', j).Some? && Slot(s', j).value.id == id
    {
      var j :| 0 <= j < 5 && Slot(m.s, j).Some? && Slot(m.s, j).value.id == id;
      assert Slot(s', j) == Slot(m.s, j);
    }
  }

  /** The state with one retained slot reclaimed if its proofs are complete. */
  function ReclaimSlot(m: Machine, k: nat): Machine
    requires 1 <= k < 4 && |m.s.retired| == 2
  {
    var slot := Slot(m.s, k);
    Machine(if k < 3 then m.s.(retired := m.s.retired[k - 1 := AfterReclaim(slot)])
            else m.s.(abandoned := AfterReclaim(slot)),
            DestroyIf(m.w, slot, Reclaimable(slot), false))
  }

  lemma ReclaimSlotKeeps(m: Machine, k: nat)
    requires Core(m) && 1 <= k < 4
    requires forall q :: q in m.w.leases ==> 0 < q
    ensures Core(ReclaimSlot(m, k))
    ensures var w' := ReclaimSlot(m, k).w; w' == m.w.(alive := w'.alive)
    ensures ReclaimSlot(m, k).w.alive <= m.w.alive
  {
    var slot := Slot(m.s, k);
    var m' := ReclaimSlot(m, k);
    if Reclaimable(slot) {
      ReclaimableIsFree(slot.value, m.s.nextSequence, m.w);
      assert SlotCleared(m.s, m'.s, k);
      DestroyKeepsCore(m, m'.s, k, false);
    } else if k < 3 {
      assert m.s.retired[k - 1 := slot] == m.s.retired;
    }
  }

  lemma ReclaimInSteps(m: Machine)
    requires |m.s.retired| == 2
    ensures var m3 := ReclaimSlot(ReclaimSlot(ReclaimSlot(m, 1), 2), 3);
            ReclaimIdleReleased(m)
            == m3.(s := m3.s.(disabled := m3.s.abandoned.Some? || m3.s.quarantined.Some?))
  {
    var m3 := ReclaimSlot(ReclaimSlot(ReclaimSlot(m, 1), 2), 3);
    assert m3.s.retired == [AfterReclaim(m.s.retired[0]), AfterReclaim(m.s.retired[1])];
  }

  /** Core looks at the slots and the sequence counter only. */
  lemma SameCore(m: Machine, s': State)
    requires Core(m) && |s'.retired| == 2 && s'.nextSequence == m.s.nextSequence
    requires forall k :: 0 <= k < 5 ==> Slot(s', k) == Slot(m.s, k)
    ensures Core(m.(s := s'))
  {
    forall k | 0 <= k < 5 && Slot(s', k).Some?
      ensures RouteOk(Slot(s', k).value, s'.nextSequence, m.w)
    {
      assert RouteOk(Slot(m.s, k).value, m.s.nextSequence, m.w);
    }
    forall id | id in m.w.alive
      ensures exists k :: 0 <= k < 5 && Slot(s', k).Some? && Slot(s', k).value.id == id
    {
      var k :| 0 <= k < 5 && Slot(m.s, k).Some? && Slot(m.s, k).value.id == id;
      assert Slot(s', k) == Slot(m.s, k);
    }
  }

  lemma ReclaimKeepsCore(m: Machine)
    requires Core(m)
    requires forall q :: q in m.w.leases ==> 0 < q
    ensures var m' := ReclaimIdleReleased(m);
            Core(m') && m'.w == m.w.(alive := m'.w.alive) && m'.w.alive <= m.w.alive
  {
    ReclaimInSteps(m);
    var m1 := ReclaimSlot(m, 1);
    var m2 := ReclaimSlot(m1, 2);
    var m3 := ReclaimSlot(m2, 3);
    ReclaimSlotKeeps(m, 1);
    ReclaimSlotKeeps(m1, 2);
    ReclaimSlotKeeps(m2, 3);
    SameCore(m3, ReclaimIdleReleased(m).s);
  }

  /** Slots after a step that only removes retained routes. */
  predicate SomeRemoved(s: State, s': State)
    requires |s.retired| == |s'.retired| == 2
  {
    && s' == s.(route := s'.route, retired := s'.retired, abandoned := s'.abandoned, quarantined := s'.quarantined,
                disabled := s'.disabled)
    && s'.route == s.route
    && forall k :: 0 <= k < 5 ==> Slot(s', k).None? || Slot(s', k) == Slot(s, k)
  }

  lemma RemovalKeepsSlots(s: State, s': State, w: World)
    requires |s.retired| == |s'.retired| == 2
    requires SlotsOk(s, w) && SomeRemoved(s, s') && (s'.disabled <==> s'.abandoned.Some?)
    ensures SlotsOk(s', w)
  {
    assert Slot(s', 3).None? || Slot(s', 3) == Slot(s, 3);
    assert Slot(s', 4) == s'.quarantined;
  }

  lemma ReclaimKeeps(m: Machine)
    requires Inv(m)
    ensures var m' := ReclaimIdleReleased(m);
            && Inv(m')
            && m'.w == m.w.(alive := m'.w.alive)
            && m'.s.pendingSwapchain == m.s.pendingSwapchain
  {
    var m' := ReclaimIdleReleased(m);
    ReclaimKeepsCore(m);
    ReclaimRemovesSome(m);
    RemovalKeepsSlots(m.s, m'.s, m.w);
    OtherStateKept(m, m');
  }

  lemma ReclaimRemovesSome(m: Machine)
    requires |m.s.retired| == 2
    ensures var s' := ReclaimIdleReleased(m).s;
            |s'.retired| == 2 && SomeRemoved(m.s, s') && s'.quarantined == m.s.quarantined
            && s'.disabled == (s'.abandoned.Some? || s'.quarantined.Some?)
  {
  }

  lemma OtherStateKept(m: Machine, m': Machine)
    requires |m.s.retired| == |m'.s.retired| == 2 && SomeRemoved(m.s, m'.s) && m'.w == m.w.(alive := m'.w.alive)
    requires m'.w.alive <= m.w.alive && SemaphoresOk(m.s, m.w) && ExportsOk(m.s, m.w)
    ensures SemaphoresOk(m'.s, m'.w) && ExportsOk(m'.s, m'.w)
  {
    if m.s.route.Some? {
      assert forall i :: InCall(m.w, m.s.route.value, i) ==> InCall(m'.w, m.s.route.value, i);
    }
  }

  // ---- Creating a route ----

  lemma NewRouteOk(setup: Setup, count: nat, queue: nat, pending: PendingSwapchain, next: nat, w: World)
    requires SetupPossible(setup, pending.candidate) && count <= |setup.exportFds|
    requires setup.id !in w.gpus && 0 < next && setup.imageCount <= MAX_IMAGES
    requires REPLAY_PRODUCER_CONTEXT_COUNT <= count <= MAX_IMAGES
    requires forall q :: q in w.leases ==> w.leases[q].0 in w.gpus
    requires WaitingDescribed(pending)
    ensures var r := NewRoute(setup, count, pending.device, queue, pending);
            RouteOk(r, next, CreateRoute(w, r.id, HandleOf(r), queue, count))
  {
    var r := NewRoute(setup, count, pending.device, queue, pending);
    var w' := CreateRoute(w, r.id, HandleOf(r), queue, count);
    var g := w'.gpus[r.id];
    assert forall k :: 0 <= k < count ==> ContextOk(r.contexts[k], g.fences[k], g.buffers[k], r.exportRequired);
  }
}

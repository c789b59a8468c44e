/** Reclaiming retired routes, and recording goes on: a route whose presentations are confirmed is
    destroyed by whichever of the idle wait and the last acknowledgement arrives last, and a waiting
    swapchain is put into service. */
module ReplayReclaim {
  import opened Wrappers
  import opened Messages
  import opened ReplayWorld
  import opened ReplayState
  import opened ReplayMachine
  import opened ReplayInvariant

  predicate Presented(r: Route) { forall i :: 0 <= i < |r.presentationPending| ==> !r.presentationPending[i] }

  predicate Returned(c: Context) { c.exportSequence == 0 || c.exportReleased }

  predicate AllReturned(r: Route) { forall j :: 0 <= j < |r.contexts| ==> Returned(r.contexts[j]) }

  /** Slots 1 to 3 hold routes that left service. */
  predicate Retired(s: State, k: nat, r: Route) { |s.retired| == 2 && 1 <= k <= 3 && Slot(s, k) == Some(r) }

  predicate Gone(m: Machine, k: nat, id: nat) { |m.s.retired| == 2 && k < 5 && Slot(m.s, k).None? && id !in m.w.alive }

  lemma ReclaimRemoves(m: Machine, k: nat, r: Route)
    requires Retired(m.s, k, r) && r.gpuIdle && Presented(r) && AllReturned(r)
    ensures Gone(ReclaimIdleReleased(m), k, r.id)
  {
    assert forall j :: 0 <= j < |r.contexts| ==> Returned(r.contexts[j]);
    assert RetiredRouteReclaimable(r);
  }

  lemma ResumeKeepsGone(m: Machine, queue: Option<nat>, setup: Setup, sent: bool, k: nat, id: nat)
    requires Gone(m, k, id) && 1 <= k <= 3 && setup.id != id
    requires m.s.pendingSwapchain.Some? ==> SetupPossible(setup, m.s.pendingSwapchain.value.candidate)
    ensures Gone(Resume(m, queue, setup, sent), k, id)
  {
  }

  /** The queue-idle proof comes last. */
  lemma LastIdleReclaims(m: Machine, e: Event, k: nat, r: Route)
    requires e.QueueIdle? && WellFormed(m, e) && Retired(m.s, k, r) && e.setup.id != r.id
    requires r.queue == e.queue && Presented(r) && AllReturned(r) && e.queue != 0
    ensures Gone(AfterQueueIdle(m, e), k, r.id)
  {
    var f := IdlingQueue(e.queue);
    var m1 := m.(s := MapRetired(m.s, f));
    assert AllReturned(f(r));
    ReclaimRemoves(m1, k, f(r));
    ResumeKeepsGone(ReclaimIdleReleased(m1), Some(e.queue), e.setup, e.sent, k, r.id);
  }

  /** The daemon's last acknowledgement comes last. */
  lemma LastAcknowledgementReclaims(m: Machine, e: Event, k: nat, r: Route)
    requires e.ReleaseSequence? && !e.busy && WellFormed(m, e) && Retired(m.s, k, r) && e.setup.id != r.id
    requires r.gpuIdle && Presented(r)
    requires forall j :: 0 <= j < |r.contexts| ==>
               Returned(r.contexts[j]) || r.contexts[j].exportSequence == e.sequence
    ensures Gone(Release(m, e).0, k, r.id)
  {
    var f := Releasing(e.sequence);
    var m1 := m.(s := MapRetired(m.s, f).(route := MapSlot(m.s.route, f), quarantined := MapSlot(m.s.quarantined, f)));
    assert AllReturned(f(r));
    ReclaimRemoves(m1, k, f(r));
    var m2 := ReclaimIdleReleased(m1);
    ResumeKeepsGone(m2, PendingQueue(m2.s), e.setup, e.sent, k, r.id);
  }

  /** A route that lacks any one proof stays. */
  lemma MissingProofKeeps(m: Machine, k: nat, r: Route)
    requires Retired(m.s, k, r)
    requires !r.gpuIdle || !Presented(r) || !AllReturned(r)
    ensures Slot(ReclaimIdleReleased(m).s, k) == Some(r)
  {
  }

  // ---- Recording goes on ----

  /** Native setup for this swapchain will succeed. */
  predicate SetupSucceeds(m: Machine, p: PendingSwapchain, setup: Setup) {
    && SetupPossible(setup, p.candidate)
    && p.device in m.s.devices && m.s.devices[p.device].queue != 0
    && CreatedRoute(setup, m.s.devices[p.device], p).Some?
  }

  /** This swapchain is recorded, nothing latches its capture off, and the daemon knows its source or will
      be told. */
  predicate Records(m: Machine, p: PendingSwapchain) {
    && m.s.route.Some? && m.s.route.value.swapchain == p.swapchain && m.s.route.value.device == p.device
    && m.s.pendingSwapchain.None? && !m.s.sourceRejected && !m.s.presentationUncertain && !m.s.disabled
    && (m.s.pendingAssessment.None? || m.s.pendingAssessment == Some(Accepted(p.candidate)))
  }

  lemma InstallRecords(m: Machine, p: PendingSwapchain, setup: Setup, sent: bool)
    requires CanCreateRoute(m.s) && SetupSucceeds(m, p, setup)
    ensures Records(InstallRoute(m, p, setup, sent), p)
  {
  }

  /** Destroying a recorded swapchain hands over to its replacement at once while a retired slot
      is free, and the old route is retained, not destroyed. */
  lemma ReplacementTakesOver(m: Machine, e: Event, r: Route, p: PendingSwapchain)
    requires e.SwapchainDestroyed? && WellFormed(m, e) && m.s.route == Some(r) && m.s.pendingSwapchain == Some(p)
    requires r.device == e.device == p.device && r.swapchain == e.swapchain == p.replaced && p.swapchain != e.swapchain
    requires CanCreateRoute(m.s.(route := None)) && (m.s.retired[0].None? || m.s.retired[1].None?)
    requires SetupSucceeds(m, p, e.setup)
    ensures var m' := DestroySwapchain(m, e);
            && Records(m', p) && |m'.s.retired| == 2
            && (m'.s.retired[0] == Some(r) || m'.s.retired[1] == Some(r))
            && (r.id in m.w.alive ==> r.id in m'.w.alive)
  {
    var retained := RetainRetired(m.(s := m.s.(route := None)), r, e.sent);
    InstallRecords(retained, p, e.setup, e.sent);
  }

  /** After an overflow recording stops; the idle proof that frees the overflow route puts the
      waiting swapchain of that queue into service. */
  lemma OverflowRecovers(m: Machine, e: Event, r: Route, p: PendingSwapchain)
    requires e.QueueIdle? && WellFormed(m, e) && e.queue != 0
    requires m.s.route.None? && m.s.quarantined.None? && m.s.abandoned == Some(r) && m.s.pendingSwapchain == Some(p)
    requires r.queue == e.queue && Presented(r) && AllReturned(r)
    requires SetupSucceeds(m, p, e.setup) && m.s.devices[p.device].queue == e.queue
    ensures Records(AfterQueueIdle(m, e), p)
  {
    var f := IdlingQueue(e.queue);
    var m1 := m.(s := MapRetired(m.s, f));
    assert AllReturned(f(r));
    ReclaimRemoves(m1, 3, f(r));
    InstallRecords(ReclaimIdleReleased(m1), p, e.setup, e.sent);
  }
}

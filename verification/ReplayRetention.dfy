/** Which proofs can still arrive for a route after its swapchain is gone. */
module ReplayRetention {
  import opened Wrappers
  import opened Messages
  import opened ReplayWorld
  import opened ReplayState
  import opened ReplayMachine
  import opened ReplayInvariant
  import opened ReplayRouteLemmas
  import opened ReplaySlotLemmas
  import opened ReplayMapSteps
  import opened ReplaySlotSteps
  import opened ReplayPresentSteps
  import opened ReplaySafety
  import opened ReplayReclaim

  /** Slot k still holds route r, with the same outstanding presentation waits. */
  predicate Holds(s: State, k: nat, r: Route) {
    && |s.retired| == 2 && 1 <= k < 4
    && Slot(s, k).Some?
    && Slot(s, k).value.id == r.id
    && Slot(s, k).value.device == r.device
    && Slot(s, k).value.presentationPending == r.presentationPending
  }

  predicate Waiting(r: Route) { exists i :: 0 <= i < |r.presentationPending| && r.presentationPending[i] }

  lemma ReclaimHolds(m: Machine, k: nat, r: Route)
    requires Holds(m.s, k, r) && Waiting(r)
    ensures Holds(ReclaimIdleReleased(m).s, k, r)
  {
    var i :| 0 <= i < |r.presentationPending| && r.presentationPending[i];
    assert Slot(m.s, k).value.presentationPending[i];
    assert !Reclaimable(Slot(m.s, k));
  }

  lemma InstallHolds(m: Machine, pending: PendingSwapchain, setup: Setup, sent: bool, k: nat, r: Route)
    requires Holds(m.s, k, r) && SetupPossible(setup, pending.candidate)
    ensures Holds(InstallRoute(m, pending, setup, sent).s, k, r)
  {
  }

  lemma MapHolds(s: State, f: Route -> Route, k: nat, r: Route)
    requires Holds(s, k, r)
    requires forall q :: SamePlace(q, f(q))
    requires f(Slot(s, k).value).presentationPending == Slot(s, k).value.presentationPending
    ensures Holds(MapRetired(s, f).(route := MapSlot(s.route, f)), k, r)
    ensures Holds(MapRetired(s, f), k, r)
  {
  }

  lemma ResumeHolds(m: Machine, queue: Option<nat>, setup: Setup, sent: bool, k: nat, r: Route)
    requires Holds(m.s, k, r) && Waiting(r)
    requires m.s.pendingSwapchain.Some? ==> SetupPossible(setup, m.s.pendingSwapchain.value.candidate)
    ensures Holds(Resume(ReclaimIdleReleased(m), queue, setup, sent).s, k, r)
  {
    ReclaimHolds(m, k, r);
    var m1 := ReclaimIdleReleased(m);
    if m1.s.pendingSwapchain.Some? {
      InstallHolds(m1, m1.s.pendingSwapchain.value, setup, sent, k, r);
    }
  }

  lemma RetainHolds(m: Machine, r': Route, sent: bool, k: nat, r: Route)
    requires Holds(m.s, k, r)
    ensures Holds(RetainRetired(m, r', sent).s, k, r)
    ensures RetainRetired(m, r', sent).s.pendingSwapchain == m.s.pendingSwapchain
  {
  }

  lemma ReplacementHolds(m: Machine, e: Event, k: nat, r: Route)
    requires e.SwapchainDestroyed? && Holds(m.s, k, r)
    requires m.s.pendingSwapchain.Some? ==> SetupPossible(e.setup, m.s.pendingSwapchain.value.candidate)
    ensures Holds(InstallReplacement(m, e).s, k, r)
  {
    if m.s.pendingSwapchain.Some? {
      InstallHolds(m, m.s.pendingSwapchain.value, e.setup, e.sent, k, r);
    }
  }

  lemma RetireActiveHolds(m: Machine, e: Event, k: nat, r: Route)
    requires e.SwapchainDestroyed? && Holds(m.s, k, r) && m.s.route.Some?
    requires m.s.pendingSwapchain.Some? ==> SetupPossible(e.setup, m.s.pendingSwapchain.value.candidate)
    ensures Holds(RetireActive(m, e).s, k, r)
  {
    var m1 := m.(s := m.s.(route := None));
    RetainHolds(m1, m.s.route.value, e.sent, k, r);
    ReplacementHolds(RetainRetired(m1, m.s.route.value, e.sent), e, k, r);
  }

  lemma DestroySwapchainHolds(m: Machine, e: Event, k: nat, r: Route)
    requires e.SwapchainDestroyed? && Holds(m.s, k, r) && WellFormed(m, e)
    ensures Holds(DestroySwapchainStep(m, e).s, k, r)
  {
    var m1 := Machine(ForgetWaiting(m.s, e.swapchain), CloseSwapchain(m.w, Handle(e.device, e.swapchain)));
    assert Holds(m1.s, k, r);
    if m1.s.route.Some? {
      RetireActiveHolds(m1, e, k, r);
    }
  }

  lemma CreateSwapchainHolds(m: Machine, e: Event, k: nat, r: Route)
    requires e.SwapchainCreated? && Holds(m.s, k, r) && WellFormed(m, e)
    ensures Holds(CreateSwapchainStep(m, e).s, k, r)
  {
    if e.assessment.Some? && e.assessment.value.Accepted? {
      var candidate := e.assessment.value.candidate;
      InstallHolds(m.(w := OpenSwapchain(m.w, Handle(e.device, e.swapchain))),
                   PendingSwapchain(e.device, 0, e.swapchain, candidate,
                                    candidate.width * candidate.height * BYTES_PER_PIXEL),
                   e.setup, e.sent, k, r);
    }
  }

  lemma ObserveQueueHolds(m: Machine, e: Event, k: nat, r: Route)
    requires e.QueueObserved? && Holds(m.s, k, r) && WellFormed(m, e)
    ensures Holds(ObserveQueue(m, e).s, k, r)
  {
  }

  lemma CopyHolds(m: Machine, active: Route, e: Event, image: nat, k: nat, r: Route)
    requires Holds(m.s, k, r) && CallsFit(e, active) && e.now.Some? && Backed(m.w, active)
    ensures Holds(CopyPresented(m, active, e, image).0.s, k, r)
  {
    TakeShape(m, active, e.calls.oldestReady);
  }

  lemma CaptureHolds(m: Machine, active: Route, e: Event, image: nat, k: nat, r: Route)
    requires Holds(m.s, k, r) && CallsFit(e, active) && e.now.Some? && Backed(m.w, active)
    ensures Holds(CapturePresent(m, active, e, image).0.s, k, r)
  {
    var (copied, proof, signalled) := CopyPresented(m, active, e, image);
    CopyHolds(m, active, e, image, k, r);
    if proof.Some? && proof.value.exportSequence.Some? {
      MapHolds(copied.s, Releasing(proof.value.exportSequence.value), k, r);
    }
  }

  lemma PresentHolds(m: Machine, e: Event, k: nat, r: Route)
    requires e.PreparePresent? && Holds(m.s, k, r) && WellFormed(m, e)
    ensures Holds(PresentStep(m, e).s, k, r)
  {
    var m1 := m.(w := m.w.(now := if e.now.Some? then e.now.value else m.w.now));
    var (s, open) := PresentGate(m1.s, e);
    assert Holds(s, k, r);
    if e.queue != 0 && e.info.Some? && !e.busy && open && Captures(s, e) {
      var image := PresentedImage(e.info.value.entries, s.route.value.swapchain).value;
      CaptureHolds(m1.(s := s), s.route.value, e, image, k, r);
    }
  }

  lemma ReleaseHolds(m: Machine, e: Event, k: nat, r: Route)
    requires e.ReleaseSequence? && Holds(m.s, k, r) && Waiting(r) && WellFormed(m, e)
    ensures Holds(Release(m, e).0.s, k, r)
  {
    if !e.busy {
      var f := Releasing(e.sequence);
      MapHolds(m.s, f, k, r);
      var s := MapRetired(m.s, f).(route := MapSlot(m.s.route, f), quarantined := MapSlot(m.s.quarantined, f));
      ResumeHolds(m.(s := s), PendingQueue(ReclaimIdleReleased(m.(s := s)).s), e.setup, e.sent, k, r);
    }
  }

  /** An acquisition from another swapchain confirms nothing for this route. */
  lemma AcquireHolds(m: Machine, e: Event, k: nat, r: Route)
    requires e.ImageAcquired? && Holds(m.s, k, r) && Waiting(r) && WellFormed(m, e)
    requires HandleOf(Slot(m.s, k).value) != Handle(e.device, e.swapchain)
    ensures Holds(AcquireStep(m, e).s, k, r)
  {
    var f := Confirming(Handle(e.device, e.swapchain), e.image, e.fence, e.signaled);
    MapHolds(m.s, f, k, r);
    ReclaimHolds(m.(w := AcquireImage(m.w, Handle(e.device, e.swapchain), e.image, e.signaled),
                    s := MapRetired(m.s, f).(route := MapSlot(m.s.route, f))), k, r);
  }

  lemma QueueIdleHolds(m: Machine, e: Event, k: nat, r: Route)
    requires e.QueueIdle? && Holds(m.s, k, r) && Waiting(r) && WellFormed(m, e)
    ensures Holds(AfterQueueIdle(m, e).s, k, r)
  {
    MapHolds(m.s, IdlingQueue(e.queue), k, r);
    ResumeHolds(m.(s := MapRetired(m.s, IdlingQueue(e.queue))), Some(e.queue), e.setup, e.sent, k, r);
  }

  lemma DeviceIdleHolds(m: Machine, e: Event, k: nat, r: Route)
    requires e.DeviceIdle? && Holds(m.s, k, r) && Waiting(r) && WellFormed(m, e)
    ensures Holds(AfterDeviceIdle(m, e).s, k, r)
  {
    var marked := m.(s := MapRetired(m.s, IdlingDevice(e.device)));
    MapHolds(m.s, IdlingDevice(e.device), k, r);
    ResumeHolds(marked, PendingQueue(ReclaimIdleReleased(marked).s), e.setup, e.sent, k, r);
  }

  lemma DestroyDeviceHolds(m: Machine, e: Event, k: nat, r: Route)
    requires e.DeviceDestroyed? && Holds(m.s, k, r) && WellFormed(m, e) && e.device != r.device
    ensures Holds(DestroyDeviceStep(m, e).s, k, r)
  {
    WithoutDeviceSlots(m.(w := CloseDevice(m.w, e.device)), e.device);
  }

  /** A retained route with an outstanding presentation wait stays, with that wait, through
      every step short of its device's destruction: no image is acquired from a destroyed
      swapchain, so the third reclaim proof can no longer arrive. */
  lemma RetainedWaitsAreFinal(m: Machine, e: Event, k: nat, r: Route)
    requires Inv(m) && Allowed(m, e) && 1 <= k < 4 && Slot(m.s, k) == Some(r) && Waiting(r)
    requires !(e.DeviceDestroyed? && e.device == r.device)
    ensures Holds(Step(m, e).s, k, r)
  {
    match e
    case DeviceCreated(_, _, _, _) =>
    case QueueObserved(_, _, _, _, _, _) => ObserveQueueHolds(m, e, k, r);
    case SwapchainCreated(_, _, _, _, _, _, _, _, _) => CreateSwapchainHolds(m, e, k, r);
    case SwapchainDestroyed(_, _, _, _) => DestroySwapchainHolds(m, e, k, r);
    case DeviceDestroyed(_) => DestroyDeviceHolds(m, e, k, r);
    case PreparePresent(_, _, _, _, _, _, _, _) => PresentHolds(m, e, k, r);
    case PresentReturned(_, _, _, _) =>
    case ReleaseSequence(_, _, _, _) => ReleaseHolds(m, e, k, r);
    case ImageAcquired(_, _, _, _, _, _) => AcquireHolds(m, e, k, r);
    case QueueIdle(_, _, _) => QueueIdleHolds(m, e, k, r);
    case DeviceIdle(_, _, _) => DeviceIdleHolds(m, e, k, r);
    case GpuCompletes(_, _) =>
    case DaemonReleases(_) =>
  }

  predicate AvoidsDevice(events: seq<Event>, device: nat) {
    forall i :: 0 <= i < |events| ==> !(events[i].DeviceDestroyed? && events[i].device == device)
  }

  lemma {:induction false} RetainedWaitsLast(m: Machine, events: seq<Event>, k: nat, r: Route)
    requires Inv(m) && AllAllowed(m, events) && 1 <= k < 4 && Slot(m.s, k) == Some(r) && Waiting(r)
    requires AvoidsDevice(events, r.device)
    ensures Holds(Run(m, events).s, k, r)
    decreases |events|
  {
    if events != [] {
      RetainedWaitsAreFinal(m, events[0], k, r);
      StepKeeps(m, events[0]);
      var next := Step(m, events[0]);
      RetainedWaitsLast(next, events[1..], k, Slot(next.s, k).value);
    }
  }

  /** A reissued handle is the only way to the third proof: an acquisition of the new swapchain's
      image then reclaims a route that lacked just that confirmation. */
  lemma LastConfirmationReclaims(m: Machine, e: Event, k: nat, r: Route)
    requires e.ImageAcquired? && e.fence && e.signaled && !e.busy && Retired(m.s, k, r)
    requires Handle(e.device, e.swapchain) == HandleOf(r) && e.image < r.imageCount
    requires e.image < |r.presentationUsable| == |r.presentationPending| && r.presentationUsable[e.image]
    requires forall i :: 0 <= i < |r.presentationPending| && r.presentationPending[i] ==> i == e.image
    requires r.gpuIdle && AllReturned(r)
    ensures Gone(Acquired(m, e), k, r.id)
  {
    var f := Confirming(HandleOf(r), e.image, true, true);
    var m1 := m.(s := MapRetired(m.s, f).(route := MapSlot(m.s.route, f)));
    assert AllReturned(f(r));
    ReclaimRemoves(m1, k, f(r));
  }

  /** If the driver does reissue the handle of a retained route, an acquisition of the new
      swapchain's image is taken for the old one: a route that only waits for that
      presentation is destroyed while the wait is outstanding. */
  lemma ReusedHandleDestroysWaitingRoute(m: Machine, e: Event, r: Route)
    requires |m.s.retired| == 2 && m.s.retired[0] == Some(r) && r.id in m.w.gpus
    requires e.ImageAcquired? && e.fence && e.signaled && !e.busy
    requires Handle(e.device, e.swapchain) == HandleOf(r)
    requires |r.presentationUsable| == |r.presentationPending| == MAX_IMAGES
    requires e.image < r.imageCount <= MAX_IMAGES && r.presentationUsable[e.image]
    requires forall i :: 0 <= i < MAX_IMAGES && r.presentationPending[i] ==> i == e.image
    requires r.gpuIdle && forall k :: 0 <= k < |r.contexts| ==> r.contexts[k].exportReleased
    requires m.w.gpus[r.id].detached && e.image < |m.w.gpus[r.id].waits| && m.w.gpus[r.id].waits[e.image]
    ensures DestroyedWaiting in AcquireStep(m, e).w.faults
  {
    var handle := HandleOf(r);
    var w1 := AcquireImage(m.w, handle, e.image, true);
    assert w1.gpus[r.id] == m.w.gpus[r.id];
    var f := Confirming(handle, e.image, true, true);
    assert Reclaimable(MapSlot(m.s.retired[0], f));
    assert !NoWaits(w1.gpus[r.id]);
  }
}

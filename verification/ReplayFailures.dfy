/** What failing driver calls and failed presents leave behind: a spoiled context, an image that is never
    captured again, and a route that captures nothing more and stays until its device ends. */
module ReplayFailures {
  import opened Wrappers
  import opened Messages
  import opened ReplayWorld
  import opened ReplayState
  import opened ReplayMachine
  import opened ReplayInvariant
  import opened ReplayRouteLemmas
  import opened ReplaySlotLemmas
  import opened ReplayPresentSteps
  import opened ReplaySafety
  import opened ReplayRetention
  import Cadence

  // ---- One submission ----

  /** A context whose last copy has left and that the daemon does not hold. */
  predicate Free(c: Context, ready: bool) { c.usable && !c.pending && (c.exportFd < 3 || c.exportReleased) && ready }

  predicate FirstFree(contexts: seq<Context>, ready: seq<bool>, k: nat) {
    && k < |contexts| == |ready| && Free(contexts[k], ready[k])
    && forall j :: 0 <= j < k ==> !Free(contexts[j], ready[j])
  }

  predicate NoneFree(contexts: seq<Context>, ready: seq<bool>) {
    |contexts| == |ready| && forall j :: 0 <= j < |contexts| ==> !Free(contexts[j], ready[j])
  }

  /** Every call before the submission succeeds. */
  predicate Recorded(calls: DriverCalls) { calls.resetFence && calls.resetCommand && calls.begin && calls.end }

  /** A copy goes into the first free context and nowhere else. It is under way, and the present must wait for
      it, exactly when every driver call succeeded; otherwise the context is never used again. A refused
      submission also gives up the semaphore of its image. */
  lemma SubmissionOutcome(w: World, r: Route, k: nat, i: nat, stamp: nat, duration: nat, calls: DriverCalls)
    requires Backed(w, r) && |calls.ready| == |r.contexts| && i < r.imageCount && r.presentationUsable[i]
    requires FirstFree(r.contexts, calls.ready, k)
    ensures var (w', r', signalled) := SubmitNext(w, r, i, stamp, duration, calls);
            var c := r.contexts[k];
            && (signalled <==> Recorded(calls) && calls.submit.Submitted?)
            && r' == r.(contexts := r.contexts[k := if signalled then c.(capturedAt := stamp, duration := duration, pending := true)
                                                    else c.(usable := false)],
                        presentationPending := r.presentationPending[i := r.presentationPending[i] || Recorded(calls)],
                        presentationUsable := r.presentationUsable[i := !(Recorded(calls) && calls.submit.Refused?)],
                        gpuIdle := r.gpuIdle && !Recorded(calls))
  {
    var k' := FirstEligible(r.contexts, calls.ready, 0);
    assert Eligible(r.contexts[k], calls.ready[k]);
    assert k' == Some(k) by {
      assert forall j :: 0 <= j < k ==> !Free(r.contexts[j], calls.ready[j]);
    }
    assert r.presentationPending[i := r.presentationPending[i]] == r.presentationPending;
    assert r.presentationUsable[i := true] == r.presentationUsable;
  }

  lemma NothingSubmitted(w: World, r: Route, i: nat, stamp: nat, duration: nat, calls: DriverCalls)
    requires Backed(w, r) && |calls.ready| == |r.contexts|
    requires i >= r.imageCount || !r.presentationUsable[i] || NoneFree(r.contexts, calls.ready)
    ensures SubmitNext(w, r, i, stamp, duration, calls) == (w, r, false)
  {
    if NoneFree(r.contexts, calls.ready) {
      assert forall j :: 0 <= j < |r.contexts| ==> (Eligible(r.contexts[j], calls.ready[j]) <==> Free(r.contexts[j], calls.ready[j]));
      assert FirstEligible(r.contexts, calls.ready, 0).None?;
    }
  }

  // ---- One announcement ----

  /** Exactly the contexts under this sequence gave their export back; nothing else changed. */
  predicate GaveBack(slot: Option<Route>, slot': Option<Route>, sequence: nat) {
    if slot.None? then slot'.None?
    else
      && slot'.Some? && slot'.value == slot.value.(contexts := slot'.value.contexts)
      && |slot'.value.contexts| == |slot.value.contexts|
      && forall k :: 0 <= k < |slot.value.contexts| ==>
           var c, c' := slot.value.contexts[k], slot'.value.contexts[k];
           c' == c.(exportReleased := c.exportReleased || c.exportSequence == sequence)
  }

  /** A copy that is announced, or that nobody wants exported, moves the newest timestamp to its own, or by one
      if that is not later. The announced one is then leased under its sequence. When the send fails, the
      buffers under its sequence are free again and the timestamp has not moved. */
  lemma AnnouncementOutcome(m: Machine, id: nat, proof: CopyProof, delivered: bool)
    requires |m.s.retired| == 2 && m.s.lastExport < U64_MAX
    ensures var m' := CompleteHandOff(m, id, proof, delivered);
            var stamp := if proof.timestamp > m.s.lastExport then proof.timestamp else m.s.lastExport + 1;
            && (proof.exportSequence.None? ==> m' == m.(s := m.s.(lastExport := stamp)))
            && (proof.exportSequence.Some? && delivered ==>
                  && m'.s == m.s.(lastExport := stamp) && m'.w.exports == m.w.exports + [stamp]
                  && m'.w.leases == m.w.leases[proof.exportSequence.value := (id, proof.context)])
            && (proof.exportSequence.Some? && !delivered ==>
                  && m'.w == m.w && |m'.s.retired| == 2
                  && m'.s == m.s.(route := m'.s.route, retired := m'.s.retired, abandoned := m'.s.abandoned)
                  && forall k :: 0 <= k < 4 ==> GaveBack(Slot(m.s, k), Slot(m'.s, k), proof.exportSequence.value))
  {
  }

  // ---- Capture stays off ----

  /** This route exists or existed, and if it is recorded then its capture is latched off. */
  predicate Off(m: Machine, id: nat) {
    id in m.w.gpus && (m.s.route.Some? && m.s.route.value.id == id ==> m.s.presentationUncertain)
  }

  /** Still off, with nothing more captured. */
  predicate StaysOff(m: Machine, m': Machine, id: nat) {
    id in m.w.gpus && Off(m', id) && m'.w.gpus[id].captures == m.w.gpus[id].captures
  }

  lemma InstallStaysOff(m: Machine, p: PendingSwapchain, setup: Setup, sent: bool, id: nat)
    requires Off(m, id) && SetupPossible(setup, p.candidate) && setup.id != id
    ensures StaysOff(m, InstallRoute(m, p, setup, sent), id)
  {
  }

  lemma ReclaimStaysOff(m: Machine, id: nat)
    requires |m.s.retired| == 2 && Off(m, id)
    ensures StaysOff(m, ReclaimIdleReleased(m), id)
  {
  }

  lemma ResumeStaysOff(m: Machine, queue: Option<nat>, setup: Setup, sent: bool, id: nat)
    requires |m.s.retired| == 2 && Off(m, id) && setup.id != id
    requires m.s.pendingSwapchain.Some? ==> SetupPossible(setup, m.s.pendingSwapchain.value.candidate)
    ensures StaysOff(m, Resume(ReclaimIdleReleased(m), queue, setup, sent), id)
  {
    var m1 := ReclaimIdleReleased(m);
    ReclaimStaysOff(m, id);
    if m1.s.pendingSwapchain.Some? {
      InstallStaysOff(m1, m1.s.pendingSwapchain.value, setup, sent, id);
    }
  }

  lemma CreateSwapchainStaysOff(m: Machine, e: Event, id: nat)
    requires e.SwapchainCreated? && WellFormed(m, e) && Off(m, id) && e.setup.id != id
    ensures StaysOff(m, CreateSwapchainStep(m, e), id)
  {
    if e.assessment.Some? && e.assessment.value.Accepted? {
      var candidate := e.assessment.value.candidate;
      InstallStaysOff(m.(w := OpenSwapchain(m.w, Handle(e.device, e.swapchain))),
                      PendingSwapchain(e.device, 0, e.swapchain, candidate,
                                       candidate.width * candidate.height * BYTES_PER_PIXEL),
                      e.setup, e.sent, id);
    }
  }

  lemma ObserveQueueStaysOff(m: Machine, e: Event, id: nat)
    requires e.QueueObserved? && WellFormed(m, e) && Off(m, id) && e.setup.id != id
    ensures StaysOff(m, ObserveQueue(m, e), id)
  {
    if !(e.queue == 0 || e.isProtected || e.family >= 64 || e.device !in m.s.devices) {
      var d := m.s.devices[e.device];
      var s := if d.queue == 0 && e.family in d.graphicsFamilies
               then m.s.(devices := m.s.devices[e.device := d.(queue := e.queue)]) else m.s;
      assert Off(m.(s := s), id);
      if s.pendingSwapchain.Some? {
        InstallStaysOff(m.(s := s), s.pendingSwapchain.value, e.setup, e.sent, id);
      }
    }
  }

  lemma RetainStaysOff(m: Machine, r: Route, sent: bool, id: nat)
    requires Off(m, id)
    ensures StaysOff(m, RetainRetired(m, r, sent), id)
    ensures RetainRetired(m, r, sent).s.pendingSwapchain == m.s.pendingSwapchain
  {
  }

  lemma RetireActiveStaysOff(m: Machine, e: Event, id: nat)
    requires e.SwapchainDestroyed? && m.s.route.Some? && Off(m, id) && e.setup.id != id
    requires m.s.pendingSwapchain.Some? ==> SetupPossible(e.setup, m.s.pendingSwapchain.value.candidate)
    ensures StaysOff(m, RetireActive(m, e), id)
  {
    var m0 := m.(s := m.s.(route := None));
    RetainStaysOff(m0, m.s.route.value, e.sent, id);
    var m1 := RetainRetired(m0, m.s.route.value, e.sent);
    if m1.s.pendingSwapchain.Some? {
      InstallStaysOff(m1, m1.s.pendingSwapchain.value, e.setup, e.sent, id);
    }
  }

  lemma DestroySwapchainStaysOff(m: Machine, e: Event, id: nat)
    requires e.SwapchainDestroyed? && WellFormed(m, e) && Off(m, id) && e.setup.id != id
    ensures StaysOff(m, DestroySwapchainStep(m, e), id)
  {
    var m1 := Machine(ForgetWaiting(m.s, e.swapchain), CloseSwapchain(m.w, Handle(e.device, e.swapchain)));
    assert StaysOff(m, m1, id);
    if m1.s.route.Some? {
      RetireActiveStaysOff(m1, e, id);
    }
  }

  lemma DestroyDeviceStaysOff(m: Machine, e: Event, id: nat)
    requires Inv(m) && e.DeviceDestroyed? && WellFormed(m, e) && Off(m, id)
    ensures StaysOff(m, DestroyDeviceStep(m, e), id)
  {
    assert Slot(m.s, 0) == m.s.route;
    var m1 := m.(w := CloseDevice(m.w, e.device));
    assert StaysOff(m, m1, id);
    DeviceRoutesStayOff(m1, e.device, id);
  }

  lemma DeviceRoutesStayOff(m: Machine, device: nat, id: nat)
    requires |m.s.retired| == 2 && Off(m, id) && (m.s.route.Some? ==> m.s.route.value.device in m.s.devices)
    ensures StaysOff(m, DestroyDevice(m, device), id)
  {
    var m1 := DestroyRoutesOn(m, device);
    assert m1.w.gpus == m.w.gpus;
    if ForgetDevice(m1.s, device).devices == map[] && m.s.route.Some? {
      assert forall d :: d in m.s.devices && d != device ==> d in ForgetDevice(m1.s, device).devices;
    }
  }

  lemma SubmitSparesOthers(w: World, r: Route, i: nat, stamp: nat, duration: nat, calls: DriverCalls)
    requires Backed(w, r) && |calls.ready| == |r.contexts|
    ensures var (w', r', signalled) := SubmitNext(w, r, i, stamp, duration, calls);
            r'.id == r.id && r.id in w'.gpus && w'.gpus == w.gpus[r.id := w'.gpus[r.id]]
  {
  }

  /** A capture works on the recorded route only. */
  predicate SparesOthers(m: Machine, m': Machine, id: nat) {
    && m'.s.route.Some? && m'.s.route.value.id == id && id in m'.w.gpus
    && m'.w.gpus == m.w.gpus[id := m'.w.gpus[id]]
  }

  lemma CopySparesOthers(m: Machine, r: Route, e: Event, image: nat)
    requires CallsFit(e, r) && e.now.Some? && Backed(m.w, r)
    ensures SparesOthers(m, CopyPresented(m, r, e, image).0, r.id)
  {
    var (stamp, interval) := Cadence.VulkanCaptureTiming(r.samplingRate, r.nextSubmit, e.now.value, r.variableMinInterval);
    var (m1, r1, proof) := TakeCompleted(m, r, e.calls.oldestReady);
    TakeShape(m, r, e.calls.oldestReady);
    SubmitSparesOthers(m1.w, r1, image, stamp, r.frameInterval, e.calls);
  }

  lemma CaptureSparesOthers(m: Machine, r: Route, e: Event, image: nat)
    requires CallsFit(e, r) && e.now.Some? && Backed(m.w, r) && |m.s.retired| == 2
    ensures SparesOthers(m, CapturePresent(m, r, e, image).0, r.id)
  {
    CopySparesOthers(m, r, e, image);
  }

  lemma PresentStaysOff(m: Machine, e: Event, id: nat)
    requires e.PreparePresent? && WellFormed(m, e) && Off(m, id)
    ensures StaysOff(m, PresentStep(m, e), id)
  {
    var m1 := m.(w := m.w.(now := if e.now.Some? then e.now.value else m.w.now));
    var (s, open) := PresentGate(m1.s, e);
    if e.queue != 0 && e.info.Some? && !e.busy && open && Captures(s, e) {
      CaptureSparesOthers(m1.(s := s), s.route.value, e, PresentedImage(e.info.value.entries, s.route.value.swapchain).value);
    }
  }

  lemma ProofsStayOff(m: Machine, e: Event, id: nat)
    requires (e.ReleaseSequence? || e.QueueIdle? || e.DeviceIdle?) && WellFormed(m, e) && Off(m, id) && e.setup.id != id
    ensures StaysOff(m, Step(m, e), id)
  {
    match e
    case ReleaseSequence(sequence, busy, _, _) =>
      if !busy {
        var f := Releasing(sequence);
        var m1 := m.(s := MapRetired(m.s, f).(route := MapSlot(m.s.route, f), quarantined := MapSlot(m.s.quarantined, f)));
        ResumeStaysOff(m1, PendingQueue(ReclaimIdleReleased(m1).s), e.setup, e.sent, id);
      }
    case QueueIdle(queue, _, _) =>
      ResumeStaysOff(m.(s := MapRetired(m.s, IdlingQueue(queue))), Some(queue), e.setup, e.sent, id);
    case DeviceIdle(device, _, _) =>
      var m1 := m.(s := MapRetired(m.s, IdlingDevice(device)));
      ResumeStaysOff(m1, PendingQueue(ReclaimIdleReleased(m1).s), e.setup, e.sent, id);
  }

  lemma AcquireStaysOff(m: Machine, e: Event, id: nat)
    requires e.ImageAcquired? && WellFormed(m, e) && Off(m, id)
    ensures StaysOff(m, AcquireStep(m, e), id)
  {
    var handle := Handle(e.device, e.swapchain);
    var f := Confirming(handle, e.image, e.fence, e.signaled);
    ReclaimStaysOff(Machine(MapRetired(m.s, f).(route := MapSlot(m.s.route, f)),
                            AcquireImage(m.w, handle, e.image, e.signaled)), id);
  }

  lemma StepStaysOff(m: Machine, e: Event, id: nat)
    requires Inv(m) && Allowed(m, e) && Off(m, id)
    ensures StaysOff(m, Step(m, e), id)
  {
    match e
    case DeviceCreated(_, _, _, _) =>
    case QueueObserved(_, _, _, _, _, _) => ObserveQueueStaysOff(m, e, id);
    case SwapchainCreated(_, _, _, _, _, _, _, _, _) => CreateSwapchainStaysOff(m, e, id);
    case SwapchainDestroyed(_, _, _, _) => DestroySwapchainStaysOff(m, e, id);
    case DeviceDestroyed(_) => DestroyDeviceStaysOff(m, e, id);
    case PreparePresent(_, _, _, _, _, _, _, _) => PresentStaysOff(m, e, id);
    case PresentReturned(_, _, _, _) =>
    case ImageAcquired(_, _, _, _, _, _) => AcquireStaysOff(m, e, id);
    case GpuCompletes(_, _) =>
    case DaemonReleases(_) =>
    case _ => ProofsStayOff(m, e, id);
  }

  lemma {:induction false} RunStaysOff(m: Machine, events: seq<Event>, id: nat)
    requires Inv(m) && AllAllowed(m, events) && Off(m, id)
    ensures StaysOff(m, Run(m, events), id)
    decreases |events|
  {
    if events != [] {
      StepKeeps(m, events[0]);
      StepStaysOff(m, events[0], id);
      RunStaysOff(Step(m, events[0]), events[1..], id);
    }
  }

  /** A failed present that was to wait for a copy ends the captures of every route there is, whatever
      happens afterwards and even if the lock was busy: only a route created later captures again. */
  lemma FailedPresentEndsCaptures(m: Machine, e: Event, events: seq<Event>, id: nat)
    requires Inv(m) && e.PresentReturned? && Allowed(m, e) && e.failed && m.w.calls[e.queue].semaphore.Some?
    requires AllAllowed(Step(m, e), events) && id in m.w.gpus
    ensures StaysOff(m, Run(Step(m, e), events), id)
  {
    StepKeeps(m, e);
    assert Off(Step(m, e), id);
    RunStaysOff(Step(m, e), events, id);
  }

  // ---- The route of a spoiled image ----

  /** This image's wait is outstanding and can no longer be confirmed. */
  predicate Spoiled(r: Route, i: nat) {
    i < |r.presentationPending| == |r.presentationUsable| && r.presentationPending[i] && !r.presentationUsable[i]
  }

  /** The recorded route has this identity and a spoiled image. */
  predicate RecordedSpoiled(s: State, id: nat, device: nat, i: nat) {
    s.route.Some? && s.route.value.id == id && s.route.value.device == device && Spoiled(s.route.value, i)
  }

  /** Retained slot k has this identity and an outstanding wait. */
  predicate RetainedWaiting(s: State, k: nat, id: nat, device: nat) {
    && |s.retired| == 2 && 1 <= k < 4 && Slot(s, k).Some?
    && Slot(s, k).value.id == id && Slot(s, k).value.device == device && Waiting(Slot(s, k).value)
  }

  /** The route is recorded with a spoiled image, or retained with an outstanding wait. */
  predicate Stuck(s: State, id: nat, device: nat, i: nat) {
    RecordedSpoiled(s, id, device, i) || exists k :: 1 <= k < 4 && RetainedWaiting(s, k, id, device)
  }

  lemma CreationKeepsSpoiled(m: Machine, e: Event, id: nat, device: nat, i: nat)
    requires (e.SwapchainCreated? || e.QueueObserved?) && WellFormed(m, e) && RecordedSpoiled(m.s, id, device, i)
    ensures RecordedSpoiled(Step(m, e).s, id, device, i)
  {
  }

  lemma SubmitKeepsSpoiled(w: World, r: Route, j: nat, stamp: nat, duration: nat, calls: DriverCalls, i: nat)
    requires Backed(w, r) && |calls.ready| == |r.contexts| && Spoiled(r, i)
    ensures var r' := SubmitNext(w, r, j, stamp, duration, calls).1;
            Spoiled(r', i) && r'.id == r.id && r'.device == r.device
  {
  }

  lemma CopyKeepsSpoiled(m: Machine, r: Route, e: Event, image: nat, i: nat)
    requires CallsFit(e, r) && e.now.Some? && Backed(m.w, r) && Spoiled(r, i)
    ensures RecordedSpoiled(CopyPresented(m, r, e, image).0.s, r.id, r.device, i)
  {
    var (stamp, interval) := Cadence.VulkanCaptureTiming(r.samplingRate, r.nextSubmit, e.now.value, r.variableMinInterval);
    var (m1, r1, proof) := TakeCompleted(m, r, e.calls.oldestReady);
    TakeShape(m, r, e.calls.oldestReady);
    SubmitKeepsSpoiled(m1.w, r1, image, stamp, r.frameInterval, e.calls, i);
  }

  lemma CaptureKeepsSpoiled(m: Machine, r: Route, e: Event, image: nat, i: nat)
    requires CallsFit(e, r) && e.now.Some? && Backed(m.w, r) && Spoiled(r, i) && |m.s.retired| == 2
    ensures RecordedSpoiled(CapturePresent(m, r, e, image).0.s, r.id, r.device, i)
  {
    CopyKeepsSpoiled(m, r, e, image, i);
  }

  lemma PresentKeepsSpoiled(m: Machine, e: Event, id: nat, device: nat, i: nat)
    requires e.PreparePresent? && WellFormed(m, e) && RecordedSpoiled(m.s, id, device, i)
    ensures RecordedSpoiled(PresentStep(m, e).s, id, device, i)
  {
    var m1 := m.(w := m.w.(now := if e.now.Some? then e.now.value else m.w.now));
    var (s, open) := PresentGate(m1.s, e);
    if e.queue != 0 && e.info.Some? && !e.busy && open && Captures(s, e) {
      CaptureKeepsSpoiled(m1.(s := s), s.route.value, e,
                          PresentedImage(e.info.value.entries, s.route.value.swapchain).value, i);
    }
  }

  lemma ResumeKeepsSpoiled(m: Machine, queue: Option<nat>, setup: Setup, sent: bool, id: nat, device: nat, i: nat)
    requires |m.s.retired| == 2 && RecordedSpoiled(m.s, id, device, i)
    requires m.s.pendingSwapchain.Some? ==> SetupPossible(setup, m.s.pendingSwapchain.value.candidate)
    ensures RecordedSpoiled(Resume(ReclaimIdleReleased(m), queue, setup, sent).s, id, device, i)
  {
  }

  /** No proof helps a spoiled image: not even its own acquisition. */
  lemma ProofsKeepSpoiled(m: Machine, e: Event, id: nat, device: nat, i: nat)
    requires e.ReleaseSequence? || e.QueueIdle? || e.DeviceIdle? || e.ImageAcquired?
    requires WellFormed(m, e) && RecordedSpoiled(m.s, id, device, i)
    ensures RecordedSpoiled(Step(m, e).s, id, device, i)
  {
    match e
    case ReleaseSequence(sequence, busy, _, _) =>
      var f := Releasing(sequence);
      var m1 := m.(s := MapRetired(m.s, f).(route := MapSlot(m.s.route, f), quarantined := MapSlot(m.s.quarantined, f)));
      ResumeKeepsSpoiled(m1, PendingQueue(ReclaimIdleReleased(m1).s), e.setup, e.sent, id, device, i);
    case QueueIdle(queue, _, _) =>
      ResumeKeepsSpoiled(m.(s := MapRetired(m.s, IdlingQueue(queue))), Some(queue), e.setup, e.sent, id, device, i);
    case DeviceIdle(d, _, _) =>
      var m1 := m.(s := MapRetired(m.s, IdlingDevice(d)));
      ResumeKeepsSpoiled(m1, PendingQueue(ReclaimIdleReleased(m1).s), e.setup, e.sent, id, device, i);
    case ImageAcquired(_, _, _, _, _, _) =>
      var f := Confirming(Handle(e.device, e.swapchain), e.image, e.fence, e.signaled);
      assert Spoiled(f(m.s.route.value), i);
  }

  /** A recorded route that leaves service goes into a free retained slot, waits included. */
  lemma RetainKeepsWaiting(m: Machine, r: Route, sent: bool) returns (k: nat)
    requires |m.s.retired| == 2 && m.s.abandoned.None? && Waiting(r)
    ensures RetainedWaiting(RetainRetired(m, r, sent).s, k, r.id, r.device)
    ensures Holds(RetainRetired(m, r, sent).s, k, r)
  {
    k := if m.s.retired[0].None? then 1 else if m.s.retired[1].None? then 2 else 3;
  }

  lemma DestroyKeepsStuck(m: Machine, e: Event, id: nat, device: nat, i: nat)
    requires Inv(m) && e.SwapchainDestroyed? && WellFormed(m, e) && RecordedSpoiled(m.s, id, device, i)
    ensures Stuck(DestroySwapchainStep(m, e).s, id, device, i)
  {
    var r := m.s.route.value;
    var m1 := Machine(ForgetWaiting(m.s, e.swapchain), CloseSwapchain(m.w, Handle(e.device, e.swapchain)));
    if r.device == e.device && r.swapchain == e.swapchain {
      assert r.presentationPending[i];
      var m2 := m1.(s := m1.s.(route := None));
      var k := RetainKeepsWaiting(m2, r, e.sent);
      RetainHeld(m2, r, e.sent);
      ReplacementHolds(RetainRetired(m2, r, e.sent), e, k, r);
      assert RetainedWaiting(DestroySwapchainStep(m, e).s, k, id, device);
    }
  }

  lemma RetainHeld(m: Machine, r: Route, sent: bool)
    ensures RetainRetired(m, r, sent).s.pendingSwapchain == m.s.pendingSwapchain
  {
  }

  lemma RecordedStaysStuck(m: Machine, e: Event, id: nat, device: nat, i: nat)
    requires Inv(m) && Allowed(m, e) && RecordedSpoiled(m.s, id, device, i)
    requires !(e.DeviceDestroyed? && e.device == device)
    ensures Stuck(Step(m, e).s, id, device, i)
  {
    match e
    case DeviceCreated(_, _, _, _) =>
    case QueueObserved(_, _, _, _, _, _) => CreationKeepsSpoiled(m, e, id, device, i);
    case SwapchainCreated(_, _, _, _, _, _, _, _, _) => CreationKeepsSpoiled(m, e, id, device, i);
    case SwapchainDestroyed(_, _, _, _) => DestroyKeepsStuck(m, e, id, device, i);
    case DeviceDestroyed(_) =>
    case PreparePresent(_, _, _, _, _, _, _, _) => PresentKeepsSpoiled(m, e, id, device, i);
    case PresentReturned(_, _, _, _) =>
    case GpuCompletes(_, _) =>
    case DaemonReleases(_) =>
    case _ => ProofsKeepSpoiled(m, e, id, device, i);
  }

  lemma StepStaysStuck(m: Machine, e: Event, id: nat, device: nat, i: nat)
    requires Inv(m) && Allowed(m, e) && Stuck(m.s, id, device, i)
    requires !(e.DeviceDestroyed? && e.device == device)
    ensures Stuck(Step(m, e).s, id, device, i)
  {
    if RecordedSpoiled(m.s, id, device, i) {
      RecordedStaysStuck(m, e, id, device, i);
    } else {
      var k :| 1 <= k < 4 && RetainedWaiting(m.s, k, id, device);
      RetainedWaitsAreFinal(m, e, k, Slot(m.s, k).value);
      StillWaiting(m.s, Step(m, e).s, k, id, device);
    }
  }

  lemma StillWaiting(s: State, s': State, k: nat, id: nat, device: nat)
    requires RetainedWaiting(s, k, id, device) && Holds(s', k, Slot(s, k).value)
    ensures RetainedWaiting(s', k, id, device)
  {
    var i :| 0 <= i < |Slot(s, k).value.presentationPending| && Slot(s, k).value.presentationPending[i];
    assert Slot(s', k).value.presentationPending[i];
  }

  /** A failed present or a refused submission costs its route for good: once an image's wait is outstanding
      and its semaphore is given up, no acknowledgement, no idle wait and no acquisition lets the route be
      destroyed before its device is. */
  lemma {:induction false} SpoiledImageKeepsRoute(m: Machine, events: seq<Event>, id: nat, device: nat, i: nat)
    requires Inv(m) && AllAllowed(m, events) && AvoidsDevice(events, device) && Stuck(m.s, id, device, i)
    ensures Stuck(Run(m, events).s, id, device, i) && id in Run(m, events).w.alive
    decreases |events|
  {
    if events == [] {
      StuckIsAlive(m, id, device, i);
    } else {
      StepKeeps(m, events[0]);
      StepStaysStuck(m, events[0], id, device, i);
      SpoiledImageKeepsRoute(Step(m, events[0]), events[1..], id, device, i);
    }
  }

  lemma StuckIsAlive(m: Machine, id: nat, device: nat, i: nat)
    requires Inv(m) && Stuck(m.s, id, device, i)
    ensures id in m.w.alive
  {
    var k := if RecordedSpoiled(m.s, id, device, i) then 0 else var k :| 1 <= k < 4 && RetainedWaiting(m.s, k, id, device); k;
    assert Slot(m.s, 0) == m.s.route;
    assert RouteOk(Slot(m.s, k).value, m.s.nextSequence, m.w);
  }

  /** The image of a failed present is spoiled at once, unless the lock was busy. */
  lemma FailureSpoils(m: Machine, e: Event, i: nat)
    requires Inv(m) && e.PresentReturned? && Allowed(m, e) && e.failed && !e.busy && m.s.route.Some?
    requires m.w.calls[e.queue].semaphore == Some((m.s.route.value.id, i))
    requires i < |m.s.route.value.presentationPending| && m.s.route.value.presentationPending[i]
    ensures Stuck(ReturnStep(m, e).s, m.s.route.value.id, m.s.route.value.device, i)
  {
    assert Slot(m.s, 0) == m.s.route && RouteOk(m.s.route.value, m.s.nextSequence, m.w);
  }
}

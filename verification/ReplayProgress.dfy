/** The export hand-off never gets stuck: every withheld context is still known to the
    daemon, and the chosen number of contexts exceeds what its pipeline can hold. */
module ReplayProgress {
  import opened Wrappers
  import opened Messages
  import opened ReplayWorld
  import opened ReplayState
  import opened ReplayMachine
  import opened ReplayInvariant
  import opened ReplayRouteLemmas
  import opened ReplaySlotLemmas
  import opened ReplayMapSteps
  import opened ReplaySlotSteps
  import opened ReplayPresentSteps
  import opened ReplaySafety
  import Cadence

  /** The context waits for an acknowledgement. */
  predicate Withheld(c: Context) { c.exportFd >= 3 && !c.exportReleased }

  /** Sequences that the daemon holds or has already given back. */
  function Known(w: World): set<nat> { w.leases.Keys + w.released }

  predicate RouteKnown(r: Route, known: set<nat>) {
    forall k :: 0 <= k < |r.contexts| && Withheld(r.contexts[k]) ==> r.contexts[k].exportSequence in known
  }

  /** No lease is lost: what a context waits for is held by the daemon or acknowledged. */
  predicate AllKnown(s: State, known: set<nat>) {
    && |s.retired| == 2
    && forall k :: 0 <= k < 5 && Slot(s, k).Some? ==> RouteKnown(Slot(s, k).value, known)
  }

  // ---- Primitive moves ----

  lemma InstallKnown(m: Machine, pending: PendingSwapchain, setup: Setup, sent: bool, known: set<nat>)
    requires AllKnown(m.s, known) && SetupPossible(setup, pending.candidate)
    ensures AllKnown(InstallRoute(m, pending, setup, sent).s, known)
  {
    var s' := InstallRoute(m, pending, setup, sent).s;
    assert forall k :: 1 <= k < 5 ==> Slot(s', k) == Slot(m.s, k);
    assert Slot(s', 0) == s'.route && Slot(m.s, 0) == m.s.route;
  }

  lemma ReclaimKnown(m: Machine, known: set<nat>)
    requires AllKnown(m.s, known)
    ensures AllKnown(ReclaimIdleReleased(m).s, known)
  {
    var s' := ReclaimIdleReleased(m).s;
    assert forall k :: 0 <= k < 5 ==> Slot(s', k).None? || Slot(s', k) == Slot(m.s, k);
  }

  lemma ResumeKnown(m: Machine, queue: Option<nat>, setup: Setup, sent: bool, known: set<nat>)
    requires AllKnown(m.s, known)
    requires m.s.pendingSwapchain.Some? ==> SetupPossible(setup, m.s.pendingSwapchain.value.candidate)
    ensures AllKnown(Resume(ReclaimIdleReleased(m), queue, setup, sent).s, known)
  {
    ReclaimKnown(m, known);
    var m1 := ReclaimIdleReleased(m);
    if m1.s.pendingSwapchain.Some? {
      InstallKnown(m1, m1.s.pendingSwapchain.value, setup, sent, known);
    }
  }

  /** A route update that withholds nothing new. */
  predicate Relaxes(f: Route -> Route, r: Route) {
    && |f(r).contexts| == |r.contexts|
    && forall k :: 0 <= k < |r.contexts| && Withheld(f(r).contexts[k]) ==>
         Withheld(r.contexts[k]) && f(r).contexts[k].exportSequence == r.contexts[k].exportSequence
  }

  lemma MapKnown(s: State, f: Route -> Route, known: set<nat>)
    requires AllKnown(s, known) && forall k :: 0 <= k < 5 && Slot(s, k).Some? ==> Relaxes(f, Slot(s, k).value)
    ensures AllKnown(MapRetired(s, f).(route := MapSlot(s.route, f)), known)
    ensures AllKnown(MapRetired(s, f).(route := MapSlot(s.route, f), quarantined := MapSlot(s.quarantined, f)), known)
    ensures AllKnown(MapRetired(s, f), known)
  {
    MappedSlots(s, f);
    forall k | 0 <= k < 5 && Slot(s, k).Some?
      ensures RouteKnown(f(Slot(s, k).value), known)
    {
      assert RouteKnown(Slot(s, k).value, known);
    }
    assert Slot(s, 0) == s.route && Slot(s, 4) == s.quarantined;
    var s0 := MapRetired(s, f);
    var s1 := s0.(route := MapSlot(s.route, f));
    var s2 := s1.(quarantined := MapSlot(s.quarantined, f));
    assert forall k :: 0 <= k < 5 ==> Slot(s0, k) == if 1 <= k < 4 then MapSlot(Slot(s, k), f) else Slot(s, k);
    assert forall k :: 0 <= k < 5 ==> Slot(s2, k) == MapSlot(Slot(s, k), f);
  }

  lemma RetainKnown(m: Machine, r: Route, sent: bool, known: set<nat>)
    requires AllKnown(m.s, known) && RouteKnown(r, known)
    ensures AllKnown(RetainRetired(m, r, sent).s, known)
  {
    var s' := RetainRetired(m, r, sent).s;
    assert forall k :: 0 <= k < 5 ==> Slot(s', k) == Slot(m.s, k) || Slot(s', k) == Some(r);
  }

  lemma ReplacementKnown(m: Machine, e: Event, known: set<nat>)
    requires e.SwapchainDestroyed? && AllKnown(m.s, known)
    requires m.s.pendingSwapchain.Some? ==> SetupPossible(e.setup, m.s.pendingSwapchain.value.candidate)
    ensures AllKnown(InstallReplacement(m, e).s, known)
  {
    var p := m.s.pendingSwapchain;
    if p.Some? && p.value.device == e.device && p.value.replaced == e.swapchain {
      InstallKnown(m, p.value, e.setup, e.sent, known);
      AssessKnown(InstallRoute(m, p.value, e.setup, e.sent).s, known, e.sent);
    } else {
      AssessKnown(m.s, known, e.sent);
    }
  }

  lemma RetireActiveKnown(m: Machine, e: Event, known: set<nat>)
    requires e.SwapchainDestroyed? && AllKnown(m.s, known) && m.s.route.Some?
    requires m.s.pendingSwapchain.Some? ==> SetupPossible(e.setup, m.s.pendingSwapchain.value.candidate)
    ensures AllKnown(RetireActive(m, e).s, known)
  {
    assert Slot(m.s, 0) == m.s.route;
    var m1 := m.(s := m.s.(route := None));
    FewerKnown(m.s, m1.s, known);
    RetainKnown(m1, m.s.route.value, e.sent, known);
    RetainQuietWorld(m1, m.s.route.value, e.sent);
    ReplacementKnown(RetainRetired(m1, m.s.route.value, e.sent), e, known);
  }

  lemma AssessKnown(s: State, known: set<nat>, sent: bool)
    requires AllKnown(s, known)
    ensures AllKnown(Assess(s, Rejected(EncoderBackendUnavailable), sent), known)
  {
    var s' := Assess(s, Rejected(EncoderBackendUnavailable), sent);
    assert forall k :: 0 <= k < 5 ==> Slot(s', k) == Slot(s, k);
  }

  // ---- Steps ----

  /** The same slots, or fewer. */
  lemma FewerKnown(s: State, s': State, known: set<nat>)
    requires AllKnown(s, known) && |s'.retired| == 2
    requires forall k :: 0 <= k < 5 ==> Slot(s', k).None? || Slot(s', k) == Slot(s, k)
    ensures AllKnown(s', known)
  {
  }

  lemma DestroySwapchainKnown(m: Machine, e: Event)
    requires e.SwapchainDestroyed? && WellFormed(m, e) && AllKnown(m.s, Known(m.w))
    ensures var m' := DestroySwapchainStep(m, e); AllKnown(m'.s, Known(m'.w))
  {
    var m1 := Machine(ForgetWaiting(m.s, e.swapchain), CloseSwapchain(m.w, Handle(e.device, e.swapchain)));
    FewerKnown(m.s, m1.s, Known(m.w));
    if m1.s.route.Some? {
      RetireActiveKnown(m1, e, Known(m.w));
      RetireSameKnown(m1, e);
    }
  }

  lemma CreateSwapchainKnown(m: Machine, e: Event)
    requires e.SwapchainCreated? && WellFormed(m, e) && AllKnown(m.s, Known(m.w))
    ensures var m' := CreateSwapchainStep(m, e); AllKnown(m'.s, Known(m'.w))
  {
    var m1 := m.(w := OpenSwapchain(m.w, Handle(e.device, e.swapchain)));
    var m' := CreateSwapchainStep(m, e);
    if e.assessment.Some? && e.assessment.value.Accepted? {
      var candidate := e.assessment.value.candidate;
      var waiting := PendingSwapchain(e.device, 0, e.swapchain, candidate,
                                      candidate.width * candidate.height * BYTES_PER_PIXEL);
      InstallKnown(m1, waiting, e.setup, e.sent, Known(m.w));
      InstallSameKnown(m1, waiting, e.setup, e.sent);
    }
    if m'.s.route == m1.s.route {
      FewerKnown(m1.s, m'.s, Known(m.w));
    }
  }

  lemma ObserveQueueKnown(m: Machine, e: Event)
    requires e.QueueObserved? && WellFormed(m, e) && AllKnown(m.s, Known(m.w))
    ensures var m' := ObserveQueue(m, e); AllKnown(m'.s, Known(m'.w))
  {
    if !(e.queue == 0 || e.isProtected || e.family >= 64 || e.device !in m.s.devices) {
      var d := m.s.devices[e.device];
      var s1 := if d.queue == 0 && e.family in d.graphicsFamilies
                then m.s.(devices := m.s.devices[e.device := d.(queue := e.queue)]) else m.s;
      FewerKnown(m.s, s1, Known(m.w));
      if s1.pendingSwapchain.Some? {
        InstallKnown(m.(s := s1), s1.pendingSwapchain.value, e.setup, e.sent, Known(m.w));
        InstallSameKnown(m.(s := s1), s1.pendingSwapchain.value, e.setup, e.sent);
      }
    }
  }

  lemma DestroyDeviceKnown(m: Machine, e: Event)
    requires e.DeviceDestroyed? && WellFormed(m, e) && AllKnown(m.s, Known(m.w))
    ensures var m' := DestroyDeviceStep(m, e); AllKnown(m'.s, Known(m'.w))
  {
    var m1 := m.(w := CloseDevice(m.w, e.device));
    WithoutDeviceSlots(m1, e.device);
    DeviceSameKnown(m1, e.device);
    FewerKnown(m.s, DestroyDevice(m1, e.device).s, Known(m.w));
  }

  lemma ReleaseKnown(m: Machine, e: Event)
    requires e.ReleaseSequence? && WellFormed(m, e) && AllKnown(m.s, Known(m.w))
    ensures var m' := Release(m, e).0; AllKnown(m'.s, Known(m'.w))
  {
    if !e.busy {
      var f := Releasing(e.sequence);
      MapKnown(m.s, f, Known(m.w));
      var s := MapRetired(m.s, f).(route := MapSlot(m.s.route, f), quarantined := MapSlot(m.s.quarantined, f));
      var queue := PendingQueue(ReclaimIdleReleased(m.(s := s)).s);
      ResumeKnown(m.(s := s), queue, e.setup, e.sent, Known(m.w));
      ResumeSameKnown(m.(s := s), queue, e.setup, e.sent);
    }
  }

  lemma AcquireKnown(m: Machine, e: Event)
    requires e.ImageAcquired? && WellFormed(m, e) && AllKnown(m.s, Known(m.w))
    ensures var m' := AcquireStep(m, e); AllKnown(m'.s, Known(m'.w))
  {
    var f := Confirming(Handle(e.device, e.swapchain), e.image, e.fence, e.signaled);
    var m1 := m.(w := AcquireImage(m.w, Handle(e.device, e.swapchain), e.image, e.signaled));
    MapKnown(m.s, f, Known(m.w));
    ReclaimKnown(m1.(s := MapRetired(m.s, f).(route := MapSlot(m.s.route, f))), Known(m.w));
  }

  lemma QueueIdleKnown(m: Machine, e: Event)
    requires e.QueueIdle? && WellFormed(m, e) && AllKnown(m.s, Known(m.w))
    ensures var m' := AfterQueueIdle(m, e); AllKnown(m'.s, Known(m'.w))
  {
    var marked := m.(s := MapRetired(m.s, IdlingQueue(e.queue)));
    MapKnown(m.s, IdlingQueue(e.queue), Known(m.w));
    ResumeKnown(marked, Some(e.queue), e.setup, e.sent, Known(m.w));
    ResumeSameKnown(marked, Some(e.queue), e.setup, e.sent);
  }

  lemma DeviceIdleKnown(m: Machine, e: Event)
    requires e.DeviceIdle? && WellFormed(m, e) && AllKnown(m.s, Known(m.w))
    ensures var m' := AfterDeviceIdle(m, e); AllKnown(m'.s, Known(m'.w))
  {
    var marked := m.(s := MapRetired(m.s, IdlingDevice(e.device)));
    var queue := PendingQueue(ReclaimIdleReleased(marked).s);
    MapKnown(m.s, IdlingDevice(e.device), Known(m.w));
    ResumeKnown(marked, queue, e.setup, e.sent, Known(m.w));
    ResumeSameKnown(marked, queue, e.setup, e.sent);
  }

  // ---- Presents ----

  /** Between taking a copy and announcing it, its own sequence is not known yet. */
  lemma CopyRouteKnown(m: Machine, r: Route, e: Event, image: nat, known: set<nat>)
    requires RouteKnown(r, known) && CallsFit(e, r) && e.now.Some? && Backed(m.w, r)
    ensures var (m', proof, signalled) := CopyPresented(m, r, e, image);
            && m'.s == m.s.(route := m'.s.route, nextSequence := m'.s.nextSequence) && m'.s.route.Some?
            && RouteKnown(m'.s.route.value, WithProof(known, proof))
  {
    var (m1, r1, proof) := TakeCompleted(m, r, e.calls.oldestReady);
    TakeShape(m, r, e.calls.oldestReady);
    TakeKnown(m, r, e.calls.oldestReady, known);
    var (stamp, interval) := Cadence.VulkanCaptureTiming(r.samplingRate, r.nextSubmit, e.now.value, r.variableMinInterval);
    SubmitKnown(m1.w, r1, image, stamp, r.frameInterval, e.calls, WithProof(known, proof));
  }

  function WithProof(known: set<nat>, proof: Option<CopyProof>): set<nat> {
    if proof.Some? && proof.value.exportSequence.Some? then known + {proof.value.exportSequence.value} else known
  }

  lemma CopyKnown(m: Machine, r: Route, e: Event, image: nat, known: set<nat>)
    requires AllKnown(m.s, known) && CallsFit(e, r) && e.now.Some? && Backed(m.w, r) && m.s.route == Some(r)
    ensures var (m', proof, signalled) := CopyPresented(m, r, e, image); AllKnown(m'.s, WithProof(known, proof))
  {
    var (m', proof, signalled) := CopyPresented(m, r, e, image);
    assert Slot(m.s, 0) == m.s.route;
    CopyRouteKnown(m, r, e, image, known);
    RouteReplacedKnown(m.s, m'.s, known, WithProof(known, proof));
  }

  lemma RouteReplacedKnown(s: State, s': State, known: set<nat>, known': set<nat>)
    requires AllKnown(s, known) && known <= known'
    requires s' == s.(route := s'.route, nextSequence := s'.nextSequence)
    requires s'.route.Some? ==> RouteKnown(s'.route.value, known')
    ensures AllKnown(s', known')
  {
    assert forall k :: 0 <= k < 5 ==> Slot(s', k) == if k == 0 then s'.route else Slot(s, k);
    assert forall k :: 0 <= k < 5 && Slot(s, k).Some? ==> RouteKnown(Slot(s, k).value, known);
  }

  lemma TakeKnown(m: Machine, r: Route, ready: bool, known: set<nat>)
    requires RouteKnown(r, known) && Backed(m.w, r)
    ensures var (m', r', proof) := TakeCompleted(m, r, ready);
            RouteKnown(r', WithProof(known, proof))
  {
  }

  lemma SubmitKnown(w: World, r: Route, i: nat, stamp: nat, duration: nat, calls: DriverCalls, known: set<nat>)
    requires RouteKnown(r, known) && Backed(w, r) && |calls.ready| == |r.contexts|
    ensures RouteKnown(SubmitNext(w, r, i, stamp, duration, calls).1, known)
  {
    if i < MAX_IMAGES && r.presentationUsable[i] && i < r.imageCount {
      var free := FirstEligible(r.contexts, calls.ready, 0);
      if free.Some? {
        SubmitIntoKnown(w, r, free.value, i, RecordCopy(r.exportRequired, r.contexts[free.value].capturedAt != 0),
                        stamp, duration, calls, known);
      }
    }
  }

  lemma SubmitIntoKnown(w: World, r: Route, k: nat, i: nat, commands: seq<Command>, stamp: nat, duration: nat,
                        calls: DriverCalls, known: set<nat>)
    requires RouteKnown(r, known) && Backed(w, r) && k < |r.contexts| && i < MAX_IMAGES
    ensures RouteKnown(SubmitInto(w, r, k, i, commands, stamp, duration, calls).1, known)
  {
  }

  /** Announcing settles the new sequence: delivered, or restored locally. */
  lemma HandOffKnown(m: Machine, id: nat, proof: CopyProof, delivered: bool, known: set<nat>)
    requires |m.s.retired| == 2 && m.s.quarantined.None?
    requires AllKnown(m.s, if proof.exportSequence.Some? then known + {proof.exportSequence.value} else known)
    requires known == Known(m.w)
    ensures var m' := CompleteHandOff(m, id, proof, delivered); AllKnown(m'.s, Known(m'.w))
  {
    var m' := CompleteHandOff(m, id, proof, delivered);
    if proof.exportSequence.Some? && !delivered {
      var q := proof.exportSequence.value;
      RestoredKnown(m.s, q, known);
    } else {
      assert forall k :: 0 <= k < 5 ==> Slot(m'.s, k) == Slot(m.s, k);
      if proof.exportSequence.Some? {
        assert Known(m'.w) == known + {proof.exportSequence.value};
      }
    }
  }

  lemma RestoredKnown(s: State, q: nat, known: set<nat>)
    requires AllKnown(s, known + {q}) && s.quarantined.None?
    ensures AllKnown(MapRetired(s, Releasing(q)).(route := MapSlot(s.route, Releasing(q))), known)
  {
    var f := Releasing(q);
    MappedSlots(s, f);
    assert Slot(s, 4) == s.quarantined;
    forall k | 0 <= k < 4 && Slot(s, k).Some?
      ensures RouteKnown(f(Slot(s, k).value), known)
    {
      assert RouteKnown(Slot(s, k).value, known + {q});
    }
  }

  lemma PresentKnown(m: Machine, e: Event)
    requires e.PreparePresent? && Inv(m) && Allowed(m, e) && AllKnown(m.s, Known(m.w))
    ensures AllKnown(PresentStep(m, e).s, Known(PresentStep(m, e).w))
  {
    var m1 := m.(w := m.w.(now := if e.now.Some? then e.now.value else m.w.now));
    var (s, open) := PresentGate(m1.s, e);
    FewerKnown(m.s, s, Known(m.w));
    if e.queue != 0 && e.info.Some? && !e.busy && open && Captures(s, e) {
      var r := s.route.value;
      var image := PresentedImage(e.info.value.entries, r.swapchain).value;
      GateKeeps(m, e);
      PresentedIsReady(m, e, s);
      CaptureKnown(m1.(s := s), r, e, image);
    }
  }

  lemma CaptureKnown(m: Machine, r: Route, e: Event, image: nat)
    requires AllKnown(m.s, Known(m.w)) && CallsFit(e, r) && e.now.Some? && Backed(m.w, r) && m.s.route == Some(r)
    requires m.s.quarantined.None?
    ensures var m' := CapturePresent(m, r, e, image).0; AllKnown(m'.s, Known(m'.w))
  {
    var (m1, proof, signalled) := CopyPresented(m, r, e, image);
    CopyKnown(m, r, e, image, Known(m.w));
    CopyKeepsWorld(m, r, e, image);
    if proof.Some? {
      HandOffKnown(m1, r.id, proof.value, e.delivered, Known(m.w));
    }
  }

  lemma CopyKeepsWorld(m: Machine, r: Route, e: Event, image: nat)
    requires CallsFit(e, r) && e.now.Some? && Backed(m.w, r)
    ensures var (m', proof, signalled) := CopyPresented(m, r, e, image);
            && m'.w.leases == m.w.leases && m'.w.released == m.w.released
            && m'.s.quarantined == m.s.quarantined && m'.s.retired == m.s.retired
  {
    var (stamp, interval) := Cadence.VulkanCaptureTiming(r.samplingRate, r.nextSubmit, e.now.value, r.variableMinInterval);
    var (m1, r1, proof) := TakeCompleted(m, r, e.calls.oldestReady);
    TakeShape(m, r, e.calls.oldestReady);
    SubmitKeepsDaemon(m1.w, r1, image, stamp, r.frameInterval, e.calls);
  }

  lemma SubmitKeepsDaemon(w: World, r: Route, i: nat, stamp: nat, duration: nat, calls: DriverCalls)
    requires Backed(w, r) && |calls.ready| == |r.contexts|
    ensures var w' := SubmitNext(w, r, i, stamp, duration, calls).0; w'.leases == w.leases && w'.released == w.released
  {
  }

  lemma StepKnown(m: Machine, e: Event)
    requires Inv(m) && Allowed(m, e) && AllKnown(m.s, Known(m.w))
    ensures AllKnown(Step(m, e).s, Known(Step(m, e).w))
  {
    match e
    case DeviceCreated(_, _, _, _) => FewerKnown(m.s, CreateDevice(m.s, e), Known(m.w));
    case QueueObserved(_, _, _, _, _, _) => ObserveQueueKnown(m, e);
    case SwapchainCreated(_, _, _, _, _, _, _, _, _) => CreateSwapchainKnown(m, e);
    case SwapchainDestroyed(_, _, _, _) => DestroySwapchainKnown(m, e);
    case DeviceDestroyed(_) => DestroyDeviceKnown(m, e);
    case PreparePresent(_, _, _, _, _, _, _, _) => PresentKnown(m, e);
    case PresentReturned(_, _, _, _) => ReturnKnown(m, e);
    case ReleaseSequence(_, _, _, _) => ReleaseKnown(m, e);
    case ImageAcquired(_, _, _, _, _, _) => AcquireKnown(m, e);
    case QueueIdle(_, _, _) => QueueIdleKnown(m, e);
    case DeviceIdle(_, _, _) => DeviceIdleKnown(m, e);
    case GpuCompletes(_, _) =>
    case DaemonReleases(sequence) => assert Known(Acknowledge(m.w, sequence)) == Known(m.w);
  }

  lemma ReturnKnown(m: Machine, e: Event)
    requires e.PresentReturned? && WellFormed(m, e) && AllKnown(m.s, Known(m.w))
    ensures AllKnown(ReturnStep(m, e).s, Known(ReturnStep(m, e).w))
  {
    var s' := ReturnStep(m, e).s;
    assert Slot(m.s, 0) == m.s.route;
    assert m.s.route.Some? ==> RouteKnown(m.s.route.value, Known(m.w));
    assert forall k :: 0 <= k < 5 ==> Slot(s', k) == if k == 0 then s'.route else Slot(m.s, k);
  }

  // Only delivery and acknowledgement change what the daemon knows.

  lemma InstallSameKnown(m: Machine, pending: PendingSwapchain, setup: Setup, sent: bool)
    requires SetupPossible(setup, pending.candidate)
    ensures Known(InstallRoute(m, pending, setup, sent).w) == Known(m.w)
  {
  }

  lemma ResumeSameKnown(m: Machine, queue: Option<nat>, setup: Setup, sent: bool)
    requires |m.s.retired| == 2
    requires m.s.pendingSwapchain.Some? ==> SetupPossible(setup, m.s.pendingSwapchain.value.candidate)
    ensures Known(Resume(ReclaimIdleReleased(m), queue, setup, sent).w) == Known(m.w)
  {
    var m1 := ReclaimIdleReleased(m);
    if m1.s.pendingSwapchain.Some? {
      InstallSameKnown(m1, m1.s.pendingSwapchain.value, setup, sent);
    }
  }

  lemma ReplacementSameKnown(m: Machine, e: Event)
    requires e.SwapchainDestroyed?
    requires m.s.pendingSwapchain.Some? ==> SetupPossible(e.setup, m.s.pendingSwapchain.value.candidate)
    ensures Known(InstallReplacement(m, e).w) == Known(m.w)
  {
    if m.s.pendingSwapchain.Some? {
      InstallSameKnown(m, m.s.pendingSwapchain.value, e.setup, e.sent);
    }
  }

  lemma RetireSameKnown(m: Machine, e: Event)
    requires e.SwapchainDestroyed? && m.s.route.Some?
    requires m.s.pendingSwapchain.Some? ==> SetupPossible(e.setup, m.s.pendingSwapchain.value.candidate)
    ensures Known(RetireActive(m, e).w) == Known(m.w)
  {
    RetainQuietWorld(m.(s := m.s.(route := None)), m.s.route.value, e.sent);
    ReplacementSameKnown(RetainRetired(m.(s := m.s.(route := None)), m.s.route.value, e.sent), e);
  }

  lemma RetainQuietWorld(m: Machine, r: Route, sent: bool)
    ensures var m' := RetainRetired(m, r, sent);
            Known(m'.w) == Known(m.w) && m'.s.pendingSwapchain == m.s.pendingSwapchain
  {
  }

  lemma DeviceSameKnown(m: Machine, device: nat)
    requires |m.s.retired| == 2
    ensures Known(DestroyDevice(m, device).w) == Known(m.w)
  {
  }

  lemma {:induction false} RunKnown(m: Machine, events: seq<Event>)
    requires Inv(m) && AllAllowed(m, events) && AllKnown(m.s, Known(m.w))
    ensures Inv(Run(m, events)) && AllKnown(Run(m, events).s, Known(Run(m, events).w))
    decreases |events|
  {
    if events != [] {
      StepKeeps(m, events[0]);
      StepKnown(m, events[0]);
      RunKnown(Step(m, events[0]), events[1..]);
    }
  }

  /** In every reachable state, a context that waits for an acknowledgement is leased by the
      daemon or its acknowledgement is on the way: failed sends strand nothing. */
  lemma NoLeaseIsLost(events: seq<Event>)
    requires AllAllowed(Initial, events)
    ensures var m := Run(Initial, events); AllKnown(m.s, Known(m.w))
  {
    InitialInv();
    RunKnown(Initial, events);
  }

  // ---- Counting ----

  predicate Distinct(s: seq<nat>) { forall i, j :: 0 <= i < j < |s| ==> s[i] != s[j] }

  lemma {:induction false} DistinctFit(s: seq<nat>, t: set<nat>)
    requires Distinct(s) && forall i :: 0 <= i < |s| ==> s[i] in t
    ensures |s| <= |t|
  {
    if s != [] {
      var n := |s| - 1;
      DistinctFit(s[..n], t - {s[n]});
    }
  }

  predicate Held(c: Context, w: World) { Withheld(c) && c.exportSequence in w.leases }

  function Sequences(contexts: seq<Context>): seq<nat> {
    seq(|contexts|, k requires 0 <= k < |contexts| => contexts[k].exportSequence)
  }

  /** A daemon that holds at most its pipeline depth cannot hold every context. */
  lemma SomeContextIsNotHeld(m: Machine, r: Route)
    requires Inv(m) && m.s.route == Some(r) && |m.w.leases| <= REPLAY_ENCODER_PIPELINE_DEPTH
    ensures exists k :: 0 <= k < |r.contexts| && !Held(r.contexts[k], m.w)
  {
    assert Slot(m.s, 0) == Some(r) && RouteOk(r, m.s.nextSequence, m.w);
    if forall k :: 0 <= k < |r.contexts| ==> Held(r.contexts[k], m.w) {
      var all := Sequences(r.contexts);
      forall i, j | 0 <= i < j < |all|
        ensures all[i] != all[j]
      {
        assert Held(r.contexts[i], m.w);
      }
      forall i | 0 <= i < |all|
        ensures all[i] in m.w.leases.Keys
      {
        assert Held(r.contexts[i], m.w);
      }
      DistinctFit(all, m.w.leases.Keys);
    }
  }

  // ---- Progress ----

  function PendingCount(contexts: seq<Context>): nat {
    if contexts == [] then 0
    else (if contexts[|contexts| - 1].pending then 1 else 0) + PendingCount(contexts[..|contexts| - 1])
  }

  lemma {:induction false} PendingCountUpdate(contexts: seq<Context>, k: nat, c: Context)
    requires k < |contexts| && contexts[k].pending && !c.pending
    ensures PendingCount(contexts[k := c]) == PendingCount(contexts) - 1
  {
    var n := |contexts| - 1;
    if k == n {
      assert contexts[k := c][..n] == contexts[..n];
    } else {
      assert contexts[k := c][..n] == contexts[..n][k := c];
      PendingCountUpdate(contexts[..n], k, c);
    }
  }

  /** Production contexts, finished GPU work, and every acknowledgement applied. */
  predicate Settled(m: Machine, r: Route) {
    && r.id in m.w.gpus && |m.w.gpus[r.id].fences| == |r.contexts|
    && (forall k :: 0 <= k < |r.contexts| ==> r.contexts[k].usable && r.contexts[k].exportFd >= 3)
    && (forall k :: 0 <= k < |r.contexts| && Withheld(r.contexts[k]) ==> r.contexts[k].exportSequence !in m.w.released)
  }

  /** The driver answers and calls succeed, and the daemon receives what is sent. */
  predicate Cooperative(e: Event, r: Route, image: nat) {
    && e.PreparePresent? && e.delivered && e.calls.oldestReady
    && (forall k :: 0 <= k < |e.calls.ready| ==> e.calls.ready[k])
    && e.calls.resetFence && e.calls.resetCommand && e.calls.begin && e.calls.end && e.calls.submit == Submitted
    && image < r.imageCount && image < |r.presentationUsable| && r.presentationUsable[image]
  }

  lemma CooperativeSubmit(w: World, r: Route, i: nat, stamp: nat, e: Event)
    requires CallsFit(e, r) && Backed(w, r) && Cooperative(e, r, i)
    ensures var (w', r', signalled) := SubmitNext(w, r, i, stamp, r.frameInterval, e.calls);
            && (signalled <==> FirstEligible(r.contexts, e.calls.ready, 0).Some?)
            && (!signalled ==> r' == r)
            && w'.leases == w.leases
  {
  }

  /** The oldest pending copy is taken with a new sequence. */
  lemma PendingIsTaken(m: Machine, r: Route)
    requires Backed(m.w, r) && OldestPendingContext(r.contexts).Some?
    requires forall k :: 0 <= k < |r.contexts| ==> r.contexts[k].exportFd >= 3
    ensures var (m1, r1, proof) := TakeCompleted(m, r, true);
            && proof.Some? && proof.value.exportSequence == Some(m.s.nextSequence)
            && PendingCount(r1.contexts) == PendingCount(r.contexts) - 1
            && m1.w.leases == m.w.leases
  {
    var k := OldestPendingContext(r.contexts).value;
    var (m1, r1, proof) := TakeCompleted(m, r, true);
    PendingCountUpdate(r.contexts, k, r1.contexts[k]);
  }

  lemma CooperativeCopy(m: Machine, r: Route, e: Event, image: nat)
    requires CallsFit(e, r) && e.now.Some? && Backed(m.w, r) && Cooperative(e, r, image)
    requires forall k :: 0 <= k < |r.contexts| ==> r.contexts[k].exportFd >= 3
    ensures var (m', proof, signalled) := CopyPresented(m, r, e, image);
            && m'.w.leases == m.w.leases && m'.s.route.Some?
            && (OldestPendingContext(r.contexts).None? ==>
                  (signalled <==> FirstEligible(r.contexts, e.calls.ready, 0).Some?))
            && (OldestPendingContext(r.contexts).Some? ==>
                  && proof.Some? && proof.value.exportSequence == Some(m.s.nextSequence)
                  && (!signalled ==> PendingCount(m'.s.route.value.contexts) == PendingCount(r.contexts) - 1))
  {
    var (stamp, interval) := Cadence.VulkanCaptureTiming(r.samplingRate, r.nextSubmit, e.now.value, r.variableMinInterval);
    var (m1, r1, proof) := TakeCompleted(m, r, true);
    TakeShape(m, r, true);
    CooperativeSubmit(m1.w, r1, image, stamp, e);
    if OldestPendingContext(r.contexts).Some? {
      PendingIsTaken(m, r);
    }
  }

  lemma DeliveredHandOff(m: Machine, id: nat, proof: CopyProof)
    requires |m.s.retired| == 2 && proof.exportSequence.Some?
    ensures var m' := CompleteHandOff(m, id, proof, true);
            && m'.s.route == m.s.route
            && m'.w.leases.Keys == m.w.leases.Keys + {proof.exportSequence.value}
  {
  }

  /** Every context is with the daemon. */
  predicate AllHeld(r: Route, w: World) {
    forall k :: 0 <= k < |r.contexts| ==> Held(r.contexts[k], w) && !r.contexts[k].pending
  }

  predicate DeliveredOne(m: Machine, m': Machine, r: Route) {
    && m'.s.route.Some?
    && m.s.nextSequence !in m.w.leases
    && m'.w.leases.Keys == m.w.leases.Keys + {m.s.nextSequence}
    && PendingCount(m'.s.route.value.contexts) == PendingCount(r.contexts) - 1
  }

  lemma PendingPresentMoves(m: Machine, r: Route, e: Event, image: nat)
    requires CallsFit(e, r) && e.now.Some? && Backed(m.w, r) && Cooperative(e, r, image) && |m.s.retired| == 2
    requires forall k :: 0 <= k < |r.contexts| ==> r.contexts[k].exportFd >= 3
    requires OldestPendingContext(r.contexts).Some? && m.s.nextSequence !in m.w.leases
    ensures var (m', signalled) := CapturePresent(m, r, e, image);
            signalled || DeliveredOne(m, m', r)
  {
    var (copied, proof, signalled) := CopyPresented(m, r, e, image);
    CooperativeCopy(m, r, e, image);
    CopyKeepsWorld(m, r, e, image);
    DeliveredHandOff(copied, r.id, proof.value);
  }

  /** A due present on a settled route, whatever its number of contexts, submits a copy or delivers
      a pending one exactly when the daemon does not hold every context. */
  lemma MovesUnlessAllHeld(m: Machine, r: Route, e: Event, image: nat)
    requires CallsFit(e, r) && e.now.Some? && Backed(m.w, r) && |m.s.retired| == 2 && m.s.route == Some(r)
    requires Settled(m, r) && Cooperative(e, r, image)
    requires RouteKnown(r, Known(m.w)) && m.s.nextSequence !in m.w.leases
    ensures var (m', signalled) := CapturePresent(m, r, e, image);
            (signalled || DeliveredOne(m, m', r)) <==> !AllHeld(r, m.w)
  {
    if OldestPendingContext(r.contexts).Some? {
      PendingPresentMoves(m, r, e, image);
    } else {
      CooperativeCopy(m, r, e, image);
      FreeUnlessAllHeld(m, r, e);
      if FirstEligible(r.contexts, e.calls.ready, 0).None? {
        NothingTaken(m, r, e, image);
      }
    }
  }

  lemma FreeUnlessAllHeld(m: Machine, r: Route, e: Event)
    requires CallsFit(e, r) && forall k :: 0 <= k < |e.calls.ready| ==> e.calls.ready[k]
    requires Settled(m, r) && RouteKnown(r, Known(m.w)) && OldestPendingContext(r.contexts).None?
    ensures FirstEligible(r.contexts, e.calls.ready, 0).None? <==> AllHeld(r, m.w)
  {
    forall k | 0 <= k < |r.contexts|
      ensures Eligible(r.contexts[k], e.calls.ready[k]) <==> !Held(r.contexts[k], m.w)
    {
      assert !(r.contexts[k].usable && r.contexts[k].pending);
    }
  }

  lemma NothingTaken(m: Machine, r: Route, e: Event, image: nat)
    requires CallsFit(e, r) && e.now.Some? && Backed(m.w, r) && |m.s.retired| == 2 && m.s.route == Some(r)
    requires OldestPendingContext(r.contexts).None? && FirstEligible(r.contexts, e.calls.ready, 0).None?
    ensures CapturePresent(m, r, e, image) == (m, false)
  {
  }

  /** While the daemon keeps at most its pipeline depth, a due present on a settled route
      always moves: it submits a copy, or it delivers a pending one, which leaves one copy
      fewer to deliver before a context is free. */
  lemma SettledPresentMoves(m: Machine, r: Route, e: Event, image: nat)
    requires Inv(m) && AllKnown(m.s, Known(m.w)) && CaptureReady(m, r, e, image)
    requires |m.w.leases| <= REPLAY_ENCODER_PIPELINE_DEPTH
    requires Settled(m, r) && Cooperative(e, r, image)
    ensures var (m', signalled) := CapturePresent(m, r, e, image);
            signalled || DeliveredOne(m, m', r)
  {
    SomeContextIsNotHeld(m, r);
    assert Slot(m.s, 0) == Some(r) && RouteKnown(r, Known(m.w));
    MovesUnlessAllHeld(m, r, e, image);
  }

  // ---- Through the gate ----

  /** What stands before any capture: capture is not latched off, no assessment stays unsent, and
      the source is neither out of service nor rejected. */
  predicate GateOpen(s: State, sent: bool) {
    !s.presentationUncertain && (s.pendingAssessment.None? || sent) && !s.disabled && !s.sourceRejected
  }

  /** The present goes to the recorded swapchain, image included, and its capture is due. */
  predicate DuePresent(m: Machine, r: Route, e: Event, image: nat) {
    && e.PreparePresent? && Allowed(m, e) && !e.busy && e.queue != 0 && e.info.Some?
    && m.s.route == Some(r) && Captures(m.s, e)
    && PresentedImage(e.info.value.entries, r.swapchain) == Some(image)
  }

  /** The step signalled a copy's semaphore or delivered a copy. */
  predicate Moved(m: Machine, m': Machine, e: Event, r: Route)
    requires e.PreparePresent?
  {
    || (e.queue in m'.w.calls && m'.w.calls[e.queue].semaphore.Some?)
    || DeliveredOne(m, m', r)
  }

  lemma OpenPresentMoves(m: Machine, r: Route, e: Event, image: nat)
    requires Inv(m) && AllKnown(m.s, Known(m.w)) && DuePresent(m, r, e, image) && GateOpen(m.s, e.sent)
    requires |m.w.leases| <= REPLAY_ENCODER_PIPELINE_DEPTH
    requires Settled(m, r) && Cooperative(e, r, image)
    ensures Moved(m, PresentStep(m, e), e, r)
  {
    OpenPresentReady(m, r, e, image);
    SettledPresentMoves(Gated(m, e), r, e, image);
    OpenPresentCaptures(m, r, e, image);
    var (m', signalled) := CapturePresent(Gated(m, e), r, e, image);
    assert PresentStep(m, e).w.leases == m'.w.leases && PresentStep(m, e).s == m'.s;
  }

  /** The machine behind the gate of this present, at its clock reading. */
  function Gated(m: Machine, e: Event): Machine
    requires e.PreparePresent? && e.now.Some?
  {
    Machine(PresentGate(m.s, e).0, m.w.(now := e.now.value))
  }

  lemma OpenPresentReady(m: Machine, r: Route, e: Event, image: nat)
    requires Inv(m) && AllKnown(m.s, Known(m.w)) && DuePresent(m, r, e, image) && GateOpen(m.s, e.sent)
    ensures var m1 := Gated(m, e);
            Inv(m1) && AllKnown(m1.s, Known(m1.w)) && CaptureReady(m1, r, e, image)
            && m1.s == m.s.(pendingAssessment := m1.s.pendingAssessment)
  {
    var m1 := m.(w := m.w.(now := e.now.value));
    ClockKeeps(m, m1.w.now);
    GateKeeps(m1, e);
    PresentedIsReady(m, e, PresentGate(m.s, e).0);
    FewerKnown(m.s, PresentGate(m.s, e).0, Known(m.w));
  }

  /** Through an open gate, a due present is its capture followed by the forwarded call. */
  lemma OpenPresentCaptures(m: Machine, r: Route, e: Event, image: nat)
    requires DuePresent(m, r, e, image) && GateOpen(m.s, e.sent)
    ensures var m1 := Gated(m, e);
            && CallsFit(e, r) && Backed(m1.w, r)
            && var (m', signalled) := CapturePresent(m1, r, e, image);
               PresentStep(m, e) == m'.(w := ForwardPresent(m'.w, e.queue, PresentedImages(e),
                                                            if signalled then Some((r.id, image)) else None))
  {
    var m1 := m.(w := m.w.(now := e.now.value));
    assert PresentGate(m1.s, e).1;
    assert PresentGate(m1.s, e).0 == m.s.(pendingAssessment := PresentGate(m1.s, e).0.pendingAssessment);
  }

  lemma ClosedPresentRests(m: Machine, e: Event)
    requires e.PreparePresent? && WellFormed(m, e) && !GateOpen(m.s, e.sent)
    ensures var m' := PresentStep(m, e);
            && m'.w.leases == m.w.leases && m'.w.exports == m.w.exports && m'.s.route == m.s.route
            && e.queue in m'.w.calls && m'.w.calls[e.queue].semaphore.None?
  {
  }

  /** No reachable state is stuck: in every run, once the GPU has finished, acknowledgements are
      applied and the daemon keeps at most its pipeline depth, the next due present submits a
      copy or delivers one exactly when the gate before the capture is open. */
  lemma NoReachableStateIsStuck(events: seq<Event>, r: Route, e: Event, image: nat)
    requires AllAllowed(Initial, events) && DuePresent(Run(Initial, events), r, e, image)
    requires |Run(Initial, events).w.leases| <= REPLAY_ENCODER_PIPELINE_DEPTH
    requires Settled(Run(Initial, events), r) && Cooperative(e, r, image)
    ensures var m := Run(Initial, events);
            Moved(m, Step(m, e), e, r) <==> GateOpen(m.s, e.sent)
  {
    InitialInv();
    RunKeeps(Initial, events);
    NoLeaseIsLost(events);
    var m := Run(Initial, events);
    assert Step(m, e) == PresentStep(m, e);
    if GateOpen(m.s, e.sent) {
      OpenPresentMoves(m, r, e, image);
    } else {
      ClosedPresentRests(m, e);
    }
  }
}

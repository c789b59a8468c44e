/** Every run of the Vulkan replay producer keeps its invariant and breaks no rule of the
    driver, the application or the daemon. */
module ReplaySafety {
  import opened Wrappers
  import opened Messages
  import opened ReplayWorld
  import opened ReplayState
  import opened ReplayMachine
  import opened ReplayInvariant
  import opened ReplayRouteLemmas
  import opened ReplaySlotLemmas
  import opened ReplayMapSteps
  import opened ReplaySlotSteps
  import opened ReplayPresentSteps

  // ---- Presents ----

  lemma ClockKeeps(m: Machine, now: nat)
    requires Inv(m) && m.w.now <= now
    ensures Inv(m.(w := m.w.(now := now)))
  {
    var w' := m.w.(now := now);
    FrameRoutes(m, w');
    if m.s.route.Some? {
      assert forall i :: InCall(m.w, m.s.route.value, i) ==> InCall(w', m.s.route.value, i);
    }
  }

  lemma GateKeeps(m: Machine, e: Event)
    requires Inv(m) && e.PreparePresent?
    ensures Inv(m.(s := PresentGate(m.s, e).0))
    ensures PresentGate(m.s, e).1 ==> !m.s.presentationUncertain
    ensures var s' := PresentGate(m.s, e).0;
            s' == m.s.(pendingAssessment := s'.pendingAssessment)
  {
    var s' := PresentGate(m.s, e).0;
    assert forall k :: 0 <= k < 5 ==> Slot(s', k) == Slot(m.s, k);
    SameCore(m, s');
  }

  /** A running present covers the semaphore it waits on. */
  lemma ForwardKeeps(m: Machine, queue: nat, images: set<(Handle, nat)>, semaphore: Option<(nat, nat)>, except: int)
    requires InvExcept(m, except) && queue !in m.w.calls
    requires except >= 0 ==> m.s.route.Some? && semaphore == Some((m.s.route.value.id, except as nat))
                             && (HandleOf(m.s.route.value), except as nat) in images
    ensures Inv(m.(w := ForwardPresent(m.w, queue, images, semaphore)))
  {
    var w' := ForwardPresent(m.w, queue, images, semaphore);
    FrameRoutes(m, w');
    if m.s.route.Some? {
      var r := m.s.route.value;
      forall i: nat | InCall(m.w, r, i)
        ensures InCall(w', r, i)
      {
        var q :| q in m.w.calls && m.w.calls[q].semaphore == Some((r.id, i)) && (HandleOf(r), i) in m.w.calls[q].images;
        assert w'.calls[q] == m.w.calls[q];
      }
      if except >= 0 {
        assert w'.calls[queue].semaphore == Some((r.id, except as nat));
        assert InCall(w', r, except as nat);
      }
    }
  }

  lemma PresentedIsReady(m: Machine, e: Event, s: State)
    requires Inv(m) && e.PreparePresent? && Allowed(m, e) && e.info.Some? && e.now.Some?
    requires s == m.s.(pendingAssessment := s.pendingAssessment) && !m.s.presentationUncertain && Captures(s, e)
    ensures var image := PresentedImage(e.info.value.entries, s.route.value.swapchain).value;
            var m1 := Machine(s, m.w.(now := e.now.value));
            && CaptureReady(m1, s.route.value, e, image)
            && (HandleOf(s.route.value), image) in PresentedImages(e)
  {
    var r := s.route.value;
    var image := PresentedImage(e.info.value.entries, r.swapchain).value;
    var w1 := m.w.(now := e.now.value);
    assert Slot(m.s, 0) == Some(r) && RouteOk(r, m.s.nextSequence, m.w);
    FrameRoute(r, m.s.nextSequence, m.s.nextSequence, m.w, w1);
    assert (r.swapchain, image) in e.info.value.entries;
    assert (HandleOf(r), image) in PresentedImages(e);
    assert !InCall(m.w, r, image);
  }

  lemma PresentKeeps(m: Machine, e: Event)
    requires e.PreparePresent? && Inv(m) && Allowed(m, e)
    ensures Inv(PresentStep(m, e)) && PresentStep(m, e).w.faults == m.w.faults
  {
    var m1 := m.(w := m.w.(now := if e.now.Some? then e.now.value else m.w.now));
    ClockKeeps(m, m1.w.now);
    GateKeeps(m1, e);
    var (s, open) := PresentGate(m1.s, e);
    if e.queue == 0 || e.info.None? || e.busy {
      ForwardKeeps(m1, e.queue, PresentedImages(e), None, -1);
    } else if !open || !Captures(s, e) {
      ForwardKeeps(m1.(s := s), e.queue, PresentedImages(e), None, -1);
    } else {
      var r := s.route.value;
      var image := PresentedImage(e.info.value.entries, r.swapchain).value;
      PresentedIsReady(m, e, s);
      CaptureKeeps(m1.(s := s), r, e, image);
      var (m2, signalled) := CapturePresent(m1.(s := s), r, e, image);
      ForwardKeeps(m2, e.queue, PresentedImages(e), if signalled then Some((r.id, image)) else None,
                   if signalled then image else -1);
    }
  }

  lemma FailKeepsRoute(r: Route, next: nat, w: World, i: nat)
    requires RouteOk(r, next, w) && i < MAX_IMAGES
    ensures RouteOk(r.(presentationUsable := r.presentationUsable[i := false]), next, w)
  {
    var r' := r.(presentationUsable := r.presentationUsable[i := false]);
    assert NewestStamp(r', w.now) == NewestStamp(r, w.now);
    assert forall q, k :: LeaseHeld(r, k, q) ==> LeaseHeld(r', k, q);
  }

  lemma LatchKeepsCore(m: Machine)
    requires Core(m) && SlotsOk(m.s, m.w)
    ensures var s' := m.s.(presentationUncertain := true);
            Core(m.(s := s')) && SlotsOk(s', m.w)
  {
    var s' := m.s.(presentationUncertain := true);
    assert forall k :: 0 <= k < 5 ==> Slot(s', k) == Slot(m.s, k);
    SameCore(m, s');
  }

  lemma FailKeepsCore(m: Machine, semaphore: (nat, nat), busy: bool)
    requires Core(m) && SlotsOk(m.s, m.w)
    ensures var s' := FailPresent(m.s, semaphore, busy);
            && Core(m.(s := s')) && SlotsOk(s', m.w)
  {
    var s' := FailPresent(m.s, semaphore, busy);
    var latched := m.s.(presentationUncertain := true);
    LatchKeepsCore(m);
    if s' != latched {
      assert Slot(m.s, 0) == m.s.route;
      assert RouteOk(m.s.route.value, m.s.nextSequence, m.w);
      FailKeepsRoute(m.s.route.value, m.s.nextSequence, m.w, semaphore.1);
      RouteWorkKeepsCore(m.(s := latched), s'.route.value, m.s.nextSequence, m.w);
      RouteWorkKeepsSlots(latched, s', m.w, m.w);
    }
  }

  lemma ReturnKeeps(m: Machine, e: Event)
    requires e.PresentReturned? && Inv(m) && Allowed(m, e)
    ensures Inv(ReturnStep(m, e)) && ReturnStep(m, e).w.faults == m.w.faults
  {
    var m' := ReturnStep(m, e);
    var call := m.w.calls[e.queue];
    FrameRoutes(m, m'.w);
    if e.failed && call.semaphore.Some? {
      FailKeepsCore(m.(w := m'.w), call.semaphore.value, e.busy);
    } else if m.s.route.Some? {
      var r := m.s.route.value;
      forall i: nat | InCall(m.w, r, i) && (HandleOf(r), i) in m'.w.acquired
        ensures InCall(m'.w, r, i)
      {
        var q :| q in m.w.calls && m.w.calls[q].semaphore == Some((r.id, i)) && (HandleOf(r), i) in m.w.calls[q].images;
        assert q != e.queue;
        assert m'.w.calls[q] == m.w.calls[q];
      }
    }
  }

  // ---- Acknowledgements, acquisitions and idle waits ----

  lemma ReclaimAndResumeKeep(m: Machine, queue: Option<nat>, setup: Setup, sent: bool)
    requires Inv(m) && setup.id !in m.w.gpus
    requires m.s.pendingSwapchain.Some? ==> SetupPossible(setup, m.s.pendingSwapchain.value.candidate)
    ensures var m1 := ReclaimIdleReleased(m);
            var m2 := Resume(m1, queue, setup, sent);
            Inv(m2) && m2.w.faults == m.w.faults
  {
    ReclaimKeeps(m);
    var m1 := ReclaimIdleReleased(m);
    if m1.s.pendingSwapchain.Some? {
      InstallKeeps(m1, m1.s.pendingSwapchain.value, setup, sent);
    }
  }

  lemma ReleaseStepKeeps(m: Machine, e: Event)
    requires e.ReleaseSequence? && Inv(m) && Allowed(m, e)
    ensures Inv(Release(m, e).0) && Release(m, e).0.w.faults == m.w.faults
  {
    if !e.busy {
      var f := Releasing(e.sequence);
      var s := MapRetired(m.s, f).(route := MapSlot(m.s.route, f), quarantined := MapSlot(m.s.quarantined, f));
      ReleaseKeeps(m, e.sequence);
      ReclaimAndResumeKeep(m.(s := s), PendingQueue(ReclaimIdleReleased(m.(s := s)).s), e.setup, e.sent);
    }
  }

  lemma AcquireStepKeeps(m: Machine, e: Event)
    requires e.ImageAcquired? && Inv(m) && Allowed(m, e)
    ensures Inv(AcquireStep(m, e)) && AcquireStep(m, e).w.faults == m.w.faults
  {
    var handle := Handle(e.device, e.swapchain);
    var m1 := m.(w := AcquireImage(m.w, handle, e.image, e.signaled));
    AcquireWorldKeeps(m, handle, e.image, e.signaled);
    if e.fence && !e.busy {
      var f := Confirming(handle, e.image, e.fence, e.signaled);
      if e.signaled {
        AcquisitionConsumes(m, handle, e.image);
      }
      ConfirmKeeps(m1, handle, e.image, e.fence, e.signaled);
      ReclaimKeeps(m1.(s := MapRetired(m1.s, f).(route := MapSlot(m1.s.route, f))));
    }
  }

  lemma AcquisitionConsumes(m: Machine, handle: Handle, i: nat)
    ensures WaitsConsumed(AcquireImage(m.w, handle, i, true), handle, i)
  {
  }

  lemma IdleCovers(m: Machine, f: Route -> Route, ids: set<nat>)
    requires Inv(m) && IdleWhere(m.w, ids)
    requires forall r :: f(r) == r || f(r) == r.(gpuIdle := true)
    requires forall k :: 1 <= k < 4 && Slot(m.s, k).Some? && f(Slot(m.s, k).value) != Slot(m.s, k).value ==>
               Slot(m.s, k).value.id in ids
    ensures Inv(m.(s := MapRetired(m.s, f)))
  {
    forall k | 1 <= k < 4 && Slot(m.s, k).Some? && f(Slot(m.s, k).value) != Slot(m.s, k).value
      ensures Slot(m.s, k).value.id in m.w.gpus && Idle(m.w.gpus[Slot(m.s, k).value.id])
    {
      assert RouteOk(Slot(m.s, k).value, m.s.nextSequence, m.w);
    }
    IdleKeeps(m, f);
  }

  lemma QueueIdleKeeps(m: Machine, e: Event)
    requires e.QueueIdle? && Inv(m) && Allowed(m, e)
    ensures Inv(AfterQueueIdle(m, e)) && AfterQueueIdle(m, e).w.faults == m.w.faults
  {
    if e.queue != 0 {
      var ids := set id | id in m.w.gpus && m.w.gpus[id].queue == e.queue;
      forall k | 1 <= k < 4 && Slot(m.s, k).Some? && Slot(m.s, k).value.queue == e.queue
        ensures Slot(m.s, k).value.id in ids
      {
        assert RouteOk(Slot(m.s, k).value, m.s.nextSequence, m.w);
      }
      IdleCovers(m, IdlingQueue(e.queue), ids);
      ReclaimAndResumeKeep(m.(s := MapRetired(m.s, IdlingQueue(e.queue))), Some(e.queue), e.setup, e.sent);
    }
  }

  lemma DeviceIdleKeeps(m: Machine, e: Event)
    requires e.DeviceIdle? && Inv(m) && Allowed(m, e)
    ensures Inv(AfterDeviceIdle(m, e)) && AfterDeviceIdle(m, e).w.faults == m.w.faults
  {
    var ids := set id | id in m.w.gpus && m.w.gpus[id].handle.device == e.device;
    forall k | 1 <= k < 4 && Slot(m.s, k).Some? && Slot(m.s, k).value.device == e.device
      ensures Slot(m.s, k).value.id in ids
    {
      assert RouteOk(Slot(m.s, k).value, m.s.nextSequence, m.w);
    }
    IdleCovers(m, IdlingDevice(e.device), ids);
    var marked := m.(s := MapRetired(m.s, IdlingDevice(e.device)));
    ReclaimAndResumeKeep(marked, PendingQueue(ReclaimIdleReleased(marked).s), e.setup, e.sent);
  }

  // ---- The surroundings' own moves ----

  lemma WorldMoveKeeps(m: Machine, w': World)
    requires Inv(m)
    requires w' == m.w.(gpus := w'.gpus, leases := w'.leases, released := w'.released)
    requires Core(m.(w := w')) && ExportsOk(m.s, w')
    requires forall id :: id in m.w.gpus ==>
               id in w'.gpus && w'.gpus[id] == m.w.gpus[id].(fences := w'.gpus[id].fences)
    ensures Inv(m.(w := w'))
  {
    if m.s.route.Some? {
      var r := m.s.route.value;
      assert Slot(m.s, 0) == Some(r) && RouteOk(r, m.s.nextSequence, m.w);
      assert forall i :: InCall(m.w, r, i) ==> InCall(w', r, i);
    }
  }

  lemma CompletionKeeps(m: Machine, e: Event)
    requires e.GpuCompletes? && Inv(m) && Allowed(m, e)
    ensures Inv(m.(w := Complete(m.w, e.id, e.context))) && m.(w := Complete(m.w, e.id, e.context)).w.faults == m.w.faults
  {
    var w' := Complete(m.w, e.id, e.context);
    var g := m.w.gpus[e.id];
    forall k | 0 <= k < 5 && Slot(m.s, k).Some? && Slot(m.s, k).value.id in m.w.gpus
      ensures var r := Slot(m.s, k).value;
              RouteMatches(r, m.w.gpus[r.id], m.w.now) ==> RouteMatches(r, w'.gpus[r.id], m.w.now)
    {
      var r := Slot(m.s, k).value;
      if r.id == e.id && RouteMatches(r, g, m.w.now) {
        if g.fences[e.context] == InFlight {
          CompleteKeepsMatch(r, g, m.w.now, e.context);
        } else {
          assert g.fences[e.context := g.fences[e.context]] == g.fences;
        }
      }
    }
    FrameRoutes(m, w');
    WorldMoveKeeps(m, w');
  }

  lemma AcknowledgeKeeps(m: Machine, e: Event)
    requires e.DaemonReleases? && Inv(m) && Allowed(m, e)
    ensures Inv(m.(w := Acknowledge(m.w, e.sequence))) && m.(w := Acknowledge(m.w, e.sequence)).w.faults == m.w.faults
  {
    var w' := Acknowledge(m.w, e.sequence);
    FrameRoutes(m, w');
    WorldMoveKeeps(m, w');
  }

  // ---- Runs ----

  lemma StepKeeps(m: Machine, e: Event)
    requires Inv(m) && Allowed(m, e)
    ensures Inv(Step(m, e)) && Step(m, e).w.faults == m.w.faults
  {
    match e
    case DeviceCreated(_, _, _, _) => CreateDeviceKeeps(m, e);
    case QueueObserved(_, _, _, _, _, _) => ObserveQueueKeeps(m, e);
    case SwapchainCreated(_, _, _, _, _, _, _, _, _) => CreateSwapchainKeeps(m, e);
    case SwapchainDestroyed(_, _, _, _) => DestroySwapchainKeeps(m, e);
    case DeviceDestroyed(_) => DestroyDeviceKeeps(m, e);
    case PreparePresent(_, _, _, _, _, _, _, _) => PresentKeeps(m, e);
    case PresentReturned(_, _, _, _) => ReturnKeeps(m, e);
    case ReleaseSequence(_, _, _, _) => ReleaseStepKeeps(m, e);
    case ImageAcquired(_, _, _, _, _, _) => AcquireStepKeeps(m, e);
    case QueueIdle(_, _, _) => QueueIdleKeeps(m, e);
    case DeviceIdle(_, _, _) => DeviceIdleKeeps(m, e);
    case GpuCompletes(_, _) => CompletionKeeps(m, e);
    case DaemonReleases(_) => AcknowledgeKeeps(m, e);
  }

  lemma {:induction false} RunKeeps(m: Machine, events: seq<Event>)
    requires Inv(m) && AllAllowed(m, events)
    ensures Inv(Run(m, events)) && Run(m, events).w.faults == m.w.faults
    decreases |events|
  {
    if events != [] {
      StepKeeps(m, events[0]);
      RunKeeps(Step(m, events[0]), events[1..]);
    }
  }

  /** In every run, with busy locks, refused submissions, lost sends, stale and repeated
      acknowledgements and replaced swapchains: no copy goes into a leased buffer, no
      semaphore is signalled before its wait was consumed, ownership transfers pair up,
      copies leave in capture order with increasing timestamps, and no resource is
      destroyed while in use or twice. */
  lemma EveryRunIsSafe(events: seq<Event>)
    requires AllAllowed(Initial, events)
    ensures Run(Initial, events).w.faults == {}
  {
    InitialInv();
    RunKeeps(Initial, events);
  }
}

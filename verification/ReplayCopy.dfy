/** The Vulkan replay producer as the object it is: fields updated in place by its entry
    points, each proved to take exactly the step that the theorems are about. */
module ReplayCopy {
  import opened Wrappers
  import opened Messages
  import opened ReplayWorld
  import opened ReplayState
  import opened ReplayMachine
  import opened ReplayInvariant
  import opened ReplaySlotSteps
  import opened ReplayPresentSteps
  import opened ReplaySafety
  import Cadence

  /** Record one acknowledgement on every context that carries its sequence. */
  method ReleaseRouteSequence(route: Route, sequence: nat) returns (released: Route)
    ensures released == ReleaseRoute(route, sequence)
  {
    var contexts := route.contexts;
    var k := 0;
    while k < |contexts|
      invariant 0 <= k <= |contexts| == |route.contexts|
      invariant forall j :: 0 <= j < k ==> contexts[j] == ReleaseContext(route.contexts[j], sequence)
      invariant forall j :: k <= j < |contexts| ==> contexts[j] == route.contexts[j]
    {
      if contexts[k].exportSequence == sequence {
        contexts := contexts[k := contexts[k].(exportReleased := true)];
      }
      k := k + 1;
    }
    released := route.(contexts := contexts);
    assert released.contexts == ReleaseRoute(route, sequence).contexts;
  }

  class CaptureState {
    var devices: map<nat, Device>
    var route: Option<Route>
    var pendingSwapchain: Option<PendingSwapchain>
    var retired: seq<Option<Route>>
    var abandoned: Option<Route>
    var quarantined: Option<Route>
    var disabled: bool
    var sourceRejected: bool
    var pendingAssessment: Option<Assessment>
    var lastExport: nat
    var presentationUncertain: bool
    var nextSequence: nat
    ghost var world: World

    ghost function Here(): Machine
      reads this
    {
      Machine(State(devices, route, pendingSwapchain, retired, abandoned, quarantined, disabled, sourceRejected,
                    pendingAssessment, lastExport, presentationUncertain, nextSequence), world)
    }

    ghost predicate Valid()
      reads this
    {
      Inv(Here())
    }

    constructor ()
      ensures Here() == Initial && Valid()
    {
      devices := map[];
      route, pendingSwapchain, abandoned, quarantined := None, None, None, None;
      retired := [None, None];
      disabled, sourceRejected, pendingAssessment := false, false, None;
      lastExport, presentationUncertain, nextSequence := 0, false, 1;
      world := InitialWorld;
      new;
      InitialInv();
    }

    // ---- Assessments ----

    method Report(assessment: Assessment, sent: bool)
      modifies this
      ensures Here() == old(Here()).(s := Assess(old(Here()).s, assessment, sent))
    {
      sourceRejected := assessment.Rejected?;
      pendingAssessment := Some(assessment);
      var done := FlushReport(sent);
    }

    method FlushReport(sent: bool) returns (done: bool)
      modifies this
      ensures (Here().s, done) == FlushAssessment(old(Here()).s, sent) && world == old(world)
    {
      if pendingAssessment.None? {
        return true;
      }
      if sent {
        pendingAssessment := None;
      }
      return sent;
    }

    // ---- Routes ----

    method Install(pending: PendingSwapchain, setup: Setup, sent: bool) returns (installed: bool)
      requires SetupPossible(setup, pending.candidate)
      modifies this
      ensures Here() == InstallRoute(old(Here()), pending, setup, sent)
      ensures installed ==> route.Some? && pendingSwapchain.None?
    {
      if disabled || route.Some? || abandoned.Some? || quarantined.Some? || pending.device !in devices
         || devices[pending.device].queue == 0 {
        return false;
      }
      var created := CreatedRoute(setup, devices[pending.device], pending);
      if created.None? {
        Report(Rejected(EncoderBackendUnavailable), sent);
        return false;
      }
      var r := created.value;
      world := CreateRoute(world, r.id, Handle(r.device, r.swapchain), r.queue, |r.contexts|);
      presentationUncertain := false;
      pendingSwapchain := None;
      Report(Accepted(r.candidate), sent);
      route := created;
      return true;
    }

    method Retain(r: Route, sent: bool)
      requires |retired| == 2
      modifies this
      ensures Here() == RetainRetired(old(Here()), r, sent)
    {
      var k := 0;
      while k < |retired| && retired[k].Some?
        invariant 0 <= k <= |retired|
        invariant forall j :: 0 <= j < k ==> retired[j].Some?
      {
        k := k + 1;
      }
      if k < |retired| {
        retired := retired[k := Some(r)];
      } else {
        disabled := true;
        if abandoned.None? {
          abandoned := Some(r);
        } else if quarantined.None? {
          quarantined := Some(r);
        } else {
          world := Leak(world, r.id);
        }
        Report(Rejected(EncoderBackendUnavailable), sent);
      }
    }

    method Reclaim()
      requires |retired| == 2
      modifies this
      ensures Here() == ReclaimIdleReleased(old(Here()))
    {
      var k := 0;
      while k < |retired|
        invariant 0 <= k <= |retired| == 2
        invariant forall j :: 0 <= j < 2 ==> retired[j] == if j < k then AfterReclaim(old(retired)[j]) else old(retired)[j]
        invariant var w0 := DestroyIf(old(world), old(retired)[0], Reclaimable(old(retired)[0]), false);
                  world == if k == 0 then old(world) else if k == 1 then w0
                           else DestroyIf(w0, old(retired)[1], Reclaimable(old(retired)[1]), false)
        invariant Here().s == old(Here()).s.(retired := retired)
      {
        if retired[k].Some? && RetiredRouteReclaimable(retired[k].value) {
          world := DestroyRoute(world, retired[k].value.id, false);
          retired := retired[k := None];
        }
        k := k + 1;
      }
      assert retired == [AfterReclaim(old(retired)[0]), AfterReclaim(old(retired)[1])];
      if abandoned.Some? && RetiredRouteReclaimable(abandoned.value) {
        world := DestroyRoute(world, abandoned.value.id, false);
        abandoned := None;
      }
      disabled := abandoned.Some? || quarantined.Some?;
    }

    /** The loop over retained routes shared by acknowledgements, acquisitions and idle waits. */
    method UpdateRetained(f: Route -> Route)
      requires |retired| == 2
      modifies this
      ensures Here() == old(Here()).(s := MapRetired(old(Here()).s, f))
    {
      var k := 0;
      while k < |retired|
        invariant 0 <= k <= |retired| == 2
        invariant forall j :: 0 <= j < 2 ==> retired[j] == if j < k then MapSlot(old(retired)[j], f) else old(retired)[j]
        invariant Here() == old(Here()).(s := old(Here()).s.(retired := retired))
      {
        if retired[k].Some? {
          retired := retired[k := Some(f(retired[k].value))];
        }
        k := k + 1;
      }
      assert retired == [MapSlot(old(retired)[0], f), MapSlot(old(retired)[1], f)];
      if abandoned.Some? {
        abandoned := Some(f(abandoned.value));
      }
    }

    method ResumeOn(queue: Option<nat>, setup: Setup, sent: bool)
      requires pendingSwapchain.Some? ==> SetupPossible(setup, pendingSwapchain.value.candidate)
      modifies this
      ensures Here() == Resume(old(Here()), queue, setup, sent)
    {
      if queue.Some? && !disabled && route.None? && abandoned.None? && quarantined.None? && pendingSwapchain.Some?
         && pendingSwapchain.value.device in devices && devices[pendingSwapchain.value.device].queue == queue.value {
        var installed := Install(pendingSwapchain.value, setup, sent);
      }
    }

    method WaitingQueue() returns (queue: Option<nat>)
      ensures queue == PendingQueue(Here().s)
    {
      queue := None;
      if pendingSwapchain.Some? && pendingSwapchain.value.device in devices {
        queue := Some(devices[pendingSwapchain.value.device].queue);
      }
    }

    // ---- Entry points ----

    method DeviceCreated(device: nat, requested: bool, families: set<nat>, exportSupport: Option<bool>)
      requires Valid()
      modifies this
      ensures Here() == old(Here()).(s := CreateDevice(old(Here()).s, Event.DeviceCreated(device, requested, families, exportSupport)))
      ensures Valid() && world.faults == old(world.faults)
    {
      CreateDeviceKeeps(Here(), Event.DeviceCreated(device, requested, families, exportSupport));
      if !requested || families == {} || (|devices| >= 2 && device !in devices) {
        return;
      }
      devices := devices[device := Device(families, 0, exportSupport)];
    }

    method QueueObserved(device: nat, queue: nat, family: nat, isProtected: bool, setup: Setup, sent: bool)
      requires Valid() && Allowed(Here(), Event.QueueObserved(device, queue, family, isProtected, setup, sent))
      modifies this
      ensures Here() == ObserveQueue(old(Here()), Event.QueueObserved(device, queue, family, isProtected, setup, sent))
      ensures Valid() && world.faults == old(world.faults)
    {
      ObserveQueueKeeps(Here(), Event.QueueObserved(device, queue, family, isProtected, setup, sent));
      if queue == 0 || isProtected || family >= 64 || device !in devices {
        return;
      }
      var d := devices[device];
      if d.queue == 0 && family in d.graphicsFamilies {
        devices := devices[device := d.(queue := queue)];
      }
      if pendingSwapchain.Some? && pendingSwapchain.value.device == device && pendingSwapchain.value.replaced == 0 {
        var installed := Install(pendingSwapchain.value, setup, sent);
      }
    }

    method Replace(device: nat, swapchain: nat, setup: Setup, sent: bool)
      requires pendingSwapchain.Some? ==> SetupPossible(setup, pendingSwapchain.value.candidate)
      modifies this
      ensures Here() == InstallReplacement(old(Here()), Event.SwapchainDestroyed(device, swapchain, setup, sent))
    {
      if pendingSwapchain.Some? && pendingSwapchain.value.device == device
         && pendingSwapchain.value.replaced == swapchain {
        var installed := Install(pendingSwapchain.value, setup, sent);
      }
      if route.None? {
        Report(Rejected(EncoderBackendUnavailable), sent);
      }
    }

    /** Retire the active route and install the swapchain that replaces it. */
    method RetireRoute(device: nat, swapchain: nat, setup: Setup, sent: bool)
      requires |retired| == 2 && route.Some?
      requires pendingSwapchain.Some? ==> SetupPossible(setup, pendingSwapchain.value.candidate)
      modifies this
      ensures Here() == RetireActive(old(Here()), Event.SwapchainDestroyed(device, swapchain, setup, sent))
    {
      var r := route.value;
      route := None;
      Retain(r, sent);
      Replace(device, swapchain, setup, sent);
    }

    method SwapchainDestroyed(device: nat, swapchain: nat, setup: Setup, sent: bool)
      requires Valid() && Allowed(Here(), Event.SwapchainDestroyed(device, swapchain, setup, sent))
      modifies this
      ensures Here() == DestroySwapchainStep(old(Here()), Event.SwapchainDestroyed(device, swapchain, setup, sent))
      ensures Valid() && world.faults == old(world.faults)
    {
      DestroySwapchainKeeps(Here(), Event.SwapchainDestroyed(device, swapchain, setup, sent));
      world := CloseSwapchain(world, Handle(device, swapchain));
      if pendingSwapchain.Some? && pendingSwapchain.value.swapchain == swapchain {
        pendingSwapchain := None;
      }
      if route.Some? && route.value.device == device && route.value.swapchain == swapchain {
        RetireRoute(device, swapchain, setup, sent);
      }
    }

    method DestroyRetired(device: nat)
      requires |retired| == 2
      modifies this
      ensures |retired| == 2 && Here().s == old(Here()).s.(retired := retired)
      ensures forall j :: 0 <= j < 2 ==> retired[j] == Without(old(retired)[j], device)
      ensures var w1 := DestroyIf(old(world), old(retired)[0], OnDevice(old(retired)[0], device), true);
              world == DestroyIf(w1, old(retired)[1], OnDevice(old(retired)[1], device), true)
    {
      var k := 0;
      while k < |retired|
        invariant 0 <= k <= |retired| == 2
        invariant forall j :: 0 <= j < 2 ==>
                    retired[j] == if j < k then Without(old(retired)[j], device) else old(retired)[j]
        invariant var w1 := DestroyIf(old(world), old(retired)[0], OnDevice(old(retired)[0], device), true);
                  world == if k == 0 then old(world) else if k == 1 then w1
                           else DestroyIf(w1, old(retired)[1], OnDevice(old(retired)[1], device), true)
        invariant Here().s == old(Here()).s.(retired := retired)
      {
        if retired[k].Some? && retired[k].value.device == device {
          world := DestroyRoute(world, retired[k].value.id, true);
          retired := retired[k := None];
        }
        k := k + 1;
      }
    }

    method DestroyOverflow(device: nat)
      modifies this
      ensures var s := old(Here()).s;
              Here() == Machine(s.(abandoned := Without(s.abandoned, device), quarantined := Without(s.quarantined, device)),
                                DestroyIf(DestroyIf(old(world), s.abandoned, OnDevice(s.abandoned, device), true),
                                          s.quarantined, OnDevice(s.quarantined, device), true))
    {
      if abandoned.Some? && abandoned.value.device == device {
        world := DestroyRoute(world, abandoned.value.id, true);
        abandoned := None;
      }
      if quarantined.Some? && quarantined.value.device == device {
        world := DestroyRoute(world, quarantined.value.id, true);
        quarantined := None;
      }
    }

    method DestroyRoutes(device: nat)
      requires |retired| == 2
      modifies this
      ensures Here() == DestroyRoutesOn(old(Here()), device)
    {
      if route.Some? && route.value.device == device {
        world := DestroyRoute(world, route.value.id, true);
        route := None;
      }
      DestroyRetired(device);
      assert retired == [Without(old(retired)[0], device), Without(old(retired)[1], device)];
      DestroyOverflow(device);
    }

    method Forget(device: nat)
      modifies this
      ensures Here() == old(Here()).(s := ForgetDevice(old(Here()).s, device))
    {
      devices := devices - {device};
      if pendingSwapchain.Some? && pendingSwapchain.value.device == device {
        pendingSwapchain := None;
      }
      if devices == map[] {
        disabled, sourceRejected, pendingAssessment, presentationUncertain := false, false, None, false;
      }
    }

    method DeviceDestroyed(device: nat)
      requires Valid() && Allowed(Here(), Event.DeviceDestroyed(device))
      modifies this
      ensures Here() == DestroyDeviceStep(old(Here()), Event.DeviceDestroyed(device))
      ensures Valid() && world.faults == old(world.faults)
    {
      DestroyDeviceKeeps(Here(), Event.DeviceDestroyed(device));
      world := CloseDevice(world, device);
      DestroyRoutes(device);
      Forget(device);
    }

    /** Record an acknowledgement on the routes of all five slots. */
    method ReleaseAll(sequence: nat)
      requires |retired| == 2
      modifies this
      ensures var f := Releasing(sequence);
              Here() == old(Here()).(s := MapRetired(old(Here()).s, f).(
                                       route := MapSlot(old(route), f), quarantined := MapSlot(old(quarantined), f)))
    {
      if route.Some? {
        var released := ReleaseRouteSequence(route.value, sequence);
        route := Some(released);
      }
      UpdateRetained(Releasing(sequence));
      if quarantined.Some? {
        var released := ReleaseRouteSequence(quarantined.value, sequence);
        quarantined := Some(released);
      }
    }

    /** Apply one acknowledgement; false while the lock is busy, with nothing changed. */
    method ReleaseSequence(sequence: nat, busy: bool, setup: Setup, sent: bool) returns (applied: bool)
      requires Valid() && Allowed(Here(), Event.ReleaseSequence(sequence, busy, setup, sent))
      modifies this
      ensures (Here(), applied) == Release(old(Here()), Event.ReleaseSequence(sequence, busy, setup, sent))
      ensures applied == !busy && (busy ==> Here() == old(Here()))
      ensures Valid() && world.faults == old(world.faults)
    {
      ReleaseStepKeeps(Here(), Event.ReleaseSequence(sequence, busy, setup, sent));
      if busy {
        return false;
      }
      ReleaseAll(sequence);
      Reclaim();
      var queue := WaitingQueue();
      ResumeOn(queue, setup, sent);
      return true;
    }

    method ImageAcquired(device: nat, swapchain: nat, image: nat, fence: bool, signaled: bool, busy: bool)
      requires Valid() && Allowed(Here(), Event.ImageAcquired(device, swapchain, image, fence, signaled, busy))
      modifies this
      ensures Here() == AcquireStep(old(Here()), Event.ImageAcquired(device, swapchain, image, fence, signaled, busy))
      ensures Valid() && world.faults == old(world.faults)
    {
      AcquireStepKeeps(Here(), Event.ImageAcquired(device, swapchain, image, fence, signaled, busy));
      world := AcquireImage(world, Handle(device, swapchain), image, signaled);
      if !fence || busy {
        return;
      }
      if route.Some? {
        route := Some(ConfirmReacquisition(route.value, Handle(device, swapchain), image, fence, signaled));
      }
      UpdateRetained(Confirming(Handle(device, swapchain), image, fence, signaled));
      Reclaim();
    }

    method QueueIdle(queue: nat, setup: Setup, sent: bool)
      requires Valid() && Allowed(Here(), Event.QueueIdle(queue, setup, sent))
      modifies this
      ensures Here() == AfterQueueIdle(old(Here()), Event.QueueIdle(queue, setup, sent))
      ensures Valid() && world.faults == old(world.faults)
    {
      QueueIdleKeeps(Here(), Event.QueueIdle(queue, setup, sent));
      if queue == 0 {
        return;
      }
      UpdateRetained(IdlingQueue(queue));
      Reclaim();
      ResumeOn(Some(queue), setup, sent);
    }

    method DeviceIdle(device: nat, setup: Setup, sent: bool)
      requires Valid() && Allowed(Here(), Event.DeviceIdle(device, setup, sent))
      modifies this
      ensures Here() == AfterDeviceIdle(old(Here()), Event.DeviceIdle(device, setup, sent))
      ensures Valid() && world.faults == old(world.faults)
    {
      DeviceIdleKeeps(Here(), Event.DeviceIdle(device, setup, sent));
      UpdateRetained(IdlingDevice(device));
      Reclaim();
      var queue := WaitingQueue();
      ResumeOn(queue, setup, sent);
    }

    // ---- Swapchain admission ----

    method Admit(device: nat, previous: nat, swapchain: nat, candidate: SourceCandidate, bytes: nat, setup: Setup,
                 sent: bool, ghost e: Event)
      requires SetupPossible(setup, candidate) && e.SwapchainCreated?
      requires e.device == device && e.previous == previous && e.swapchain == swapchain && e.setup == setup && e.sent == sent
      modifies this
      ensures Here() == AdmitSwapchain(old(Here()), e, candidate, bytes)
    {
      var waiting := PendingSwapchain(device, 0, swapchain, candidate, bytes);
      if route.Some? {
        if route.value.device == device
           && (previous == route.value.swapchain
               || (pendingSwapchain.Some? && previous == pendingSwapchain.value.swapchain)) {
          pendingSwapchain := Some(waiting.(replaced := route.value.swapchain));
        }
        return;
      }
      if disabled || abandoned.Some? || quarantined.Some? {
        pendingSwapchain := Some(waiting);
        return;
      }
      if device !in devices {
        return;
      }
      if devices[device].queue == 0 {
        pendingSwapchain := Some(waiting);
        return;
      }
      var installed := Install(waiting, setup, sent);
    }

    method SwapchainCreated(device: nat, previous: nat, swapchain: nat, sharedPresent: bool,
                            assessment: Option<Assessment>, production: bool, failSetup: bool, setup: Setup, sent: bool)
      requires Valid()
      requires Allowed(Here(), Event.SwapchainCreated(device, previous, swapchain, sharedPresent, assessment, production,
                                                      failSetup, setup, sent))
      modifies this
      ensures Here() == CreateSwapchainStep(old(Here()), Event.SwapchainCreated(device, previous, swapchain, sharedPresent, assessment,
                                                                 production, failSetup, setup, sent))
      ensures Valid() && world.faults == old(world.faults)
    {
      ghost var e := Event.SwapchainCreated(device, previous, swapchain, sharedPresent, assessment, production, failSetup,
                                            setup, sent);
      CreateSwapchainKeeps(Here(), e);
      world := OpenSwapchain(world, Handle(device, swapchain));
      var isSource := IsSource(device, previous);
      if swapchain == 0 || !isSource {
        return;
      }
      if sharedPresent {
        Report(Rejected(EncoderBackendUnavailable), sent);
        return;
      }
      if assessment.None? {
        return;
      }
      if assessment.value.Rejected? {
        Report(assessment.value, sent);
        return;
      }
      var candidate := assessment.value.candidate;
      var bytes := candidate.width * candidate.height * BYTES_PER_PIXEL;
      if bytes > U32_MAX {
        return;
      }
      if production && device in devices && devices[device].exportSupport.None? {
        Report(Rejected(ExternalMemoryUnsupported), sent);
        return;
      }
      if failSetup {
        Report(Rejected(EncoderBackendUnavailable), sent);
        return;
      }
      Admit(device, previous, swapchain, candidate, bytes, setup, sent, e);
    }

    method IsSource(device: nat, previous: nat) returns (source: bool)
      ensures source == IsSourceSwapchain(Here().s, device, previous)
    {
      if route.Some? {
        return route.value.device == device
               && (route.value.swapchain == previous
                   || (pendingSwapchain.Some? && pendingSwapchain.value.device == device
                       && pendingSwapchain.value.swapchain == previous));
      }
      return pendingSwapchain.None?
             || (pendingSwapchain.value.device == device
                 && (previous == pendingSwapchain.value.swapchain || previous == pendingSwapchain.value.replaced));
    }

    // ---- Presents ----

    /** Take the oldest completed copy of the active route. */
    method TakeCompletedCopy(ready: bool) returns (proof: Option<CopyProof>)
      requires route.Some? && Backed(world, route.value)
      modifies this
      ensures route.Some?
      ensures var (m', r', p) := TakeCompleted(old(Here()), old(route).value, ready);
              Here() == m'.(s := m'.s.(route := Some(r'))) && proof == p
    {
      var r := route.value;
      var oldest := OldestPendingContext(r.contexts);
      if oldest.None? || !ready {
        return None;
      }
      var k := oldest.value;
      var c := r.contexts[k];
      world := HandOff(world, r.id, k, c.capturedAt);
      var taken := c.(pending := false);
      var sequence := None;
      if c.exportFd >= 3 {
        taken := taken.(exportReleased := false, exportSequence := nextSequence);
        sequence := Some(nextSequence);
        nextSequence := nextSequence + 1;
      }
      route := Some(r.(contexts := r.contexts[k := taken]));
      return Some(CopyProof(r.candidate, r.copiedBytes, k, c.exportFd, sequence, c.capturedAt, c.duration));
    }

    /** Record and submit a copy of image i into context k of the active route. */
    method SubmitCopyInto(k: nat, i: nat, commands: seq<Command>, stamp: nat, duration: nat, calls: DriverCalls)
      returns (signalled: bool)
      requires route.Some? && Backed(world, route.value) && k < |route.value.contexts| && i < MAX_IMAGES
      modifies this`route, this`world
      ensures var (w', r', done) := SubmitInto(old(world), old(route).value, k, i, commands, stamp, duration, calls);
              world == w' && route == Some(r') && signalled == done
    {
      var r := route.value;
      var spoiled := r.contexts[k].(usable := false);
      if !calls.resetFence {
        route := Some(r.(contexts := r.contexts[k := spoiled]));
        return false;
      }
      world := ResetFence(world, r.id, k);
      if !calls.resetCommand || !calls.begin || !calls.end {
        route := Some(r.(contexts := r.contexts[k := spoiled]));
        return false;
      }
      var marked := r.(presentationPending := r.presentationPending[i := true], gpuIdle := false);
      if calls.submit.Refused? {
        if calls.submit.reached {
          world := Submit(world, r.id, k, i, commands, None);
        }
        route := Some(marked.(contexts := r.contexts[k := spoiled],
                              presentationUsable := r.presentationUsable[i := false]));
        return false;
      }
      world := Submit(world, r.id, k, i, commands, Some(stamp));
      var copied := r.contexts[k].(capturedAt := stamp, duration := duration, pending := true);
      route := Some(marked.(contexts := r.contexts[k := copied]));
      return true;
    }

    /** Copy image i into the first free context of the active route. */
    method SubmitNextCopy(i: nat, stamp: nat, duration: nat, calls: DriverCalls) returns (signalled: bool)
      requires route.Some? && Backed(world, route.value) && |calls.ready| == |route.value.contexts|
      modifies this
      ensures route.Some?
      ensures var (w', r', done) := SubmitNext(old(world), old(route).value, i, stamp, duration, calls);
              Here() == Machine(old(Here()).s.(route := Some(r')), w') && signalled == done
    {
      var r := route.value;
      if i >= MAX_IMAGES || !r.presentationUsable[i] || i >= r.imageCount {
        return false;
      }
      var k := 0;
      while k < |r.contexts| && !Eligible(r.contexts[k], calls.ready[k])
        invariant 0 <= k <= |r.contexts|
        invariant FirstEligible(r.contexts, calls.ready, 0) == FirstEligible(r.contexts, calls.ready, k)
      {
        k := k + 1;
      }
      if k == |r.contexts| {
        return false;
      }
      var commands := RecordCopy(r.exportRequired, r.contexts[k].capturedAt != 0);
      signalled := SubmitCopyInto(k, i, commands, stamp, duration, calls);
    }

    method CompleteCopyHandoff(id: nat, proof: CopyProof, delivered: bool)
      requires |retired| == 2
      modifies this
      ensures Here() == CompleteHandOff(old(Here()), id, proof, delivered)
    {
      var timestamp := Cadence.MonotonicExportTimestamp(lastExport, proof.timestamp);
      if proof.exportSequence.None? || delivered {
        lastExport := timestamp;
        if proof.exportSequence.Some? {
          world := Deliver(world, proof.exportSequence.value, id, proof.context, timestamp);
        }
        return;
      }
      var sequence := proof.exportSequence.value;
      if route.Some? {
        var released := ReleaseRouteSequence(route.value, sequence);
        route := Some(released);
      }
      UpdateRetained(Releasing(sequence));
    }

    /** Take the oldest completed copy, then start copying the presented image. */
    method Copy(image: nat, now: nat, calls: DriverCalls, ghost e: Event)
      returns (proof: Option<CopyProof>, signalled: bool)
      requires route.Some? && Backed(world, route.value) && CallsFit(e, route.value)
      requires e.calls == calls && e.now == Some(now)
      modifies this
      ensures (Here(), proof, signalled) == CopyPresented(old(Here()), old(route).value, e, image)
      ensures retired == old(retired)
    {
      var r := route.value;
      var (stamp, interval) := Cadence.VulkanCaptureTiming(r.samplingRate, r.nextSubmit, now, r.variableMinInterval);
      TakeShape(Here(), r, calls.oldestReady);
      proof := TakeCompletedCopy(calls.oldestReady);
      signalled := SubmitNextCopy(image, stamp, r.frameInterval, calls);
      if signalled {
        var deadline := Cadence.AdvanceCaptureDeadline(r.samplingRate == 0, r.nextSubmit, now, interval);
        route := Some(route.value.(nextSubmit := deadline));
      }
    }

    /** The due part of a present on the active route. */
    method Capture(image: nat, now: nat, calls: DriverCalls, delivered: bool, ghost e: Event) returns (signalled: bool)
      requires route.Some? && Backed(world, route.value) && |retired| == 2 && CallsFit(e, route.value)
      requires e.calls == calls && e.now == Some(now) && e.delivered == delivered
      modifies this
      ensures (Here(), signalled) == CapturePresent(old(Here()), old(route).value, e, image)
    {
      var id := route.value.id;
      var proof;
      proof, signalled := Copy(image, now, calls, e);
      if proof.Some? {
        CompleteCopyHandoff(id, proof.value, delivered);
      }
    }

    /** The gate before any capture: an uncertain presentation, an unsent assessment or a
        rejected source stops it. */
    method Gate(sent: bool, ghost e: Event) returns (open: bool)
      requires e.PreparePresent? && e.sent == sent
      modifies this
      ensures (Here().s, open) == PresentGate(old(Here()).s, e) && world == old(world)
    {
      if presentationUncertain {
        if pendingAssessment.None? {
          pendingAssessment := Some(Rejected(EncoderBackendUnavailable));
        }
        var done := FlushReport(sent);
        return false;
      }
      var flushed := FlushReport(sent);
      return flushed && !disabled && !sourceRejected;
    }

    method PreparePresent(queue: nat, device: nat, now: Option<nat>, info: Option<PresentInfo>, calls: DriverCalls,
                          sent: bool, delivered: bool, busy: bool) returns (semaphore: Option<(nat, nat)>)
      requires Valid() && Allowed(Here(), Event.PreparePresent(queue, device, now, info, calls, sent, delivered, busy))
      modifies this
      ensures Here() == PresentStep(old(Here()), Event.PreparePresent(queue, device, now, info, calls, sent, delivered, busy))
      ensures Valid() && world.faults == old(world.faults)
      ensures queue in world.calls && world.calls[queue].semaphore == semaphore
    {
      ghost var e := Event.PreparePresent(queue, device, now, info, calls, sent, delivered, busy);
      PresentKeeps(Here(), e);
      semaphore := Forwarded(queue, now, info, calls, sent, delivered, busy, e);
    }

    /** Prepare, then forward the present with the semaphore it has to wait on. */
    method Forwarded(queue: nat, now: Option<nat>, info: Option<PresentInfo>, calls: DriverCalls, sent: bool,
                     delivered: bool, busy: bool, ghost e: Event) returns (semaphore: Option<(nat, nat)>)
      requires e.PreparePresent? && WellFormed(Here(), e)
      requires e.queue == queue && e.now == now && e.info == info && e.calls == calls
      requires e.sent == sent && e.delivered == delivered && e.busy == busy
      modifies this
      ensures Here() == PresentStep(old(Here()), e)
      ensures queue in world.calls && world.calls[queue].semaphore == semaphore
    {
      world := world.(now := if now.Some? then now.value else world.now);
      semaphore := Prepared(queue, now, info, calls, sent, delivered, busy, e);
      world := ForwardPresent(world, queue, PresentedImages(e), semaphore);
    }

    method Prepared(queue: nat, now: Option<nat>, info: Option<PresentInfo>, calls: DriverCalls, sent: bool,
                    delivered: bool, busy: bool, ghost e: Event) returns (semaphore: Option<(nat, nat)>)
      requires |retired| == 2 && (route.Some? ==> Backed(world, route.value) && CallsFit(e, route.value))
      requires e.PreparePresent? && e.queue == queue && e.now == now && e.info == info && e.calls == calls
      requires e.sent == sent && e.delivered == delivered && e.busy == busy
      modifies this
      ensures Here() == Present(old(Here()), e).0
      ensures var image := Present(old(Here()), e).1;
              semaphore == if image.Some? && old(route).Some? then Some((old(route).value.id, image.value)) else None
    {
      semaphore := None;
      if queue == 0 || info.None? || busy {
        return;
      }
      var open := Gate(sent, e);
      if !open || route.None? || route.value.queue != queue || now.None? || !PresentInfoUsable(info.value) {
        return;
      }
      var r := route.value;
      var image := PresentedImage(info.value.entries, r.swapchain);
      if image.None? || image.value >= |r.images| || r.images[image.value] == 0 || image.value >= r.imageCount
         || !Cadence.VulkanCaptureDue(r.samplingRate, r.nextSubmit, now.value, r.variableMinInterval) {
        return;
      }
      var signalled := Capture(image.value, now.value, calls, delivered, e);
      if signalled {
        semaphore := Some((r.id, image.value));
      }
    }

    /** The forwarded present returned. */
    method PresentReturned(queue: nat, failed: bool, busy: bool, semaphore: Option<(nat, nat)>,
                           ghost kept: set<(Handle, nat)>)
      requires Valid() && Allowed(Here(), Event.PresentReturned(queue, failed, busy, kept))
      requires world.calls[queue].semaphore == semaphore
      modifies this
      ensures Here() == ReturnStep(old(Here()), Event.PresentReturned(queue, failed, busy, kept))
      ensures Valid() && world.faults == old(world.faults)
    {
      ReturnKeeps(Here(), Event.PresentReturned(queue, failed, busy, kept));
      world := ReturnPresent(world, queue, failed, kept);
      if !failed || semaphore.None? {
        return;
      }
      presentationUncertain := true;
      if !busy && route.Some? && route.value.id == semaphore.value.0
         && semaphore.value.1 < |route.value.presentationUsable| {
        var usable := route.value.presentationUsable[semaphore.value.1 := false];
        route := Some(route.value.(presentationUsable := usable));
      }
    }
  }
}

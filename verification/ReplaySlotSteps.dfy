/** Swapchain and device life cycles keep the invariant and break no rule. */
module ReplaySlotSteps {
  import opened Wrappers
  import opened Messages
  import opened ReplayWorld
  import opened ReplayState
  import opened ReplayMachine
  import opened ReplayInvariant
  import opened ReplayRouteLemmas
  import opened ReplaySlotLemmas
  import opened ReplayMapSteps

  lemma OpenKeeps(m: Machine, handle: Handle)
    requires Inv(m) && HandleUnused(m.s, handle)
    ensures Inv(m.(w := OpenSwapchain(m.w, handle)))
  {
    var m' := m.(w := OpenSwapchain(m.w, handle));
    FrameRoutes(m, m'.w);
    if m.s.route.Some? {
      assert forall i :: InCall(m.w, m.s.route.value, i) ==> InCall(m'.w, m.s.route.value, i);
    }
  }

  /** A change of the world that leaves each route's own GPU state equivalent. */
  lemma FrameRoutes(m: Machine, w': World)
    requires Core(m) && w'.alive == m.w.alive && m.w.now <= w'.now
    requires forall id :: id in m.w.gpus ==> id in w'.gpus
    requires forall q :: q in w'.leases ==> q in m.w.leases && m.w.leases[q] == w'.leases[q]
    requires forall k :: 0 <= k < 5 && Slot(m.s, k).Some? && Slot(m.s, k).value.id in m.w.gpus ==>
               var r := Slot(m.s, k).value;
               RouteMatches(r, m.w.gpus[r.id], m.w.now) ==> RouteMatches(r, w'.gpus[r.id], m.w.now)
    ensures Core(m.(w := w'))
  {
    forall k | 0 <= k < 5 && Slot(m.s, k).Some?
      ensures RouteOk(Slot(m.s, k).value, m.s.nextSequence, w')
    {
      var r := Slot(m.s, k).value;
      assert RouteOk(r, m.s.nextSequence, m.w);
      FrameRoute(r, m.s.nextSequence, m.s.nextSequence, m.w, w');
    }
  }

  /** Bookkeeping that touches neither the routes nor the waiting swapchain. */
  lemma AssessKeeps(m: Machine, assessment: Assessment, sent: bool)
    requires Inv(m)
    ensures Inv(m.(s := Assess(m.s, assessment, sent)))
  {
    AssessedKeeps(m, Assess(m.s, assessment, sent));
  }

  lemma WaitingKeeps(m: Machine, p: PendingSwapchain)
    requires Inv(m) && Handle(p.device, p.swapchain) in m.w.live
    requires WaitingDescribed(p)
    requires m.s.route.Some? ==> p.device == m.s.route.value.device && p.replaced == m.s.route.value.swapchain
    ensures Inv(m.(s := m.s.(pendingSwapchain := Some(p))))
  {
    var s' := m.s.(pendingSwapchain := Some(p));
    assert forall k :: 0 <= k < 5 ==> Slot(s', k) == Slot(m.s, k);
    SameCore(m, s');
  }

  lemma AdmitKeeps(m: Machine, e: Event, candidate: SourceCandidate, bytes: nat)
    requires e.SwapchainCreated? && SetupPossible(e.setup, candidate) && Inv(m)
    requires e.setup.id !in m.w.gpus && Handle(e.device, e.swapchain) in m.w.live
    requires bytes == candidate.width * candidate.height * 4
    ensures Inv(AdmitSwapchain(m, e, candidate, bytes)) && AdmitSwapchain(m, e, candidate, bytes).w.faults == m.w.faults
  {
    var p := PendingSwapchain(e.device, 0, e.swapchain, candidate, bytes);
    if m.s.route.Some? {
      if m.s.route.value.device == e.device {
        WaitingKeeps(m, p.(replaced := m.s.route.value.swapchain));
      }
    } else {
      WaitingKeeps(m, p);
      InstallKeeps(m, p, e.setup, e.sent);
    }
  }

  lemma CreateSwapchainKeeps(m: Machine, e: Event)
    requires e.SwapchainCreated? && Inv(m) && Allowed(m, e)
    ensures Inv(CreateSwapchainStep(m, e)) && CreateSwapchainStep(m, e).w.faults == m.w.faults
  {
    var handle := Handle(e.device, e.swapchain);
    var m1 := m.(w := OpenSwapchain(m.w, handle));
    OpenKeeps(m, handle);
    AssessKeeps(m1, Rejected(EncoderBackendUnavailable), e.sent);
    AssessKeeps(m1, Rejected(ExternalMemoryUnsupported), e.sent);
    if e.assessment.Some? {
      AssessKeeps(m1, e.assessment.value, e.sent);
      if e.assessment.value.Accepted? {
        var candidate := e.assessment.value.candidate;
        AdmitKeeps(m1, e, candidate, candidate.width * candidate.height * BYTES_PER_PIXEL);
      }
    }
  }

  lemma ObserveQueueKeeps(m: Machine, e: Event)
    requires e.QueueObserved? && Inv(m) && Allowed(m, e)
    ensures Inv(ObserveQueue(m, e)) && ObserveQueue(m, e).w.faults == m.w.faults
  {
    if !(e.queue == 0 || e.isProtected || e.family >= 64 || e.device !in m.s.devices) {
      var d := m.s.devices[e.device];
      var s1 := if d.queue == 0 && e.family in d.graphicsFamilies
                then m.s.(devices := m.s.devices[e.device := d.(queue := e.queue)]) else m.s;
      assert forall k :: 0 <= k < 5 ==> Slot(s1, k) == Slot(m.s, k);
      SameCore(m, s1);
      assert Inv(m.(s := s1));
      if s1.pendingSwapchain.Some? {
        InstallKeeps(m.(s := s1), s1.pendingSwapchain.value, e.setup, e.sent);
      }
    }
  }

  lemma CreateDeviceKeeps(m: Machine, e: Event)
    requires e.DeviceCreated? && Inv(m) && Allowed(m, e)
    ensures Inv(m.(s := CreateDevice(m.s, e))) && m.(s := CreateDevice(m.s, e)).w.faults == m.w.faults
  {
    var m' := m.(s := CreateDevice(m.s, e));
    assert forall k :: 0 <= k < 5 ==> Slot(m'.s, k) == Slot(m.s, k);
    SameCore(m, m'.s);
  }

  // ---- Swapchain destruction ----

  lemma CloseKeepsCore(m: Machine, handle: Handle)
    requires Core(m)
    ensures Core(m.(w := CloseSwapchain(m.w, handle)))
  {
    FrameRoutes(m, CloseSwapchain(m.w, handle));
  }

  /** State s' is s with the active route moved to an empty slot. */
  predicate RouteMoved(s: State, s': State, to: nat)
    requires |s.retired| == |s'.retired| == 2 && 1 <= to < 5
  {
    && s'.nextSequence == s.nextSequence
    && s.route.Some? && Slot(s, to).None?
    && forall k :: 0 <= k < 5 ==>
         Slot(s', k) == if k == 0 then None else if k == to then s.route else Slot(s, k)
  }

  lemma MoveKeepsCore(m: Machine, s': State, to: nat)
    requires Core(m) && |s'.retired| == 2 && 1 <= to < 5 && RouteMoved(m.s, s', to)
    ensures Core(m.(s := s'))
  {
    assert Slot(m.s, 0) == m.s.route;
    forall k | 0 <= k < 5 && Slot(s', k).Some?
      ensures RouteOk(Slot(s', k).value, s'.nextSequence, m.w)
    {
      assert RouteOk(Slot(m.s, if k == to then 0 else k).value, m.s.nextSequence, m.w);
    }
    forall j, k | 0 <= j < k < 5 && Slot(s', j).Some? && Slot(s', k).Some?
      ensures Slot(s', j).value.id != Slot(s', k).value.id
    {
      var j0, k0 := if j == to then 0 else j, if k == to then 0 else k;
      assert Slot(m.s, j0).Some? && Slot(m.s, k0).Some?;
    }
    forall id | id in m.w.alive
      ensures exists k :: 0 <= k < 5 && Slot(s', k).Some? && Slot(s', k).value.id == id
    {
      var k :| 0 <= k < 5 && Slot(m.s, k).Some? && Slot(m.s, k).value.id == id;
      assert Slot(s', if k == 0 then to else k) == Slot(m.s, k);
    }
  }

  /** An active route excludes an overflow route, so it always finds a slot: neither the
      quarantine nor the leak of RetainRetired is reached. */
  lemma RetainMoves(s: State, r: Route, w: World, sent: bool)
    requires |s.retired| == 2 && s.route == Some(r) && s.abandoned.None? && s.quarantined.None?
    ensures var m' := RetainRetired(Machine(s.(route := None), w), r, sent);
            && m'.w == w && |m'.s.retired| == 2
            && (exists to :: 1 <= to < 4 && RouteMoved(s, m'.s, to))
            && m'.s.quarantined.None?
            && (m'.s.abandoned.Some? ==> m'.s.disabled)
            && m'.s == s.(route := None, retired := m'.s.retired, abandoned := m'.s.abandoned, disabled := m'.s.disabled,
                          sourceRejected := m'.s.sourceRejected, pendingAssessment := m'.s.pendingAssessment)
  {
    var m' := RetainRetired(Machine(s.(route := None), w), r, sent);
    if s.retired[0].None? {
      assert RouteMoved(s, m'.s, 1);
    } else if s.retired[1].None? {
      assert RouteMoved(s, m'.s, 2);
    } else {
      assert RouteMoved(s, m'.s, 3);
    }
  }

  lemma RetireKeeps(m: Machine, sent: bool)
    requires Inv(m) && m.s.route.Some?
    requires m.s.pendingSwapchain.Some? ==>
               m.s.pendingSwapchain.value.swapchain != m.s.route.value.swapchain
    ensures var r := m.s.route.value;
            var m1 := Machine(m.s.(route := None), CloseSwapchain(m.w, HandleOf(r)));
            Inv(RetainRetired(m1, r, sent)) && RetainRetired(m1, r, sent).w == m1.w
            && RetainRetired(m1, r, sent).s.pendingSwapchain == m.s.pendingSwapchain
  {
    var r := m.s.route.value;
    var w1 := CloseSwapchain(m.w, HandleOf(r));
    var m' := RetainRetired(Machine(m.s.(route := None), w1), r, sent);
    CloseKeepsCore(m, HandleOf(r));
    RetainMoves(m.s, r, w1, sent);
    var to :| 1 <= to < 4 && RouteMoved(m.s, m'.s, to);
    MoveKeepsCore(m.(w := w1), m'.s, to);
    assert Slot(m.s, 0) == Some(r);
    forall k | 0 <= k < 5 && Slot(m'.s, k).Some?
      ensures Slot(m'.s, k).value.device in m'.s.devices
      ensures 1 <= k ==> HandleOf(Slot(m'.s, k).value) !in w1.live
    {
      assert Slot(m'.s, k) == Slot(m.s, if k == to then 0 else k);
    }
  }

  lemma CloseOtherKeeps(m: Machine, handle: Handle)
    requires Inv(m)
    requires m.s.route.Some? ==> HandleOf(m.s.route.value) != handle
    requires m.s.pendingSwapchain.Some? ==>
               Handle(m.s.pendingSwapchain.value.device, m.s.pendingSwapchain.value.swapchain) != handle
    ensures Inv(m.(w := CloseSwapchain(m.w, handle)))
  {
    var w1 := CloseSwapchain(m.w, handle);
    CloseKeepsCore(m, handle);
    if m.s.route.Some? {
      var r := m.s.route.value;
      assert Slot(m.s, 0) == Some(r) && RouteOk(r, m.s.nextSequence, m.w);
      assert forall i :: InCall(m.w, r, i) ==> InCall(w1, r, i);
    }
  }

  lemma ForgetKeeps(m: Machine, swapchain: nat)
    requires Inv(m)
    ensures Inv(m.(s := ForgetWaiting(m.s, swapchain)))
  {
    var s' := ForgetWaiting(m.s, swapchain);
    assert forall k :: 0 <= k < 5 ==> Slot(s', k) == Slot(m.s, k);
    SameCore(m, s');
  }

  lemma RetireActiveKeeps(m: Machine, e: Event)
    requires e.SwapchainDestroyed? && Inv(m) && m.s.route.Some?
    requires HandleOf(m.s.route.value) == Handle(e.device, e.swapchain)
    requires m.s.pendingSwapchain.Some? ==>
               && SetupPossible(e.setup, m.s.pendingSwapchain.value.candidate)
               && m.s.pendingSwapchain.value.swapchain != e.swapchain
    requires e.setup.id !in m.w.gpus
    ensures var m' := RetireActive(m.(w := CloseSwapchain(m.w, Handle(e.device, e.swapchain))), e);
            Inv(m') && m'.w.faults == m.w.faults
  {
    RetireKeeps(m, e.sent);
    var m1 := m.(w := CloseSwapchain(m.w, Handle(e.device, e.swapchain)));
    ReplacementKeeps(RetainRetired(m1.(s := m1.s.(route := None)), m.s.route.value, e.sent), e);
  }

  lemma ReplacementKeeps(m: Machine, e: Event)
    requires e.SwapchainDestroyed? && Inv(m) && e.setup.id !in m.w.gpus
    requires m.s.pendingSwapchain.Some? ==> SetupPossible(e.setup, m.s.pendingSwapchain.value.candidate)
    ensures Inv(InstallReplacement(m, e)) && InstallReplacement(m, e).w.faults == m.w.faults
  {
    var p := m.s.pendingSwapchain;
    if p.Some? && p.value.device == e.device && p.value.replaced == e.swapchain {
      InstallKeeps(m, p.value, e.setup, e.sent);
      AssessKeeps(InstallRoute(m, p.value, e.setup, e.sent), Rejected(EncoderBackendUnavailable), e.sent);
    } else {
      AssessKeeps(m, Rejected(EncoderBackendUnavailable), e.sent);
    }
  }

  lemma DestroySwapchainKeeps(m: Machine, e: Event)
    requires e.SwapchainDestroyed? && Inv(m) && Allowed(m, e)
    ensures Inv(DestroySwapchainStep(m, e)) && DestroySwapchainStep(m, e).w.faults == m.w.faults
  {
    var handle := Handle(e.device, e.swapchain);
    var m1 := m.(s := ForgetWaiting(m.s, e.swapchain));
    ForgetKeeps(m, e.swapchain);
    if m1.s.route.Some? && HandleOf(m1.s.route.value) == handle {
      RetireActiveKeeps(m1, e);
    } else {
      CloseOtherKeeps(m1, handle);
    }
  }

  // ---- Device destruction ----

  /** The machine with slot k emptied when its route belongs to the device. */
  function RemoveFrom(m: Machine, k: nat, device: nat): Machine
    requires |m.s.retired| == 2 && k < 5
  {
    var slot := Slot(m.s, k);
    var left := Without(slot, device);
    Machine(if k == 0 then m.s.(route := left)
            else if k < 3 then m.s.(retired := m.s.retired[k - 1 := left])
            else if k == 3 then m.s.(abandoned := left)
            else m.s.(quarantined := left),
            DestroyIf(m.w, slot, OnDevice(slot, device), true))
  }

  lemma RemovedSlots(m: Machine, k: nat, device: nat)
    requires |m.s.retired| == 2 && k < 5
    ensures var s' := RemoveFrom(m, k, device).s;
            && |s'.retired| == 2 && s'.nextSequence == m.s.nextSequence
            && forall j :: 0 <= j < 5 ==> Slot(s', j) == if j == k then Without(Slot(m.s, k), device) else Slot(m.s, j)
  {
  }

  lemma RemoveKeepsCore(m: Machine, k: nat, device: nat)
    requires Core(m) && k < 5
    requires forall id :: id in m.w.gpus && id in m.w.alive && m.w.gpus[id].handle.device == device ==>
               Idle(m.w.gpus[id])
    ensures var m' := RemoveFrom(m, k, device); Core(m') && m'.w == m.w.(alive := m'.w.alive)
  {
    var slot := Slot(m.s, k);
    var m' := RemoveFrom(m, k, device);
    RemovedSlots(m, k, device);
    if OnDevice(slot, device) {
      var r := slot.value;
      assert RouteOk(r, m.s.nextSequence, m.w);
      assert Idle(m.w.gpus[r.id]);
      DestroyKeepsCore(m, m'.s, k, true);
      assert m'.w == DestroyRoute(m.w, r.id, true);
      assert m'.w.faults == m.w.faults;
    } else {
      SameCore(m, m'.s);
    }
  }

  function RemoveAll(m: Machine, device: nat): Machine
    requires |m.s.retired| == 2
  {
    RemoveFrom(RemoveFrom(RemoveFrom(RemoveFrom(RemoveFrom(m, 0, device), 1, device), 2, device), 3, device), 4, device)
  }

  lemma RemoveInSteps(m: Machine, device: nat)
    requires |m.s.retired| == 2
    ensures var left, m' := RemoveAll(m, device), DestroyDevice(m, device);
            && |left.s.retired| == 2 && left.w == m'.w && left.s.nextSequence == m'.s.nextSequence
            && forall k :: 0 <= k < 5 ==> Slot(m'.s, k) == Slot(left.s, k)
  {
    var left, m' := RemoveAll(m, device), DestroyDevice(m, device);
    assert left.s.retired == m'.s.retired;
  }

  lemma RemoveAllKeepsCore(m: Machine, device: nat)
    requires Core(m)
    requires forall id :: id in m.w.gpus && id in m.w.alive && m.w.gpus[id].handle.device == device ==>
               Idle(m.w.gpus[id])
    ensures var m' := DestroyDevice(m, device); Core(m') && m'.w == m.w.(alive := m'.w.alive)
  {
    var m0 := RemoveFrom(m, 0, device);
    var m1 := RemoveFrom(m0, 1, device);
    var m2 := RemoveFrom(m1, 2, device);
    var m3 := RemoveFrom(m2, 3, device);
    RemoveKeepsCore(m, 0, device);
    RemoveKeepsCore(m0, 1, device);
    RemoveKeepsCore(m1, 2, device);
    RemoveKeepsCore(m2, 3, device);
    RemoveKeepsCore(m3, 4, device);
    RemoveInSteps(m, device);
    SameCore(RemoveAll(m, device), DestroyDevice(m, device).s);
  }

  lemma CloseDeviceKeepsCore(m: Machine, device: nat)
    requires Core(m)
    ensures Core(m.(w := CloseDevice(m.w, device)))
  {
    FrameRoutes(m, CloseDevice(m.w, device));
  }

  lemma WithoutDeviceSlots(m: Machine, device: nat)
    requires |m.s.retired| == 2
    ensures var s' := DestroyDevice(m, device).s;
            && |s'.retired| == 2
            && s'.devices == m.s.devices - {device}
            && (s'.disabled == m.s.disabled || s'.devices == map[])
            && (s'.pendingSwapchain.Some? ==>
                  s'.pendingSwapchain == m.s.pendingSwapchain && s'.pendingSwapchain.value.device != device)
            && forall k :: 0 <= k < 5 ==> Slot(s', k) == Without(Slot(m.s, k), device)
  {
  }

  lemma WithoutDeviceSlotsOk(m: Machine, device: nat)
    requires |m.s.retired| == 2 && SlotsOk(m.s, m.w)
    ensures var m1 := m.(w := CloseDevice(m.w, device)); SlotsOk(DestroyDevice(m1, device).s, m1.w)
  {
    var m1 := m.(w := CloseDevice(m.w, device));
    var s' := DestroyDevice(m1, device).s;
    WithoutDeviceSlots(m1, device);
    forall k | 0 <= k < 5 && Slot(s', k).Some?
      ensures Slot(s', k).value.device in s'.devices && Slot(s', k) == Slot(m.s, k)
    {
    }
    assert Slot(s', 0) == s'.route && Slot(s', 3) == s'.abandoned && Slot(s', 4) == s'.quarantined;
  }

  /** Closing another handle does not touch the active route's semaphores. */
  lemma CloseDeviceKeepsSemaphores(m: Machine, s': State, device: nat)
    requires Inv(m) && s'.route.Some? && s'.route == m.s.route && s'.route.value.device != device
    requires s'.presentationUncertain == m.s.presentationUncertain
    ensures SemaphoresOk(s', CloseDevice(m.w, device))
  {
    var r := m.s.route.value;
    var w' := CloseDevice(m.w, device);
    assert Slot(m.s, 0) == Some(r) && RouteOk(r, m.s.nextSequence, m.w);
    assert w'.gpus[r.id] == m.w.gpus[r.id];
    assert forall i :: InCall(m.w, r, i) ==> InCall(w', r, i);
  }

  lemma DestroyDeviceState(m: Machine, device: nat)
    requires |m.s.retired| == 2 && SlotsOk(m.s, m.w)
    ensures var s' := DestroyDevice(m.(w := CloseDevice(m.w, device)), device).s;
            && s'.nextSequence == m.s.nextSequence && s'.lastExport == m.s.lastExport
            && (s'.route.Some? ==>
                  s'.route == m.s.route && s'.route.value.device != device
                  && s'.presentationUncertain == m.s.presentationUncertain)
  {
    assert Slot(m.s, 0) == m.s.route;
    if m.s.route.Some? && m.s.route.value.device != device {
      assert m.s.route.value.device in m.s.devices - {device};
    }
  }

  lemma DestroyDeviceKeeps(m: Machine, e: Event)
    requires e.DeviceDestroyed? && Inv(m) && Allowed(m, e)
    ensures Inv(DestroyDeviceStep(m, e)) && DestroyDeviceStep(m, e).w.faults == m.w.faults
  {
    var m1 := m.(w := CloseDevice(m.w, e.device));
    var m' := DestroyDeviceStep(m, e);
    CloseDeviceKeepsCore(m, e.device);
    forall id | id in m1.w.gpus && id in m1.w.alive && m1.w.gpus[id].handle.device == e.device
      ensures Idle(m1.w.gpus[id])
    {
      assert Idle(m.w.gpus[id]);
    }
    RemoveAllKeepsCore(m1, e.device);
    WithoutDeviceSlotsOk(m, e.device);
    DestroyDeviceState(m, e.device);
    if m'.s.route.Some? {
      CloseDeviceKeepsSemaphores(m, m'.s, e.device);
    }
  }
}

/** Acknowledgements, acquisitions and idle waits keep the invariant and break no rule. */
module ReplayMapSteps {
  import opened Wrappers
  import opened Messages
  import opened ReplayWorld
  import opened ReplayState
  import opened ReplayMachine
  import opened ReplayInvariant
  import opened ReplayRouteLemmas
  import opened ReplaySlotLemmas

  /** A step that maps every slot through a route update keeps the invariant when the
      update does. */
  lemma MapKeeps(m: Machine, m': Machine)
    requires Inv(m) && |m'.s.retired| == 2 && SameSlots(m.s, m'.s)
    requires m' == m.(s := m.s.(route := m'.s.route, retired := m'.s.retired, abandoned := m'.s.abandoned,
                                quarantined := m'.s.quarantined))
    requires RoutesOk(m')
    requires m'.s.route.Some? ==>
               && !m'.s.route.value.gpuIdle
               && m.s.route.Some? && m'.s.route.value.presentationUsable == m.s.route.value.presentationUsable
    ensures Inv(m')
  {
    UpdatedSlotsKeep(m, m');
    assert Slot(m.s, 0).Some? <==> Slot(m'.s, 0).Some?;
    assert Slot(m.s, 0).Some? ==> SamePlace(Slot(m.s, 0).value, Slot(m'.s, 0).value);
    if m'.s.route.Some? {
      var r, r' := m.s.route.value, m'.s.route.value;
      assert forall i :: InCall(m.w, r, i) ==> InCall(m'.w, r', i);
    }
  }

  lemma AcquireWorldKeeps(m: Machine, handle: Handle, i: nat, completed: bool)
    requires Inv(m)
    ensures Inv(m.(w := AcquireImage(m.w, handle, i, completed)))
  {
    var m' := m.(w := AcquireImage(m.w, handle, i, completed));
    forall k | 0 <= k < 5 && Slot(m.s, k).Some?
      ensures RouteOk(Slot(m.s, k).value, m.s.nextSequence, m'.w)
    {
      var r := Slot(m.s, k).value;
      assert RouteOk(r, m.s.nextSequence, m.w);
      AcquireKeepsMatch(r, m.w.gpus[r.id], m.w.now, handle, i, completed);
      FrameRoute(r, m.s.nextSequence, m.s.nextSequence, m.w, m'.w);
    }
    if m.s.route.Some? {
      var r := m.s.route.value;
      assert Slot(m.s, 0) == Some(r) && RouteOk(r, m.s.nextSequence, m.w);
      assert forall j :: InCall(m.w, r, j) ==> InCall(m'.w, r, j);
    }
  }

  predicate WaitsConsumed(w: World, handle: Handle, i: nat) {
    forall id :: id in w.gpus && w.gpus[id].handle == handle && !w.gpus[id].detached && i < |w.gpus[id].waits| ==>
      !w.gpus[id].waits[i]
  }

  lemma MappedSlots(s: State, f: Route -> Route)
    requires |s.retired| == 2
    ensures var s' := MapRetired(s, f).(route := MapSlot(s.route, f));
            |s'.retired| == 2
            && forall k :: 0 <= k < 5 ==> Slot(s', k) == if k < 4 then MapSlot(Slot(s, k), f) else Slot(s, k)
  {
  }

  /** Only the active route can match a handle that images are acquired from. */
  lemma ConfirmSlotKeeps(m: Machine, k: nat, handle: Handle, i: nat, fence: bool, signaled: bool)
    requires Inv(m) && handle in m.w.live && k < 5 && Slot(m.s, k).Some?
    requires signaled ==> WaitsConsumed(m.w, handle, i)
    ensures RouteOk(ConfirmReacquisition(Slot(m.s, k).value, handle, i, fence, signaled), m.s.nextSequence, m.w)
  {
    var r := Slot(m.s, k).value;
    assert RouteOk(r, m.s.nextSequence, m.w);
    if HandleOf(r) == handle && signaled && i < MAX_IMAGES {
      assert k == 0 && m.s.route == Some(r);
      assert m.w.gpus[r.id].handle == handle && !m.w.gpus[r.id].detached;
    }
    ConfirmKeepsRoute(r, m.s.nextSequence, m.w, handle, i, fence, signaled);
  }

  /** Mapping the active and retained routes through an update that keeps each of them. */
  lemma MapAllKeeps(m: Machine, f: Route -> Route)
    requires Inv(m)
    requires forall k :: 0 <= k < 4 && Slot(m.s, k).Some? ==>
               var r := Slot(m.s, k).value;
               RouteOk(f(r), m.s.nextSequence, m.w) && SamePlace(r, f(r))
               && f(r).gpuIdle == r.gpuIdle && f(r).presentationUsable == r.presentationUsable
    ensures Inv(m.(s := MapRetired(m.s, f).(route := MapSlot(m.s.route, f))))
  {
    var m' := m.(s := MapRetired(m.s, f).(route := MapSlot(m.s.route, f)));
    MappedSlots(m.s, f);
    assert Slot(m.s, 0) == m.s.route;
    forall k | 0 <= k < 5 && Slot(m'.s, k).Some?
      ensures RouteOk(Slot(m'.s, k).value, m'.s.nextSequence, m'.w)
    {
      assert RouteOk(Slot(m.s, k).value, m.s.nextSequence, m.w);
    }
    MapKeeps(m, m');
  }

  lemma ReleaseKeeps(m: Machine, sequence: nat)
    requires Inv(m) && sequence !in m.w.leases
    ensures var f := Releasing(sequence);
            Inv(m.(s := MapRetired(m.s, f).(route := MapSlot(m.s.route, f), quarantined := MapSlot(m.s.quarantined, f))))
  {
    var f := Releasing(sequence);
    forall k | 0 <= k < 4 && Slot(m.s, k).Some?
      ensures RouteOk(f(Slot(m.s, k).value), m.s.nextSequence, m.w)
    {
      ReleaseKeepsRoute(Slot(m.s, k).value, m.s.nextSequence, m.w, sequence);
    }
    MapAllKeeps(m, f);
    assert MapSlot(m.s.quarantined, f) == m.s.quarantined;
  }

  lemma ConfirmKeeps(m: Machine, handle: Handle, i: nat, fence: bool, signaled: bool)
    requires Inv(m) && handle in m.w.live
    requires signaled ==> WaitsConsumed(m.w, handle, i)
    ensures Inv(m.(s := MapRetired(m.s, Confirming(handle, i, fence, signaled))
                        .(route := MapSlot(m.s.route, Confirming(handle, i, fence, signaled)))))
  {
    var f := Confirming(handle, i, fence, signaled);
    forall k | 0 <= k < 4 && Slot(m.s, k).Some?
      ensures RouteOk(f(Slot(m.s, k).value), m.s.nextSequence, m.w)
    {
      ConfirmSlotKeeps(m, k, handle, i, fence, signaled);
    }
    MapAllKeeps(m, f);
  }

  /** Marking retained routes idle after a wait that covers them. */
  lemma IdleKeeps(m: Machine, f: Route -> Route)
    requires Inv(m)
    requires forall r :: f(r) == r || f(r) == r.(gpuIdle := true)
    requires forall k :: 1 <= k < 4 && Slot(m.s, k).Some? && f(Slot(m.s, k).value) != Slot(m.s, k).value ==>
               Slot(m.s, k).value.id in m.w.gpus && Idle(m.w.gpus[Slot(m.s, k).value.id])
    ensures Inv(m.(s := MapRetired(m.s, f)))
  {
    var m' := m.(s := MapRetired(m.s, f));
    MappedSlots(m.s, f);
    forall k | 0 <= k < 5
      ensures Slot(m'.s, k) == if 1 <= k < 4 then MapSlot(Slot(m.s, k), f) else Slot(m.s, k)
    {
    }
    forall k | 0 <= k < 5 && Slot(m'.s, k).Some?
      ensures RouteOk(Slot(m'.s, k).value, m'.s.nextSequence, m'.w)
    {
      var r := Slot(m.s, k).value;
      assert RouteOk(r, m.s.nextSequence, m.w);
      MarkIdleKeepsRoute(r, m.s.nextSequence, m.w, 1 <= k < 4 && f(r) != r);
    }
    MapKeeps(m, m');
  }

  // ---- Installing a waiting swapchain ----

  lemma InstallKeepsCore(m: Machine, r: Route, s': State)
    requires Core(m) && ExportsOk(m.s, m.w) && m.s.route.None? && r.id !in m.w.gpus
    requires |s'.retired| == 2 && s'.nextSequence == m.s.nextSequence && s'.route == Some(r)
    requires forall k :: 1 <= k < 5 ==> Slot(s', k) == Slot(m.s, k)
    requires RouteOk(r, m.s.nextSequence, CreateRoute(m.w, r.id, HandleOf(r), r.queue, |r.contexts|))
    ensures Core(Machine(s', CreateRoute(m.w, r.id, HandleOf(r), r.queue, |r.contexts|)))
  {
    var w' := CreateRoute(m.w, r.id, HandleOf(r), r.queue, |r.contexts|);
    forall k | 0 <= k < 5 && Slot(s', k).Some?
      ensures RouteOk(Slot(s', k).value, s'.nextSequence, w')
    {
      if k > 0 {
        assert RouteOk(Slot(m.s, k).value, m.s.nextSequence, m.w);
        FrameRoute(Slot(m.s, k).value, m.s.nextSequence, s'.nextSequence, m.w, w');
      }
    }
    forall id | id in w'.alive
      ensures exists k :: 0 <= k < 5 && Slot(s', k).Some? && Slot(s', k).value.id == id
    {
      if id == r.id {
        assert Slot(s', 0).value.id == id;
      } else {
        var k :| 0 <= k < 5 && Slot(m.s, k).Some? && Slot(m.s, k).value.id == id;
        assert Slot(s', k) == Slot(m.s, k);
      }
    }
    forall j, k | 0 <= j < k < 5 && Slot(s', j).Some? && Slot(s', k).Some?
      ensures Slot(s', j).value.id != Slot(s', k).value.id
    {
      assert RouteOk(Slot(m.s, k).value, m.s.nextSequence, m.w);
    }
  }

  /** Putting a new route into service. */
  lemma NewActiveKeeps(m: Machine, r: Route, s': State)
    requires Inv(m) && CanCreateRoute(m.s) && r.id !in m.w.gpus
    requires s' == m.s.(route := Some(r), pendingSwapchain := None, presentationUncertain := s'.presentationUncertain,
                        sourceRejected := s'.sourceRejected, pendingAssessment := s'.pendingAssessment)
    requires !r.gpuIdle && r.device in m.s.devices && HandleOf(r) in m.w.live
    requires RouteOk(r, m.s.nextSequence, CreateRoute(m.w, r.id, HandleOf(r), r.queue, |r.contexts|))
    ensures Inv(Machine(s', CreateRoute(m.w, r.id, HandleOf(r), r.queue, |r.contexts|)))
  {
    var w' := CreateRoute(m.w, r.id, HandleOf(r), r.queue, |r.contexts|);
    forall k | 0 <= k < 5
      ensures Slot(s', k) == if k == 0 then Some(r) else Slot(m.s, k)
    {
    }
    InstallKeepsCore(m, r, s');
    assert SlotsOk(s', w');
    assert w'.gpus[r.id].reacquired == seq(MAX_IMAGES, _ => true);
  }

  /** Bookkeeping outside the slots. */
  lemma AssessedKeeps(m: Machine, s': State)
    requires Inv(m) && s' == m.s.(sourceRejected := s'.sourceRejected, pendingAssessment := s'.pendingAssessment)
    ensures Inv(m.(s := s'))
  {
    assert forall k :: 0 <= k < 5 ==> Slot(s', k) == Slot(m.s, k);
    SameCore(m, s');
  }

  lemma InstallKeeps(m: Machine, pending: PendingSwapchain, setup: Setup, sent: bool)
    requires Inv(m) && SetupPossible(setup, pending.candidate) && setup.id !in m.w.gpus
    requires Handle(pending.device, pending.swapchain) in m.w.live && WaitingDescribed(pending)
    ensures Inv(InstallRoute(m, pending, setup, sent))
    ensures InstallRoute(m, pending, setup, sent).w.faults == m.w.faults
  {
    var m' := InstallRoute(m, pending, setup, sent);
    if m'.s.route == m.s.route {
      AssessedKeeps(m, m'.s);
    } else {
      var r := m'.s.route.value;
      NewRouteOk(setup, |r.contexts|, r.queue, pending, m.s.nextSequence, m.w);
      NewActiveKeeps(m, r, m'.s);
    }
  }
}

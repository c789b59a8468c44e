/** Exactly which retired routes can be destroyed before their device is. */
module ReplayRetirement {
  import opened Wrappers
  import opened Messages
  import opened ReplayWorld
  import opened ReplayState
  import opened ReplayMachine
  import opened ReplayInvariant
  import opened ReplaySafety
  import opened ReplayProgress
  import opened ReplayReclaim
  import opened ReplayRetention
  import opened ReplayFirstFrame
  import Cadence

  // ---- Runs that spare a device ----

  /** An allowed run without the destruction of this device goes from one state to the other. */
  ghost predicate Reaches(m: Machine, m': Machine, device: nat) {
    exists events: seq<Event> :: AllAllowed(m, events) && AvoidsDevice(events, device) && Run(m, events) == m'
  }

  lemma ReachesSelf(m: Machine, device: nat)
    ensures Reaches(m, m, device)
  {
    var none: seq<Event> := [];
    assert AllAllowed(m, none) && AvoidsDevice(none, device) && Run(m, none) == m;
  }

  lemma ReachesBy(m: Machine, e: Event, device: nat)
    requires Allowed(m, e) && !e.DeviceDestroyed?
    ensures Reaches(m, Step(m, e), device)
  {
    FirstStep(m, e, []);
    assert [e] + [] == [e];
    assert AvoidsDevice([e], device);
  }

  lemma ReachesOn(a: Machine, b: Machine, c: Machine, device: nat)
    requires Reaches(a, b, device) && Reaches(b, c, device)
    ensures Reaches(a, c, device)
  {
    var first: seq<Event> :| AllAllowed(a, first) && AvoidsDevice(first, device) && Run(a, first) == b;
    var second: seq<Event> :| AllAllowed(b, second) && AvoidsDevice(second, device) && Run(b, second) == c;
    RunsJoin(a, first, second);
    assert AvoidsDevice(first + second, device);
  }

  /** A state that every theorem about runs applies to. */
  predicate Good(m: Machine) { Inv(m) && AllKnown(m.s, Known(m.w)) }

  lemma GoodStep(m: Machine, e: Event)
    requires Good(m) && Allowed(m, e)
    ensures Good(Step(m, e))
  {
    StepKeeps(m, e);
    StepKnown(m, e);
  }

  // ---- The GPU finishes ----

  /** Only fences changed, and none went into flight. */
  predicate Finishing(m: Machine, m': Machine) {
    && m'.s == m.s && m'.w == m.w.(gpus := m'.w.gpus) && m'.w.gpus.Keys == m.w.gpus.Keys
    && forall id :: id in m.w.gpus ==> FewerInFlight(m.w.gpus[id], m'.w.gpus[id])
  }

  predicate FewerInFlight(g: Gpu, g': Gpu) {
    && g' == g.(fences := g'.fences) && |g'.fences| == |g.fences|
    && forall k :: 0 <= k < |g.fences| && g.fences[k] != InFlight ==> g'.fences[k] != InFlight
  }

  predicate FinishedUpTo(m: Machine, id: nat, n: nat) {
    id in m.w.gpus && n <= |m.w.gpus[id].fences| && forall k :: 0 <= k < n ==> m.w.gpus[id].fences[k] != InFlight
  }

  lemma CompleteOne(m: Machine, id: nat, k: nat)
    requires HasContext(m.w, id, k) && FinishedUpTo(m, id, k)
    ensures var m' := m.(w := Complete(m.w, id, k)); Finishing(m, m') && FinishedUpTo(m', id, k + 1)
  {
  }

  lemma FinishingOn(a: Machine, b: Machine, c: Machine)
    requires Finishing(a, b) && Finishing(b, c)
    ensures Finishing(a, c)
  {
    forall id | id in a.w.gpus
      ensures FewerInFlight(a.w.gpus[id], c.w.gpus[id])
    {
      assert FewerInFlight(a.w.gpus[id], b.w.gpus[id]) && FewerInFlight(b.w.gpus[id], c.w.gpus[id]);
    }
  }

  lemma FinishOne(m: Machine, id: nat, k: nat, device: nat) returns (m': Machine)
    requires Good(m) && HasContext(m.w, id, k) && FinishedUpTo(m, id, k)
    ensures Good(m') && Reaches(m, m', device) && Finishing(m, m') && FinishedUpTo(m', id, k + 1)
  {
    var e := GpuCompletes(id, k);
    CompleteOne(m, id, k);
    m' := m.(w := Complete(m.w, id, k));
    assert Step(m, e) == m';
    GoodStep(m, e);
    ReachesBy(m, e, device);
  }

  predicate Fenced(m: Machine, id: nat, n: nat) {
    id in m.w.gpus && n <= |m.w.gpus[id].fences| == |m.w.gpus[id].buffers|
  }

  lemma StaysFenced(m: Machine, m': Machine, id: nat, n: nat)
    requires Finishing(m, m') && Fenced(m, id, n)
    ensures Fenced(m', id, n)
  {
    assert FewerInFlight(m.w.gpus[id], m'.w.gpus[id]);
  }

  lemma {:induction false} FinishRoute(m: Machine, id: nat, n: nat, device: nat) returns (m': Machine)
    requires Good(m) && Fenced(m, id, n)
    ensures Good(m') && Reaches(m, m', device) && Finishing(m, m') && FinishedUpTo(m', id, n)
    decreases n
  {
    if n == 0 {
      m' := m;
      ReachesSelf(m, device);
    } else {
      var m1 := FinishRoute(m, id, n - 1, device);
      StaysFenced(m, m1, id, n);
      m' := FinishOne(m1, id, n - 1, device);
      ReachesOn(m, m1, m', device);
      FinishingOn(m, m1, m');
    }
  }

  predicate SlotsFinished(m: Machine, n: nat)
    requires |m.s.retired| == 2
  {
    forall k :: 0 <= k < n && k < 5 && Slot(m.s, k).Some? ==>
      Slot(m.s, k).value.id in m.w.gpus && Idle(m.w.gpus[Slot(m.s, k).value.id])
  }

  lemma SlotIsFenced(m: Machine, k: nat)
    requires Inv(m) && k < 5 && Slot(m.s, k).Some?
    ensures var id := Slot(m.s, k).value.id; id in m.w.gpus && Fenced(m, id, |m.w.gpus[id].fences|)
  {
    assert RouteOk(Slot(m.s, k).value, m.s.nextSequence, m.w);
  }

  lemma OneMoreFinished(m: Machine, k: nat)
    requires |m.s.retired| == 2 && k < 5 && SlotsFinished(m, k)
    requires Slot(m.s, k).Some? ==> Slot(m.s, k).value.id in m.w.gpus && Idle(m.w.gpus[Slot(m.s, k).value.id])
    ensures SlotsFinished(m, k + 1)
  {
  }

  lemma FinishSlot(m: Machine, k: nat, device: nat) returns (m': Machine)
    requires Good(m) && k < 5 && SlotsFinished(m, k)
    ensures Good(m') && Reaches(m, m', device) && Finishing(m, m') && SlotsFinished(m', k + 1)
  {
    if Slot(m.s, k).None? {
      m' := m;
      ReachesSelf(m, device);
    } else {
      var id := Slot(m.s, k).value.id;
      SlotIsFenced(m, k);
      m' := FinishRoute(m, id, |m.w.gpus[id].fences|, device);
      StaysFinished(m, m', k);
      assert FewerInFlight(m.w.gpus[id], m'.w.gpus[id]);
    }
    OneMoreFinished(m', k);
  }

  lemma {:induction false} FinishSlots(m: Machine, n: nat, device: nat) returns (m': Machine)
    requires Good(m) && n <= 5
    ensures Good(m') && Reaches(m, m', device) && Finishing(m, m') && SlotsFinished(m', n)
    decreases n
  {
    if n == 0 {
      m' := m;
      ReachesSelf(m, device);
    } else {
      var m1 := FinishSlots(m, n - 1, device);
      m' := FinishSlot(m1, n - 1, device);
      ReachesOn(m, m1, m', device);
      FinishingOn(m, m1, m');
    }
  }

  lemma StaysFinished(m: Machine, m': Machine, n: nat)
    requires |m.s.retired| == 2 && SlotsFinished(m, n) && Finishing(m, m')
    ensures SlotsFinished(m', n)
  {
    forall k | 0 <= k < n && k < 5 && Slot(m'.s, k).Some?
      ensures Idle(m'.w.gpus[Slot(m'.s, k).value.id])
    {
      var id := Slot(m.s, k).value.id;
      assert FewerInFlight(m.w.gpus[id], m'.w.gpus[id]);
    }
  }

  /** With every owned route finished, a wait for any device may return. */
  lemma DeviceMayIdle(m: Machine, device: nat)
    requires Inv(m) && SlotsFinished(m, 5)
    ensures IdleWhere(m.w, set id | id in m.w.gpus && m.w.gpus[id].handle.device == device)
  {
    forall id | id in m.w.alive
      ensures Idle(m.w.gpus[id])
    {
      var k :| 0 <= k < 5 && Slot(m.s, k).Some? && Slot(m.s, k).value.id == id;
    }
  }

  // ---- A setup that never succeeds ----

  lemma {:induction false} Unused(ids: set<nat>) returns (id: nat)
    ensures id !in ids && forall j :: j in ids ==> j < id
    decreases ids
  {
    if ids == {} {
      id := 0;
    } else {
      var j :| j in ids;
      var rest := Unused(ids - {j});
      id := if j < rest then rest else j + 1;
      forall i | i in ids
        ensures i < id
      {
        assert i == j || i in ids - {j};
      }
    }
  }

  function NoSetup(id: nat): Setup { Setup(id, false, false, 0, seq(MAX_IMAGES, _ => 0), false, false, []) }

  /** Events that need a setup can always come with one that creates nothing. */
  lemma NoSetupFits(m: Machine, id: nat)
    requires Inv(m) && m.s.pendingSwapchain.Some?
    ensures SetupPossible(NoSetup(id), m.s.pendingSwapchain.value.candidate)
  {
  }

  // ---- The steps towards reclaim ----

  /** What an idle wait or an acknowledgement leaves in slot k: nothing, or the updated route with a
      proof still missing. */
  predicate ReclaimedOr(m: Machine, k: nat, id: nat, r: Route) {
    || Gone(m, k, id)
    || (Retired(m.s, k, r) && !(r.gpuIdle && Presented(r) && AllReturned(r)))
  }

  lemma ReclaimMoves(m: Machine, k: nat, r: Route)
    requires Retired(m.s, k, r)
    ensures ReclaimedOr(ReclaimIdleReleased(m), k, r.id, r)
  {
    if r.gpuIdle && Presented(r) && AllReturned(r) {
      ReclaimRemoves(m, k, r);
    } else {
      MissingProofKeeps(m, k, r);
    }
  }

  lemma ResumeMoves(m: Machine, queue: Option<nat>, setup: Setup, sent: bool, k: nat, id: nat, r: Route)
    requires ReclaimedOr(m, k, id, r) && 1 <= k <= 3 && setup.id != id
    requires m.s.pendingSwapchain.Some? ==> SetupPossible(setup, m.s.pendingSwapchain.value.candidate)
    ensures ReclaimedOr(Resume(m, queue, setup, sent), k, id, r)
  {
    if Gone(m, k, id) {
      ResumeKeepsGone(m, queue, setup, sent, k, id);
    }
  }

  lemma IdleMoves(m: Machine, e: Event, k: nat, r: Route)
    requires e.DeviceIdle? && WellFormed(m, e) && Retired(m.s, k, r) && e.setup.id != r.id && r.device == e.device
    ensures ReclaimedOr(AfterDeviceIdle(m, e), k, r.id, r.(gpuIdle := true))
  {
    var f := IdlingDevice(e.device);
    var m1 := m.(s := MapRetired(m.s, f));
    ReclaimMoves(m1, k, f(r));
    var m2 := ReclaimIdleReleased(m1);
    ResumeMoves(m2, PendingQueue(m2.s), e.setup, e.sent, k, r.id, f(r));
  }

  lemma ReleaseMoves(m: Machine, e: Event, k: nat, r: Route)
    requires e.ReleaseSequence? && !e.busy && WellFormed(m, e) && Retired(m.s, k, r) && e.setup.id != r.id
    ensures ReclaimedOr(Release(m, e).0, k, r.id, ReleaseRoute(r, e.sequence))
  {
    var f := Releasing(e.sequence);
    var m1 := m.(s := MapRetired(m.s, f).(route := MapSlot(m.s.route, f), quarantined := MapSlot(m.s.quarantined, f)));
    ReclaimMoves(m1, k, f(r));
    var m2 := ReclaimIdleReleased(m1);
    ResumeMoves(m2, PendingQueue(m2.s), e.setup, e.sent, k, r.id, f(r));
  }

  lemma RetiredFacts(m: Machine, k: nat, r: Route)
    requires Inv(m) && Retired(m.s, k, r)
    ensures RouteOk(r, m.s.nextSequence, m.w) && r.id in m.w.gpus && r.id in m.w.alive
  {
    assert Slot(m.s, k) == Some(r);
  }

  lemma IdleAllowed(m: Machine, device: nat, id: nat)
    requires Inv(m) && SlotsFinished(m, 5) && id !in m.w.gpus
    ensures Allowed(m, DeviceIdle(device, NoSetup(id), true))
  {
    DeviceMayIdle(m, device);
    if m.s.pendingSwapchain.Some? {
      NoSetupFits(m, id);
    }
  }

  lemma ReleaseAllowed(m: Machine, sequence: nat, id: nat)
    requires Inv(m) && sequence in m.w.released && id !in m.w.gpus
    ensures Allowed(m, ReleaseSequence(sequence, false, NoSetup(id), true))
  {
    if m.s.pendingSwapchain.Some? {
      NoSetupFits(m, id);
    }
  }

  /** The GPU finishes and the application waits for the device: the first proof. */
  lemma IdleRoute(m: Machine, k: nat, r: Route) returns (m': Machine)
    requires Good(m) && Retired(m.s, k, r)
    ensures Good(m') && Reaches(m, m', r.device) && ReclaimedOr(m', k, r.id, r.(gpuIdle := true))
  {
    var m1 := FinishSlots(m, 5, r.device);
    var id := Unused(m1.w.gpus.Keys);
    var e := DeviceIdle(r.device, NoSetup(id), true);
    RetiredFacts(m, k, r);
    IdleAllowed(m1, r.device, id);
    IdleMoves(m1, e, k, r);
    m' := AfterDeviceIdle(m1, e);
    assert Step(m1, e) == m';
    GoodStep(m1, e);
    ReachesBy(m1, e, r.device);
    ReachesOn(m, m1, m', r.device);
  }

  /** The daemon gives a sequence back if it still holds it. */
  lemma GiveBack(m: Machine, sequence: nat, device: nat) returns (m': Machine)
    requires Good(m) && sequence in Known(m.w)
    ensures Good(m') && Reaches(m, m', device) && m'.s == m.s && m'.w.gpus == m.w.gpus && sequence in m'.w.released
  {
    if sequence in m.w.leases {
      var e := DaemonReleases(sequence);
      m' := m.(w := Acknowledge(m.w, sequence));
      assert Step(m, e) == m';
      GoodStep(m, e);
      ReachesBy(m, e, device);
    } else {
      m' := m;
      ReachesSelf(m, device);
    }
  }

  /** One more context of a retired route gets its acknowledgement. */
  lemma ReturnContext(m: Machine, k: nat, r: Route, j: nat) returns (m': Machine)
    requires Good(m) && Retired(m.s, k, r) && j < |r.contexts| && !Returned(r.contexts[j])
    ensures Good(m') && Reaches(m, m', r.device)
    ensures ReclaimedOr(m', k, r.id, ReleaseRoute(r, r.contexts[j].exportSequence))
  {
    var q := r.contexts[j].exportSequence;
    RetiredFacts(m, k, r);
    assert RouteKnown(r, Known(m.w)) && Withheld(r.contexts[j]);
    var m1 := GiveBack(m, q, r.device);
    var id := Unused(m1.w.gpus.Keys);
    var e := ReleaseSequence(q, false, NoSetup(id), true);
    ReleaseAllowed(m1, q, id);
    ReleaseMoves(m1, e, k, r);
    m' := Release(m1, e).0;
    assert Step(m1, e) == m';
    GoodStep(m1, e);
    ReachesBy(m1, e, r.device);
    ReachesOn(m, m1, m', r.device);
  }

  lemma ReleaseReturns(r: Route, j: nat)
    requires j < |r.contexts| && forall i :: 0 <= i < j ==> Returned(r.contexts[i])
    ensures var r1 := ReleaseRoute(r, r.contexts[j].exportSequence);
            && |r1.contexts| == |r.contexts| && r1.gpuIdle == r.gpuIdle && (Presented(r) ==> Presented(r1))
            && forall i :: 0 <= i < j + 1 ==> Returned(r1.contexts[i])
  {
  }

  /** The remaining acknowledgements arrive one by one, and the last one destroys the route. */
  lemma {:induction false} ReturnAll(m: Machine, k: nat, r: Route, j: nat) returns (m': Machine)
    requires Good(m) && Retired(m.s, k, r) && r.gpuIdle && Presented(r) && !AllReturned(r)
    requires j <= |r.contexts| && forall i :: 0 <= i < j ==> Returned(r.contexts[i])
    ensures Reaches(m, m', r.device) && Gone(m', k, r.id)
    decreases |r.contexts| - j
  {
    if Returned(r.contexts[j]) {
      m' := ReturnAll(m, k, r, j + 1);
    } else {
      m' := ReturnContext(m, k, r, j);
      if !Gone(m', k, r.id) {
        var m1, r1 := m', ReleaseRoute(r, r.contexts[j].exportSequence);
        ReleaseReturns(r, j);
        m' := ReturnAll(m1, k, r1, j + 1);
        ReachesOn(m, m1, m', r.device);
      }
    }
  }

  /** A retired route without an outstanding presentation wait can always be destroyed. */
  lemma PresentedCanGo(m: Machine, k: nat, r: Route) returns (m': Machine)
    requires Good(m) && Retired(m.s, k, r) && Presented(r)
    ensures Reaches(m, m', r.device) && Gone(m', k, r.id)
  {
    m' := IdleRoute(m, k, r);
    if !Gone(m', k, r.id) {
      var m1 := m';
      m' := ReturnAll(m1, k, r.(gpuIdle := true), 0);
      ReachesOn(m, m1, m', r.device);
    }
  }

  // ---- The exact condition ----

  /** Some continuation destroys the route while its device lives on. */
  ghost predicate CanGo(m: Machine, r: Route) {
    exists events: seq<Event> ::
      AllAllowed(m, events) && AvoidsDevice(events, r.device) && r.id !in Run(m, events).w.alive
  }

  lemma WaitingStays(m: Machine, k: nat, r: Route, events: seq<Event>)
    requires Inv(m) && Retired(m.s, k, r) && Waiting(r)
    requires AllAllowed(m, events) && AvoidsDevice(events, r.device)
    ensures r.id in Run(m, events).w.alive
  {
    RetainedWaitsLast(m, events, k, r);
    RunKeeps(m, events);
    RetiredFacts(Run(m, events), k, Slot(Run(m, events).s, k).value);
  }

  /** In every reachable state: a retired route can be destroyed before its device is if and only if
      no presentation of it is outstanding. */
  lemma GoesUnlessPresenting(events: seq<Event>, k: nat, r: Route)
    requires AllAllowed(Initial, events) && Retired(Run(Initial, events).s, k, r)
    ensures CanGo(Run(Initial, events), r) <==> forall i :: 0 <= i < |r.presentationPending| ==> !r.presentationPending[i]
  {
    var m := Run(Initial, events);
    InitialInv();
    RunKeeps(Initial, events);
    NoLeaseIsLost(events);
    if Waiting(r) {
      forall rest: seq<Event> | AllAllowed(m, rest) && AvoidsDevice(rest, r.device)
        ensures r.id in Run(m, rest).w.alive
      {
        WaitingStays(m, k, r, rest);
      }
    } else {
      var m' := PresentedCanGo(m, k, r);
      var rest: seq<Event> :| AllAllowed(m, rest) && AvoidsDevice(rest, r.device) && Run(m, rest) == m';
    }
  }

  // ---- A route that waits for good ----

  lemma RecordingRetires(m: Machine, r: Route, g: Gpu, id: nat) returns (m': Machine)
    requires Recording(m, r, g) && id != r.id
    ensures Leads(m, m') && Retired(m'.s, 1, r)
  {
    var e := SwapchainDestroyed(r.device, r.swapchain, NoSetup(id), true);
    m' := DestroySwapchainStep(m, e);
    assert Allowed(m, e);
    LeadsBy(m, e, m');
  }

  /** Such routes exist: after one recorded present, destroying the swapchain retires a route that no
      continuation destroys while its device lives, whatever the device, source, image and clock. */
  lemma WaitingRouteIsReachable(device: nat, queue: nat, swapchain: nat, candidate: SourceCandidate, setup: Setup, i: nat,
                                now: nat) returns (m: Machine, r: Route)
    requires queue != 0 && swapchain != 0 && GoodSetup(setup, candidate) && i < setup.imageCount
    requires 0 < now && now + Cadence.NANOSECONDS_PER_SECOND <= U64_MAX / 2
    ensures Leads(Initial, m) && Retired(m.s, 1, r) && r.id == setup.id && Waiting(r) && !CanGo(m, r)
  {
    var m0 := StartupLeads(device, queue, swapchain, candidate, setup);
    var r0 := m0.s.route.value;
    var m3, r1, g3;
    m3, r1, r, g3 := CopyLeads(m0, r0, FreshGpu(r0), i, now);
    m := RecordingRetires(m3, r, g3, r.id + 1);
    LeadsOn(Initial, m0, m3);
    LeadsOn(Initial, m3, m);
    assert r.presentationPending[i];
    var events: seq<Event> :| AllAllowed(Initial, events) && Run(Initial, events) == m;
    GoesUnlessPresenting(events, 1, r);
  }
}

/** A complete run of the Vulkan hand-off: a device, a swapchain, two presents, and the first
    frame is with the daemon. */
module ReplayFirstFrame {
  import opened Wrappers
  import opened Messages
  import opened ReplayWorld
  import opened ReplayState
  import opened ReplayMachine
  import Cadence

  /** Every context is as created for export. */
  predicate AllNew(r: Route) {
    forall k :: 0 <= k < |r.contexts| ==>
      r.contexts[k].exportFd >= 3 && r.contexts[k] == NewContext(true, r.contexts[k].exportFd)
  }

  /** A producer that records one swapchain, has nothing else in service and awaits nothing. */
  predicate Recording(m: Machine, r: Route, g: Gpu) {
    && m.s == State(m.s.devices, Some(r), None, [None, None], None, None, false, false, None, 0, false, 1)
    && m.w.gpus == map[r.id := g] && m.w.leases == map[] && m.w.released == {} && m.w.exports == [] && m.w.calls == map[]
    && HandleOf(r) in m.w.live && m.w.acquired == {}
    && g.handle == HandleOf(r) && !g.detached
    && Backed(m.w, r) && |r.contexts| > 1
  }

  /** All driver calls succeed; nothing is pending or the oldest copy has completed. */
  function Calls(contexts: nat, oldestReady: bool): DriverCalls {
    DriverCalls(oldestReady, seq(contexts, _ => true), true, true, true, true, Submitted)
  }

  function PresentAt(r: Route, image: nat, now: nat, oldestReady: bool): Event {
    PreparePresent(r.queue, r.device, Some(now), Some(PresentInfo(true, [(r.swapchain, image)], 0)),
                   Calls(|r.contexts|, oldestReady), true, true, false)
  }

  function AcquireFor(r: Route, image: nat): Event { ImageAcquired(r.device, r.swapchain, image, true, true, false) }

  // ---- Getting into service ----

  predicate GoodSetup(setup: Setup, candidate: SourceCandidate) {
    && SetupPossible(setup, candidate) && setup.exportRequested && setup.requirementsAvailable && setup.succeeded
    && 1 <= setup.imageCount <= MAX_IMAGES
    && (forall i :: 0 <= i < |setup.images| ==> setup.images[i] != 0)
    && (forall k :: 0 <= k < |setup.exportFds| ==> setup.exportFds[k] >= 3)
    && candidate.width * candidate.height * BYTES_PER_PIXEL <= U32_MAX
  }

  function Startup(device: nat, queue: nat, swapchain: nat, candidate: SourceCandidate, setup: Setup): seq<Event> {
    [DeviceCreated(device, true, {0}, Some(true)), QueueObserved(device, queue, 0, false, setup, true),
     SwapchainCreated(device, 0, swapchain, false, Some(Accepted(candidate)), true, false, setup, true)]
  }

  function FreshGpu(r: Route): Gpu {
    Gpu(HandleOf(r), r.queue, false, seq(|r.contexts|, _ => Signaled), seq(|r.contexts|, _ => Producer),
        seq(MAX_IMAGES, _ => true), seq(MAX_IMAGES, _ => false), 0, [])
  }

  /** The route right after its creation. */
  predicate NewlyCreated(r: Route, device: nat, queue: nat, swapchain: nat, setup: Setup) {
    && r.device == device && r.queue == queue && r.swapchain == swapchain && r.id == setup.id
    && r.nextSubmit == 0 && r.imageCount == setup.imageCount && r.images == setup.images && r.exportRequired
    && r.samplingRate in {0, 30, 60, 120}
    && r.presentationUsable == seq(MAX_IMAGES, _ => true) && r.presentationPending == seq(MAX_IMAGES, _ => false)
    && 1 < |r.contexts| <= |setup.exportFds|
    && Some(|r.contexts|) == ContextCountForSwapchain(setup.imageCount, setup.variableRate, IsNvidia(r.candidate))
    && forall k :: 0 <= k < |r.contexts| ==> r.contexts[k] == NewContext(true, setup.exportFds[k])
  }

  function Observed(device: nat, queue: nat): Machine {
    Initial.(s := InitialState.(devices := map[device := Device({0}, queue, Some(true))]))
  }

  lemma SwapchainInstalls(device: nat, queue: nat, swapchain: nat, candidate: SourceCandidate, setup: Setup)
    requires queue != 0 && swapchain != 0 && GoodSetup(setup, candidate)
    ensures var e := Startup(device, queue, swapchain, candidate, setup)[2];
            && Allowed(Observed(device, queue), e)
            && var m := CreateSwapchainStep(Observed(device, queue), e);
               && m.s.route.Some? && NewlyCreated(m.s.route.value, device, queue, swapchain, setup)
               && m.s.route.value.candidate == candidate
               && Recording(m, m.s.route.value, FreshGpu(m.s.route.value)) && m.w.now == 0
  {
    var e := Startup(device, queue, swapchain, candidate, setup)[2];
    var ready := Observed(device, queue).(w := OpenSwapchain(InitialWorld, Handle(device, swapchain)));
    var waiting := PendingSwapchain(device, 0, swapchain, candidate, candidate.width * candidate.height * BYTES_PER_PIXEL);
    var m := InstallRoute(ready, waiting, setup, true);
    assert CreateSwapchainStep(Observed(device, queue), e) == m;
    assert m.s.route.Some?;
  }

  lemma FirstStep(m: Machine, e: Event, rest: seq<Event>)
    requires Allowed(m, e) && AllAllowed(Step(m, e), rest)
    ensures AllAllowed(m, [e] + rest) && Run(m, [e] + rest) == Run(Step(m, e), rest)
  {
    assert ([e] + rest)[0] == e && ([e] + rest)[1..] == rest;
  }

  // ---- Steps while recording ----

  lemma Acquires(m: Machine, r: Route, g: Gpu, i: nat)
    requires Recording(m, r, g) && i < r.imageCount && r.presentationUsable[i]
    ensures Allowed(m, AcquireFor(r, i))
    ensures AcquireStep(m, AcquireFor(r, i))
         == Machine(m.s.(route := Some(r.(presentationPending := r.presentationPending[i := false]))),
                    m.w.(acquired := {(HandleOf(r), i)},
                         gpus := map[r.id := g.(reacquired := g.reacquired[i := true], waits := g.waits[i := false])]))
  {
    var e := AcquireFor(r, i);
    var w' := AcquireImage(m.w, HandleOf(r), i, true);
    assert w'.gpus == map[r.id := AcquireGpu(g, HandleOf(r), i, true)];
    assert m.w.acquired + {(HandleOf(r), i)} == {(HandleOf(r), i)};
  }

  /** A recording producer whose image i was just acquired. */
  predicate Holding(m: Machine, r: Route, g: Gpu, i: nat) {
    && i < r.imageCount && m.w.acquired == {(HandleOf(r), i)}
    && Recording(m.(w := m.w.(acquired := {})), r, g)
    && r.presentationUsable[i] && g.reacquired[i] && r.images[i] != 0 && r.queue != 0
  }

  lemma PresentReaches(m: Machine, r: Route, g: Gpu, i: nat, now: nat, oldestReady: bool)
    requires Holding(m, r, g, i) && |g.fences| == |r.contexts| && g.fences == seq(|r.contexts|, _ => Signaled)
    requires 0 < now <= U64_MAX / 2 && m.w.now <= now
    requires Cadence.VulkanCaptureDue(r.samplingRate, r.nextSubmit, now, r.variableMinInterval)
    ensures var e := PresentAt(r, i, now, oldestReady);
            && Allowed(m, e) && CallsFit(e, r) && Backed(m.w.(now := now), r)
            && var (m', signalled) := CapturePresent(m.(w := m.w.(now := now)), r, e, i);
               PresentStep(m, e) == m'.(w := ForwardPresent(m'.w, r.queue, {(HandleOf(r), i)},
                                                            if signalled then Some((r.id, i)) else None))
  {
    var e := PresentAt(r, i, now, oldestReady);
    assert PresentedImages(e) == {(HandleOf(r), i)};
    assert PresentedImage([(r.swapchain, i)], r.swapchain) == Some(i);
    assert Captures(m.s, e);
    assert PresentGate(m.s, e) == (m.s, true);
  }

  /** The present returns and its copy completes. */
  lemma Settles(m: Machine, r: Route, g: Gpu, i: nat)
    requires m.w.calls == map[r.queue := PresentCall({(HandleOf(r), i)}, Some((r.id, i)))]
    requires m.w.acquired == {(HandleOf(r), i)} && Recording(m.(w := m.w.(acquired := {}, calls := map[])), r, g)
    requires g.fences == seq(|r.contexts|, _ => Signaled)[0 := InFlight]
    ensures var back := PresentReturned(r.queue, false, false, {});
            var done := GpuCompletes(r.id, 0);
            var m' := Machine(m.s, m.w.(acquired := {}, calls := map[],
                                        gpus := map[r.id := g.(fences := seq(|r.contexts|, _ => Signaled))]));
            && Allowed(m, back) && Allowed(ReturnStep(m, back), done)
            && Step(ReturnStep(m, back), done) == m'
            && Recording(m', r, g.(fences := seq(|r.contexts|, _ => Signaled)))
  {
    var back := PresentReturned(r.queue, false, false, {});
    var m1 := ReturnStep(m, back);
    assert m1 == Machine(m.s, m.w.(acquired := {}, calls := map[]));
    assert g.fences[0 := Signaled] == seq(|r.contexts|, _ => Signaled);
  }

  // ---- Two presents ----

  /** The first copy goes into context 0. */
  predicate FirstCopyIn(r: Route, r1: Route, now: nat) {
    && r1 == r.(contexts := r1.contexts, presentationPending := r1.presentationPending, gpuIdle := false,
                nextSubmit := r1.nextSubmit)
    && |r1.contexts| == |r.contexts| > 1 && |r1.presentationPending| == |r.presentationPending|
    && r1.contexts[0].usable && r1.contexts[0].pending && r1.contexts[0].exportFd >= 3
    && (forall k :: 1 <= k < |r.contexts| ==> r1.contexts[k] == r.contexts[k])
    && (now + Cadence.NANOSECONDS_PER_SECOND <= U64_MAX / 2 ==>
          Cadence.VulkanCaptureDue(r1.samplingRate, r1.nextSubmit, now + Cadence.NANOSECONDS_PER_SECOND,
                                   r1.variableMinInterval))
  }

  lemma FirstSubmits(m: Machine, r: Route, g: Gpu, i: nat, now: nat)
    requires Holding(m, r, g, i) && g.fences == seq(|r.contexts|, _ => Signaled) && 0 < now <= U64_MAX / 2
    requires r.nextSubmit == 0 && r.samplingRate in {0, 30, 60, 120}
    requires AllNew(r)
    ensures var e := PresentAt(r, i, now, false);
            var start := m.(w := m.w.(now := now));
            && CallsFit(e, r) && Backed(start.w, r)
            && var (m', signalled) := CapturePresent(start, r, e, i);
               && signalled && m'.s.route.Some? && FirstCopyIn(r, m'.s.route.value, now)
               && m'.s.route.value.presentationPending[i]
               && m'.s == m.s.(route := m'.s.route)
               && r.id in m'.w.gpus
               && var g' := m'.w.gpus[r.id];
                  && m'.w == start.w.(gpus := map[r.id := g'], faults := m'.w.faults)
                  && g'.fences == g.fences[0 := InFlight] && g'.handle == g.handle && g'.detached == g.detached
                  && |g'.buffers| == |g.buffers| && |g'.waits| == |g.waits| && |g'.reacquired| == |g.reacquired|
  {
    var e := PresentAt(r, i, now, false);
    var start := m.(w := m.w.(now := now));
    assert forall k :: 0 <= k < |r.contexts| ==> r.contexts[k].usable && !r.contexts[k].pending && r.contexts[k].exportReleased;
    assert OldestPendingContext(r.contexts).None?;
    assert Eligible(r.contexts[0], e.calls.ready[0]);
    assert FirstEligible(r.contexts, e.calls.ready, 0) == Some(0);
  }

  lemma SubmitKeepsTheRest(w: World, r: Route, i: nat, stamp: nat, duration: nat, calls: DriverCalls)
    requires |calls.ready| == |r.contexts| && Backed(w, r)
    ensures SubmitNext(w, r, i, stamp, duration, calls).0.leases == w.leases
  {
  }

  lemma SecondDelivers(m: Machine, r: Route, g: Gpu, i: nat, now: nat)
    requires Holding(m, r, g, i) && g.fences == seq(|r.contexts|, _ => Signaled)
    requires r.contexts[0].usable && r.contexts[0].pending && r.contexts[0].exportFd >= 3
    requires forall k :: 1 <= k < |r.contexts| ==> !r.contexts[k].pending
    ensures var e := PresentAt(r, i, now, true);
            var start := m.(w := m.w.(now := now));
            && CallsFit(e, r) && Backed(start.w, r)
            && CapturePresent(start, r, e, i).0.w.leases == map[1 := (r.id, 0)]
  {
    var e := PresentAt(r, i, now, true);
    var start := m.(w := m.w.(now := now));
    assert OldestPendingContext(r.contexts) == Some(0);
    var (stamp, interval) := Cadence.VulkanCaptureTiming(r.samplingRate, r.nextSubmit, now, r.variableMinInterval);
    var (m1, r1, proof) := TakeCompleted(start, r, true);
    assert proof.value.exportSequence == Some(1) && proof.value.context == 0;
    SubmitKeepsTheRest(m1.w, r1, i, stamp, r.frameInterval, e.calls);
  }

  // ---- Putting the steps together ----

  /** An allowed run goes from one state to the other. */
  ghost predicate Leads(m: Machine, m': Machine) {
    exists events: seq<Event> :: AllAllowed(m, events) && Run(m, events) == m'
  }

  lemma LeadsBy(m: Machine, e: Event, m': Machine)
    requires Allowed(m, e) && Step(m, e) == m'
    ensures Leads(m, m')
  {
    FirstStep(m, e, []);
    assert [e] + [] == [e];
  }

  lemma LeadsOn(a: Machine, b: Machine, c: Machine)
    requires Leads(a, b) && Leads(b, c)
    ensures Leads(a, c)
  {
    var first: seq<Event> :| AllAllowed(a, first) && Run(a, first) == b;
    var second: seq<Event> :| AllAllowed(b, second) && Run(b, second) == c;
    RunsJoin(a, first, second);
  }

  lemma {:induction false} RunsJoin(m: Machine, a: seq<Event>, b: seq<Event>)
    requires AllAllowed(m, a) && AllAllowed(Run(m, a), b)
    ensures AllAllowed(m, a + b) && Run(m, a + b) == Run(Run(m, a), b)
    decreases |a|
  {
    if a == [] {
      assert a + b == b;
    } else {
      RunsJoin(Step(m, a[0]), a[1..], b);
      assert (a + b)[0] == a[0] && (a + b)[1..] == a[1..] + b;
    }
  }

  lemma StartupLeads(device: nat, queue: nat, swapchain: nat, candidate: SourceCandidate, setup: Setup) returns (m: Machine)
    requires queue != 0 && swapchain != 0 && GoodSetup(setup, candidate)
    ensures Leads(Initial, m) && m.s.route.Some? && NewlyCreated(m.s.route.value, device, queue, swapchain, setup)
    ensures Recording(m, m.s.route.value, FreshGpu(m.s.route.value)) && m.w.now == 0
    ensures m.s.route.value.candidate == candidate
  {
    var events := Startup(device, queue, swapchain, candidate, setup);
    SwapchainInstalls(device, queue, swapchain, candidate, setup);
    var m1 := Initial.(s := CreateDevice(Initial.s, events[0]));
    assert m1.s.devices == map[device := Device({0}, 0, Some(true))];
    var m2 := Observed(device, queue);
    assert ObserveQueue(m1, events[1]) == m2;
    m := CreateSwapchainStep(m2, events[2]);
    LeadsBy(Initial, events[0], m1);
    LeadsBy(m1, events[1], m2);
    LeadsBy(m2, events[2], m);
    LeadsOn(Initial, m1, m2);
    LeadsOn(Initial, m2, m);
  }

  lemma AcquireLeads(m: Machine, r: Route, g: Gpu, i: nat) returns (m1: Machine, r1: Route, g1: Gpu)
    requires Recording(m, r, g) && i < r.imageCount && r.presentationUsable[i] && r.images[i] != 0 && r.queue != 0
    ensures Leads(m, m1) && Holding(m1, r1, g1, i) && m1.w.now == m.w.now
    ensures r1 == r.(presentationPending := r1.presentationPending) && g1.fences == g.fences
  {
    Acquires(m, r, g, i);
    m1 := AcquireStep(m, AcquireFor(r, i));
    r1, g1 := m1.s.route.value, m1.w.gpus[r.id];
    LeadsBy(m, AcquireFor(r, i), m1);
  }

  lemma FirstPresentLeads(m: Machine, r: Route, g: Gpu, i: nat, now: nat) returns (m1: Machine, r1: Route, g1: Gpu)
    requires Holding(m, r, g, i) && g.fences == seq(|r.contexts|, _ => Signaled) && 0 < now <= U64_MAX / 2
    requires m.w.now == 0 && r.nextSubmit == 0 && r.samplingRate in {0, 30, 60, 120}
    requires AllNew(r)
    ensures Leads(m, m1) && FirstCopyIn(r, r1, now) && m1.w.now == now && r1.presentationPending[i]
    ensures m1.w.calls == map[r1.queue := PresentCall({(HandleOf(r1), i)}, Some((r1.id, i)))]
    ensures m1.w.acquired == {(HandleOf(r1), i)} && Recording(m1.(w := m1.w.(acquired := {}, calls := map[])), r1, g1)
    ensures g1.fences == seq(|r1.contexts|, _ => Signaled)[0 := InFlight]
  {
    var p := PresentAt(r, i, now, false);
    PresentReaches(m, r, g, i, now, false);
    FirstSubmits(m, r, g, i, now);
    m1 := PresentStep(m, p);
    r1, g1 := m1.s.route.value, m1.w.gpus[r.id];
    LeadsBy(m, p, m1);
  }

  lemma SettleLeads(m: Machine, r: Route, g: Gpu, i: nat) returns (m1: Machine, g1: Gpu)
    requires m.w.calls == map[r.queue := PresentCall({(HandleOf(r), i)}, Some((r.id, i)))]
    requires m.w.acquired == {(HandleOf(r), i)} && Recording(m.(w := m.w.(acquired := {}, calls := map[])), r, g)
    requires g.fences == seq(|r.contexts|, _ => Signaled)[0 := InFlight]
    ensures Leads(m, m1) && Recording(m1, r, g1) && g1.fences == seq(|r.contexts|, _ => Signaled) && m1.w.now == m.w.now
  {
    Settles(m, r, g, i);
    var back, done := PresentReturned(r.queue, false, false, {}), GpuCompletes(r.id, 0);
    var back1 := ReturnStep(m, back);
    m1 := Step(back1, done);
    g1 := g.(fences := seq(|r.contexts|, _ => Signaled));
    LeadsBy(m, back, back1);
    LeadsBy(back1, done, m1);
    LeadsOn(m, back1, m1);
  }

  lemma SecondPresentLeads(m: Machine, r: Route, g: Gpu, i: nat, now: nat) returns (m1: Machine)
    requires Holding(m, r, g, i) && g.fences == seq(|r.contexts|, _ => Signaled)
    requires 0 < now <= U64_MAX / 2 && m.w.now <= now
    requires r.contexts[0].usable && r.contexts[0].pending && r.contexts[0].exportFd >= 3
    requires forall k :: 1 <= k < |r.contexts| ==> !r.contexts[k].pending
    requires Cadence.VulkanCaptureDue(r.samplingRate, r.nextSubmit, now, r.variableMinInterval)
    ensures Leads(m, m1) && m1.w.leases == map[1 := (r.id, 0)]
  {
    var p := PresentAt(r, i, now, true);
    PresentReaches(m, r, g, i, now, true);
    SecondDelivers(m, r, g, i, now);
    m1 := PresentStep(m, p);
    LeadsBy(m, p, m1);
  }

  /** One present is recorded and its copy completes. */
  lemma CopyLeads(m: Machine, r: Route, g: Gpu, i: nat, now: nat) returns (end: Machine, r1: Route, r': Route, g': Gpu)
    requires Recording(m, r, g) && g.fences == seq(|r.contexts|, _ => Signaled) && m.w.now == 0
    requires i < r.imageCount && r.presentationUsable[i] && r.images[i] != 0 && r.queue != 0
    requires 0 < now <= U64_MAX / 2
    requires r.nextSubmit == 0 && r.samplingRate in {0, 30, 60, 120} && AllNew(r)
    ensures r1 == r.(presentationPending := r1.presentationPending) && FirstCopyIn(r1, r', now)
    ensures i < |r'.presentationPending| && r'.presentationPending[i]
    ensures Leads(m, end) && Recording(end, r', g') && g'.fences == seq(|r'.contexts|, _ => Signaled) && end.w.now == now
  {
    var m1, g1, m2, g2;
    m1, r1, g1 := AcquireLeads(m, r, g, i);
    m2, r', g2 := FirstPresentLeads(m1, r1, g1, i, now);
    end, g' := SettleLeads(m2, r', g2, i);
    LeadsOn(m, m1, m2);
    LeadsOn(m, m2, end);
  }

  lemma TwoRounds(m: Machine, r: Route, g: Gpu, i: nat, now: nat) returns (end: Machine)
    requires Recording(m, r, g) && g.fences == seq(|r.contexts|, _ => Signaled) && m.w.now == 0
    requires i < r.imageCount && r.presentationUsable[i] && r.images[i] != 0 && r.queue != 0
    requires 0 < now && now + Cadence.NANOSECONDS_PER_SECOND <= U64_MAX / 2
    requires r.nextSubmit == 0 && r.samplingRate in {0, 30, 60, 120}
    requires AllNew(r)
    ensures Leads(m, end) && end.w.leases == map[1 := (r.id, 0)]
  {
    var m3, r1, r2, g3 := CopyLeads(m, r, g, i, now);
    var m4, r4, g4 := AcquireLeads(m3, r2, g3, i);
    end := SecondPresentLeads(m4, r4, g4, i, now + Cadence.NANOSECONDS_PER_SECOND);
    LeadsOn(m, m3, m4);
    LeadsOn(m, m4, end);
  }

  /** The rules for the surroundings leave room for the whole hand-off: whatever the device,
      swapchain, source, image and clock, an allowed run takes the first frame to the daemon. */
  lemma FirstFrameReachesDaemon(device: nat, queue: nat, swapchain: nat, candidate: SourceCandidate, setup: Setup, i: nat,
                                now: nat)
    requires queue != 0 && swapchain != 0 && GoodSetup(setup, candidate) && i < setup.imageCount
    requires 0 < now && now + Cadence.NANOSECONDS_PER_SECOND <= U64_MAX / 2
    ensures exists events: seq<Event> ::
              AllAllowed(Initial, events) && Run(Initial, events).w.leases == map[1 := (setup.id, 0)]
  {
    var m := StartupLeads(device, queue, swapchain, candidate, setup);
    var r := m.s.route.value;
    assert AllNew(r);
    var end := TwoRounds(m, r, FreshGpu(r), i, now);
    LeadsOn(Initial, m, end);
  }
}

/** Fixed-rate recording keeps the cadence timestamps: the monotonic bump at export changes
    nothing once a route has started later than the last export. */
module ReplayOrder {
  import opened Wrappers
  import opened Messages
  import opened ReplayWorld
  import opened ReplayState
  import opened ReplayMachine
  import opened ReplayInvariant
  import opened ReplayRouteLemmas
  import opened ReplaySlotLemmas
  import opened ReplayMapSteps
  import opened ReplaySlotSteps
  import opened ReplayPresentSteps
  import opened ReplaySafety
  import Cadence

  /** No two pending copies share a capture time. */
  predicate DistinctStamps(contexts: seq<Context>) {
    forall j, k :: 0 <= j < k < |contexts| && contexts[j].pending && contexts[k].pending ==>
      contexts[j].capturedAt != contexts[k].capturedAt
  }

  /** Everything this fixed-rate route has captured or will capture is newer than the last
      export. */
  predicate RouteAhead(r: Route, lastExport: nat) {
    && r.samplingRate != 0 && lastExport < r.nextSubmit
    && DistinctStamps(r.contexts)
    && forall k :: 0 <= k < |r.contexts| && r.contexts[k].pending ==> lastExport < r.contexts[k].capturedAt
  }

  predicate Ahead(s: State) { s.route.Some? && RouteAhead(s.route.value, s.lastExport) }

  // ---- Steps other than presents ----

  /** The same copies are pending with the same times. */
  predicate SameStamps(r: Route, r': Route) {
    && r'.samplingRate == r.samplingRate && r'.nextSubmit == r.nextSubmit
    && |r'.contexts| == |r.contexts|
    && forall k :: 0 <= k < |r.contexts| ==>
         r'.contexts[k].pending == r.contexts[k].pending && r'.contexts[k].capturedAt == r.contexts[k].capturedAt
  }

  /** Nothing is exported and, unless the active route changed, its stamps did not. */
  predicate Quiet(m: Machine, m': Machine) {
    && m'.w.exports == m.w.exports
    && QuietState(m.s, m'.s)
  }

  predicate QuietState(s: State, s': State) {
    && s'.lastExport == s.lastExport
    && (s.route.Some? && s'.route.Some? && s'.route.value.id == s.route.value.id ==>
          SameStamps(s.route.value, s'.route.value))
  }

  lemma InstallQuiet(m: Machine, pending: PendingSwapchain, setup: Setup, sent: bool)
    requires SetupPossible(setup, pending.candidate)
    ensures var m' := InstallRoute(m, pending, setup, sent);
            && m'.s.lastExport == m.s.lastExport && m'.w.exports == m.w.exports
            && (m'.s.route == m.s.route || (m.s.route.None? && m'.s.route.Some? && m'.s.route.value.id == setup.id))
  {
  }

  lemma ResumeQuiet(m: Machine, queue: Option<nat>, setup: Setup, sent: bool)
    requires |m.s.retired| == 2
    requires m.s.pendingSwapchain.Some? ==> SetupPossible(setup, m.s.pendingSwapchain.value.candidate)
    ensures var m' := Resume(ReclaimIdleReleased(m), queue, setup, sent);
            && m'.s.lastExport == m.s.lastExport && m'.w.exports == m.w.exports
            && (m.s.route.Some? ==> m'.s.route == m.s.route)
  {
    var m1 := ReclaimIdleReleased(m);
    if m1.s.pendingSwapchain.Some? {
      InstallQuiet(m1, m1.s.pendingSwapchain.value, setup, sent);
    }
  }

  lemma RetainQuiet(m: Machine, r: Route, sent: bool)
    ensures RetainRetired(m, r, sent).w.exports == m.w.exports
    ensures var s' := RetainRetired(m, r, sent).s;
            s'.lastExport == m.s.lastExport && s'.route == m.s.route && s'.pendingSwapchain == m.s.pendingSwapchain
  {
  }

  lemma ReplacementQuiet(m: Machine, e: Event)
    requires e.SwapchainDestroyed? && m.s.route.None?
    requires m.s.pendingSwapchain.Some? ==> SetupPossible(e.setup, m.s.pendingSwapchain.value.candidate)
    ensures InstallReplacement(m, e).w.exports == m.w.exports
    ensures var s' := InstallReplacement(m, e).s;
            && s'.lastExport == m.s.lastExport
            && (s'.route.Some? ==> s'.route.value.id == e.setup.id)
  {
    if m.s.pendingSwapchain.Some? {
      InstallQuiet(m, m.s.pendingSwapchain.value, e.setup, e.sent);
    }
  }

  lemma RetireActiveQuiet(m: Machine, e: Event)
    requires e.SwapchainDestroyed? && m.s.route.Some?
    requires m.s.pendingSwapchain.Some? ==> SetupPossible(e.setup, m.s.pendingSwapchain.value.candidate)
    ensures RetireActive(m, e).w.exports == m.w.exports
    ensures var s' := RetireActive(m, e).s;
            && s'.lastExport == m.s.lastExport
            && (s'.route.Some? ==> s'.route.value.id == e.setup.id)
  {
    RetainQuiet(m.(s := m.s.(route := None)), m.s.route.value, e.sent);
    ReplacementQuiet(RetainRetired(m.(s := m.s.(route := None)), m.s.route.value, e.sent), e);
  }

  lemma DestroySwapchainQuiet(m: Machine, e: Event)
    requires e.SwapchainDestroyed? && Inv(m) && Allowed(m, e)
    ensures Quiet(m, DestroySwapchainStep(m, e))
  {
    if m.s.route.Some? {
      assert Slot(m.s, 0) == m.s.route && RouteOk(m.s.route.value, m.s.nextSequence, m.w);
      var closed := Machine(ForgetWaiting(m.s, e.swapchain), CloseSwapchain(m.w, Handle(e.device, e.swapchain)));
      RetireActiveQuiet(closed, e);
      assert DestroySwapchainStep(m, e) == closed || DestroySwapchainStep(m, e) == RetireActive(closed, e);
    }
  }

  lemma CreateSwapchainQuiet(m: Machine, e: Event)
    requires e.SwapchainCreated? && WellFormed(m, e)
    ensures Quiet(m, CreateSwapchainStep(m, e))
  {
    if e.assessment.Some? && e.assessment.value.Accepted? {
      var candidate := e.assessment.value.candidate;
      InstallQuiet(m.(w := OpenSwapchain(m.w, Handle(e.device, e.swapchain))),
                   PendingSwapchain(e.device, 0, e.swapchain, candidate,
                                    candidate.width * candidate.height * BYTES_PER_PIXEL),
                   e.setup, e.sent);
    }
  }

  lemma ReleaseQuiet(m: Machine, e: Event)
    requires e.ReleaseSequence? && WellFormed(m, e)
    ensures Quiet(m, Release(m, e).0)
  {
    if !e.busy {
      var f := Releasing(e.sequence);
      var s := MapRetired(m.s, f).(route := MapSlot(m.s.route, f), quarantined := MapSlot(m.s.quarantined, f));
      assert m.s.route.Some? ==> SameStamps(m.s.route.value, f(m.s.route.value));
      ResumeQuiet(m.(s := s), PendingQueue(ReclaimIdleReleased(m.(s := s)).s), e.setup, e.sent);
    }
  }

  lemma QueueIdleQuiet(m: Machine, e: Event)
    requires e.QueueIdle? && WellFormed(m, e)
    ensures Quiet(m, AfterQueueIdle(m, e))
  {
    ResumeQuiet(m.(s := MapRetired(m.s, IdlingQueue(e.queue))), Some(e.queue), e.setup, e.sent);
  }

  lemma DeviceIdleQuiet(m: Machine, e: Event)
    requires e.DeviceIdle? && WellFormed(m, e)
    ensures Quiet(m, AfterDeviceIdle(m, e))
  {
    var marked := m.(s := MapRetired(m.s, IdlingDevice(e.device)));
    ResumeQuiet(marked, PendingQueue(ReclaimIdleReleased(marked).s), e.setup, e.sent);
  }

  lemma ObserveQueueQuiet(m: Machine, e: Event)
    requires e.QueueObserved? && WellFormed(m, e)
    ensures Quiet(m, ObserveQueue(m, e))
  {
  }

  lemma DestroyDeviceQuiet(m: Machine, e: Event)
    requires e.DeviceDestroyed? && WellFormed(m, e)
    ensures Quiet(m, DestroyDeviceStep(m, e))
  {
  }

  lemma ReturnQuiet(m: Machine, e: Event)
    requires e.PresentReturned? && WellFormed(m, e)
    ensures Quiet(m, ReturnStep(m, e))
  {
  }

  lemma AcquireQuiet(m: Machine, e: Event)
    requires e.ImageAcquired? && WellFormed(m, e)
    ensures Quiet(m, AcquireStep(m, e))
  {
    var handle := Handle(e.device, e.swapchain);
    var f := Confirming(handle, e.image, e.fence, e.signaled);
    assert m.s.route.Some? ==> SameStamps(m.s.route.value, f(m.s.route.value));
    ReclaimQuiet(m.(w := AcquireImage(m.w, handle, e.image, e.signaled),
                    s := MapRetired(m.s, f).(route := MapSlot(m.s.route, f))));
  }

  lemma ReclaimQuiet(m: Machine)
    requires |m.s.retired| == 2
    ensures var m' := ReclaimIdleReleased(m);
            m'.w.exports == m.w.exports && m'.s.lastExport == m.s.lastExport && m'.s.route == m.s.route
  {
  }

  lemma OtherStepsQuiet(m: Machine, e: Event)
    requires Inv(m) && Allowed(m, e) && !e.PreparePresent?
    ensures Quiet(m, Step(m, e))
  {
    match e
    case DeviceCreated(_, _, _, _) =>
    case QueueObserved(_, _, _, _, _, _) => ObserveQueueQuiet(m, e);
    case SwapchainCreated(_, _, _, _, _, _, _, _, _) => CreateSwapchainQuiet(m, e);
    case SwapchainDestroyed(_, _, _, _) => DestroySwapchainQuiet(m, e);
    case DeviceDestroyed(_) => DestroyDeviceQuiet(m, e);
    case PresentReturned(_, _, _, _) => ReturnQuiet(m, e);
    case ReleaseSequence(_, _, _, _) => ReleaseQuiet(m, e);
    case ImageAcquired(_, _, _, _, _, _) => AcquireQuiet(m, e);
    case QueueIdle(_, _, _) => QueueIdleQuiet(m, e);
    case DeviceIdle(_, _, _) => DeviceIdleQuiet(m, e);
    case GpuCompletes(_, _) =>
    case DaemonReleases(_) =>
  }

  // ---- Presents ----

  /** Taking the oldest copy leaves only newer ones pending. */
  lemma TakeOrder(m: Machine, r: Route, ready: bool, lastExport: nat)
    requires RouteOk(r, m.s.nextSequence, m.w) && RouteAhead(r, lastExport)
    ensures var (m', r', proof) := TakeCompleted(m, r, ready);
            && r'.nextSubmit == r.nextSubmit && r'.samplingRate == r.samplingRate
            && DistinctStamps(r'.contexts)
            && (proof.None? ==> r' == r)
            && (proof.Some? ==>
                  && lastExport < proof.value.timestamp <= NewestStamp(r, m.w.now)
                  && forall k :: 0 <= k < |r'.contexts| && r'.contexts[k].pending ==>
                       proof.value.timestamp < r'.contexts[k].capturedAt <= NewestStamp(r, m.w.now))
  {
    var oldest := OldestPendingContext(r.contexts);
    var g := m.w.gpus[r.id];
    assert forall k :: 0 <= k < |r.contexts| ==> ContextOk(r.contexts[k], g.fences[k], g.buffers[k], r.exportRequired);
    if oldest.Some? && ready {
      var k0 := oldest.value;
      assert IsOldestPending(r.contexts, k0);
      forall k | 0 <= k < |r.contexts| && r.contexts[k].pending && k != k0
        ensures r.contexts[k0].capturedAt < r.contexts[k].capturedAt
      {
        assert r.contexts[k].usable;
      }
    }
  }

  lemma SubmitOrder(w: World, r: Route, i: nat, stamp: nat, duration: nat, calls: DriverCalls, lastExport: nat)
    requires Backed(w, r) && |calls.ready| == |r.contexts| && DistinctStamps(r.contexts) && lastExport < stamp
    requires forall k :: 0 <= k < |r.contexts| && r.contexts[k].pending ==> lastExport < r.contexts[k].capturedAt < stamp
    ensures var r' := SubmitNext(w, r, i, stamp, duration, calls).1;
            && r'.samplingRate == r.samplingRate && r'.nextSubmit == r.nextSubmit
            && DistinctStamps(r'.contexts)
            && forall k :: 0 <= k < |r'.contexts| && r'.contexts[k].pending ==> lastExport < r'.contexts[k].capturedAt
  {
    if i < MAX_IMAGES && r.presentationUsable[i] && i < r.imageCount {
      var free := FirstEligible(r.contexts, calls.ready, 0);
      if free.Some? {
        SubmitIntoOrder(w, r, free.value, i, RecordCopy(r.exportRequired, r.contexts[free.value].capturedAt != 0),
                        stamp, duration, calls, lastExport);
      }
    }
  }

  lemma SubmitIntoOrder(w: World, r: Route, k: nat, i: nat, commands: seq<Command>, stamp: nat, duration: nat,
                        calls: DriverCalls, lastExport: nat)
    requires Backed(w, r) && k < |r.contexts| && i < MAX_IMAGES
    requires DistinctStamps(r.contexts) && lastExport < stamp
    requires forall j :: 0 <= j < |r.contexts| && r.contexts[j].pending ==> lastExport < r.contexts[j].capturedAt < stamp
    ensures var r' := SubmitInto(w, r, k, i, commands, stamp, duration, calls).1;
            && r'.samplingRate == r.samplingRate && r'.nextSubmit == r.nextSubmit
            && DistinctStamps(r'.contexts)
            && forall j :: 0 <= j < |r'.contexts| && r'.contexts[j].pending ==> lastExport < r'.contexts[j].capturedAt
  {
  }

  /** After a due present the route is ahead even of the copy it hands off. */
  lemma CopyOrder(m: Machine, r: Route, e: Event, image: nat)
    requires CaptureReady(m, r, e, image) && RouteAhead(r, m.s.lastExport)
    ensures var (m', proof, signalled) := CopyPresented(m, r, e, image);
            && (proof.Some? ==> m.s.lastExport < proof.value.timestamp)
            && RouteAhead(m'.s.route.value, if proof.Some? then proof.value.timestamp else m.s.lastExport)
            && m'.s.lastExport == m.s.lastExport
  {
    TakeShape(m, r, e.calls.oldestReady);
    TakeOrder(m, r, e.calls.oldestReady, m.s.lastExport);
    var (m1, r1, proof) := TakeCompleted(m, r, e.calls.oldestReady);
    AheadAfterSubmit(m1.w, r, r1, image, m.w.now, e.calls, if proof.Some? then proof.value.timestamp else m.s.lastExport);
  }

  lemma AheadAfterSubmit(w: World, r: Route, r1: Route, i: nat, now: nat, calls: DriverCalls, bound: nat)
    requires Backed(w, r1) && |calls.ready| == |r1.contexts|
    requires r1 == r.(contexts := r1.contexts) && DistinctStamps(r1.contexts)
    requires r.samplingRate in {30, 60, 120} && 0 < r.nextSubmit <= now <= U64_MAX / 2 && bound < r.nextSubmit
    requires forall k :: 0 <= k < |r1.contexts| && r1.contexts[k].pending ==>
               bound < r1.contexts[k].capturedAt <= NewestStamp(r, now)
    ensures var (stamp, interval) := Cadence.VulkanCaptureTiming(r.samplingRate, r.nextSubmit, now, r.variableMinInterval);
            var (w', r2, signalled) := SubmitNext(w, r1, i, stamp, r.frameInterval, calls);
            RouteAhead(Advanced(r2, signalled, Cadence.AdvanceCaptureDeadline(false, r.nextSubmit, now, interval)), bound)
  {
    var interval := Cadence.FrameIntervalForFps(r.samplingRate);
    var stamp := Cadence.CapturePresentationTimestamp(r.nextSubmit, now, interval);
    Cadence.FixedCaptureStep(r.nextSubmit, now, interval);
    SubmitOrder(w, r1, i, stamp, r.frameInterval, calls, bound);
  }

  /** The timestamp a present exports, when it delivers one. */
  function ExportedStamp(r: Route): nat
    requires OldestPendingContext(r.contexts).Some?
  {
    r.contexts[OldestPendingContext(r.contexts).value].capturedAt
  }

  lemma HandOffOrder(m: Machine, id: nat, proof: CopyProof, delivered: bool)
    requires |m.s.retired| == 2 && m.s.route.Some? && m.s.lastExport < proof.timestamp
    requires RouteAhead(m.s.route.value, proof.timestamp)
    ensures var m' := CompleteHandOff(m, id, proof, delivered);
            && Ahead(m'.s)
            && (m'.w.exports == m.w.exports || m'.w.exports == m.w.exports + [proof.timestamp])
  {
    if proof.exportSequence.Some? && !delivered {
      assert SameStamps(m.s.route.value, Releasing(proof.exportSequence.value)(m.s.route.value));
    }
  }

  lemma CaptureOrder(m: Machine, r: Route, e: Event, image: nat)
    requires CaptureReady(m, r, e, image) && RouteAhead(r, m.s.lastExport) && |m.s.retired| == 2
    ensures var m' := CapturePresent(m, r, e, image).0;
            && Ahead(m'.s)
            && (m'.w.exports == m.w.exports
                || (OldestPendingContext(r.contexts).Some? && m'.w.exports == m.w.exports + [ExportedStamp(r)]))
  {
    var (m1, proof, signalled) := CopyPresented(m, r, e, image);
    CopyOrder(m, r, e, image);
    CopyExports(m, r, e, image);
    if proof.Some? {
      HandOffOrder(m1, r.id, proof.value, e.delivered);
    }
  }

  lemma CopyExports(m: Machine, r: Route, e: Event, image: nat)
    requires CallsFit(e, r) && e.now.Some? && Backed(m.w, r)
    ensures var (m', proof, signalled) := CopyPresented(m, r, e, image);
            && m'.w.exports == m.w.exports && m'.s.retired == m.s.retired
            && (proof.Some? ==> OldestPendingContext(r.contexts).Some? && proof.value.timestamp == ExportedStamp(r))
  {
    TakeShape(m, r, e.calls.oldestReady);
  }

  lemma PresentOrder(m: Machine, e: Event)
    requires e.PreparePresent? && Inv(m) && Allowed(m, e) && Ahead(m.s)
    ensures Ahead(PresentStep(m, e).s)
    ensures var r, exports := m.s.route.value, PresentStep(m, e).w.exports;
            exports == m.w.exports
            || (OldestPendingContext(r.contexts).Some? && exports == m.w.exports + [ExportedStamp(r)])
  {
    var m1 := m.(w := m.w.(now := if e.now.Some? then e.now.value else m.w.now));
    GateKeeps(m, e);
    var (s, open) := PresentGate(m1.s, e);
    if e.queue != 0 && e.info.Some? && !e.busy && open && Captures(s, e) {
      PresentedIsReady(m, e, s);
      CaptureOrder(m1.(s := s), m.s.route.value, e,
                   PresentedImage(e.info.value.entries, m.s.route.value.swapchain).value);
    }
  }

  /** One step of a fixed-rate route that is ahead of the last export: it stays ahead while
      it is the active route, and whatever it exports carries the cadence's own timestamp. */
  lemma AheadIsKept(m: Machine, e: Event)
    requires Inv(m) && Allowed(m, e) && Ahead(m.s)
    requires Step(m, e).s.route.Some? && Step(m, e).s.route.value.id == m.s.route.value.id
    ensures Ahead(Step(m, e).s)
    ensures var r, exports := m.s.route.value, Step(m, e).w.exports;
            exports == m.w.exports
            || (e.PreparePresent? && OldestPendingContext(r.contexts).Some?
                && exports == m.w.exports + [ExportedStamp(r)])
  {
    if e.PreparePresent? {
      PresentOrder(m, e);
    } else {
      OtherStepsQuiet(m, e);
    }
  }

  /** A fixed-rate route whose first capture is later than the last export starts ahead. */
  lemma FirstCaptureStartsAhead(m: Machine, r: Route, e: Event, image: nat)
    requires CaptureReady(m, r, e, image) && |m.s.retired| == 2
    requires r.samplingRate != 0 && r.nextSubmit == 0 && m.s.lastExport < m.w.now
    ensures var (m', signalled) := CapturePresent(m, r, e, image);
            m'.w.exports == m.w.exports && (signalled ==> Ahead(m'.s))
  {
    NothingPendingYet(m, r);
    FirstSubmitIsAhead(m, r, e, image);
  }

  lemma NothingPendingYet(m: Machine, r: Route)
    requires RouteOk(r, m.s.nextSequence, m.w) && r.samplingRate != 0 && r.nextSubmit == 0
    ensures forall k :: 0 <= k < |r.contexts| ==> !r.contexts[k].pending
  {
    var g := m.w.gpus[r.id];
    assert forall k :: 0 <= k < |r.contexts| ==> ContextOk(r.contexts[k], g.fences[k], g.buffers[k], r.exportRequired);
  }

  lemma FirstSubmitIsAhead(m: Machine, r: Route, e: Event, image: nat)
    requires CallsFit(e, r) && e.now == Some(m.w.now) && Backed(m.w, r)
    requires r.samplingRate in {30, 60, 120} && r.nextSubmit == 0 && m.s.lastExport < m.w.now <= U64_MAX / 2
    requires forall k :: 0 <= k < |r.contexts| ==> !r.contexts[k].pending
    ensures var (m', proof, signalled) := CopyPresented(m, r, e, image);
            m'.w.exports == m.w.exports && proof.None? && (signalled ==> Ahead(m'.s))
  {
    assert OldestPendingContext(r.contexts).None?;
    AheadAfterFirstSubmit(m.w, r, image, m.w.now, e.calls, m.s.lastExport);
  }

  lemma AheadAfterFirstSubmit(w: World, r: Route, i: nat, now: nat, calls: DriverCalls, bound: nat)
    requires Backed(w, r) && |calls.ready| == |r.contexts|
    requires r.samplingRate in {30, 60, 120} && r.nextSubmit == 0 && bound < now <= U64_MAX / 2
    requires forall k :: 0 <= k < |r.contexts| ==> !r.contexts[k].pending
    ensures var (stamp, interval) := Cadence.VulkanCaptureTiming(r.samplingRate, 0, now, r.variableMinInterval);
            var (w', r', signalled) := SubmitNext(w, r, i, stamp, r.frameInterval, calls);
            && w'.exports == w.exports
            && (signalled ==>
                  RouteAhead(r'.(nextSubmit := Cadence.AdvanceCaptureDeadline(false, 0, now, interval)), bound))
  {
    Cadence.FixedCaptureStep(0, now, Cadence.FrameIntervalForFps(r.samplingRate));
    SubmitOrder(w, r, i, now, r.frameInterval, calls, bound);
  }

  /** The same route is active all along the run. */
  predicate StaysActive(m: Machine, events: seq<Event>, id: nat)
    requires AllAllowed(m, events)
    decreases |events|
  {
    && m.s.route.Some? && m.s.route.value.id == id
    && (events == [] || StaysActive(Step(m, events[0]), events[1..], id))
  }

  /** The capture time of the copy that this step exports, if it exports one. */
  function TakenStamp(m: Machine, e: Event): seq<nat>
    requires Allowed(m, e)
  {
    if |Step(m, e).w.exports| > |m.w.exports| && m.s.route.Some?
       && OldestPendingContext(m.s.route.value.contexts).Some?
    then [ExportedStamp(m.s.route.value)] else []
  }

  /** The capture times of the copies exported along a run, in order. */
  function TakenStamps(m: Machine, events: seq<Event>): seq<nat>
    requires AllAllowed(m, events)
    decreases |events|
  {
    if events == [] then [] else TakenStamp(m, events[0]) + TakenStamps(Step(m, events[0]), events[1..])
  }

  /** Along every run of a fixed-rate route that is ahead, each exported timestamp is exactly the
      capture time of the copy it belongs to. */
  lemma {:induction false} AheadLasts(m: Machine, events: seq<Event>, id: nat)
    requires Inv(m) && AllAllowed(m, events) && StaysActive(m, events, id) && Ahead(m.s)
    ensures Ahead(Run(m, events).s)
    ensures Run(m, events).w.exports == m.w.exports + TakenStamps(m, events)
    decreases |events|
  {
    if events != [] {
      AheadStep(m, events[0]);
      StepKeeps(m, events[0]);
      var next := Step(m, events[0]);
      AheadLasts(next, events[1..], id);
      ListsJoin(m.w.exports, TakenStamp(m, events[0]), TakenStamps(next, events[1..]));
    }
  }

  lemma ListsJoin(a: seq<nat>, b: seq<nat>, c: seq<nat>)
    ensures (a + b) + c == a + (b + c)
  {
  }

  lemma AheadStep(m: Machine, e: Event)
    requires Inv(m) && Allowed(m, e) && Ahead(m.s)
    requires Step(m, e).s.route.Some? && Step(m, e).s.route.value.id == m.s.route.value.id
    ensures Ahead(Step(m, e).s)
    ensures Step(m, e).w.exports == m.w.exports + TakenStamp(m, e)
  {
    AheadIsKept(m, e);
  }

  /** The copy semaphore of this present was signalled: a capture started. */
  predicate Captured(m: Machine, e: Event)
    requires e.PreparePresent? && Allowed(m, e)
  {
    e.queue in PresentStep(m, e).w.calls && PresentStep(m, e).w.calls[e.queue].semaphore.Some?
  }

  /** From the first capture of a fixed-rate route on, as long as that capture is later than the
      last export, the monotonic bump never alters a timestamp while the route is active. */
  lemma CadenceStampsAreExported(m: Machine, e: Event, events: seq<Event>)
    requires Inv(m) && e.PreparePresent? && Allowed(m, e) && m.s.route.Some?
    requires m.s.route.value.samplingRate != 0 && m.s.route.value.nextSubmit == 0
    requires Captured(m, e) && e.now.Some? && m.s.lastExport < e.now.value
    requires AllAllowed(PresentStep(m, e), events) && StaysActive(PresentStep(m, e), events, m.s.route.value.id)
    ensures Run(PresentStep(m, e), events).w.exports == m.w.exports + TakenStamps(PresentStep(m, e), events)
  {
    PresentKeeps(m, e);
    FirstPresentStartsAhead(m, e);
    AheadLasts(PresentStep(m, e), events, m.s.route.value.id);
  }

  lemma FirstPresentStartsAhead(m: Machine, e: Event)
    requires Inv(m) && e.PreparePresent? && Allowed(m, e) && m.s.route.Some?
    requires m.s.route.value.samplingRate != 0 && m.s.route.value.nextSubmit == 0
    requires Captured(m, e) && e.now.Some? && m.s.lastExport < e.now.value
    ensures Ahead(PresentStep(m, e).s) && PresentStep(m, e).w.exports == m.w.exports
  {
    var m1 := m.(w := m.w.(now := e.now.value));
    GateKeeps(m, e);
    var (s, open) := PresentGate(m1.s, e);
    PresentedIsReady(m, e, s);
    FirstCaptureStartsAhead(m1.(s := s), m.s.route.value, e,
                            PresentedImage(e.info.value.entries, m.s.route.value.swapchain).value);
  }
}

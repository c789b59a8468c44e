/** Entry points of the Vulkan replay producer, each one an atomic step under its lock, the
    rules its surroundings obey, and runs of such steps. */
module ReplayMachine {
  import opened Wrappers
  import opened Messages
  import opened ReplayWorld
  import opened ReplayState
  import Cadence

  datatype Event =
    | DeviceCreated(device: nat, requested: bool, families: set<nat>, exportSupport: Option<bool>)
    | QueueObserved(device: nat, queue: nat, family: nat, isProtected: bool, setup: Setup, sent: bool)
    | SwapchainCreated(device: nat, previous: nat, swapchain: nat, sharedPresent: bool, assessment: Option<Assessment>,
                       production: bool, failSetup: bool, setup: Setup, sent: bool)
    | SwapchainDestroyed(device: nat, swapchain: nat, setup: Setup, sent: bool)
    | DeviceDestroyed(device: nat)
    | PreparePresent(queue: nat, device: nat, now: Option<nat>, info: Option<PresentInfo>, calls: DriverCalls,
                     sent: bool, delivered: bool, busy: bool)
    | PresentReturned(queue: nat, failed: bool, busy: bool, kept: set<(Handle, nat)>)
    | ReleaseSequence(sequence: nat, busy: bool, setup: Setup, sent: bool)
    | ImageAcquired(device: nat, swapchain: nat, image: nat, fence: bool, signaled: bool, busy: bool)
    | QueueIdle(queue: nat, setup: Setup, sent: bool)
    | DeviceIdle(device: nat, setup: Setup, sent: bool)
    | GpuCompletes(id: nat, context: nat)
    | DaemonReleases(sequence: nat)

  // ---- Entry points ----

  function CreateDevice(s: State, e: Event): State
    requires e.DeviceCreated?
  {
    if !e.requested || e.families == {} || (|s.devices| >= 2 && e.device !in s.devices) then s
    else s.(devices := s.devices[e.device := Device(e.families, 0, e.exportSupport)])
  }

  function ObserveQueue(m: Machine, e: Event): Machine
    requires e.QueueObserved?
    requires m.s.pendingSwapchain.Some? ==> SetupPossible(e.setup, m.s.pendingSwapchain.value.candidate)
  {
    if e.queue == 0 || e.isProtected || e.family >= 64 || e.device !in m.s.devices then m
    else
      var d := m.s.devices[e.device];
      var s := if d.queue == 0 && e.family in d.graphicsFamilies
               then m.s.(devices := m.s.devices[e.device := d.(queue := e.queue)]) else m.s;
      if s.pendingSwapchain.Some? && s.pendingSwapchain.value.device == e.device && s.pendingSwapchain.value.replaced == 0
      then InstallRoute(m.(s := s), s.pendingSwapchain.value, e.setup, e.sent)
      else m.(s := s)
  }

  /** Only the recorded swapchain and its replacements decide about the recording. */
  predicate IsSourceSwapchain(s: State, device: nat, previous: nat) {
    if s.route.Some? then
      s.route.value.device == device
      && (s.route.value.swapchain == previous
          || (s.pendingSwapchain.Some? && s.pendingSwapchain.value.device == device
              && s.pendingSwapchain.value.swapchain == previous))
    else
      s.pendingSwapchain.None?
      || (s.pendingSwapchain.value.device == device
          && (previous == s.pendingSwapchain.value.swapchain || previous == s.pendingSwapchain.value.replaced))
  }

  function AdmitSwapchain(m: Machine, e: Event, candidate: SourceCandidate, bytes: nat): Machine
    requires e.SwapchainCreated? && SetupPossible(e.setup, candidate)
  {
    var s := m.s;
    var waiting := PendingSwapchain(e.device, 0, e.swapchain, candidate, bytes);
    if !CanCreateRoute(s) && s.route.None? then m.(s := s.(pendingSwapchain := Some(waiting)))
    else if s.route.Some? then
      var active := s.route.value;
      if active.device == e.device
         && (e.previous == active.swapchain || (s.pendingSwapchain.Some? && e.previous == s.pendingSwapchain.value.swapchain))
      then m.(s := s.(pendingSwapchain := Some(waiting.(replaced := active.swapchain))))
      else m
    else if e.device !in s.devices then m
    else if s.devices[e.device].queue == 0 then m.(s := s.(pendingSwapchain := Some(waiting)))
    else InstallRoute(m, waiting, e.setup, e.sent)
  }

  function CreateSwapchain(m: Machine, e: Event): Machine
    requires e.SwapchainCreated?
    requires e.assessment.Some? && e.assessment.value.Accepted? ==> SetupPossible(e.setup, e.assessment.value.candidate)
  {
    var s := m.s;
    if e.swapchain == 0 || !IsSourceSwapchain(s, e.device, e.previous) then m
    else if e.sharedPresent then m.(s := Assess(s, Rejected(EncoderBackendUnavailable), e.sent))
    else if e.assessment.None? then m
    else if e.assessment.value.Rejected? then m.(s := Assess(s, e.assessment.value, e.sent))
    else
      var candidate := e.assessment.value.candidate;
      var bytes := candidate.width * candidate.height * BYTES_PER_PIXEL;
      if bytes > U32_MAX then m
      else if e.production && e.device in s.devices && s.devices[e.device].exportSupport.None?
      then m.(s := Assess(s, Rejected(ExternalMemoryUnsupported), e.sent))
      else if e.failSetup then m.(s := Assess(s, Rejected(EncoderBackendUnavailable), e.sent))
      else AdmitSwapchain(m, e, candidate, bytes)
  }

  function ForgetWaiting(s: State, swapchain: nat): State {
    if s.pendingSwapchain.Some? && s.pendingSwapchain.value.swapchain == swapchain
    then s.(pendingSwapchain := None) else s
  }

  /** Put the swapchain that replaces a retired one into service. */
  function InstallReplacement(m: Machine, e: Event): Machine
    requires e.SwapchainDestroyed?
    requires m.s.pendingSwapchain.Some? ==> SetupPossible(e.setup, m.s.pendingSwapchain.value.candidate)
  {
    var p := m.s.pendingSwapchain;
    var resumed := if p.Some? && p.value.device == e.device && p.value.replaced == e.swapchain
                   then InstallRoute(m, p.value, e.setup, e.sent) else m;
    if resumed.s.route.None?
    then resumed.(s := Assess(resumed.s, Rejected(EncoderBackendUnavailable), e.sent)) else resumed
  }

  function RetireActive(m: Machine, e: Event): Machine
    requires e.SwapchainDestroyed? && m.s.route.Some?
    requires m.s.pendingSwapchain.Some? ==> SetupPossible(e.setup, m.s.pendingSwapchain.value.candidate)
  {
    InstallReplacement(RetainRetired(m.(s := m.s.(route := None)), m.s.route.value, e.sent), e)
  }

  function DestroySwapchain(m: Machine, e: Event): Machine
    requires e.SwapchainDestroyed?
    requires m.s.pendingSwapchain.Some? ==> SetupPossible(e.setup, m.s.pendingSwapchain.value.candidate)
  {
    var s := ForgetWaiting(m.s, e.swapchain);
    if s.route.None? || s.route.value.device != e.device || s.route.value.swapchain != e.swapchain then m.(s := s)
    else RetireActive(m.(s := s), e)
  }

  predicate OnDevice(slot: Option<Route>, device: nat) { slot.Some? && slot.value.device == device }

  function Without(slot: Option<Route>, device: nat): Option<Route> { if OnDevice(slot, device) then None else slot }

  /** Destroy every route of a device whose queues are idle. */
  function DestroyRoutesOn(m: Machine, device: nat): Machine
    requires |m.s.retired| == 2
  {
    var s := m.s;
    var w0 := DestroyIf(m.w, s.route, OnDevice(s.route, device), true);
    var w1 := DestroyIf(w0, s.retired[0], OnDevice(s.retired[0], device), true);
    var w2 := DestroyIf(w1, s.retired[1], OnDevice(s.retired[1], device), true);
    var w3 := DestroyIf(w2, s.abandoned, OnDevice(s.abandoned, device), true);
    var w4 := DestroyIf(w3, s.quarantined, OnDevice(s.quarantined, device), true);
    Machine(s.(route := Without(s.route, device),
               retired := [Without(s.retired[0], device), Without(s.retired[1], device)],
               abandoned := Without(s.abandoned, device),
               quarantined := Without(s.quarantined, device)), w4)
  }

  function ForgetDevice(s: State, device: nat): State {
    var left := s.(
      devices := s.devices - {device},
      pendingSwapchain := if s.pendingSwapchain.Some? && s.pendingSwapchain.value.device == device then None
                          else s.pendingSwapchain);
    if left.devices == map[] then
      left.(disabled := false, sourceRejected := false, pendingAssessment := None, presentationUncertain := false)
    else left
  }

  function DestroyDevice(m: Machine, device: nat): Machine
    requires |m.s.retired| == 2
  {
    var left := DestroyRoutesOn(m, device);
    left.(s := ForgetDevice(left.s, device))
  }

  /** The image index presented to this swapchain, if any. */
  function PresentedImage(entries: seq<(nat, nat)>, swapchain: nat): (r: Option<nat>)
    ensures r.Some? ==> (swapchain, r.value) in entries
    ensures r.None? ==> forall i :: (swapchain, i) !in entries
  {
    if entries == [] then None
    else if entries[0].0 == swapchain then Some(entries[0].1)
    else PresentedImage(entries[1..], swapchain)
  }

  predicate PresentInfoUsable(info: PresentInfo) {
    info.wellFormed && 1 <= |info.entries| <= MAX_PRESENT_SWAPCHAINS && info.waitCount <= MAX_WAIT_SEMAPHORES
  }

  predicate CallsFit(e: Event, r: Route) {
    e.PreparePresent? && |e.calls.ready| == |r.contexts|
  }

  /** Take the oldest completed copy and start copying the presented image. The flag says
      that the semaphore of this image was signalled. */
  function CopyPresented(m: Machine, r: Route, e: Event, image: nat): (Machine, Option<CopyProof>, bool)
    requires CallsFit(e, r) && e.now.Some? && Backed(m.w, r)
  {
    var now := e.now.value;
    var (stamp, interval) := Cadence.VulkanCaptureTiming(r.samplingRate, r.nextSubmit, now, r.variableMinInterval);
    var (m1, r1, proof) := TakeCompleted(m, r, e.calls.oldestReady);
    var (w2, r2, signalled) := SubmitNext(m1.w, r1, image, stamp, r.frameInterval, e.calls);
    var r3 := if signalled
              then r2.(nextSubmit := Cadence.AdvanceCaptureDeadline(r.samplingRate == 0, r.nextSubmit, now, interval))
              else r2;
    (Machine(m1.s.(route := Some(r3)), w2), proof, signalled)
  }

  /** The due part of a present: copy, then announce the copy that completed. */
  function CapturePresent(m: Machine, r: Route, e: Event, image: nat): (Machine, bool)
    requires CallsFit(e, r) && e.now.Some? && Backed(m.w, r) && |m.s.retired| == 2
  {
    var (copied, proof, signalled) := CopyPresented(m, r, e, image);
    (if proof.None? then copied else CompleteHandOff(copied, r.id, proof.value, e.delivered), signalled)
  }

  /** True when this present reaches the active route and its capture is due. */
  predicate Captures(s: State, e: Event)
    requires e.PreparePresent? && e.info.Some?
  {
    && s.route.Some?
    && var r := s.route.value;
       && r.queue == e.queue
       && e.now.Some?
       && PresentInfoUsable(e.info.value)
       && var image := PresentedImage(e.info.value.entries, r.swapchain);
          && image.Some? && image.value < |r.images| && r.images[image.value] != 0 && image.value < r.imageCount
          && Cadence.VulkanCaptureDue(r.samplingRate, r.nextSubmit, e.now.value, r.variableMinInterval)
  }

  /** The state after the assessment gate, and whether the present may go on to capture. */
  function PresentGate(s: State, e: Event): (State, bool)
    requires e.PreparePresent?
  {
    if s.presentationUncertain then
      var noted := if s.pendingAssessment.None? then s.(pendingAssessment := Some(Rejected(EncoderBackendUnavailable))) else s;
      (FlushAssessment(noted, e.sent).0, false)
    else
      var (flushed, done) := FlushAssessment(s, e.sent);
      (flushed, done && !s.disabled && !s.sourceRejected)
  }

  function Present(m: Machine, e: Event): (Machine, Option<nat>)
    requires e.PreparePresent? && |m.s.retired| == 2
    requires m.s.route.Some? ==> CallsFit(e, m.s.route.value) && Backed(m.w, m.s.route.value)
  {
    if e.queue == 0 || e.info.None? || e.busy then (m, None)
    else
      var (s, open) := PresentGate(m.s, e);
      if !open || !Captures(s, e) then (m.(s := s), None)
      else
        var image := PresentedImage(e.info.value.entries, s.route.value.swapchain).value;
        var (captured, signalled) := CapturePresent(m.(s := s), s.route.value, e, image);
        (captured, if signalled then Some(image) else None)
  }

  /** The forwarded present failed: latch capture off, even while the route lock is busy. */
  function FailPresent(s: State, semaphore: (nat, nat), busy: bool): State {
    var latched := s.(presentationUncertain := true);
    if busy || s.route.None? || s.route.value.id != semaphore.0 || semaphore.1 >= |s.route.value.presentationUsable|
    then latched
    else
      var r := s.route.value;
      latched.(route := Some(r.(presentationUsable := r.presentationUsable[semaphore.1 := false])))
  }

  function PendingQueue(s: State): Option<nat> {
    if s.pendingSwapchain.Some? && s.pendingSwapchain.value.device in s.devices
    then Some(s.devices[s.pendingSwapchain.value.device].queue) else None
  }

  function Resume(m: Machine, queue: Option<nat>, setup: Setup, sent: bool): Machine
    requires m.s.pendingSwapchain.Some? ==> SetupPossible(setup, m.s.pendingSwapchain.value.candidate)
  {
    if queue.None? then m else ResumePending(m, queue.value, setup, sent)
  }

  /** Apply one daemon acknowledgement; false while the route lock is busy. */
  function Release(m: Machine, e: Event): (Machine, bool)
    requires e.ReleaseSequence? && |m.s.retired| == 2
    requires m.s.pendingSwapchain.Some? ==> SetupPossible(e.setup, m.s.pendingSwapchain.value.candidate)
  {
    if e.busy then (m, false)
    else
      var f := Releasing(e.sequence);
      var s := MapRetired(m.s, f).(route := MapSlot(m.s.route, f), quarantined := MapSlot(m.s.quarantined, f));
      var reclaimed := ReclaimIdleReleased(m.(s := s));
      (Resume(reclaimed, PendingQueue(reclaimed.s), e.setup, e.sent), true)
  }

  function Acquired(m: Machine, e: Event): Machine
    requires e.ImageAcquired? && |m.s.retired| == 2
  {
    if !e.fence || e.busy then m
    else
      var f := Confirming(Handle(e.device, e.swapchain), e.image, e.fence, e.signaled);
      ReclaimIdleReleased(m.(s := MapRetired(m.s, f).(route := MapSlot(m.s.route, f))))
  }

  function AfterQueueIdle(m: Machine, e: Event): Machine
    requires e.QueueIdle? && |m.s.retired| == 2
    requires m.s.pendingSwapchain.Some? ==> SetupPossible(e.setup, m.s.pendingSwapchain.value.candidate)
  {
    if e.queue == 0 then m
    else
      ResumePending(ReclaimIdleReleased(m.(s := MapRetired(m.s, IdlingQueue(e.queue)))), e.queue, e.setup, e.sent)
  }

  function AfterDeviceIdle(m: Machine, e: Event): Machine
    requires e.DeviceIdle? && |m.s.retired| == 2
    requires m.s.pendingSwapchain.Some? ==> SetupPossible(e.setup, m.s.pendingSwapchain.value.candidate)
  {
    var reclaimed := ReclaimIdleReleased(m.(s := MapRetired(m.s, IdlingDevice(e.device))));
    Resume(reclaimed, PendingQueue(reclaimed.s), e.setup, e.sent)
  }

  // ---- Steps ----

  /** What an entry point may rely on structurally; every reachable state meets it. */
  predicate WellFormed(m: Machine, e: Event) {
    && |m.s.retired| == 2
    && (e.QueueObserved? || e.SwapchainDestroyed? || e.ReleaseSequence? || e.QueueIdle? || e.DeviceIdle? ==>
          m.s.pendingSwapchain.Some? ==> SetupPossible(e.setup, m.s.pendingSwapchain.value.candidate))
    && (e.SwapchainCreated? && e.assessment.Some? && e.assessment.value.Accepted? ==>
          SetupPossible(e.setup, e.assessment.value.candidate))
    && (e.PreparePresent? && m.s.route.Some? ==> CallsFit(e, m.s.route.value) && Backed(m.w, m.s.route.value))
    && (e.PresentReturned? ==> e.queue in m.w.calls)
    && (e.GpuCompletes? ==> HasContext(m.w, e.id, e.context))
  }

  function PresentedImages(e: Event): set<(Handle, nat)>
    requires e.PreparePresent?
  {
    if e.info.None? then {} else set p | p in e.info.value.entries :: (Handle(e.device, p.0), p.1)
  }

  function PresentStep(m: Machine, e: Event): Machine
    requires e.PreparePresent? && WellFormed(m, e)
  {
    var clocked := m.(w := m.w.(now := if e.now.Some? then e.now.value else m.w.now));
    var (m1, image) := Present(clocked, e);
    var semaphore := if image.Some? && m.s.route.Some? then Some((m.s.route.value.id, image.value)) else None;
    m1.(w := ForwardPresent(m1.w, e.queue, PresentedImages(e), semaphore))
  }

  function ReturnStep(m: Machine, e: Event): Machine
    requires e.PresentReturned? && WellFormed(m, e)
  {
    var semaphore := m.w.calls[e.queue].semaphore;
    Machine(if e.failed && semaphore.Some? then FailPresent(m.s, semaphore.value, e.busy) else m.s,
            ReturnPresent(m.w, e.queue, e.failed, e.kept))
  }

  function CreateSwapchainStep(m: Machine, e: Event): Machine
    requires e.SwapchainCreated? && WellFormed(m, e)
  {
    CreateSwapchain(m.(w := OpenSwapchain(m.w, Handle(e.device, e.swapchain))), e)
  }

  function DestroySwapchainStep(m: Machine, e: Event): Machine
    requires e.SwapchainDestroyed? && WellFormed(m, e)
  {
    DestroySwapchain(m.(w := CloseSwapchain(m.w, Handle(e.device, e.swapchain))), e)
  }

  function DestroyDeviceStep(m: Machine, e: Event): Machine
    requires e.DeviceDestroyed? && WellFormed(m, e)
  {
    DestroyDevice(m.(w := CloseDevice(m.w, e.device)), e.device)
  }

  function AcquireStep(m: Machine, e: Event): Machine
    requires e.ImageAcquired? && WellFormed(m, e)
  {
    Acquired(m.(w := AcquireImage(m.w, Handle(e.device, e.swapchain), e.image, e.signaled)), e)
  }

  /** One event: an entry point together with the driver call it wraps, or a move of the
      surroundings. */
  function Step(m: Machine, e: Event): Machine
    requires WellFormed(m, e)
  {
    match e
    case DeviceCreated(_, _, _, _) => m.(s := CreateDevice(m.s, e))
    case QueueObserved(_, _, _, _, _, _) => ObserveQueue(m, e)
    case SwapchainCreated(_, _, _, _, _, _, _, _, _) => CreateSwapchainStep(m, e)
    case SwapchainDestroyed(_, _, _, _) => DestroySwapchainStep(m, e)
    case DeviceDestroyed(_) => DestroyDeviceStep(m, e)
    case PreparePresent(_, _, _, _, _, _, _, _) => PresentStep(m, e)
    case PresentReturned(_, _, _, _) => ReturnStep(m, e)
    case ReleaseSequence(_, _, _, _) => Release(m, e).0
    case ImageAcquired(_, _, _, _, _, _) => AcquireStep(m, e)
    case QueueIdle(_, _, _) => AfterQueueIdle(m, e)
    case DeviceIdle(_, _, _) => AfterDeviceIdle(m, e)
    case GpuCompletes(id, context) => m.(w := Complete(m.w, id, context))
    case DaemonReleases(sequence) => m.(w := Acknowledge(m.w, sequence))
  }

  // ---- The rules the surroundings obey ----

  /** The five places that can own a route. */
  function Slot(s: State, k: nat): Option<Route>
    requires k < 5 && |s.retired| == 2
  {
    if k == 0 then s.route
    else if k == 1 then s.retired[0]
    else if k == 2 then s.retired[1]
    else if k == 3 then s.abandoned
    else s.quarantined
  }

  function HandleOf(r: Route): Handle { Handle(r.device, r.swapchain) }

  /** The driver does not reissue a swapchain handle while a route still carries it. */
  predicate HandleUnused(s: State, handle: Handle)
    requires |s.retired| == 2
  {
    forall k :: 0 <= k < 5 && Slot(s, k).Some? ==> HandleOf(Slot(s, k).value) != handle
  }

  predicate NotPresenting(w: World, handle: Handle) {
    forall q :: q in w.calls ==> forall p :: p in w.calls[q].images ==> p.0 != handle
  }

  /** Fence status answers are truthful. */
  predicate TruthfulFences(w: World, r: Route, calls: DriverCalls)
    requires Backed(w, r) && |calls.ready| == |r.contexts|
  {
    var oldest := OldestPendingContext(r.contexts);
    && (oldest.Some? && calls.oldestReady ==> w.gpus[r.id].fences[oldest.value] == Signaled)
    && (forall k :: 0 <= k < |calls.ready| && calls.ready[k] ==> w.gpus[r.id].fences[k] == Signaled)
  }

  /** An application presents acquired images only, one call at a time per queue and
      swapchain, on a positive monotonic clock far from the end of its range. */
  predicate PresentAllowed(m: Machine, e: Event)
    requires e.PreparePresent? && WellFormed(m, e)
  {
    && e.queue !in m.w.calls
    && (e.now.Some? ==> 0 < e.now.value && m.w.now <= e.now.value <= U64_MAX / 2)
    && m.s.lastExport < U64_MAX
    && (forall p :: p in PresentedImages(e) ==> p in m.w.acquired && NotPresenting(m.w, p.0))
    && (m.s.route.Some? && m.s.route.value.queue == e.queue ==> m.s.route.value.device == e.device)
    && (m.s.route.Some? ==> TruthfulFences(m.w, m.s.route.value, e.calls))
  }

  /** No route that still exists has work in flight on these. */
  predicate IdleWhere(w: World, ids: set<nat>) {
    forall id :: id in ids && id in w.gpus && id in w.alive ==> Idle(w.gpus[id])
  }

  predicate FreshSetup(m: Machine, e: Event) {
    e.QueueObserved? || e.SwapchainCreated? || e.SwapchainDestroyed? || e.ReleaseSequence? || e.QueueIdle? || e.DeviceIdle?
    ==> e.setup.id !in m.w.gpus
  }

  /** What the driver, the application and the daemon may do next. */
  predicate Allowed(m: Machine, e: Event) {
    && WellFormed(m, e)
    && FreshSetup(m, e)
    && match e
       case SwapchainCreated(device, _, swapchain, _, _, _, _, _, _) =>
         Handle(device, swapchain) !in m.w.live && HandleUnused(m.s, Handle(device, swapchain))
       case SwapchainDestroyed(device, swapchain, _, _) => NotPresenting(m.w, Handle(device, swapchain))
       case DeviceDestroyed(device) =>
         && IdleWhere(m.w, set id | id in m.w.gpus && m.w.gpus[id].handle.device == device)
         && forall q :: q in m.w.calls ==> forall p :: p in m.w.calls[q].images ==> p.0.device != device
       case PreparePresent(_, _, _, _, _, _, _, _) => PresentAllowed(m, e)
       case ReleaseSequence(sequence, _, _, _) => sequence in m.w.released
       case ImageAcquired(device, swapchain, image, fence, signaled, _) =>
         && Handle(device, swapchain) in m.w.live
         && (Handle(device, swapchain), image) !in m.w.acquired
         && NotPresenting(m.w, Handle(device, swapchain))
         && (signaled ==> fence)
       case QueueIdle(queue, _, _) => IdleWhere(m.w, set id | id in m.w.gpus && m.w.gpus[id].queue == queue)
       case DeviceIdle(device, _, _) => IdleWhere(m.w, set id | id in m.w.gpus && m.w.gpus[id].handle.device == device)
       case DaemonReleases(sequence) => sequence in m.w.leases
       case _ => true
  }

  /** Every event of the run is allowed where it happens. */
  predicate AllAllowed(m: Machine, events: seq<Event>)
    decreases |events|
  {
    events == [] || (Allowed(m, events[0]) && AllAllowed(Step(m, events[0]), events[1..]))
  }

  /** The state after a whole run. */
  function Run(m: Machine, events: seq<Event>): Machine
    requires AllAllowed(m, events)
    decreases |events|
  {
    if events == [] then m else Run(Step(m, events[0]), events[1..])
  }
}

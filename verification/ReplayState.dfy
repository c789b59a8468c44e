/** The Vulkan replay producer: its routes, copy contexts and process-wide state, and what
    each entry point does to them and to the surrounding world. */
module ReplayState {
  import opened Wrappers
  import opened Messages
  import opened ReplayWorld
  import Cadence

  const VFR_PRODUCER_CONTEXT_COUNT: nat := 8
  const MAX_PRESENT_SWAPCHAINS: nat := 8
  const MAX_WAIT_SEMAPHORES: nat := 8
  const BYTES_PER_PIXEL: nat := 4

  /** One staging buffer. Descriptors below 3 are never exported. */
  datatype Context = Context(
    capturedAt: nat,
    duration: nat,
    pending: bool,
    usable: bool,
    exportFd: int,
    exportSequence: nat,
    exportReleased: bool)

  /** The copy resources of one swapchain. `id` stands for its native handles: fence and
      buffer k and presentation semaphore i are the pairs (id, k) and (id, i). */
  datatype Route = Route(
    id: nat,
    device: nat,
    queue: nat,
    swapchain: nat,
    images: seq<nat>,
    imageCount: nat,
    candidate: SourceCandidate,
    copiedBytes: nat,
    frameInterval: nat,
    samplingRate: nat,
    variableMinInterval: nat,
    nextSubmit: nat,
    contexts: seq<Context>,
    presentationUsable: seq<bool>,
    presentationPending: seq<bool>,
    exportRequired: bool,
    gpuIdle: bool)

  datatype PendingSwapchain = PendingSwapchain(
    device: nat,
    replaced: nat,
    swapchain: nat,
    candidate: SourceCandidate,
    copiedBytes: nat)

  datatype Device = Device(graphicsFamilies: set<nat>, queue: nat, exportSupport: Option<bool>)

  datatype Assessment = Accepted(candidate: SourceCandidate) | Rejected(reason: SourceRejection)

  datatype State = State(
    devices: map<nat, Device>,
    route: Option<Route>,
    pendingSwapchain: Option<PendingSwapchain>,
    retired: seq<Option<Route>>,
    abandoned: Option<Route>,
    quarantined: Option<Route>,
    disabled: bool,
    sourceRejected: bool,
    pendingAssessment: Option<Assessment>,
    lastExport: nat,
    presentationUncertain: bool,
    nextSequence: nat)

  const InitialState: State :=
    State(map[], None, None, [None, None], None, None, false, false, None, 0, false, 1)

  /** The program together with its surroundings. */
  datatype Machine = Machine(s: State, w: World)

  const Initial: Machine := Machine(InitialState, InitialWorld)

  // ---- Answers of the driver and the environment, supplied with each entry point ----

  /** How creating a route would go: the fresh handles, the swapchain's images, the export
      descriptors, and whether every native allocation succeeded. */
  datatype Setup = Setup(
    id: nat,
    exportRequested: bool,
    requirementsAvailable: bool,
    imageCount: nat,
    images: seq<nat>,
    variableRate: bool,
    succeeded: bool,
    exportFds: seq<int>)

  /** Refused submissions report an error; `reached` ones executed all the same. */
  datatype SubmitResult = Submitted | Refused(reached: bool)

  /** Driver results during one present, in call order. `ready[k]` is a successful fence
      status of context k while looking for a free context. */
  datatype DriverCalls = DriverCalls(
    oldestReady: bool,
    ready: seq<bool>,
    resetFence: bool,
    resetCommand: bool,
    begin: bool,
    end: bool,
    submit: SubmitResult)

  datatype PresentInfo = PresentInfo(wellFormed: bool, entries: seq<(nat, nat)>, waitCount: nat)

  /** The proof that one copy completed, ready to be announced. */
  datatype CopyProof = CopyProof(
    source: SourceCandidate,
    copiedBytes: nat,
    context: nat,
    exportFd: int,
    exportSequence: Option<nat>,
    timestamp: nat,
    duration: nat)

  // ---- Assessments ----

  function Assess(s: State, assessment: Assessment, sent: bool): State {
    s.(sourceRejected := assessment.Rejected?, pendingAssessment := if sent then None else Some(assessment))
  }

  function FlushAssessment(s: State, sent: bool): (State, bool) {
    if s.pendingAssessment.None? then (s, true)
    else if sent then (s.(pendingAssessment := None), true)
    else (s, false)
  }

  // ---- Route creation ----

  predicate CanCreateRoute(s: State) {
    !s.disabled && s.route.None? && s.abandoned.None? && s.quarantined.None?
  }

  function ProducerContextCount(variableRate: bool): nat {
    if variableRate then VFR_PRODUCER_CONTEXT_COUNT else REPLAY_PRODUCER_CONTEXT_COUNT
  }

  function ContextCountForSwapchain(imageCount: nat, variableRate: bool, nvidia: bool): Option<nat> {
    if 1 <= imageCount <= MAX_IMAGES then
      var low := ProducerContextCount(variableRate || nvidia);
      Some(if imageCount + 1 < low then low else if imageCount + 1 > MAX_IMAGES then MAX_IMAGES else imageCount + 1)
    else None
  }

  function NewContext(exportRequested: bool, fd: int): Context {
    Context(0, 0, false, true, if exportRequested then fd else -1, 0, exportRequested)
  }

  /** What the driver may answer for this candidate. */
  predicate SetupPossible(setup: Setup, candidate: SourceCandidate) {
    && |setup.images| == MAX_IMAGES
    && candidate.targetFramesPerSecond in {30, 60, 120}
    && var count := ContextCountForSwapchain(setup.imageCount, setup.variableRate, IsNvidia(candidate));
       count.Some? ==> count.value <= |setup.exportFds|
  }

  function NewRoute(setup: Setup, count: nat, device: nat, queue: nat, pending: PendingSwapchain): Route
    requires SetupPossible(setup, pending.candidate)
    requires count <= |setup.exportFds|
  {
    var fps := pending.candidate.targetFramesPerSecond;
    Route(setup.id, device, queue, pending.swapchain, setup.images, setup.imageCount,
          pending.candidate, pending.copiedBytes, Cadence.FrameIntervalForFps(fps),
          if setup.variableRate then 0 else fps,
          Cadence.VulkanVariableInterval(pending.candidate.width, pending.candidate.height),
          0, seq(count, k requires 0 <= k < count => NewContext(setup.exportRequested, setup.exportFds[k])),
          seq(MAX_IMAGES, _ => true), seq(MAX_IMAGES, _ => false), setup.exportRequested, false)
  }

  function CreatedRoute(setup: Setup, device: Device, pending: PendingSwapchain): Option<Route>
    requires SetupPossible(setup, pending.candidate)
  {
    var count := ContextCountForSwapchain(setup.imageCount, setup.variableRate, IsNvidia(pending.candidate));
    if setup.exportRequested && (device.exportSupport.None? || !setup.requirementsAvailable) then None
    else if count.None? || !setup.succeeded then None
    else Some(NewRoute(setup, count.value, pending.device, device.queue, pending))
  }

  function InstallRoute(m: Machine, pending: PendingSwapchain, setup: Setup, sent: bool): Machine
    requires SetupPossible(setup, pending.candidate)
  {
    if !CanCreateRoute(m.s) || pending.device !in m.s.devices || m.s.devices[pending.device].queue == 0 then m
    else
      var created := CreatedRoute(setup, m.s.devices[pending.device], pending);
      if created.None? then m.(s := Assess(m.s, Rejected(EncoderBackendUnavailable), sent))
      else
        var r := created.value;
        var s := Assess(m.s.(pendingSwapchain := None, presentationUncertain := false), Accepted(r.candidate), sent);
        Machine(s.(route := created),
                CreateRoute(m.w, r.id, Handle(r.device, r.swapchain), r.queue, |r.contexts|))
  }

  /** Install the waiting swapchain when its device uses this queue. */
  function ResumePending(m: Machine, queue: nat, setup: Setup, sent: bool): Machine
    requires m.s.pendingSwapchain.Some? ==> SetupPossible(setup, m.s.pendingSwapchain.value.candidate)
  {
    if CanCreateRoute(m.s) && m.s.pendingSwapchain.Some?
       && m.s.pendingSwapchain.value.device in m.s.devices
       && m.s.devices[m.s.pendingSwapchain.value.device].queue == queue
    then InstallRoute(m, m.s.pendingSwapchain.value, setup, sent)
    else m
  }

  // ---- Retirement and reclaim ----

  /** Retain a route that left service; only an unexpected third overflow is given up. */
  function RetainRetired(m: Machine, r: Route, sent: bool): Machine {
    var s := m.s;
    if |s.retired| == 2 && s.retired[0].None? then m.(s := s.(retired := s.retired[0 := Some(r)]))
    else if |s.retired| == 2 && s.retired[1].None? then m.(s := s.(retired := s.retired[1 := Some(r)]))
    else
      var full := s.(disabled := true);
      var kept := if s.abandoned.None? then full.(abandoned := Some(r))
                  else if s.quarantined.None? then full.(quarantined := Some(r))
                  else full;
      Machine(Assess(kept, Rejected(EncoderBackendUnavailable), sent),
              if s.abandoned.Some? && s.quarantined.Some? then Leak(m.w, r.id) else m.w)
  }

  predicate RetiredRouteReclaimable(r: Route) {
    && r.gpuIdle
    && (forall i :: 0 <= i < |r.presentationPending| ==> !r.presentationPending[i])
    && (forall k :: 0 <= k < |r.contexts| ==> r.contexts[k].exportSequence == 0 || r.contexts[k].exportReleased)
  }

  predicate Reclaimable(slot: Option<Route>) { slot.Some? && RetiredRouteReclaimable(slot.value) }

  function AfterReclaim(slot: Option<Route>): Option<Route> { if Reclaimable(slot) then None else slot }

  function DestroyIf(w: World, slot: Option<Route>, condition: bool, withDevice: bool): World {
    if slot.Some? && condition then DestroyRoute(w, slot.value.id, withDevice) else w
  }

  /** Destroy every retained route whose copy, presentation and export proofs all exist. */
  function ReclaimIdleReleased(m: Machine): Machine
    requires |m.s.retired| == 2
  {
    var s := m.s;
    var w0 := DestroyIf(m.w, s.retired[0], Reclaimable(s.retired[0]), false);
    var w1 := DestroyIf(w0, s.retired[1], Reclaimable(s.retired[1]), false);
    var w2 := DestroyIf(w1, s.abandoned, Reclaimable(s.abandoned), false);
    var abandoned := AfterReclaim(s.abandoned);
    Machine(s.(retired := [AfterReclaim(s.retired[0]), AfterReclaim(s.retired[1])],
               abandoned := abandoned,
               disabled := abandoned.Some? || s.quarantined.Some?), w2)
  }

  // ---- Route updates ----

  function ReleaseContext(c: Context, sequence: nat): Context {
    if c.exportSequence == sequence then c.(exportReleased := true) else c
  }

  function ReleaseRoute(r: Route, sequence: nat): Route {
    r.(contexts := seq(|r.contexts|, k requires 0 <= k < |r.contexts| => ReleaseContext(r.contexts[k], sequence)))
  }

  function ConfirmReacquisition(r: Route, handle: Handle, i: nat, fence: bool, signaled: bool): Route {
    if Handle(r.device, r.swapchain) != handle || i >= r.imageCount
       || i >= |r.presentationUsable| || i >= |r.presentationPending| || !r.presentationUsable[i] || !fence
       || !signaled
    then r
    else r.(presentationPending := r.presentationPending[i := false])
  }

  function MarkIdle(r: Route, matches: bool): Route { if matches then r.(gpuIdle := true) else r }

  function Releasing(sequence: nat): Route -> Route { r => ReleaseRoute(r, sequence) }

  function Confirming(handle: Handle, i: nat, fence: bool, signaled: bool): Route -> Route {
    r => ConfirmReacquisition(r, handle, i, fence, signaled)
  }

  function IdlingQueue(queue: nat): Route -> Route { (r: Route) => MarkIdle(r, r.queue == queue) }

  function IdlingDevice(device: nat): Route -> Route { (r: Route) => MarkIdle(r, r.device == device) }

  function MapSlot(slot: Option<Route>, f: Route -> Route): Option<Route> {
    if slot.None? then None else Some(f(slot.value))
  }

  function MapRetired(s: State, f: Route -> Route): State
    requires |s.retired| == 2
  {
    s.(retired := [MapSlot(s.retired[0], f), MapSlot(s.retired[1], f)], abandoned := MapSlot(s.abandoned, f))
  }

  // ---- One copy ----

  /** The world holds one fence and buffer per context and one semaphore per image slot. */
  predicate Backed(w: World, r: Route) {
    && r.id in w.gpus
    && |r.contexts| == |w.gpus[r.id].fences| == |w.gpus[r.id].buffers|
    && |r.presentationUsable| == |r.presentationPending| == MAX_IMAGES
    && |w.gpus[r.id].waits| == |w.gpus[r.id].reacquired| == MAX_IMAGES
    && |r.images| == MAX_IMAGES
    && r.imageCount <= MAX_IMAGES
  }

  /** The usable pending context with the smallest (capture time, index). */
  predicate IsOldestPending(contexts: seq<Context>, k: nat) {
    && k < |contexts|
    && contexts[k].usable && contexts[k].pending
    && forall j :: 0 <= j < |contexts| && contexts[j].usable && contexts[j].pending ==>
         contexts[k].capturedAt < contexts[j].capturedAt
         || (contexts[k].capturedAt == contexts[j].capturedAt && k <= j)
  }

  function OldestPendingUpTo(contexts: seq<Context>, n: nat): (r: Option<nat>)
    requires n <= |contexts|
    ensures r.None? <==> forall j :: 0 <= j < n ==> !(contexts[j].usable && contexts[j].pending)
    ensures r.Some? ==> r.value < n && IsOldestPending(contexts[..n], r.value)
  {
    if n == 0 then None
    else
      var before := OldestPendingUpTo(contexts, n - 1);
      var c := contexts[n - 1];
      if c.usable && c.pending && (before.None? || c.capturedAt < contexts[before.value].capturedAt)
      then Some(n - 1) else before
  }

  function OldestPendingContext(contexts: seq<Context>): (r: Option<nat>)
    ensures r.None? <==> forall j :: 0 <= j < |contexts| ==> !(contexts[j].usable && contexts[j].pending)
    ensures r.Some? ==> IsOldestPending(contexts, r.value)
  {
    assert contexts[..|contexts|] == contexts;
    OldestPendingUpTo(contexts, |contexts|)
  }

  predicate Eligible(c: Context, ready: bool) {
    c.usable && !c.pending && (c.exportFd < 3 || c.exportReleased) && ready
  }

  /** The first context at or after k that may carry a new copy. */
  function FirstEligible(contexts: seq<Context>, ready: seq<bool>, k: nat): (r: Option<nat>)
    requires k <= |contexts| == |ready|
    ensures r.None? <==> forall j :: k <= j < |contexts| ==> !Eligible(contexts[j], ready[j])
    ensures r.Some? ==> k <= r.value < |contexts| && Eligible(contexts[r.value], ready[r.value])
    ensures r.Some? ==> forall j :: k <= j < r.value ==> !Eligible(contexts[j], ready[j])
    decreases |contexts| - k
  {
    if k == |contexts| then None
    else if Eligible(contexts[k], ready[k]) then Some(k)
    else FirstEligible(contexts, ready, k + 1)
  }

  /** The barriers and the copy recorded for one submission. */
  function RecordCopy(exportRequired: bool, externalReuse: bool): seq<Command> {
    (if exportRequired && externalReuse then [BufferTransfer(Foreign, Producer)] else [])
    + [ImageTransition(PresentSource, TransferSource), CopyImageToBuffer]
    + (if exportRequired then [BufferTransfer(Producer, Foreign)] else [HostVisibility])
    + [ImageTransition(TransferSource, PresentSource)]
  }

  /** Take the oldest pending copy once its fence has signalled. */
  function TakeCompleted(m: Machine, r: Route, ready: bool): (Machine, Route, Option<CopyProof>)
    requires Backed(m.w, r)
  {
    var oldest := OldestPendingContext(r.contexts);
    if oldest.None? || !ready then (m, r, None)
    else
      var k := oldest.value;
      var c := r.contexts[k];
      var exported := c.exportFd >= 3;
      var sequence := m.s.nextSequence;
      var taken := if exported then c.(pending := false, exportReleased := false, exportSequence := sequence)
                   else c.(pending := false);
      (Machine(m.s.(nextSequence := if exported then sequence + 1 else sequence), HandOff(m.w, r.id, k, c.capturedAt)),
       r.(contexts := r.contexts[k := taken]),
       Some(CopyProof(r.candidate, r.copiedBytes, k, c.exportFd, if exported then Some(sequence) else None,
                      c.capturedAt, c.duration)))
  }

  function SpoilContext(r: Route, k: nat): Route
    requires k < |r.contexts|
  {
    r.(contexts := r.contexts[k := r.contexts[k].(usable := false)])
  }

  /** Record and submit a copy of image i into context k; every failing call spoils the
      context, and a refused submission also spoils the image's semaphore. */
  function SubmitInto(w: World, r: Route, k: nat, i: nat, commands: seq<Command>, stamp: nat, duration: nat,
                      calls: DriverCalls): (World, Route, bool)
    requires Backed(w, r) && k < |r.contexts| && i < MAX_IMAGES
  {
    if !calls.resetFence then (w, SpoilContext(r, k), false)
    else
      var w1 := ResetFence(w, r.id, k);
      if !calls.resetCommand || !calls.begin || !calls.end then (w1, SpoilContext(r, k), false)
      else
        var marked := r.(presentationPending := r.presentationPending[i := true], gpuIdle := false);
        if calls.submit == Submitted then
          var c := r.contexts[k].(capturedAt := stamp, duration := duration, pending := true);
          (Submit(w1, r.id, k, i, commands, Some(stamp)), marked.(contexts := r.contexts[k := c]), true)
        else
          (if calls.submit.reached then Submit(w1, r.id, k, i, commands, None) else w1,
           SpoilContext(marked, k).(presentationUsable := r.presentationUsable[i := false]),
           false)
  }

  /** Copy the presented image into the first free context; the result's flag says that
      its semaphore must be waited on by the forwarded present. */
  function SubmitNext(w: World, r: Route, i: nat, stamp: nat, duration: nat, calls: DriverCalls): (World, Route, bool)
    requires |calls.ready| == |r.contexts|
    requires Backed(w, r)
  {
    if i >= MAX_IMAGES || !r.presentationUsable[i] || i >= r.imageCount then (w, r, false)
    else
      var free := FirstEligible(r.contexts, calls.ready, 0);
      if free.None? then (w, r, false)
      else
        SubmitInto(w, r, free.value, i, RecordCopy(r.exportRequired, r.contexts[free.value].capturedAt != 0),
                   stamp, duration, calls)
  }

  /** Announce a completed copy; an undelivered lease is restored locally. */
  function CompleteHandOff(m: Machine, id: nat, proof: CopyProof, delivered: bool): Machine
    requires |m.s.retired| == 2
  {
    var timestamp := Cadence.MonotonicExportTimestamp(m.s.lastExport, proof.timestamp);
    if proof.exportSequence.None? then m.(s := m.s.(lastExport := timestamp))
    else if delivered then
      Machine(m.s.(lastExport := timestamp),
              Deliver(m.w, proof.exportSequence.value, id, proof.context, timestamp))
    else
      var f := Releasing(proof.exportSequence.value);
      m.(s := MapRetired(m.s, f).(route := MapSlot(m.s.route, f)))
  }
}

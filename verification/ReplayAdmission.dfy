/** Which devices, queues and swapchains may decide about the recording, over every run. */
module ReplayAdmission {
  import opened Wrappers
  import opened Messages
  import opened ReplayWorld
  import opened ReplayState
  import opened ReplayMachine
  import opened ReplayInvariant
  import opened ReplayPresentSteps
  import opened ReplaySafety
  import opened ReplayReclaim

  // ---- A run and its last event ----

  lemma {:induction false} LastEvent(m: Machine, events: seq<Event>)
    requires AllAllowed(m, events) && events != []
    ensures var n := |events| - 1;
            && AllAllowed(m, events[..n]) && Allowed(Run(m, events[..n]), events[n])
            && Run(m, events) == Step(Run(m, events[..n]), events[n])
    decreases |events|
  {
    var n := |events| - 1;
    if n == 0 {
      assert events[..0] == [] && events[1..] == [];
      assert Run(Step(m, events[0]), []) == Step(m, events[0]);
    } else {
      LastEvent(Step(m, events[0]), events[1..]);
      assert events[1..][..n - 1] == events[..n][1..];
      assert events[..n][0] == events[0];
    }
  }

  // ---- Devices and their queues ----

  predicate Registers(e: Event, device: nat) {
    e.DeviceCreated? && e.device == device && e.requested && e.families != {}
  }

  /** The device's own unprotected graphics queue is seen. */
  predicate Offers(e: Event, device: nat, families: set<nat>) {
    && e.QueueObserved? && e.device == device && e.queue != 0 && !e.isProtected
    && e.family < 64 && e.family in families
  }

  predicate Ends(e: Event, device: nat) { e.DeviceDestroyed? && e.device == device }

  /** The first queue that is offered, or 0. */
  function FirstQueue(events: seq<Event>, device: nat, families: set<nat>): nat {
    if events == [] then 0
    else
      var n := |events| - 1;
      var before := FirstQueue(events[..n], device, families);
      if before == 0 && Offers(events[n], device, families) then events[n].queue else before
  }

  /** How one event changes the known devices. */
  predicate DevicesMove(devices: map<nat, Device>, e: Event, after: map<nat, Device>) {
    && (forall d :: d in after ==>
          || (Registers(e, d) && after[d] == Device(e.families, 0, e.exportSupport) && (d in devices || |devices| < 2))
          || (d in devices && !Registers(e, d) && !Ends(e, d)
              && after[d] == devices[d].(queue := if devices[d].queue == 0 && Offers(e, d, devices[d].graphicsFamilies)
                                                  then e.queue else devices[d].queue)))
    && (forall d :: d in devices && !Ends(e, d) ==> d in after)
    && (e.DeviceCreated? && Registers(e, e.device) && |devices| < 2 ==> e.device in after)
    && (|devices| <= 2 ==> |after| <= 2)
  }

  lemma SameDevices(devices: map<nat, Device>, e: Event)
    requires !e.DeviceCreated? && !e.QueueObserved? && !e.DeviceDestroyed?
    ensures DevicesMove(devices, e, devices)
  {
  }

  lemma CreationMoves(m: Machine, e: Event)
    requires e.DeviceCreated?
    ensures DevicesMove(m.s.devices, e, CreateDevice(m.s, e).devices)
  {
  }

  lemma InstallKeepsDevices(m: Machine, p: PendingSwapchain, setup: Setup, sent: bool)
    requires SetupPossible(setup, p.candidate)
    ensures InstallRoute(m, p, setup, sent).s.devices == m.s.devices
  {
  }

  lemma ObservationMoves(m: Machine, e: Event)
    requires e.QueueObserved? && WellFormed(m, e)
    ensures DevicesMove(m.s.devices, e, ObserveQueue(m, e).s.devices)
  {
    if !(e.queue == 0 || e.isProtected || e.family >= 64 || e.device !in m.s.devices) {
      var d := m.s.devices[e.device];
      var s := if d.queue == 0 && e.family in d.graphicsFamilies
               then m.s.(devices := m.s.devices[e.device := d.(queue := e.queue)]) else m.s;
      QueueTaken(m.s.devices, e, s.devices);
      if s.pendingSwapchain.Some? {
        InstallKeepsDevices(m.(s := s), s.pendingSwapchain.value, e.setup, e.sent);
      }
    } else {
      assert forall d :: d in m.s.devices ==> !Offers(e, d, m.s.devices[d].graphicsFamilies);
    }
  }

  lemma QueueTaken(devices: map<nat, Device>, e: Event, after: map<nat, Device>)
    requires e.QueueObserved? && e.queue != 0 && !e.isProtected && e.family < 64 && e.device in devices
    requires after == if devices[e.device].queue == 0 && e.family in devices[e.device].graphicsFamilies
                      then devices[e.device := devices[e.device].(queue := e.queue)] else devices
    ensures DevicesMove(devices, e, after)
  {
    assert after.Keys == devices.Keys;
    assert |after| == |after.Keys| && |devices| == |devices.Keys|;
  }

  lemma DestructionMoves(m: Machine, e: Event)
    requires e.DeviceDestroyed? && WellFormed(m, e)
    ensures DevicesMove(m.s.devices, e, DestroyDeviceStep(m, e).s.devices)
  {
    var after := DestroyDeviceStep(m, e).s.devices;
    assert after == m.s.devices - {e.device};
    assert after.Keys <= m.s.devices.Keys;
    Fewer(after.Keys, m.s.devices.Keys);
  }

  lemma {:induction false} Fewer(a: set<nat>, b: set<nat>)
    requires a <= b
    ensures |a| <= |b|
  {
    if a != {} {
      var x :| x in a;
      Fewer(a - {x}, b - {x});
    }
  }

  lemma CaptureKeepsDevices(m: Machine, r: Route, e: Event, image: nat)
    requires CallsFit(e, r) && e.now.Some? && Backed(m.w, r) && |m.s.retired| == 2
    ensures CopyPresented(m, r, e, image).0.s.devices == m.s.devices
    ensures CapturePresent(m, r, e, image).0.s.devices == m.s.devices
  {
    TakeShape(m, r, e.calls.oldestReady);
    var (copied, proof, signalled) := CopyPresented(m, r, e, image);
    assert copied.s.devices == m.s.devices;
  }

  lemma PresentKeepsDevices(m: Machine, e: Event)
    requires e.PreparePresent? && WellFormed(m, e)
    ensures PresentStep(m, e).s.devices == m.s.devices
  {
    var m1 := m.(w := m.w.(now := if e.now.Some? then e.now.value else m.w.now));
    var (s, open) := PresentGate(m1.s, e);
    if e.queue != 0 && e.info.Some? && !e.busy && open && Captures(s, e) {
      var image := PresentedImage(e.info.value.entries, s.route.value.swapchain).value;
      CaptureKeepsDevices(m1.(s := s), s.route.value, e, image);
    }
  }

  lemma CreateSwapchainKeepsDevices(m: Machine, e: Event)
    requires e.SwapchainCreated? && WellFormed(m, e)
    ensures CreateSwapchainStep(m, e).s.devices == m.s.devices
  {
    if e.assessment.Some? && e.assessment.value.Accepted? {
      var candidate := e.assessment.value.candidate;
      InstallKeepsDevices(m.(w := OpenSwapchain(m.w, Handle(e.device, e.swapchain))),
                          PendingSwapchain(e.device, 0, e.swapchain, candidate,
                                           candidate.width * candidate.height * BYTES_PER_PIXEL),
                          e.setup, e.sent);
    }
  }

  lemma RetainKeepsRest(m: Machine, r: Route, sent: bool)
    ensures var s := RetainRetired(m, r, sent).s;
            s.devices == m.s.devices && s.pendingSwapchain == m.s.pendingSwapchain && s.route == m.s.route
  {
  }

  lemma RetireActiveKeepsDevices(m: Machine, e: Event)
    requires e.SwapchainDestroyed? && m.s.route.Some?
    requires m.s.pendingSwapchain.Some? ==> SetupPossible(e.setup, m.s.pendingSwapchain.value.candidate)
    ensures RetireActive(m, e).s.devices == m.s.devices
  {
    var m0 := m.(s := m.s.(route := None));
    RetainKeepsRest(m0, m.s.route.value, e.sent);
    ReplacementKeepsDevices(RetainRetired(m0, m.s.route.value, e.sent), e);
  }

  lemma ReplacementKeepsDevices(m1: Machine, e: Event)
    requires e.SwapchainDestroyed?
    requires m1.s.pendingSwapchain.Some? ==> SetupPossible(e.setup, m1.s.pendingSwapchain.value.candidate)
    ensures InstallReplacement(m1, e).s.devices == m1.s.devices
  {
    if m1.s.pendingSwapchain.Some? {
      InstallKeepsDevices(m1, m1.s.pendingSwapchain.value, e.setup, e.sent);
    }
  }

  lemma DestroySwapchainKeepsDevices(m: Machine, e: Event)
    requires e.SwapchainDestroyed? && WellFormed(m, e)
    ensures DestroySwapchainStep(m, e).s.devices == m.s.devices
  {
    var m1 := Machine(ForgetWaiting(m.s, e.swapchain), CloseSwapchain(m.w, Handle(e.device, e.swapchain)));
    if m1.s.route.Some? {
      RetireActiveKeepsDevices(m1, e);
    }
  }

  lemma ResumeKeepsDevices(m: Machine, queue: Option<nat>, setup: Setup, sent: bool)
    requires |m.s.retired| == 2
    requires m.s.pendingSwapchain.Some? ==> SetupPossible(setup, m.s.pendingSwapchain.value.candidate)
    ensures Resume(ReclaimIdleReleased(m), queue, setup, sent).s.devices == m.s.devices
  {
    var m1 := ReclaimIdleReleased(m);
    if m1.s.pendingSwapchain.Some? {
      InstallKeepsDevices(m1, m1.s.pendingSwapchain.value, setup, sent);
    }
  }

  lemma ProofsKeepDevices(m: Machine, e: Event)
    requires (e.ReleaseSequence? || e.ImageAcquired? || e.QueueIdle? || e.DeviceIdle?) && WellFormed(m, e)
    ensures Step(m, e).s.devices == m.s.devices
  {
    match e
    case ReleaseSequence(sequence, _, _, _) =>
      var f := Releasing(sequence);
      var m1 := m.(s := MapRetired(m.s, f).(route := MapSlot(m.s.route, f), quarantined := MapSlot(m.s.quarantined, f)));
      ResumeKeepsDevices(m1, PendingQueue(ReclaimIdleReleased(m1).s), e.setup, e.sent);
    case QueueIdle(queue, _, _) =>
      ResumeKeepsDevices(m.(s := MapRetired(m.s, IdlingQueue(queue))), Some(queue), e.setup, e.sent);
    case DeviceIdle(device, _, _) =>
      var m1 := m.(s := MapRetired(m.s, IdlingDevice(device)));
      ResumeKeepsDevices(m1, PendingQueue(ReclaimIdleReleased(m1).s), e.setup, e.sent);
    case ImageAcquired(_, _, _, _, _, _) =>
  }

  lemma EventMovesDevices(m: Machine, e: Event)
    requires Allowed(m, e)
    ensures DevicesMove(m.s.devices, e, Step(m, e).s.devices)
  {
    match e {
      case DeviceCreated(_, _, _, _) => CreationMoves(m, e);
      case QueueObserved(_, _, _, _, _, _) => ObservationMoves(m, e);
      case DeviceDestroyed(_) => DestructionMoves(m, e);
      case SwapchainCreated(_, _, _, _, _, _, _, _, _) => CreateSwapchainKeepsDevices(m, e);
      case SwapchainDestroyed(_, _, _, _) => DestroySwapchainKeepsDevices(m, e);
      case PreparePresent(_, _, _, _, _, _, _, _) => PresentKeepsDevices(m, e);
      case PresentReturned(_, _, _, _) =>
      case GpuCompletes(_, _) =>
      case DaemonReleases(_) =>
      case _ => ProofsKeepDevices(m, e);
    }
    if !e.DeviceCreated? && !e.QueueObserved? && !e.DeviceDestroyed? {
      SameDevices(m.s.devices, e);
    }
  }

  /** This device was registered by event i, and its queue is the first offered since. */
  predicate Recorded(events: seq<Event>, i: nat, device: nat, known: map<nat, Device>) {
    && i < |events| && Registers(events[i], device) && device in known
    && (forall j :: i < j < |events| ==> !Registers(events[j], device) && !Ends(events[j], device))
    && known[device]
       == Device(events[i].families, FirstQueue(events[i + 1..], device, events[i].families), events[i].exportSupport)
  }

  lemma RecordedMoves(events: seq<Event>, i: nat, device: nat, before: map<nat, Device>, after: map<nat, Device>)
    requires events != [] && device in after && DevicesMove(before, events[|events| - 1], after)
    requires !Registers(events[|events| - 1], device) && Recorded(events[..|events| - 1], i, device, before)
    ensures Recorded(events, i, device, after)
  {
    var n := |events| - 1;
    assert events[i + 1..][..n - i - 1] == events[..n][i + 1..];
    assert events[i + 1..][n - i - 1] == events[n];
    assert events[..n][i] == events[i];
    forall j | i < j < |events|
      ensures !Registers(events[j], device) && !Ends(events[j], device)
    {
      assert j < n ==> events[..n][j] == events[j];
    }
  }

  /** In every run a known device is the one last registered under its name, and its queue is the first
      unprotected graphics queue seen since, if any was. */
  lemma {:induction false} QueueIsFirstGraphics(events: seq<Event>, device: nat) returns (i: nat)
    requires AllAllowed(Initial, events) && device in Run(Initial, events).s.devices
    ensures Recorded(events, i, device, Run(Initial, events).s.devices)
    decreases |events|
  {
    var n := |events| - 1;
    LastEvent(Initial, events);
    var before, after := Run(Initial, events[..n]).s.devices, Run(Initial, events).s.devices;
    EventMovesDevices(Run(Initial, events[..n]), events[n]);
    if Registers(events[n], device) {
      i := n;
      assert events[n + 1..] == [];
    } else {
      i := QueueIsFirstGraphics(events[..n], device);
      RecordedMoves(events, i, device, before, after);
    }
  }

  lemma {:induction false} AtMostTwoDevices(events: seq<Event>)
    requires AllAllowed(Initial, events)
    ensures |Run(Initial, events).s.devices| <= 2
    decreases |events|
  {
    if events != [] {
      var n := |events| - 1;
      LastEvent(Initial, events);
      AtMostTwoDevices(events[..n]);
      EventMovesDevices(Run(Initial, events[..n]), events[n]);
    }
  }

  // ---- Swapchains ----

  /** The recorded swapchain, the one that waits, and the one it replaces. */
  predicate InLine(s: State, h: Handle) {
    || (s.route.Some? && h == HandleOf(s.route.value))
    || (s.pendingSwapchain.Some?
        && var p := s.pendingSwapchain.value; h == Handle(p.device, p.swapchain) || h == Handle(p.device, p.replaced))
  }

  /** A new swapchain decides about the recording when nothing is recorded or waits, or when it replaces a
      swapchain of the line. */
  predicate Decides(s: State, e: Event)
    requires e.SwapchainCreated?
  {
    && e.swapchain != 0
    && ((s.route.None? && s.pendingSwapchain.None?) || InLine(s, Handle(e.device, e.previous)))
  }

  function Opened(w: World, e: Event): World
    requires e.SwapchainCreated?
  {
    w.(live := w.live + {Handle(e.device, e.swapchain)})
  }

  /** Swapchains outside the line change nothing, whatever is wrong with them. */
  lemma OtherSwapchainsRest(m: Machine, e: Event)
    requires Inv(m) && e.SwapchainCreated? && Allowed(m, e) && !Decides(m.s, e)
    ensures CreateSwapchainStep(m, e) == Machine(m.s, Opened(m.w, e))
  {
  }

  predicate Accepts(e: Event) {
    && e.SwapchainCreated? && !e.sharedPresent && e.assessment.Some? && e.assessment.value.Accepted?
    && e.assessment.value.candidate.width * e.assessment.value.candidate.height * 4 <= 0xFFFF_FFFF
  }

  /** In production the device must be able to export its memory. */
  predicate CannotExport(s: State, e: Event)
    requires e.SwapchainCreated?
  {
    e.production && e.device in s.devices && s.devices[e.device].exportSupport.None?
  }

  /** Recording stops for this reason, and the daemon knows or will be told. */
  predicate Refused(m: Machine, m': Machine, e: Event, reason: SourceRejection)
    requires e.SwapchainCreated?
  {
    m' == Machine(m.s.(sourceRejected := true, pendingAssessment := if e.sent then None else Some(Rejected(reason))),
                  Opened(m.w, e))
  }

  /** Whatever is wrong with a deciding swapchain stops the recording for just that reason. */
  lemma ObjectionsStopRecording(m: Machine, e: Event)
    requires Inv(m) && e.SwapchainCreated? && Allowed(m, e) && Decides(m.s, e)
    ensures var m' := CreateSwapchainStep(m, e);
            && (e.sharedPresent ==> Refused(m, m', e, EncoderBackendUnavailable))
            && (!e.sharedPresent && e.assessment.Some? && e.assessment.value.Rejected? ==>
                  Refused(m, m', e, e.assessment.value.reason))
            && (Accepts(e) && CannotExport(m.s, e) ==> Refused(m, m', e, ExternalMemoryUnsupported))
            && (Accepts(e) && !CannotExport(m.s, e) && e.failSetup ==> Refused(m, m', e, EncoderBackendUnavailable))
  {
  }

  predicate Welcome(s: State, e: Event) { Accepts(e) && !CannotExport(s, e) && !e.failSetup }

  /** The swapchain of this event, waiting in place of another or of none. */
  function WaitingFor(e: Event, replaced: nat): PendingSwapchain
    requires Accepts(e)
  {
    var candidate := e.assessment.value.candidate;
    PendingSwapchain(e.device, replaced, e.swapchain, candidate, candidate.width * candidate.height * 4)
  }

  /** While a swapchain is recorded, its successor waits for it to go. */
  lemma SuccessorWaits(m: Machine, e: Event, r: Route)
    requires Inv(m) && e.SwapchainCreated? && Allowed(m, e) && Decides(m.s, e) && Welcome(m.s, e) && m.s.route == Some(r)
    ensures CreateSwapchainStep(m, e)
            == Machine(m.s.(pendingSwapchain := Some(WaitingFor(e, r.swapchain))), Opened(m.w, e))
  {
  }

  /** While nothing is recorded, a welcome swapchain of a known device is recorded at once, unless
      full retention or the missing queue makes it wait, or its own setup fails. */
  lemma FirstIsRecordedOrWaits(m: Machine, e: Event)
    requires Inv(m) && e.SwapchainCreated? && Allowed(m, e) && Decides(m.s, e) && Welcome(m.s, e)
    requires m.s.route.None? && e.device in m.s.devices
    ensures var m' := CreateSwapchainStep(m, e);
            var waits := m.s.disabled || m.s.devices[e.device].queue == 0;
            && (waits ==> m' == Machine(m.s.(pendingSwapchain := Some(WaitingFor(e, 0))), Opened(m.w, e)))
            && (!waits && SetupSucceeds(m, WaitingFor(e, 0), e.setup) ==> Records(m', WaitingFor(e, 0)))
            && (!waits && !SetupSucceeds(m, WaitingFor(e, 0), e.setup) ==> Refused(m, m', e, EncoderBackendUnavailable))
  {
  }

  /** Destroying the recorded swapchain either hands over to its successor or is reported. */
  lemma LossIsReported(m: Machine, e: Event, r: Route)
    requires Inv(m) && e.SwapchainDestroyed? && Allowed(m, e) && m.s.route == Some(r)
    requires HandleOf(r) == Handle(e.device, e.swapchain)
    ensures var m' := DestroySwapchainStep(m, e);
            if m'.s.route.Some? then m.s.pendingSwapchain.Some? && Records(m', m.s.pendingSwapchain.value)
            else m'.s.sourceRejected
                 && m'.s.pendingAssessment == if e.sent then None else Some(Rejected(EncoderBackendUnavailable))
  {
    var m0 := Machine(ForgetWaiting(m.s, e.swapchain).(route := None), CloseSwapchain(m.w, HandleOf(r)));
    RetainKeepsRest(m0, r, e.sent);
    ReplacementOutcome(RetainRetired(m0, r, e.sent), e);
  }

  lemma ReplacementOutcome(m: Machine, e: Event)
    requires e.SwapchainDestroyed? && m.s.route.None?
    requires m.s.pendingSwapchain.Some? ==> SetupPossible(e.setup, m.s.pendingSwapchain.value.candidate)
    ensures var m' := InstallReplacement(m, e);
            if m'.s.route.Some? then m.s.pendingSwapchain.Some? && Records(m', m.s.pendingSwapchain.value)
            else m'.s.sourceRejected
                 && m'.s.pendingAssessment == if e.sent then None else Some(Rejected(EncoderBackendUnavailable))
  {
    if m.s.pendingSwapchain.Some? {
      InstallOutcome(m, m.s.pendingSwapchain.value, e.setup, e.sent);
    }
  }

  lemma InstallOutcome(m: Machine, p: PendingSwapchain, setup: Setup, sent: bool)
    requires SetupPossible(setup, p.candidate) && m.s.route.None?
    ensures var m' := InstallRoute(m, p, setup, sent);
            m'.s.route.Some? ==> Records(m', p)
  {
  }

  /** Nothing is recorded, and this swapchain waits for its turn with a setup that will succeed. */
  predicate ReadyToResume(m: Machine, p: PendingSwapchain, setup: Setup) {
    m.s.route.None? && m.s.pendingSwapchain == Some(p) && SetupSucceeds(m, p, setup)
  }

  lemma ResumeRecords(m: Machine, queue: Option<nat>, p: PendingSwapchain, setup: Setup, sent: bool)
    requires |m.s.retired| == 2 && ReadyToResume(m, p, setup) && queue == Some(m.s.devices[p.device].queue)
    ensures var m' := Resume(ReclaimIdleReleased(m), queue, setup, sent);
            m'.s.abandoned.None? && m'.s.quarantined.None? ==> Records(m', p)
  {
    var m1 := ReclaimIdleReleased(m);
    if CanCreateRoute(m1.s) {
      InstallRecords(m1, p, setup, sent);
    }
  }

  /** Whatever proof leaves no overflow route behind puts the waiting swapchain on record: an
      acknowledgement and a device wait always, a queue wait for its own queue. */
  lemma RoomResumesWaiting(m: Machine, e: Event, p: PendingSwapchain)
    requires Inv(m) && (e.ReleaseSequence? || e.DeviceIdle? || e.QueueIdle?) && Allowed(m, e)
    requires ReadyToResume(m, p, e.setup) && (e.ReleaseSequence? ==> !e.busy)
    requires e.QueueIdle? ==> m.s.devices[p.device].queue == e.queue
    ensures var m' := Step(m, e); m'.s.abandoned.None? && m'.s.quarantined.None? ==> Records(m', p)
  {
    match e
    case ReleaseSequence(sequence, _, _, _) =>
      var f := Releasing(sequence);
      var m1 := m.(s := MapRetired(m.s, f).(route := MapSlot(m.s.route, f), quarantined := MapSlot(m.s.quarantined, f)));
      ResumeRecords(m1, PendingQueue(ReclaimIdleReleased(m1).s), p, e.setup, e.sent);
    case QueueIdle(queue, _, _) =>
      ResumeRecords(m.(s := MapRetired(m.s, IdlingQueue(queue))), Some(queue), p, e.setup, e.sent);
    case DeviceIdle(device, _, _) =>
      var m1 := m.(s := MapRetired(m.s, IdlingDevice(device)));
      ResumeRecords(m1, PendingQueue(ReclaimIdleReleased(m1).s), p, e.setup, e.sent);
  }

  /** The devices as this event leaves them, and nothing else changed. */
  function WithDevicesAfter(m: Machine, e: Event): Machine
    requires e.QueueObserved? && WellFormed(m, e)
  {
    m.(s := m.s.(devices := ObserveQueue(m, e).s.devices))
  }

  lemma QueueOutcome(m: Machine, e: Event, p: PendingSwapchain)
    requires e.QueueObserved? && WellFormed(m, e) && m.s.pendingSwapchain == Some(p)
    requires e.queue != 0 && !e.isProtected && e.family < 64 && e.device in m.s.devices
    ensures ObserveQueue(m, e) == if p.device == e.device && p.replaced == 0
                                  then InstallRoute(WithDevicesAfter(m, e), p, e.setup, e.sent)
                                  else WithDevicesAfter(m, e)
  {
    var d := m.s.devices[e.device];
    var s := if d.queue == 0 && e.family in d.graphicsFamilies
             then m.s.(devices := m.s.devices[e.device := d.(queue := e.queue)]) else m.s;
    InstallKeepsDevices(m.(s := s), p, e.setup, e.sent);
  }

  /** Seeing a device's queue puts its waiting swapchain on record, unless that waits for another to go. */
  lemma QueuePutsWaitingOnRecord(m: Machine, e: Event, p: PendingSwapchain)
    requires Inv(m) && e.QueueObserved? && Allowed(m, e) && m.s.pendingSwapchain == Some(p)
    requires e.queue != 0 && !e.isProtected && e.family < 64 && e.device in m.s.devices
    ensures m.s.route.Some? || p.device != e.device || p.replaced != 0 || m.s.disabled ==>
              ObserveQueue(m, e) == WithDevicesAfter(m, e)
    ensures p.device == e.device && p.replaced == 0 && !m.s.disabled && ReadyToResume(WithDevicesAfter(m, e), p, e.setup) ==>
              Records(ObserveQueue(m, e), p)
  {
    QueueOutcome(m, e, p);
    if !m.s.disabled && ReadyToResume(WithDevicesAfter(m, e), p, e.setup) {
      InstallRecords(WithDevicesAfter(m, e), p, e.setup, e.sent);
    }
  }

  /** Waiting for one queue puts no swapchain of another queue on record. */
  lemma OtherQueuesResumeNothing(m: Machine, e: Event)
    requires Inv(m) && e.QueueIdle? && Allowed(m, e)
    requires m.s.pendingSwapchain.Some? && m.s.pendingSwapchain.value.device in m.s.devices ==>
               m.s.devices[m.s.pendingSwapchain.value.device].queue != e.queue
    ensures var s := AfterQueueIdle(m, e).s;
            s.route == m.s.route && s.pendingSwapchain == m.s.pendingSwapchain && s.devices == m.s.devices
  {
  }

  /** A process whose last device has ended is as at its start, but for its counters. */
  lemma LastDeviceStartsOver(m: Machine, e: Event)
    requires Inv(m) && e.DeviceDestroyed? && Allowed(m, e)
    ensures var s := DestroyDeviceStep(m, e).s;
            && e.device !in s.devices && (s.pendingSwapchain.Some? ==> s.pendingSwapchain.value.device != e.device)
            && (s.devices == map[] ==>
                  s == InitialState.(pendingSwapchain := s.pendingSwapchain, lastExport := m.s.lastExport,
                                     nextSequence := m.s.nextSequence))
  {
    var s := DestroyDeviceStep(m, e).s;
    if s.devices == map[] {
      assert forall d :: d in m.s.devices && d != e.device ==> d in s.devices;
      forall k | 0 <= k < 5
        ensures Slot(s, k).None?
      {
        assert Slot(m.s, k).Some? ==> Slot(m.s, k).value.device == e.device;
      }
      assert Slot(s, 0) == s.route && Slot(s, 1) == s.retired[0] && Slot(s, 2) == s.retired[1];
      assert Slot(s, 3) == s.abandoned && Slot(s, 4) == s.quarantined;
    }
  }

  // ---- A new route ----

  /** A copy context that nothing has used yet. */
  predicate Unused(c: Context, exportRequired: bool, fd: int) {
    c.usable && !c.pending && c.capturedAt == 0 && c.exportSequence == 0 && c.exportFd == (if exportRequired then fd else -1)
  }

  /** A route is created exactly when the driver agrees, the swapchain has one to eight images and, for
      export, the device and its buffers allow it. It has one context more than the swapchain has images:
      at least five, at least eight at the variable rate or on NVIDIA, and at most eight. */
  lemma RouteFitsSwapchain(setup: Setup, device: Device, p: PendingSwapchain)
    requires SetupPossible(setup, p.candidate)
    ensures var route := CreatedRoute(setup, device, p);
            && (route.Some? <==>
                  && setup.succeeded && 1 <= setup.imageCount <= 8
                  && (setup.exportRequested ==> device.exportSupport.Some? && setup.requirementsAvailable))
            && (route.Some? ==>
                  var r := route.value;
                  var nvidia := p.candidate.gpuIdentity.Some? && p.candidate.gpuIdentity.value.vendorId == 0x10de;
                  && |r.contexts| == (if setup.variableRate || nvidia || setup.imageCount >= 7 then 8
                                      else if setup.imageCount <= 4 then 5 else setup.imageCount + 1)
                  && r.samplingRate == (if setup.variableRate then 0 else p.candidate.targetFramesPerSecond)
                  && (r.id, r.device, r.queue, r.swapchain) == (setup.id, p.device, device.queue, p.swapchain)
                  && r.exportRequired == setup.exportRequested && !r.gpuIdle && r.nextSubmit == 0
                  && (forall k :: 0 <= k < |r.contexts| ==> Unused(r.contexts[k], r.exportRequired, setup.exportFds[k]))
                  && (forall i :: 0 <= i < 8 ==> r.presentationUsable[i] && !r.presentationPending[i]))
  {
  }

  // ---- A line of successors ----

  /** Each swapchain replaces the one before it; the first replaces this one. */
  predicate Succession(s: State, events: seq<Event>, device: nat, first: nat)
    decreases |events|
  {
    events == [] ||
    var e := events[0];
    && e.SwapchainCreated? && e.device == device && e.swapchain != 0 && e.previous == first && Welcome(s, e)
    && Succession(s, events[1..], device, e.swapchain)
  }

  lemma {:induction false} LastIsAccepted(s: State, events: seq<Event>, device: nat, first: nat)
    requires Succession(s, events, device, first) && events != []
    ensures Accepts(events[|events| - 1])
    decreases |events|
  {
    if |events| > 1 {
      LastIsAccepted(s, events[1..], device, events[0].swapchain);
    }
  }

  lemma {:induction false} SuccessionStays(s: State, s': State, events: seq<Event>, device: nat, first: nat)
    requires Succession(s, events, device, first) && s'.devices == s.devices
    ensures Succession(s', events, device, first)
    decreases |events|
  {
    if events != [] {
      SuccessionStays(s, s', events[1..], device, events[0].swapchain);
    }
  }

  /** However often a recorded swapchain is replaced before it is destroyed, the newest replacement
      waits for it and the recording itself goes on undisturbed. */
  lemma {:induction false} NewestSuccessorWaits(m: Machine, events: seq<Event>, r: Route, first: nat)
    requires Inv(m) && AllAllowed(m, events) && events != [] && m.s.route == Some(r)
    requires first == r.swapchain || (m.s.pendingSwapchain.Some? && first == m.s.pendingSwapchain.value.swapchain)
    requires Succession(m.s, events, r.device, first)
    ensures Accepts(events[|events| - 1])
    ensures Run(m, events).s
            == m.s.(pendingSwapchain := Some(WaitingFor(events[|events| - 1], r.swapchain)))
    ensures Run(m, events).w.gpus == m.w.gpus
    decreases |events|
  {
    var e, rest := events[0], events[1..];
    LastIsAccepted(m.s, events, r.device, first);
    SuccessorWaits(m, e, r);
    if rest != [] {
      var next := Step(m, e);
      StepKeeps(m, e);
      SuccessionStays(m.s, next.s, rest, r.device, e.swapchain);
      NewestSuccessorWaits(next, rest, r, e.swapchain);
    }
  }
}

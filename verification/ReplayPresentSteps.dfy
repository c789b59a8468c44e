/** Presents: handing off a completed copy, submitting the next one, and its return. */
module ReplayPresentSteps {
  import opened Wrappers
  import opened Messages
  import opened ReplayWorld
  import opened ReplayState
  import opened ReplayMachine
  import opened ReplayInvariant
  import opened ReplayRouteLemmas
  import opened ReplaySlotLemmas
  import opened ReplayMapSteps
  import opened ReplaySlotSteps
  import Cadence
  import Pacing

  // ---- Barriers ----

  /** A buffer owned as expected comes back owned by FOREIGN exactly when it is exported,
      and the image returns to its presentation layout. */
  lemma RecordedBarriersPair(exportRequired: bool, reuse: bool)
    ensures Execute(Ownership(if exportRequired && reuse then Foreign else Producer, PresentSource),
                    RecordCopy(exportRequired, reuse))
            == Some(Ownership(if exportRequired then Foreign else Producer, PresentSource))
  {
    var start := Ownership(if exportRequired && reuse then Foreign else Producer, PresentSource);
    var tail := [ImageTransition(PresentSource, TransferSource), CopyImageToBuffer]
      + (if exportRequired then [BufferTransfer(Producer, Foreign)] else [HostVisibility])
      + [ImageTransition(TransferSource, PresentSource)];
    assert tail[1..][1..][1..][1..] == [];
    var own := Ownership(Producer, PresentSource);
    var reading := own.(image := TransferSource);
    var done := reading.(buffer := if exportRequired then Foreign else Producer);
    assert Execute(own, tail) == Execute(reading, tail[1..]) == Execute(reading, tail[1..][1..]);
    assert Execute(reading, tail[1..][1..]) == Execute(done, tail[1..][1..][1..]);
    assert Execute(done, tail[1..][1..][1..]) == Execute(done.(image := PresentSource), tail[1..][1..][1..][1..]);
    if exportRequired && reuse {
      assert RecordCopy(exportRequired, reuse)[1..] == tail;
      assert Execute(start, RecordCopy(exportRequired, reuse)) == Execute(own, tail);
    } else {
      assert RecordCopy(exportRequired, reuse) == tail;
    }
  }

  // ---- Route-level effects ----

  /** Taking a completed copy keeps the route in order and uses a new sequence. */
  lemma TakeKeepsRoute(m: Machine, r: Route, ready: bool)
    requires RouteOk(r, m.s.nextSequence, m.w) && ExportsOk(m.s, m.w)
    requires var k := OldestPendingContext(r.contexts);
             k.Some? && ready ==> m.w.gpus[r.id].fences[k.value] == Signaled
    ensures var (m', r', proof) := TakeCompleted(m, r, ready);
            && RouteOk(r', m'.s.nextSequence, m'.w)
            && m'.w.faults == m.w.faults
            && SamePlace(r, r')
  {
    var (m', r', proof) := TakeCompleted(m, r, ready);
    if proof.Some? {
      var k := OldestPendingContext(r.contexts).value;
      var c := r.contexts[k];
      var g, g' := m.w.gpus[r.id], m'.w.gpus[r.id];
      assert g' == g.(handedOff := c.capturedAt);
      assert NewestStamp(r', m.w.now) == NewestStamp(r, m.w.now);
      forall j | 0 <= j < |r'.contexts|
        ensures ContextOk(r'.contexts[j], g'.fences[j], g'.buffers[j], r'.exportRequired)
        ensures r'.contexts[j].exportSequence < m'.s.nextSequence
        ensures r'.contexts[j].pending ==> g'.handedOff <= r'.contexts[j].capturedAt <= NewestStamp(r', m.w.now)
      {
        assert ContextOk(r.contexts[j], g.fences[j], g.buffers[j], r.exportRequired);
        assert ContextOk(r.contexts[k], g.fences[k], g.buffers[k], r.exportRequired);
      }
      forall s | s in m'.w.leases && m'.w.leases[s].0 == r'.id
        ensures LeaseHeld(r', m'.w.leases[s].1, s)
      {
        assert LeaseHeld(r, m.w.leases[s].1, s);
        assert ContextOk(r.contexts[k], g.fences[k], g.buffers[k], r.exportRequired);
      }
    }
  }

  /** The GPU state of other routes, and everything but the faults outside the GPU, is
      untouched by work on route `id`. */
  predicate OnlyGpu(w: World, w': World, id: nat) {
    && id in w.gpus && id in w'.gpus
    && w' == w.(gpus := w.gpus[id := w'.gpus[id]], faults := w'.faults)
  }

  predicate SubmitReady(w: World, r: Route, i: nat, calls: DriverCalls) {
    && r.id in w.gpus
    && RouteMatches(r, w.gpus[r.id], w.now)
    && |calls.ready| == |r.contexts|
    && (forall k :: 0 <= k < |calls.ready| && calls.ready[k] ==> w.gpus[r.id].fences[k] == Signaled)
    && (i < MAX_IMAGES && r.presentationUsable[i] ==> w.gpus[r.id].reacquired[i])
    && LeasesMatch(r, w.leases)
  }

  /** Submitting into an eligible context respects every rule, whatever the driver answers. */
  lemma SubmitIsSafe(w: World, r: Route, i: nat, stamp: nat, duration: nat, calls: DriverCalls)
    requires SubmitReady(w, r, i, calls)
    ensures var (w', r', signalled) := SubmitNext(w, r, i, stamp, duration, calls);
            w'.faults == w.faults && OnlyGpu(w, w', r.id)
  {
    var (w', r', signalled) := SubmitNext(w, r, i, stamp, duration, calls);
    var free := FirstEligible(r.contexts, calls.ready, 0);
    if i < MAX_IMAGES && r.presentationUsable[i] && i < r.imageCount && free.Some? {
      var k := free.value;
      var g := w.gpus[r.id];
      var c := r.contexts[k];
      assert !Leased(w, r.id, k);
      assert ContextOk(c, g.fences[k], g.buffers[k], r.exportRequired);
      RecordedBarriersPair(r.exportRequired, c.capturedAt != 0);
      var w1 := ResetFence(w, r.id, k);
      assert w1.leases == w.leases;
      assert !Leased(w1, r.id, k);
      assert w1.faults == w.faults;
    }
  }

  /** The route after a present: the submission's result with the advanced deadline. */
  function Advanced(r: Route, signalled: bool, deadline: nat): Route {
    if signalled then r.(nextSubmit := deadline) else r
  }

  /** What the cadence promises about a due capture. */
  predicate StampFits(r: Route, captures: seq<nat>, stamp: nat, deadline: nat, now: nat) {
    && 0 < stamp
    && Pacing.Paced(r.samplingRate, deadline, r.variableMinInterval, captures + [stamp])
    && NewestStamp(r, now) <= stamp <= now
    && NewestStamp(r.(nextSubmit := deadline), now) == (if r.samplingRate == 0 then now else stamp)
  }

  predicate WorkedOnRoute(r: Route, r': Route, k: nat, i: nat) {
    && k < |r.contexts| == |r'.contexts| && i < MAX_IMAGES
    && r' == r.(contexts := r'.contexts, presentationPending := r'.presentationPending,
                presentationUsable := r'.presentationUsable, nextSubmit := r'.nextSubmit, gpuIdle := r'.gpuIdle)
    && |r'.presentationPending| == |r'.presentationUsable| == |r.presentationPending| == MAX_IMAGES
    && r'.contexts == r.contexts[k := r'.contexts[k]]
    && r'.presentationPending == r.presentationPending[i := r'.presentationPending[i]]
  }

  predicate WorkedOnGpu(g: Gpu, g': Gpu, k: nat, i: nat) {
    && g' == g.(fences := g'.fences, buffers := g'.buffers, reacquired := g'.reacquired, waits := g'.waits,
                captures := g'.captures)
    && |g'.fences| == |g.fences| && |g'.buffers| == |g.buffers| && i < MAX_IMAGES
    && |g'.reacquired| == |g'.waits| == |g.waits| == MAX_IMAGES
    && k < |g.fences| == |g.buffers|
    && g'.fences == g.fences[k := g'.fences[k]]
    && g'.buffers == g.buffers[k := g'.buffers[k]]
    && g'.waits == g.waits[i := g'.waits[i]]
  }

  /** Work on context k and image i only: the rest of the route and its GPU state is kept. */
  predicate WorkedOn(r: Route, r': Route, g: Gpu, g': Gpu, k: nat, i: nat) {
    && WorkedOnRoute(r, r', k, i) && WorkedOnGpu(g, g', k, i)
    && (r.presentationPending[i] || g'.waits[i] != g.waits[i] ==> r'.presentationPending[i])
  }

  lemma WorkKeepsMatch(r: Route, r': Route, g: Gpu, g': Gpu, k: nat, i: nat, now: nat)
    requires RouteMatches(r, g, now) && k < |r.contexts| && WorkedOn(r, r', g, g', k, i)
    requires ContextOk(r'.contexts[k], g'.fences[k], g'.buffers[k], r.exportRequired)
    requires r'.gpuIdle ==> r.gpuIdle && g'.fences[k] != InFlight
    requires NewestStamp(r, now) <= NewestStamp(r', now) <= now
    requires r'.contexts[k].pending ==> g.handedOff <= r'.contexts[k].capturedAt <= NewestStamp(r', now)
    requires r'.contexts[k].pending ==> r'.contexts[k].duration == r.frameInterval
    requires Pacing.Paced(r'.samplingRate, r'.nextSubmit, r'.variableMinInterval, g'.captures)
    ensures RouteMatches(r', g', now)
  {
    forall j | 0 <= j < |r'.contexts|
      ensures ContextOk(r'.contexts[j], g'.fences[j], g'.buffers[j], r'.exportRequired)
      ensures r'.contexts[j].pending ==> g'.handedOff <= r'.contexts[j].capturedAt <= NewestStamp(r', now)
    {
      assert ContextOk(r.contexts[j], g.fences[j], g.buffers[j], r.exportRequired);
    }
  }

  lemma SubmitWorksOnRoute(w: World, r: Route, k: nat, i: nat, commands: seq<Command>, stamp: nat, duration: nat,
                           calls: DriverCalls)
    requires Backed(w, r) && k < |r.contexts| && i < MAX_IMAGES
    ensures WorkedOnRoute(r, SubmitInto(w, r, k, i, commands, stamp, duration, calls).1, k, i)
  {
    assert r.presentationPending[i := r.presentationPending[i]] == r.presentationPending;
  }

  lemma DriverWorksOnGpu(w: World, id: nat, k: nat, i: nat, commands: seq<Command>, capture: Option<nat>)
    requires HasContext(w, id, k) && HasImage(w, id, i) && |w.gpus[id].waits| == MAX_IMAGES
    ensures WorkedOnGpu(w.gpus[id], ResetFence(w, id, k).gpus[id], k, i)
    ensures ResetFence(w, id, k).gpus[id].waits == w.gpus[id].waits
    ensures WorkedOnGpu(w.gpus[id], Submit(w, id, k, i, commands, capture).gpus[id], k, i)
  {
    var g := w.gpus[id];
    assert g.buffers[k := g.buffers[k]] == g.buffers && g.waits[i := g.waits[i]] == g.waits;
  }

  lemma GpuWorksOn(g: Gpu, g1: Gpu, g2: Gpu, k: nat, i: nat)
    requires WorkedOnGpu(g, g1, k, i) && WorkedOnGpu(g1, g2, k, i)
    ensures WorkedOnGpu(g, g2, k, i)
  {
  }

  lemma SubmitWorksOnGpu(w: World, r: Route, k: nat, i: nat, commands: seq<Command>, stamp: nat, duration: nat,
                         calls: DriverCalls)
    requires Backed(w, r) && k < |r.contexts| && i < MAX_IMAGES
    ensures var (w', r', signalled) := SubmitInto(w, r, k, i, commands, stamp, duration, calls);
            && r.id in w'.gpus && WorkedOnGpu(w.gpus[r.id], w'.gpus[r.id], k, i)
            && i < |r'.presentationPending| == |r.presentationPending|
            && (r.presentationPending[i] || w'.gpus[r.id].waits[i] != w.gpus[r.id].waits[i] ==> r'.presentationPending[i])
  {
    var capture := if calls.submit == Submitted then Some(stamp) else None;
    var w1 := ResetFence(w, r.id, k);
    DriverWorksOnGpu(w, r.id, k, i, commands, capture);
    DriverWorksOnGpu(w1, r.id, k, i, commands, capture);
    GpuWorksOn(w.gpus[r.id], w1.gpus[r.id], Submit(w1, r.id, k, i, commands, capture).gpus[r.id], k, i);
    Untouched(w.gpus[r.id], k, i);
  }

  lemma Untouched(g: Gpu, k: nat, i: nat)
    requires k < |g.fences| == |g.buffers| && i < |g.waits| == |g.reacquired| == MAX_IMAGES
    ensures WorkedOnGpu(g, g, k, i)
  {
    assert g.fences[k := g.fences[k]] == g.fences && g.buffers[k := g.buffers[k]] == g.buffers;
    assert g.waits[i := g.waits[i]] == g.waits;
  }

  lemma SubmitWorksOn(w: World, r: Route, k: nat, i: nat, commands: seq<Command>, stamp: nat, duration: nat,
                      calls: DriverCalls)
    requires Backed(w, r) && k < |r.contexts| && i < MAX_IMAGES
    ensures var (w', r', signalled) := SubmitInto(w, r, k, i, commands, stamp, duration, calls);
            r.id in w'.gpus && WorkedOn(r, r', w.gpus[r.id], w'.gpus[r.id], k, i)
  {
    SubmitWorksOnRoute(w, r, k, i, commands, stamp, duration, calls);
    SubmitWorksOnGpu(w, r, k, i, commands, stamp, duration, calls);
  }

  /** What becomes of the context that a submission chose. */
  lemma SubmitResult(w: World, r: Route, k: nat, i: nat, commands: seq<Command>, stamp: nat, duration: nat,
                     calls: DriverCalls)
    requires Backed(w, r) && k < |r.contexts| && i < MAX_IMAGES && 0 < stamp
    requires r.contexts[k].usable && !r.contexts[k].pending
    requires Execute(Ownership(w.gpus[r.id].buffers[k], PresentSource), commands)
             == Some(Ownership(if r.exportRequired then Foreign else Producer, PresentSource))
    requires w.gpus[r.id].fences[k] == Signaled
    ensures var (w', r', signalled) := SubmitInto(w, r, k, i, commands, stamp, duration, calls);
            && HasContext(w', r.id, k) && k < |r'.contexts|
            && r'.nextSubmit == r.nextSubmit
            && ContextOk(r'.contexts[k], w'.gpus[r.id].fences[k], w'.gpus[r.id].buffers[k], r.exportRequired)
            && (r'.gpuIdle ==> r.gpuIdle && w'.gpus[r.id].fences[k] != InFlight)
            && (r'.contexts[k].pending <==> signalled)
            && (signalled ==> r'.contexts[k].capturedAt == stamp && r'.contexts[k].duration == duration)
            && w'.gpus[r.id].captures
               == (if signalled then w.gpus[r.id].captures + [stamp] else w.gpus[r.id].captures)
  {
  }

  lemma SubmitIntoKeepsMatch(w: World, r: Route, k: nat, i: nat, commands: seq<Command>, stamp: nat, duration: nat,
                             calls: DriverCalls, deadline: nat)
    requires r.id in w.gpus && RouteMatches(r, w.gpus[r.id], w.now) && k < |r.contexts| && i < MAX_IMAGES
    requires StampFits(r, w.gpus[r.id].captures, stamp, deadline, w.now) && duration == r.frameInterval
    requires r.contexts[k].usable && !r.contexts[k].pending
    requires Execute(Ownership(w.gpus[r.id].buffers[k], PresentSource), commands)
             == Some(Ownership(if r.exportRequired then Foreign else Producer, PresentSource))
    requires w.gpus[r.id].fences[k] == Signaled
    ensures var (w', r', signalled) := SubmitInto(w, r, k, i, commands, stamp, duration, calls);
            r.id in w'.gpus && RouteMatches(Advanced(r', signalled, deadline), w'.gpus[r.id], w.now)
  {
    var (w', r', signalled) := SubmitInto(w, r, k, i, commands, stamp, duration, calls);
    SubmitWorksOn(w, r, k, i, commands, stamp, duration, calls);
    SubmitResult(w, r, k, i, commands, stamp, duration, calls);
    var r3 := Advanced(r', signalled, deadline);
    assert NewestStamp(r3, w.now) == if signalled && r.samplingRate != 0 then stamp else NewestStamp(r, w.now);
    WorkKeepsMatch(r, r3, w.gpus[r.id], w'.gpus[r.id], k, i, w.now);
  }

  lemma SubmitKeepsMatch(w: World, r: Route, i: nat, stamp: nat, duration: nat, calls: DriverCalls, deadline: nat)
    requires SubmitReady(w, r, i, calls) && StampFits(r, w.gpus[r.id].captures, stamp, deadline, w.now)
    requires duration == r.frameInterval
    ensures var (w', r', signalled) := SubmitNext(w, r, i, stamp, duration, calls);
            r.id in w'.gpus && RouteMatches(Advanced(r', signalled, deadline), w'.gpus[r.id], w.now)
  {
    var free := FirstEligible(r.contexts, calls.ready, 0);
    if i < MAX_IMAGES && r.presentationUsable[i] && i < r.imageCount && free.Some? {
      var k, g := free.value, w.gpus[r.id];
      assert ContextOk(r.contexts[k], g.fences[k], g.buffers[k], r.exportRequired);
      RecordedBarriersPair(r.exportRequired, r.contexts[k].capturedAt != 0);
      SubmitIntoKeepsMatch(w, r, k, i, RecordCopy(r.exportRequired, r.contexts[k].capturedAt != 0), stamp, duration,
                           calls, deadline);
    }
  }

  lemma SubmitKeepsLeases(w: World, r: Route, i: nat, stamp: nat, duration: nat, calls: DriverCalls, next: nat)
    requires SubmitReady(w, r, i, calls) && SequencesBelow(r, next)
    ensures var (w', r', signalled) := SubmitNext(w, r, i, stamp, duration, calls);
            LeasesMatch(r', w'.leases) && SequencesBelow(r', next) && SamePlace(r, r')
            && |r'.contexts| == |r.contexts|
            && (r.gpuIdle || !r'.gpuIdle)
  {
    if i < MAX_IMAGES && r.presentationUsable[i] && i < r.imageCount {
      var free := FirstEligible(r.contexts, calls.ready, 0);
      if free.Some? {
        SubmitIntoKeepsLeases(w, r, free.value, i,
                              RecordCopy(r.exportRequired, r.contexts[free.value].capturedAt != 0), stamp, duration,
                              calls, next);
      }
    }
  }

  lemma SubmitIntoKeepsLeases(w: World, r: Route, k: nat, i: nat, commands: seq<Command>, stamp: nat, duration: nat,
                              calls: DriverCalls, next: nat)
    requires Backed(w, r) && k < |r.contexts| && i < MAX_IMAGES && SequencesBelow(r, next) && LeasesMatch(r, w.leases)
    requires r.contexts[k].exportFd < 3 || r.contexts[k].exportReleased
    ensures var (w', r', signalled) := SubmitInto(w, r, k, i, commands, stamp, duration, calls);
            LeasesMatch(r', w'.leases) && SequencesBelow(r', next) && SamePlace(r, r')
            && |r'.contexts| == |r.contexts|
            && (r.gpuIdle || !r'.gpuIdle)
  {
    SubmitIntoExports(w, r, k, i, commands, stamp, duration, calls);
    SameExportsKeep(r, SubmitInto(w, r, k, i, commands, stamp, duration, calls).1, k, w.leases, next);
  }

  /** A submission changes no export field and no other context. */
  predicate SameExports(r: Route, r': Route, k: nat) {
    && r'.id == r.id && |r'.contexts| == |r.contexts|
    && forall j :: 0 <= j < |r.contexts| ==>
         && (j == k || r'.contexts[j] == r.contexts[j])
         && r'.contexts[j].exportFd == r.contexts[j].exportFd
         && r'.contexts[j].exportSequence == r.contexts[j].exportSequence
         && r'.contexts[j].exportReleased == r.contexts[j].exportReleased
  }

  lemma SubmitIntoExports(w: World, r: Route, k: nat, i: nat, commands: seq<Command>, stamp: nat, duration: nat,
                          calls: DriverCalls)
    requires Backed(w, r) && k < |r.contexts| && i < MAX_IMAGES
    ensures var (w', r', signalled) := SubmitInto(w, r, k, i, commands, stamp, duration, calls);
            w'.leases == w.leases && SameExports(r, r', k) && SamePlace(r, r') && (r.gpuIdle || !r'.gpuIdle)
  {
  }

  lemma SameExportsKeep(r: Route, r': Route, k: nat, leases: map<nat, (nat, nat)>, next: nat)
    requires SameExports(r, r', k) && SequencesBelow(r, next) && LeasesMatch(r, leases) && k < |r.contexts|
    requires r.contexts[k].exportFd < 3 || r.contexts[k].exportReleased
    ensures LeasesMatch(r', leases) && SequencesBelow(r', next)
  {
    forall s | s in leases && leases[s].0 == r'.id
      ensures LeaseHeld(r', leases[s].1, s)
    {
      assert LeaseHeld(r, leases[s].1, s);
    }
  }

  // ---- One due present ----

  /** The invariant while a present is being prepared: the semaphore of image `except` may
      be signalled without a running present that waits on it. */
  predicate InvExcept(m: Machine, except: int) {
    Core(m) && SlotsOk(m.s, m.w) && ExportsOk(m.s, m.w) && SemaphoresHold(m.s, m.w, except)
  }

  lemma RouteWorkKeepsCore(m: Machine, r': Route, next: nat, w': World)
    requires Core(m) && m.s.route.Some? && SamePlace(m.s.route.value, r') && m.s.nextSequence <= next
    requires OnlyGpu(m.w, w', r'.id) && RouteOk(r', next, w')
    ensures Core(Machine(m.s.(route := Some(r'), nextSequence := next), w'))
  {
    var s' := m.s.(route := Some(r'), nextSequence := next);
    assert Slot(m.s, 0) == m.s.route;
    forall k | 0 <= k < 5
      ensures Slot(s', k) == if k == 0 then Some(r') else Slot(m.s, k)
      ensures Slot(s', k).Some? ==> RouteOk(Slot(s', k).value, next, w')
    {
      if k > 0 && Slot(m.s, k).Some? {
        assert RouteOk(Slot(m.s, k).value, m.s.nextSequence, m.w);
        FrameRoute(Slot(m.s, k).value, m.s.nextSequence, next, m.w, w');
      }
    }
    forall id | id in w'.alive
      ensures exists k :: 0 <= k < 5 && Slot(s', k).Some? && Slot(s', k).value.id == id
    {
      var k :| 0 <= k < 5 && Slot(m.s, k).Some? && Slot(m.s, k).value.id == id;
      assert Slot(s', k).Some? && Slot(s', k).value.id == id;
    }
  }

  /** The cadence gives every due capture a fitting stamp and deadline. */
  lemma DueStampFits(r: Route, handedOff: nat, captures: seq<nat>, now: nat)
    requires StampsOk(r, handedOff, now) && 0 < now <= U64_MAX / 2
    requires Pacing.Paced(r.samplingRate, r.nextSubmit, r.variableMinInterval, captures)
    requires Cadence.VulkanCaptureDue(r.samplingRate, r.nextSubmit, now, r.variableMinInterval)
    ensures var (stamp, interval) :=
              Cadence.VulkanCaptureTiming(r.samplingRate, r.nextSubmit, now, r.variableMinInterval);
            StampFits(r, captures, stamp,
                      Cadence.AdvanceCaptureDeadline(r.samplingRate == 0, r.nextSubmit, now, interval), now)
  {
    Pacing.CaptureIsPaced(r.samplingRate, r.nextSubmit, r.variableMinInterval, captures, now);
    if r.samplingRate != 0 {
      Cadence.FixedCaptureStep(r.nextSubmit, now, Cadence.FrameIntervalForFps(r.samplingRate));
    }
  }

  /** A taken export waits in its context until it is announced. */
  predicate ProofHeld(r: Route, proof: CopyProof, sequence: nat) {
    && proof.context < |r.contexts|
    && r.contexts[proof.context].exportFd >= 3
    && r.contexts[proof.context].exportSequence == sequence
    && !r.contexts[proof.context].exportReleased
    && !r.contexts[proof.context].pending
  }

  lemma SubmitKeepsProof(w: World, r: Route, i: nat, stamp: nat, duration: nat, calls: DriverCalls,
                         proof: CopyProof, sequence: nat)
    requires Backed(w, r) && |calls.ready| == |r.contexts| && ProofHeld(r, proof, sequence)
    ensures ProofHeld(SubmitNext(w, r, i, stamp, duration, calls).1, proof, sequence)
  {
    if i < MAX_IMAGES && r.presentationUsable[i] && i < r.imageCount {
      var free := FirstEligible(r.contexts, calls.ready, 0);
      if free.Some? {
        assert !Eligible(r.contexts[proof.context], calls.ready[proof.context]);
        SubmitWorksOn(w, r, free.value, i, RecordCopy(r.exportRequired, r.contexts[free.value].capturedAt != 0),
                      stamp, duration, calls);
      }
    }
  }

  /** A present that reaches the capture of its image: the conditions of the code, of the
      application and of the driver. */
  predicate CaptureReady(m: Machine, r: Route, e: Event, image: nat) {
    && e.PreparePresent? && m.s.route == Some(r) && RouteOk(r, m.s.nextSequence, m.w)
    && CallsFit(e, r) && e.now == Some(m.w.now) && 0 < m.w.now <= U64_MAX / 2
    && Backed(m.w, r) && TruthfulFences(m.w, r, e.calls)
    && Cadence.VulkanCaptureDue(r.samplingRate, r.nextSubmit, m.w.now, r.variableMinInterval)
    && image < MAX_IMAGES
    && (r.presentationUsable[image] ==> m.w.gpus[r.id].reacquired[image])
  }

  /** The route and machine between taking a copy and submitting the next one. */
  predicate Taken(m: Machine, r: Route, m': Machine, r': Route) {
    && r' == r.(contexts := r'.contexts) && |r'.contexts| == |r.contexts|
    && m'.s == m.s.(nextSequence := m'.s.nextSequence) && m.s.nextSequence <= m'.s.nextSequence
    && OnlyGpu(m.w, m'.w, r.id)
    && m'.w.gpus[r.id] == m.w.gpus[r.id].(handedOff := m'.w.gpus[r.id].handedOff)
  }

  lemma TakeShape(m: Machine, r: Route, ready: bool)
    requires Backed(m.w, r)
    ensures var (m', r', proof) := TakeCompleted(m, r, ready);
            && Taken(m, r, m', r')
            && (proof.Some? && proof.value.exportSequence.Some? ==>
                  && proof.value.exportSequence.value == m.s.nextSequence < m'.s.nextSequence
                  && ProofHeld(r', proof.value, m.s.nextSequence))
  {
  }

  lemma SubmitKeepsRoute(w: World, r: Route, i: nat, stamp: nat, duration: nat, calls: DriverCalls, deadline: nat,
                         next: nat)
    requires SubmitReady(w, r, i, calls) && StampFits(r, w.gpus[r.id].captures, stamp, deadline, w.now)
    requires duration == r.frameInterval
    requires RouteOk(r, next, w)
    ensures var (w', r', signalled) := SubmitNext(w, r, i, stamp, duration, calls);
            var r3 := Advanced(r', signalled, deadline);
            && RouteOk(r3, next, w') && OnlyGpu(w, w', r.id) && w'.faults == w.faults
            && SamePlace(r, r3) && (r.gpuIdle || !r3.gpuIdle)
  {
    SubmitIsSafe(w, r, i, stamp, duration, calls);
    SubmitKeepsMatch(w, r, i, stamp, duration, calls, deadline);
    SubmitKeepsLeases(w, r, i, stamp, duration, calls, next);
    var (w', r', signalled) := SubmitNext(w, r, i, stamp, duration, calls);
    var r3 := Advanced(r', signalled, deadline);
    forall s | s in w'.leases && w'.leases[s].0 == r3.id
      ensures LeaseHeld(r3, w'.leases[s].1, s)
    {
      assert LeaseHeld(r', w'.leases[s].1, s);
    }
  }

  lemma SubmitAfterTake(m: Machine, r: Route, m1: Machine, r1: Route, e: Event, image: nat, stamp: nat, deadline: nat)
    requires CaptureReady(m, r, e, image) && Taken(m, r, m1, r1) && RouteOk(r1, m1.s.nextSequence, m1.w)
    requires StampFits(r1, m1.w.gpus[r.id].captures, stamp, deadline, m.w.now)
    ensures var (w', r2, signalled) := SubmitNext(m1.w, r1, image, stamp, r.frameInterval, e.calls);
            var r' := Advanced(r2, signalled, deadline);
            && SamePlace(r, r') && (r.gpuIdle || !r'.gpuIdle)
            && RouteOk(r', m1.s.nextSequence, w')
            && OnlyGpu(m.w, w', r.id) && w'.faults == m1.w.faults
  {
    assert SubmitReady(m1.w, r1, image, e.calls);
    SubmitKeepsRoute(m1.w, r1, image, stamp, r.frameInterval, e.calls, deadline, m1.s.nextSequence);
  }

  lemma CopyKeepsRoute(m: Machine, r: Route, e: Event, image: nat)
    requires CaptureReady(m, r, e, image) && ExportsOk(m.s, m.w)
    ensures var (m', proof, signalled) := CopyPresented(m, r, e, image);
            var r' := m'.s.route.value;
            && SamePlace(r, r') && (r.gpuIdle || !r'.gpuIdle)
            && RouteOk(r', m'.s.nextSequence, m'.w)
            && OnlyGpu(m.w, m'.w, r.id) && m'.w.faults == m.w.faults
            && m.s.nextSequence <= m'.s.nextSequence
            && m'.s == m.s.(route := Some(r'), nextSequence := m'.s.nextSequence)
  {
    var now := m.w.now;
    var (stamp, interval) := Cadence.VulkanCaptureTiming(r.samplingRate, r.nextSubmit, now, r.variableMinInterval);
    var deadline := Cadence.AdvanceCaptureDeadline(r.samplingRate == 0, r.nextSubmit, now, interval);
    var (m1, r1, proof) := TakeCompleted(m, r, e.calls.oldestReady);
    TakeShape(m, r, e.calls.oldestReady);
    TakeKeepsRoute(m, r, e.calls.oldestReady);
    DueStampFits(r1, m1.w.gpus[r.id].handedOff, m1.w.gpus[r.id].captures, now);
    SubmitAfterTake(m, r, m1, r1, e, image, stamp, deadline);
  }

  lemma CopyKeepsProof(m: Machine, r: Route, e: Event, image: nat)
    requires CaptureReady(m, r, e, image)
    ensures var (m', proof, signalled) := CopyPresented(m, r, e, image);
            proof.Some? && proof.value.exportSequence.Some? ==>
              && proof.value.exportSequence.value == m.s.nextSequence < m'.s.nextSequence
              && ProofHeld(m'.s.route.value, proof.value, m.s.nextSequence)
  {
    var (stamp, interval) := Cadence.VulkanCaptureTiming(r.samplingRate, r.nextSubmit, m.w.now, r.variableMinInterval);
    var (m1, r1, proof) := TakeCompleted(m, r, e.calls.oldestReady);
    TakeShape(m, r, e.calls.oldestReady);
    if proof.Some? && proof.value.exportSequence.Some? {
      SubmitKeepsProof(m1.w, r1, image, stamp, r.frameInterval, e.calls, proof.value, m.s.nextSequence);
    }
  }

  /** Only the presented image's semaphore can be signalled, and an image whose submission
      was refused loses its semaphore. */
  predicate SemaphoresAfter(r: Route, g: Gpu, r': Route, g': Gpu, i: nat, signalled: bool) {
    && g'.detached == g.detached
    && |g'.reacquired| == |g.reacquired| && |r'.presentationUsable| == |r.presentationUsable|
    && (forall j :: 0 <= j < |g.reacquired| && j != i ==> g'.reacquired[j] == g.reacquired[j])
    && (forall j :: 0 <= j < |r.presentationUsable| && j != i ==> r'.presentationUsable[j] == r.presentationUsable[j])
    && (!signalled && i < |g.reacquired| && i < |r.presentationUsable| ==>
          (g'.reacquired[i] == g.reacquired[i] && r'.presentationUsable[i] == r.presentationUsable[i])
          || !r'.presentationUsable[i])
  }

  lemma CopySemaphores(m: Machine, r: Route, e: Event, image: nat)
    requires CallsFit(e, r) && e.now.Some? && Backed(m.w, r)
    ensures var (m', proof, signalled) := CopyPresented(m, r, e, image);
            && r.id in m'.w.gpus
            && SemaphoresAfter(r, m.w.gpus[r.id], m'.s.route.value, m'.w.gpus[r.id], image, signalled)
  {
    TakeShape(m, r, e.calls.oldestReady);
    var (m1, r1, proof) := TakeCompleted(m, r, e.calls.oldestReady);
    var (stamp, interval) := Cadence.VulkanCaptureTiming(r.samplingRate, r.nextSubmit, e.now.value, r.variableMinInterval);
    SubmitSemaphores(m1.w, r1, image, stamp, r.frameInterval, e.calls);
  }

  lemma SubmitSemaphores(w: World, r: Route, i: nat, stamp: nat, duration: nat, calls: DriverCalls)
    requires |calls.ready| == |r.contexts| && Backed(w, r)
    ensures var (w', r', signalled) := SubmitNext(w, r, i, stamp, duration, calls);
            r.id in w'.gpus && SemaphoresAfter(r, w.gpus[r.id], r', w'.gpus[r.id], i, signalled)
  {
    if i < MAX_IMAGES && r.presentationUsable[i] && i < r.imageCount {
      var free := FirstEligible(r.contexts, calls.ready, 0);
      if free.Some? {
        SubmitIntoSemaphores(w, r, free.value, i, RecordCopy(r.exportRequired, r.contexts[free.value].capturedAt != 0),
                             stamp, duration, calls);
      }
    }
  }

  lemma SubmitIntoSemaphores(w: World, r: Route, k: nat, i: nat, commands: seq<Command>, stamp: nat, duration: nat,
                             calls: DriverCalls)
    requires Backed(w, r) && k < |r.contexts| && i < MAX_IMAGES
    ensures var (w', r', signalled) := SubmitInto(w, r, k, i, commands, stamp, duration, calls);
            r.id in w'.gpus && SemaphoresAfter(r, w.gpus[r.id], r', w'.gpus[r.id], i, signalled)
  {
  }

  lemma RouteWorkKeepsSlots(s: State, s': State, w: World, w': World)
    requires |s.retired| == 2 && SlotsOk(s, w) && w'.live == w.live && s.route.Some? && s'.route.Some?
    requires s' == s.(route := s'.route, nextSequence := s'.nextSequence)
    requires SamePlace(s.route.value, s'.route.value) && !s'.route.value.gpuIdle
    ensures SlotsOk(s', w')
  {
    assert Slot(s, 0) == s.route;
    forall k | 0 <= k < 5
      ensures Slot(s', k) == if k == 0 then s'.route else Slot(s, k)
    {
    }
  }

  lemma RouteWorkKeepsSemaphores(s: State, s': State, w: World, w': World, i: nat, signalled: bool)
    requires s.route.Some? && s'.route.Some? && s'.presentationUncertain == s.presentationUncertain
    requires var r, r' := s.route.value, s'.route.value;
             && SamePlace(r, r') && OnlyGpu(w, w', r.id)
             && |r.presentationUsable| == |w.gpus[r.id].reacquired|
             && SemaphoresAfter(r, w.gpus[r.id], r', w'.gpus[r.id], i, signalled)
    requires SemaphoresOk(s, w)
    ensures SemaphoresHold(s', w', if signalled then i else -1)
  {
    var r, r' := s.route.value, s'.route.value;
    assert forall j :: InCall(w, r, j) ==> InCall(w', r', j);
  }

  lemma CopyKeeps(m: Machine, r: Route, e: Event, image: nat)
    requires Inv(m) && CaptureReady(m, r, e, image)
    ensures var (m', proof, signalled) := CopyPresented(m, r, e, image);
            && InvExcept(m', if signalled then image else -1)
            && m'.w.faults == m.w.faults
            && m'.s.route.Some? && SamePlace(r, m'.s.route.value)
            && m'.s == m.s.(route := m'.s.route, nextSequence := m'.s.nextSequence)
            && m'.w == m.w.(gpus := m'.w.gpus)
  {
    var (m', proof, signalled) := CopyPresented(m, r, e, image);
    CopyKeepsRoute(m, r, e, image);
    CopySemaphores(m, r, e, image);
    WorkedRouteKeeps(m, m', image, signalled);
  }

  /** Work on the active route that keeps it sound keeps the rest of the invariant. */
  lemma WorkedRouteKeeps(m: Machine, m': Machine, image: nat, signalled: bool)
    requires Inv(m) && m.s.route.Some? && m'.s.route.Some? && m.s.nextSequence <= m'.s.nextSequence
    requires m'.s == m.s.(route := m'.s.route, nextSequence := m'.s.nextSequence)
    requires var r, r' := m.s.route.value, m'.s.route.value;
             && SamePlace(r, r') && !r'.gpuIdle && RouteOk(r', m'.s.nextSequence, m'.w)
             && OnlyGpu(m.w, m'.w, r.id) && m'.w.faults == m.w.faults
             && |r.presentationUsable| == |m.w.gpus[r.id].reacquired|
             && SemaphoresAfter(r, m.w.gpus[r.id], r', m'.w.gpus[r.id], image, signalled)
    ensures InvExcept(m', if signalled then image else -1)
  {
    RouteWorkKeepsCore(m, m'.s.route.value, m'.s.nextSequence, m'.w);
    RouteWorkKeepsSlots(m.s, m'.s, m.w, m'.w);
    RouteWorkKeepsSemaphores(m.s, m'.s, m.w, m'.w, image, signalled);
  }

  // ---- Announcing the completed copy ----

  lemma DeliverKeepsCore(m: Machine, k: nat, sequence: nat, timestamp: nat, lastExport: nat)
    requires Core(m) && m.s.route.Some? && ExportsOk(m.s, m.w)
    requires LeaseHeld(m.s.route.value, k, sequence) && sequence !in m.w.leases
    ensures Core(Machine(m.s.(lastExport := lastExport), Deliver(m.w, sequence, m.s.route.value.id, k, timestamp)))
  {
    var r := m.s.route.value;
    var w' := Deliver(m.w, sequence, r.id, k, timestamp);
    var s' := m.s.(lastExport := lastExport);
    assert Slot(m.s, 0) == Some(r);
    forall j | 0 <= j < 5 && Slot(m.s, j).Some?
      ensures RouteOk(Slot(m.s, j).value, m.s.nextSequence, w')
    {
      var r1 := Slot(m.s, j).value;
      assert RouteOk(r1, m.s.nextSequence, m.w);
      forall q | q in w'.leases && w'.leases[q].0 == r1.id
        ensures LeaseHeld(r1, w'.leases[q].1, q)
      {
        if q == sequence {
          assert j == 0;
        } else {
          assert LeaseHeld(r1, m.w.leases[q].1, q);
        }
      }
    }
    assert Core(m.(w := w'));
    assert forall j :: 0 <= j < 5 ==> Slot(s', j) == Slot(m.s, j);
    SameCore(m.(w := w'), s');
  }

  /** Any update of routes in place that keeps RouteOk keeps the invariant for a present in
      preparation. */
  lemma MapKeepsExcept(m: Machine, m': Machine, except: int)
    requires InvExcept(m, except) && |m'.s.retired| == 2 && SameSlots(m.s, m'.s) && RoutesOk(m')
    requires m' == m.(s := m.s.(route := m'.s.route, retired := m'.s.retired, abandoned := m'.s.abandoned,
                                quarantined := m'.s.quarantined))
    requires m'.s.route.Some? ==>
               && !m'.s.route.value.gpuIdle
               && m.s.route.Some? && m'.s.route.value.presentationUsable == m.s.route.value.presentationUsable
    ensures InvExcept(m', except)
  {
    forall id | id in m'.w.alive
      ensures exists k :: 0 <= k < 5 && Slot(m'.s, k).Some? && Slot(m'.s, k).value.id == id
    {
      var k :| 0 <= k < 5 && Slot(m.s, k).Some? && Slot(m.s, k).value.id == id;
      assert Slot(m'.s, k).Some? && SamePlace(Slot(m.s, k).value, Slot(m'.s, k).value);
    }
    assert Slot(m.s, 0).Some? <==> Slot(m'.s, 0).Some?;
    assert Slot(m.s, 0).Some? ==> SamePlace(Slot(m.s, 0).value, Slot(m'.s, 0).value);
    assert Slot(m.s, 3).Some? <==> Slot(m'.s, 3).Some?;
    assert Slot(m.s, 4).Some? <==> Slot(m'.s, 4).Some?;
    if m'.s.route.Some? {
      assert forall i :: InCall(m.w, m.s.route.value, i) ==> InCall(m'.w, m'.s.route.value, i);
    }
  }

  lemma RestoreKeeps(m: Machine, sequence: nat, except: int)
    requires InvExcept(m, except) && sequence !in m.w.leases
    ensures var f := Releasing(sequence);
            InvExcept(m.(s := MapRetired(m.s, f).(route := MapSlot(m.s.route, f))), except)
  {
    var f := Releasing(sequence);
    var m' := m.(s := MapRetired(m.s, f).(route := MapSlot(m.s.route, f)));
    MappedSlots(m.s, f);
    forall k | 0 <= k < 5 && Slot(m'.s, k).Some?
      ensures RouteOk(Slot(m'.s, k).value, m'.s.nextSequence, m'.w)
    {
      ReleaseKeepsRoute(Slot(m.s, k).value, m.s.nextSequence, m.w, sequence);
    }
    MapKeepsExcept(m, m', except);
  }

  lemma HandOffKeeps(m: Machine, proof: CopyProof, delivered: bool, except: int)
    requires InvExcept(m, except) && m.s.route.Some? && m.s.lastExport < U64_MAX
    requires proof.exportSequence.Some? ==>
               var q := proof.exportSequence.value;
               && LeaseHeld(m.s.route.value, proof.context, q)
               && q !in m.w.leases && q !in m.w.released && 0 < q < m.s.nextSequence
    ensures var m' := CompleteHandOff(m, m.s.route.value.id, proof, delivered);
            && InvExcept(m', except) && m'.w.faults == m.w.faults
            && m'.s.route.Some? && m'.s.route.value.id == m.s.route.value.id
            && HandleOf(m'.s.route.value) == HandleOf(m.s.route.value)
            && m'.w.calls == m.w.calls && m'.w.acquired == m.w.acquired && m'.w.gpus == m.w.gpus
            && m'.s.presentationUncertain == m.s.presentationUncertain
  {
    var r := m.s.route.value;
    var m' := CompleteHandOff(m, r.id, proof, delivered);
    var timestamp := Cadence.MonotonicExportTimestamp(m.s.lastExport, proof.timestamp);
    assert m.s.lastExport < timestamp;
    if proof.exportSequence.None? {
      LaterExportKeeps(m, timestamp, except);
    } else if delivered {
      DeliveryKeeps(m, proof.context, proof.exportSequence.value, timestamp, except);
    } else {
      RestoreKeeps(m, proof.exportSequence.value, except);
    }
  }

  lemma LaterExportKeeps(m: Machine, timestamp: nat, except: int)
    requires InvExcept(m, except) && m.s.lastExport < timestamp
    ensures InvExcept(m.(s := m.s.(lastExport := timestamp)), except)
  {
    var s' := m.s.(lastExport := timestamp);
    assert forall k :: 0 <= k < 5 ==> Slot(s', k) == Slot(m.s, k);
    SameCore(m, s');
  }

  lemma DeliverKeepsExports(s: State, w: World, id: nat, k: nat, sequence: nat, timestamp: nat)
    requires ExportsOk(s, w) && s.lastExport < timestamp && id in w.gpus
    requires sequence !in w.leases && sequence !in w.released && 0 < sequence < s.nextSequence
    ensures var w' := Deliver(w, sequence, id, k, timestamp);
            ExportsOk(s.(lastExport := timestamp), w') && w'.faults == w.faults
  {
  }

  lemma DeliveryKeeps(m: Machine, k: nat, sequence: nat, timestamp: nat, except: int)
    requires InvExcept(m, except) && m.s.route.Some? && m.s.lastExport < timestamp
    requires LeaseHeld(m.s.route.value, k, sequence)
    requires sequence !in m.w.leases && sequence !in m.w.released && 0 < sequence < m.s.nextSequence
    ensures var m' := Machine(m.s.(lastExport := timestamp), Deliver(m.w, sequence, m.s.route.value.id, k, timestamp));
            InvExcept(m', except) && m'.w.faults == m.w.faults
  {
    var r := m.s.route.value;
    var m' := Machine(m.s.(lastExport := timestamp), Deliver(m.w, sequence, r.id, k, timestamp));
    assert Slot(m.s, 0) == Some(r) && RouteOk(r, m.s.nextSequence, m.w);
    DeliverKeepsCore(m, k, sequence, timestamp, timestamp);
    DeliverKeepsExports(m.s, m.w, r.id, k, sequence, timestamp);
    assert forall j :: 0 <= j < 5 ==> Slot(m'.s, j) == Slot(m.s, j);
    assert forall i :: InCall(m.w, r, i) ==> InCall(m'.w, r, i);
  }

  lemma CaptureKeeps(m: Machine, r: Route, e: Event, image: nat)
    requires Inv(m) && CaptureReady(m, r, e, image) && m.s.lastExport < U64_MAX
    ensures var (m', signalled) := CapturePresent(m, r, e, image);
            && InvExcept(m', if signalled then image else -1) && m'.w.faults == m.w.faults
            && m'.s.route.Some? && m'.s.route.value.id == r.id && HandleOf(m'.s.route.value) == HandleOf(r)
            && m'.w.calls == m.w.calls && m'.w.acquired == m.w.acquired
            && m'.s.presentationUncertain == m.s.presentationUncertain
  {
    var (m1, proof, signalled) := CopyPresented(m, r, e, image);
    CopyKeeps(m, r, e, image);
    if proof.Some? {
      CopyKeepsProof(m, r, e, image);
      if proof.value.exportSequence.Some? {
        assert m.s.nextSequence !in m.w.leases;
      }
      HandOffKeeps(m1, proof.value, e.delivered, if signalled then image else -1);
    }
  }
}

/** What holds in every reachable state of the Vulkan replay producer. */
module ReplayInvariant {
  import opened Wrappers
  import opened Messages
  import opened ReplayWorld
  import opened ReplayState
  import opened ReplayMachine
  import Cadence
  import Pacing

  /** A pending context is usable; a usable context without a pending copy has a signalled
      fence; and a positive capture time records exactly that the buffer went to FOREIGN. */
  predicate ContextOk(c: Context, fence: Fence, buffer: Family, exportRequired: bool) {
    && (c.pending ==> c.usable && fence != Unsignaled && c.capturedAt > 0)
    && (c.usable && !c.pending ==> fence == Signaled)
    && (c.usable ==> buffer == (if exportRequired && c.capturedAt != 0 then Foreign else Producer))
  }

  /** The newest capture time the route may have used so far. */
  function NewestStamp(r: Route, now: nat): nat {
    if r.samplingRate == 0 then now
    else if r.nextSubmit == 0 then 0
    else Cadence.SaturatingSub(r.nextSubmit, Cadence.FrameIntervalForFps(r.samplingRate))
  }

  predicate StampsOk(r: Route, handedOff: nat, now: nat) {
    && r.samplingRate in {0, 30, 60, 120}
    && handedOff <= NewestStamp(r, now) <= now
    && forall k :: 0 <= k < |r.contexts| && r.contexts[k].pending ==>
         handedOff <= r.contexts[k].capturedAt <= NewestStamp(r, now) && r.contexts[k].duration == r.frameInterval
  }

  /** The route records its candidate: 32 bits a pixel, the rate's own interval, that rate or none. */
  predicate Described(r: Route) {
    && r.candidate.targetFramesPerSecond in {30, 60, 120}
    && r.frameInterval == 1_000_000_000 / r.candidate.targetFramesPerSecond
    && r.samplingRate in {0, r.candidate.targetFramesPerSecond}
    && r.copiedBytes == r.candidate.width * r.candidate.height * 4
    && r.variableMinInterval == Cadence.VulkanVariableInterval(r.candidate.width, r.candidate.height)
  }

  /** The route's own fields against the GPU state behind it. */
  predicate RouteMatches(r: Route, g: Gpu, now: nat) {
    && |r.contexts| == |g.fences| == |g.buffers|
    && REPLAY_PRODUCER_CONTEXT_COUNT <= |r.contexts| <= MAX_IMAGES
    && |r.presentationUsable| == |r.presentationPending| == |g.waits| == |g.reacquired| == |r.images| == MAX_IMAGES
    && r.imageCount <= MAX_IMAGES
    && g.handle == HandleOf(r)
    && g.queue == r.queue
    && (forall k :: 0 <= k < |r.contexts| ==> ContextOk(r.contexts[k], g.fences[k], g.buffers[k], r.exportRequired))
    && (forall i :: 0 <= i < MAX_IMAGES && g.waits[i] ==> r.presentationPending[i])
    && (r.gpuIdle ==> Idle(g))
    && StampsOk(r, g.handedOff, now) && Described(r)
    && Pacing.Paced(r.samplingRate, r.nextSubmit, r.variableMinInterval, g.captures)
  }

  /** A lease on a context of this route is the context's current, unreleased sequence,
      and no copy into that context is outstanding. */
  predicate LeaseHeld(r: Route, k: nat, sequence: nat) {
    && k < |r.contexts|
    && r.contexts[k].exportFd >= 3
    && r.contexts[k].exportSequence == sequence
    && !r.contexts[k].exportReleased
    && !r.contexts[k].pending
  }

  predicate LeasesMatch(r: Route, leases: map<nat, (nat, nat)>) {
    forall s :: s in leases && leases[s].0 == r.id ==> LeaseHeld(r, leases[s].1, s)
  }

  /** Issued sequences are below the counter, exported, and never shared by two contexts. */
  predicate SequencesBelow(r: Route, next: nat) {
    && (forall k :: 0 <= k < |r.contexts| ==>
          && r.contexts[k].exportSequence < next
          && (r.contexts[k].exportSequence != 0 ==> r.contexts[k].exportFd >= 3))
    && (forall j, k :: 0 <= j < k < |r.contexts| && r.contexts[j].exportSequence == r.contexts[k].exportSequence ==>
          r.contexts[j].exportSequence == 0)
  }

  predicate RouteOk(r: Route, next: nat, w: World) {
    && r.id in w.gpus
    && r.id in w.alive
    && RouteMatches(r, w.gpus[r.id], w.now)
    && LeasesMatch(r, w.leases)
    && SequencesBelow(r, next)
  }

  predicate RoutesOk(m: Machine)
    requires |m.s.retired| == 2
  {
    forall k :: 0 <= k < 5 && Slot(m.s, k).Some? ==> RouteOk(Slot(m.s, k).value, m.s.nextSequence, m.w)
  }

  /** Each route that is not destroyed is owned by exactly one slot. */
  predicate Conserved(s: State, alive: set<nat>)
    requires |s.retired| == 2
  {
    && (forall j, k :: 0 <= j < k < 5 && Slot(s, j).Some? && Slot(s, k).Some? ==> Slot(s, j).value.id != Slot(s, k).value.id)
    && (forall id :: id in alive ==> exists k :: 0 <= k < 5 && Slot(s, k).Some? && Slot(s, k).value.id == id)
  }

  predicate WaitingDescribed(p: PendingSwapchain) {
    && p.candidate.targetFramesPerSecond in {30, 60, 120}
    && p.copiedBytes == p.candidate.width * p.candidate.height * 4
  }

  /** Slot discipline: an overflow route excludes an active one, and a waiting swapchain
      beside an active route replaces that route. */
  predicate SlotsOk(s: State, w: World)
    requires |s.retired| == 2
  {
    && s.quarantined.None?
    && (s.abandoned.Some? ==> s.route.None? && s.disabled)
    && (s.route.Some? ==> !s.route.value.gpuIdle && HandleOf(s.route.value) in w.live)
    && (forall k :: 0 <= k < 5 && Slot(s, k).Some? ==> Slot(s, k).value.device in s.devices)
    && (forall k :: 1 <= k < 5 && Slot(s, k).Some? ==> HandleOf(Slot(s, k).value) !in w.live)
    && (s.pendingSwapchain.Some? ==>
          && Handle(s.pendingSwapchain.value.device, s.pendingSwapchain.value.swapchain) in w.live
          && WaitingDescribed(s.pendingSwapchain.value))
    && (s.pendingSwapchain.Some? && s.route.Some? ==>
          && s.pendingSwapchain.value.device == s.route.value.device
          && s.pendingSwapchain.value.replaced == s.route.value.swapchain)
  }

  /** An image of the active swapchain that the application owns had its semaphore's wait
      consumed, or that semaphore is given up, or a present with it is running, or capture
      is latched off. */
  predicate SemaphoresOk(s: State, w: World) { SemaphoresHold(s, w, -1) }

  predicate SemaphoresHold(s: State, w: World, except: int) {
    s.route.Some? && s.route.value.id in w.gpus ==>
      var r := s.route.value;
      var g := w.gpus[r.id];
      && !g.detached
      && forall i :: 0 <= i < |g.reacquired| && i < |r.presentationUsable| && i != except
                     && (HandleOf(r), i) in w.acquired ==>
           g.reacquired[i] || !r.presentationUsable[i] || s.presentationUncertain || InCall(w, r, i)
  }

  predicate InCall(w: World, r: Route, i: nat) {
    exists q :: q in w.calls && w.calls[q].semaphore == Some((r.id, i)) && (HandleOf(r), i) in w.calls[q].images
  }

  /** Leases, sequences and exported timestamps. */
  predicate ExportsOk(s: State, w: World) {
    && 0 < s.nextSequence
    && (forall q :: q in w.leases ==> 0 < q < s.nextSequence && q !in w.released && w.leases[q].0 in w.gpus)
    && (forall q :: q in w.released ==> q < s.nextSequence)
    && (forall i :: 0 <= i < |w.exports| ==> w.exports[i] <= s.lastExport)
    && (forall i, j :: 0 <= i < j < |w.exports| ==> w.exports[i] < w.exports[j])
    && w.alive <= w.gpus.Keys
  }

  predicate Inv(m: Machine) {
    && |m.s.retired| == 2
    && RoutesOk(m)
    && Conserved(m.s, m.w.alive)
    && SlotsOk(m.s, m.w)
    && SemaphoresOk(m.s, m.w)
    && ExportsOk(m.s, m.w)
  }

  lemma InitialInv()
    ensures Inv(Initial)
  {
  }
}

/** How each update of a single route keeps what holds of it. */
module ReplayRouteLemmas {
  import opened Wrappers
  import opened Messages
  import opened ReplayWorld
  import opened ReplayState
  import opened ReplayMachine
  import opened ReplayInvariant
  import Cadence

  /** Fields that place a route in the machine; no update of a single route changes them. */
  predicate SamePlace(r: Route, r': Route) {
    r'.id == r.id && r'.device == r.device && r'.swapchain == r.swapchain && r'.queue == r.queue
  }

  lemma ReleaseKeepsRoute(r: Route, next: nat, w: World, sequence: nat)
    requires RouteOk(r, next, w) && sequence !in w.leases
    ensures RouteOk(ReleaseRoute(r, sequence), next, w)
  {
    var r' := ReleaseRoute(r, sequence);
    var g := w.gpus[r.id];
    assert NewestStamp(r', w.now) == NewestStamp(r, w.now);
    forall k | 0 <= k < |r'.contexts|
      ensures ContextOk(r'.contexts[k], g.fences[k], g.buffers[k], r'.exportRequired)
    {
      assert ContextOk(r.contexts[k], g.fences[k], g.buffers[k], r.exportRequired);
    }
    forall s | s in w.leases && w.leases[s].0 == r'.id
      ensures LeaseHeld(r', w.leases[s].1, s)
    {
      assert LeaseHeld(r, w.leases[s].1, s);
    }
  }

  lemma ConfirmKeepsRoute(r: Route, next: nat, w: World, handle: Handle, i: nat, fence: bool, signaled: bool)
    requires RouteOk(r, next, w)
    requires HandleOf(r) == handle && signaled && i < MAX_IMAGES ==> !w.gpus[r.id].waits[i]
    ensures RouteOk(ConfirmReacquisition(r, handle, i, fence, signaled), next, w)
  {
    var r' := ConfirmReacquisition(r, handle, i, fence, signaled);
    assert NewestStamp(r', w.now) == NewestStamp(r, w.now);
    assert forall s, k :: LeaseHeld(r, k, s) ==> LeaseHeld(r', k, s);
  }

  lemma MarkIdleKeepsRoute(r: Route, next: nat, w: World, matches: bool)
    requires RouteOk(r, next, w)
    requires matches ==> Idle(w.gpus[r.id])
    ensures RouteOk(MarkIdle(r, matches), next, w)
  {
    var r' := MarkIdle(r, matches);
    assert NewestStamp(r', w.now) == NewestStamp(r, w.now);
    assert forall s, k :: LeaseHeld(r, k, s) ==> LeaseHeld(r', k, s);
  }

  /** A route depends only on its own GPU state, on the leases it holds and on the clock. */
  lemma FrameRoute(r: Route, next: nat, next': nat, w: World, w': World)
    requires RouteOk(r, next, w) && next <= next' && w.now <= w'.now
    requires r.id in w'.gpus && r.id in w'.alive
    requires RouteMatches(r, w.gpus[r.id], w.now) ==> RouteMatches(r, w'.gpus[r.id], w.now)
    requires forall s :: s in w'.leases && w'.leases[s].0 == r.id ==> s in w.leases && w.leases[s] == w'.leases[s]
    ensures RouteOk(r, next', w')
  {
    forall s | s in w'.leases && w'.leases[s].0 == r.id
      ensures LeaseHeld(r, w'.leases[s].1, s)
    {
      assert LeaseHeld(r, w.leases[s].1, s);
    }
  }

  lemma AcquireKeepsMatch(r: Route, g: Gpu, now: nat, handle: Handle, i: nat, completed: bool)
    requires RouteMatches(r, g, now)
    ensures RouteMatches(r, AcquireGpu(g, handle, i, completed), now)
  {
  }

  lemma CompleteKeepsMatch(r: Route, g: Gpu, now: nat, k: nat)
    requires RouteMatches(r, g, now) && k < |g.fences| && g.fences[k] == InFlight
    ensures RouteMatches(r, g.(fences := g.fences[k := Signaled]), now)
  {
    var g' := g.(fences := g.fences[k := Signaled]);
    forall j | 0 <= j < |r.contexts|
      ensures ContextOk(r.contexts[j], g'.fences[j], g'.buffers[j], r.exportRequired)
    {
      assert ContextOk(r.contexts[j], g.fences[j], g.buffers[j], r.exportRequired);
    }
  }
}

/** The surroundings of the Vulkan replay producer: the GPU driver, the presenting
    application and the frame-consuming daemon. Every call the producer makes is recorded
    here, and each rule the producer must respect is a monitor: breaking it adds a `Fault`. */
module ReplayWorld {
  import opened Wrappers

  /** A swapchain handle of one device. */
  datatype Handle = Handle(device: nat, swapchain: nat)

  /** A copy fence: signalled, reset, or attached to work the GPU has not finished. */
  datatype Fence = Signaled | Unsignaled | InFlight

  /** The queue family that owns a buffer: the producer's own, or FOREIGN. */
  datatype Family = Producer | Foreign

  datatype Layout = PresentSource | TransferSource

  /** The commands that one copy submission records, in order. */
  datatype Command =
    | BufferTransfer(source: Family, destination: Family)
    | ImageTransition(before: Layout, after: Layout)
    | CopyImageToBuffer
    | HostVisibility

  datatype Ownership = Ownership(buffer: Family, image: Layout)

  /** GPU-visible state behind one route: a fence and a buffer per copy context, a
      semaphore per swapchain image. `reacquired[i]` says that image i was acquired since
      its semaphore was last signalled (or it never was); `waits[i]` that no completed
      acquisition has been seen since. `detached` marks a destroyed swapchain; `captures` lists the
      capture times of the accepted submissions. */
  datatype Gpu = Gpu(
    handle: Handle,
    queue: nat,
    detached: bool,
    fences: seq<Fence>,
    buffers: seq<Family>,
    reacquired: seq<bool>,
    waits: seq<bool>,
    handedOff: nat,
    captures: seq<nat>)

  /** A present call that has been forwarded and has not returned. */
  datatype PresentCall = PresentCall(images: set<(Handle, nat)>, semaphore: Option<(nat, nat)>)

  datatype Fault =
    | RouteIdReused | FenceStillInUse | FenceNotReset | CopyIntoLease | SemaphoreNotConsumed | OwnershipMismatch
    | IncompleteCopy | OutOfOrder | SequenceReused | TimestampNotIncreasing
    | DestroyedTwice | DestroyedInFlight | DestroyedWaiting | DestroyedLeased | Leaked

  datatype World = World(
    gpus: map<nat, Gpu>,
    alive: set<nat>,
    leases: map<nat, (nat, nat)>,
    released: set<nat>,
    live: set<Handle>,
    acquired: set<(Handle, nat)>,
    calls: map<nat, PresentCall>,
    now: nat,
    exports: seq<nat>,
    faults: set<Fault>)

  const InitialWorld: World := World(map[], {}, map[], {}, {}, {}, map[], 0, [], {})

  const MAX_IMAGES: nat := 8

  function Flag(condition: bool, fault: Fault): set<Fault> { if condition then {} else {fault} }

  predicate HasContext(w: World, id: nat, k: nat) {
    && id in w.gpus
    && k < |w.gpus[id].fences| == |w.gpus[id].buffers|
  }

  predicate HasImage(w: World, id: nat, i: nat) {
    && id in w.gpus
    && i < |w.gpus[id].waits| == |w.gpus[id].reacquired|
  }

  predicate Idle(g: Gpu) { forall k :: 0 <= k < |g.fences| ==> g.fences[k] != InFlight }

  predicate NoWaits(g: Gpu) { forall i :: 0 <= i < |g.waits| ==> !g.waits[i] }

  predicate Leased(w: World, id: nat, k: nat) { exists s :: s in w.leases && w.leases[s] == (id, k) }

  predicate AnyLease(w: World, id: nat) { exists s :: s in w.leases && w.leases[s].0 == id }

  // ---- Driver calls ----

  /** Replay the barriers of one submission; None is an ownership or layout mismatch. */
  function Execute(state: Ownership, commands: seq<Command>): Option<Ownership>
    decreases commands
  {
    if commands == [] then Some(state)
    else
      var next := match commands[0]
        case BufferTransfer(source, destination) =>
          if state.buffer == source then Some(state.(buffer := destination)) else None
        case ImageTransition(before, after) =>
          if state.image == before then Some(state.(image := after)) else None
        case CopyImageToBuffer =>
          if state.buffer == Producer && state.image == TransferSource then Some(state) else None
        case HostVisibility => Some(state);
      if next.None? then None else Execute(next.value, commands[1..])
  }

  /** vkCreate*: fences start signalled, buffers belong to nobody else, semaphores are unused. */
  function CreateRoute(w: World, id: nat, handle: Handle, queue: nat, contexts: nat): World {
    w.(gpus := w.gpus[id := Gpu(handle, queue, false,
                                seq(contexts, _ => Signaled), seq(contexts, _ => Producer),
                                seq(MAX_IMAGES, _ => true), seq(MAX_IMAGES, _ => false), 0, [])],
       alive := w.alive + {id},
       faults := w.faults + Flag(id !in w.gpus, RouteIdReused))
  }

  /** Free every native object of a route. At device destruction queues are idle and all
      other children end with the device, so only work in flight is forbidden there. */
  function DestroyRoute(w: World, id: nat, withDevice: bool): World {
    w.(alive := w.alive - {id},
       faults := w.faults
         + Flag(id in w.alive, DestroyedTwice)
         + Flag(id in w.gpus && Idle(w.gpus[id]), DestroyedInFlight)
         + Flag(withDevice || (id in w.gpus && NoWaits(w.gpus[id])), DestroyedWaiting)
         + Flag(withDevice || !AnyLease(w, id), DestroyedLeased))
  }

  function ResetFence(w: World, id: nat, k: nat): World
    requires HasContext(w, id, k)
  {
    var g := w.gpus[id];
    w.(gpus := w.gpus[id := g.(fences := g.fences[k := Unsignaled])],
       faults := w.faults + Flag(g.fences[k] != InFlight, FenceStillInUse))
  }

  /** vkQueueSubmit of a copy of image i into context k: the semaphore of image i is
      signalled and the forwarded present will wait on it. `capture` is the capture time, unless the
      call reports an error although it executed. */
  function Submit(w: World, id: nat, k: nat, i: nat, commands: seq<Command>, capture: Option<nat>): World
    requires HasContext(w, id, k) && HasImage(w, id, i)
  {
    var g := w.gpus[id];
    var result := Execute(Ownership(g.buffers[k], PresentSource), commands);
    w.(gpus := w.gpus[id := g.(
         fences := g.fences[k := InFlight],
         buffers := g.buffers[k := if result.Some? then result.value.buffer else g.buffers[k]],
         reacquired := g.reacquired[i := false],
         waits := g.waits[i := true],
         captures := if capture.Some? then g.captures + [capture.value] else g.captures)],
       faults := w.faults
         + Flag(g.fences[k] == Unsignaled, FenceNotReset)
         + Flag(!Leased(w, id, k), CopyIntoLease)
         + Flag(g.reacquired[i], SemaphoreNotConsumed)
         + Flag(result.Some? && result.value.image == PresentSource, OwnershipMismatch))
  }

  /** A completed copy captured at `stamp` leaves context k of its route. */
  function HandOff(w: World, id: nat, k: nat, stamp: nat): World
    requires HasContext(w, id, k)
  {
    var g := w.gpus[id];
    w.(gpus := w.gpus[id := g.(handedOff := stamp)],
       faults := w.faults
         + Flag(g.fences[k] == Signaled, IncompleteCopy)
         + Flag(stamp >= g.handedOff, OutOfOrder))
  }

  /** The daemon received the descriptor of context k: it holds a lease until it acknowledges. */
  function Deliver(w: World, sequence: nat, id: nat, k: nat, timestamp: nat): World {
    w.(leases := w.leases[sequence := (id, k)],
       exports := w.exports + [timestamp],
       faults := w.faults
         + Flag(sequence !in w.leases && sequence !in w.released, SequenceReused)
         + Flag(w.exports == [] || timestamp > w.exports[|w.exports| - 1], TimestampNotIncreasing))
  }

  function Leak(w: World, id: nat): World {
    w.(faults := w.faults + {Leaked})
  }

  // ---- What the surroundings do by themselves ----

  /** One submission finishes on the GPU and signals its fence. */
  function Complete(w: World, id: nat, k: nat): World
    requires HasContext(w, id, k)
  {
    var g := w.gpus[id];
    w.(gpus := w.gpus[id := g.(fences := g.fences[k := if g.fences[k] == InFlight then Signaled else g.fences[k]])])
  }

  /** The daemon ends a lease; from now on its acknowledgement may arrive, any number of times. */
  function Acknowledge(w: World, sequence: nat): World {
    w.(leases := w.leases - {sequence}, released := w.released + {sequence})
  }

  function Set(flags: seq<bool>, i: nat, value: bool): seq<bool> { if i < |flags| then flags[i := value] else flags }

  function AcquireGpu(g: Gpu, handle: Handle, i: nat, completed: bool): Gpu {
    if g.handle != handle || g.detached then g
    else g.(reacquired := Set(g.reacquired, i, true), waits := if completed then Set(g.waits, i, false) else g.waits)
  }

  /** The application acquires an image; `completed` when its acquisition fence has signalled. */
  function AcquireImage(w: World, handle: Handle, i: nat, completed: bool): World {
    w.(acquired := w.acquired + {(handle, i)},
       gpus := map id | id in w.gpus :: AcquireGpu(w.gpus[id], handle, i, completed))
  }

  function Detach(g: Gpu, gone: bool): Gpu { if gone then g.(detached := true) else g }

  function OpenSwapchain(w: World, handle: Handle): World {
    w.(live := w.live + {handle})
  }

  /** vkDestroySwapchainKHR: no image of this handle can be acquired or presented again. */
  function CloseSwapchain(w: World, handle: Handle): World {
    w.(live := w.live - {handle},
       acquired := (set p | p in w.acquired && p.0 != handle),
       gpus := map id | id in w.gpus :: Detach(w.gpus[id], w.gpus[id].handle == handle))
  }

  function CloseDevice(w: World, device: nat): World {
    w.(live := (set h | h in w.live && h.device != device),
       acquired := (set p | p in w.acquired && p.0.device != device),
       gpus := map id | id in w.gpus :: Detach(w.gpus[id], w.gpus[id].handle.device == device))
  }

  function ForwardPresent(w: World, queue: nat, images: set<(Handle, nat)>, semaphore: Option<(nat, nat)>): World {
    w.(calls := w.calls[queue := PresentCall(images, semaphore)])
  }

  /** A forwarded present returns. Success consumes the presented images; after a failure
      the application may still own any of them. */
  function ReturnPresent(w: World, queue: nat, failed: bool, kept: set<(Handle, nat)>): World
    requires queue in w.calls
  {
    w.(calls := w.calls - {queue},
       acquired := w.acquired - (if failed then w.calls[queue].images - kept else w.calls[queue].images))
  }
}

/** Recording over many presents: a daemon that keeps up to its pipeline depth and gives back the
    oldest buffer whenever one more arrives keeps receiving frames. */
module ReplayServing {
  import opened Wrappers
  import opened Messages
  import opened ReplayWorld
  import opened ReplayState
  import opened ReplayMachine
  import opened ReplayInvariant
  import opened ReplaySafety
  import opened ReplayPresentSteps
  import opened ReplayProgress
  import opened ReplayFirstFrame
  import Cadence

  // ---- A producer in service ----

  /** Exactly the context p is pending. */
  predicate PendingAt(contexts: seq<Context>, p: Option<nat>) {
    && (p.Some? ==> p.value < |contexts|)
    && forall k :: 0 <= k < |contexts| ==> (contexts[k].pending <==> p == Some(k))
  }

  /** One swapchain is recorded and nothing else is in service or waiting. */
  predicate Alone(s: State, r: Route) {
    s == State(s.devices, Some(r), None, [None, None], None, None, false, false, None, s.lastExport, false, s.nextSequence)
  }

  predicate Sound(r: Route) {
    && r.queue != 0
    && (forall k :: 0 <= k < |r.contexts| ==> r.contexts[k].usable && r.contexts[k].exportFd >= 3)
    && (forall i :: 0 <= i < |r.presentationUsable| ==> r.presentationUsable[i])
    && (forall i :: 0 <= i < r.imageCount && i < |r.images| ==> r.images[i] != 0)
  }

  /** The daemon holds the newest sequences, from lo on. */
  ghost predicate HoldsFrom(w: World, lo: nat, next: nat) {
    0 < lo <= next && forall q :: q in w.leases <==> lo <= q < next
  }

  ghost predicate InService(m: Machine, r: Route, p: Option<nat>, lo: nat) {
    && Inv(m) && Alone(m.s, r) && Sound(r) && m.w.gpus.Keys == {r.id}
    && PendingAt(r.contexts, p)
    && HoldsFrom(m.w, lo, m.s.nextSequence)
    && RouteKnown(r, m.w.leases.Keys)
  }

  /** No present is running and the application owns exactly these images of the swapchain. */
  ghost predicate Between(w: World, handle: Handle, images: set<nat>) {
    w.calls == map[] && forall i :: (handle, i) in w.acquired <==> i in images
  }

  predicate Finished(m: Machine, r: Route) {
    r.id in m.w.gpus && forall k :: 0 <= k < |m.w.gpus[r.id].fences| ==> m.w.gpus[r.id].fences[k] == Signaled
  }

  // ---- Counting contexts ----

  function Range(lo: nat, hi: nat): set<nat>
    decreases hi
  {
    if lo >= hi then {} else Range(lo, hi - 1) + {hi - 1}
  }

  lemma {:induction false} RangeSize(lo: nat, hi: nat)
    requires lo <= hi
    ensures |Range(lo, hi)| == hi - lo && forall q: nat :: q in Range(lo, hi) <==> lo <= q < hi
    decreases hi
  {
    if lo < hi {
      RangeSize(lo, hi - 1);
    }
  }

  predicate SequencesDistinct(contexts: seq<Context>) {
    forall j, k :: 0 <= j < k < |contexts| && contexts[j].exportSequence == contexts[k].exportSequence ==>
      contexts[j].exportSequence == 0
  }

  predicate WithheldIn(contexts: seq<Context>, lo: nat, hi: nat) {
    forall k :: 0 <= k < |contexts| && Withheld(contexts[k]) ==> lo <= contexts[k].exportSequence < hi
  }

  /** More contexts than sequences: one of them is free. */
  lemma SomeIsFree(contexts: seq<Context>, lo: nat, hi: nat)
    requires 0 < lo <= hi && hi - lo < |contexts| && SequencesDistinct(contexts) && WithheldIn(contexts, lo, hi)
    ensures exists k :: 0 <= k < |contexts| && !Withheld(contexts[k])
  {
    if forall k :: 0 <= k < |contexts| ==> Withheld(contexts[k]) {
      var all := Sequences(contexts);
      RangeSize(lo, hi);
      DistinctFit(all, Range(lo, hi));
    }
  }

  /** Sequence q is withheld by context at[q - lo]. */
  predicate Placed(contexts: seq<Context>, lo: nat, at: seq<nat>) {
    forall j :: 0 <= j < |at| ==>
      at[j] < |contexts| && Withheld(contexts[at[j]]) && contexts[at[j]].exportSequence == lo + j
  }

  /** As many sequences as contexts: none of them is free. */
  lemma NoneIsFree(contexts: seq<Context>, lo: nat, at: seq<nat>, k: nat)
    requires Placed(contexts, lo, at) && |at| >= |contexts| && k < |contexts|
    ensures Withheld(contexts[k])
  {
    if !Withheld(contexts[k]) {
      var others := Range(0, |contexts|) - {k};
      RangeSize(0, |contexts|);
      DistinctFit(at, others);
    }
  }

  // ---- The parts of one turn ----

  lemma ServiceFacts(m: Machine, r: Route, p: Option<nat>, lo: nat)
    requires InService(m, r, p, lo)
    ensures RouteOk(r, m.s.nextSequence, m.w) && Backed(m.w, r) && !r.gpuIdle && HandleOf(r) in m.w.live
    ensures OldestPendingContext(r.contexts) == p
    ensures m.w.gpus == map[r.id := m.w.gpus[r.id]] && !m.w.gpus[r.id].detached
  {
    assert Slot(m.s, 0) == Some(r);
  }

  /** The pending copy finishes on the GPU. */
  lemma CopyFinishes(m: Machine, r: Route, k: nat, lo: nat)
    requires InService(m, r, Some(k), lo)
    ensures Allowed(m, GpuCompletes(r.id, k))
    ensures var m' := m.(w := Complete(m.w, r.id, k)); InService(m', r, Some(k), lo) && Finished(m', r)
  {
    ServiceFacts(m, r, Some(k), lo);
    var g := m.w.gpus[r.id];
    assert forall j :: 0 <= j < |r.contexts| ==> ContextOk(r.contexts[j], g.fences[j], g.buffers[j], r.exportRequired);
    CompletionKeeps(m, GpuCompletes(r.id, k));
  }

  lemma NothingRuns(m: Machine, r: Route, lo: nat)
    requires InService(m, r, None, lo)
    ensures Finished(m, r)
  {
    ServiceFacts(m, r, None, lo);
    var g := m.w.gpus[r.id];
    assert forall j :: 0 <= j < |r.contexts| ==> ContextOk(r.contexts[j], g.fences[j], g.buffers[j], r.exportRequired);
  }

  function Confirmed(r: Route, i: nat): Route {
    if i < |r.presentationPending| then r.(presentationPending := r.presentationPending[i := false]) else r
  }

  lemma AcquireShape(m: Machine, r: Route, i: nat)
    requires Alone(m.s, r) && Sound(r) && Backed(m.w, r) && i < r.imageCount
    ensures var m' := AcquireStep(m, AcquireFor(r, i));
            && m'.s == m.s.(route := Some(Confirmed(r, i)))
            && m'.w == m.w.(acquired := m.w.acquired + {(HandleOf(r), i)}, gpus := m'.w.gpus)
            && m'.w.gpus.Keys == m.w.gpus.Keys
            && m'.w.gpus[r.id].fences == m.w.gpus[r.id].fences
  {
  }

  lemma ImageIsAcquired(m: Machine, r: Route, p: Option<nat>, lo: nat, i: nat)
    requires InService(m, r, p, lo) && Finished(m, r) && Between(m.w, HandleOf(r), {}) && i < r.imageCount
    ensures Allowed(m, AcquireFor(r, i))
    ensures var m' := AcquireStep(m, AcquireFor(r, i));
            && InService(m', Confirmed(r, i), p, lo) && Finished(m', r) && Between(m'.w, HandleOf(r), {i})
            && m'.w.exports == m.w.exports && m'.w.now == m.w.now && m'.s == m.s.(route := Some(Confirmed(r, i)))
  {
    var e := AcquireFor(r, i);
    ServiceFacts(m, r, p, lo);
    AcquireAllowed(m, r, i);
    AcquireStepKeeps(m, e);
    AcquireShape(m, r, i);
    ConfirmedShape(m, AcquireStep(m, e), r, p, lo, i);
  }

  lemma ConfirmedShape(m: Machine, m': Machine, r: Route, p: Option<nat>, lo: nat, i: nat)
    requires Shape(m, r, p, lo) && m'.s == m.s.(route := Some(Confirmed(r, i))) && m'.w.leases == m.w.leases
    ensures Shape(m', Confirmed(r, i), p, lo)
  {
  }

  lemma AcquireAllowed(m: Machine, r: Route, i: nat)
    requires |m.s.retired| == 2 && HandleOf(r) in m.w.live && Between(m.w, HandleOf(r), {})
    ensures Allowed(m, AcquireFor(r, i))
  {
  }

  // ---- The present ----

  /** The route after a copy was started in context k. */
  predicate Started(r: Route, r': Route, k: nat) {
    && k < |r.contexts| && |r'.contexts| == |r.contexts|
    && r' == r.(contexts := r'.contexts, presentationPending := r'.presentationPending, gpuIdle := r'.gpuIdle,
                nextSubmit := r'.nextSubmit)
    && r'.contexts == r.contexts[k := r'.contexts[k]]
    && r'.contexts[k] == r.contexts[k].(capturedAt := r'.contexts[k].capturedAt, duration := r'.contexts[k].duration,
                                        pending := true)
  }

  /** The daemon's and the application's side of the world is untouched. */
  predicate OnlyGpuWork(w: World, w': World) {
    w' == w.(gpus := w'.gpus, faults := w'.faults) && w'.gpus.Keys == w.gpus.Keys
  }

  predicate SomeEligible(r: Route) {
    exists k :: 0 <= k < |r.contexts| && Eligible(r.contexts[k], true)
  }

  /** A copy starts in an eligible context if there is one. */
  predicate CopyStarts(r: Route, r': Route, p': Option<nat>) {
    && (p'.Some? <==> SomeEligible(r))
    && if p'.Some? then p'.value < |r.contexts| && Eligible(r.contexts[p'.value], true) && Started(r, r', p'.value)
       else r' == r
  }

  lemma GoodSubmit(w: World, r: Route, i: nat, stamp: nat, duration: nat, calls: DriverCalls, deadline: nat)
    returns (p': Option<nat>)
    requires Backed(w, r) && i < r.imageCount && r.presentationUsable[i] && calls == Calls(|r.contexts|, true)
    ensures var (w', r', signalled) := SubmitNext(w, r, i, stamp, duration, calls);
            && OnlyGpuWork(w, w') && signalled == p'.Some?
            && CopyStarts(r, Advanced(r', signalled, deadline), p')
  {
    p' := FirstEligible(r.contexts, calls.ready, 0);
    assert forall k :: 0 <= k < |r.contexts| ==> calls.ready[k];
  }

  /** The route after the copy in context k was taken under this sequence. */
  function TakenRoute(r: Route, k: nat, sequence: nat): Route
    requires k < |r.contexts|
  {
    r.(contexts := r.contexts[k := r.contexts[k].(pending := false, exportReleased := false, exportSequence := sequence)])
  }

  /** The route that looks for a free context: after taking the pending copy, if there is one. */
  function Offered(r: Route, p: Option<nat>, next: nat): Route
    requires p.Some? ==> p.value < |r.contexts|
  {
    if p.None? then r else TakenRoute(r, p.value, next)
  }

  /** A due present of a finished producer, as one move. */
  predicate Turned(m: Machine, m': Machine, r: Route, p: Option<nat>, p': Option<nat>) {
    && m'.s.route.Some? && (p.Some? ==> p.value < |r.contexts|)
    && m'.s == m.s.(route := m'.s.route, lastExport := m'.s.lastExport,
                    nextSequence := m.s.nextSequence + (if p.Some? then 1 else 0))
    && m'.w == m.w.(gpus := m'.w.gpus, faults := m'.w.faults, leases := m'.w.leases, exports := m'.w.exports)
    && m'.w.gpus.Keys == m.w.gpus.Keys
    && m'.w.leases.Keys == m.w.leases.Keys + (if p.Some? then {m.s.nextSequence} else {})
    && |m'.w.exports| == |m.w.exports| + (if p.Some? then 1 else 0)
    && var r1, r2 := Offered(r, p, m.s.nextSequence), m'.s.route.value;
       CopyStarts(r1, r2, p')
  }

  /** Taking and submitting, before the taken copy is announced. */
  lemma CopyTurns(m: Machine, r: Route, p: Option<nat>, e: Event, image: nat) returns (p': Option<nat>)
    requires CallsFit(e, r) && e.now.Some? && Backed(m.w, r) && image < r.imageCount && r.presentationUsable[image]
    requires OldestPendingContext(r.contexts) == p && (p.Some? ==> r.contexts[p.value].exportFd >= 3)
    requires e.calls == Calls(|r.contexts|, true)
    ensures var (m', proof, signalled) := CopyPresented(m, r, e, image);
            && m'.s.route.Some?
            && m'.s == m.s.(route := m'.s.route, nextSequence := m.s.nextSequence + (if p.Some? then 1 else 0))
            && OnlyGpuWork(m.w, m'.w)
            && CopyStarts(Offered(r, p, m.s.nextSequence), m'.s.route.value, p') && signalled == p'.Some?
            && proof.Some? == p.Some? && (p.Some? ==> proof.value.exportSequence == Some(m.s.nextSequence))
  {
    var (stamp, interval) := Cadence.VulkanCaptureTiming(r.samplingRate, r.nextSubmit, e.now.value, r.variableMinInterval);
    var (m1, r1, proof) := TakeCompleted(m, r, true);
    TakeTurns(m, r, p);
    var deadline := Cadence.AdvanceCaptureDeadline(r.samplingRate == 0, r.nextSubmit, e.now.value, interval);
    p' := GoodSubmit(m1.w, r1, image, stamp, r.frameInterval, e.calls, deadline);
  }

  lemma TakeTurns(m: Machine, r: Route, p: Option<nat>)
    requires Backed(m.w, r) && OldestPendingContext(r.contexts) == p && (p.Some? ==> r.contexts[p.value].exportFd >= 3)
    ensures var (m', r', proof) := TakeCompleted(m, r, true);
            && r' == Offered(r, p, m.s.nextSequence) && Backed(m'.w, r') && OnlyGpuWork(m.w, m'.w)
            && m'.s == m.s.(nextSequence := m.s.nextSequence + (if p.Some? then 1 else 0))
            && proof.Some? == p.Some? && (p.Some? ==> proof.value.exportSequence == Some(m.s.nextSequence))
  {
  }

  lemma CaptureTurns(m: Machine, r: Route, p: Option<nat>, e: Event, image: nat) returns (p': Option<nat>)
    requires CallsFit(e, r) && e.now.Some? && Backed(m.w, r) && image < r.imageCount && r.presentationUsable[image]
    requires OldestPendingContext(r.contexts) == p && (p.Some? ==> r.contexts[p.value].exportFd >= 3)
    requires e.calls == Calls(|r.contexts|, true) && e.delivered && |m.s.retired| == 2
    ensures var (m', signalled) := CapturePresent(m, r, e, image);
            Turned(m, m', r, p, p') && signalled == p'.Some?
  {
    p' := CopyTurns(m, r, p, e, image);
  }

  lemma OfferedKept(r: Route, p: Option<nat>, lo: nat, next: nat, known: set<nat>)
    requires Sound(r) && PendingAt(r.contexts, p) && RouteKnown(r, known)
    ensures var r1 := Offered(r, p, next);
            && Sound(r1) && PendingAt(r1.contexts, None) && |r1.contexts| == |r.contexts|
            && RouteKnown(r1, if p.Some? then known + {next} else known)
  {
  }

  lemma StartKept(r: Route, r': Route, p': Option<nat>, known: set<nat>)
    requires Sound(r) && PendingAt(r.contexts, None) && RouteKnown(r, known) && CopyStarts(r, r', p')
    ensures Sound(r') && PendingAt(r'.contexts, p') && |r'.contexts| == |r.contexts| && RouteKnown(r', known)
    ensures r'.id == r.id && HandleOf(r') == HandleOf(r) && r'.queue == r.queue && r'.imageCount == r.imageCount
  {
  }

  /** The parts of `InService` that a turn changes. */
  ghost predicate Shape(m: Machine, r: Route, p: Option<nat>, lo: nat) {
    && Alone(m.s, r) && Sound(r) && PendingAt(r.contexts, p)
    && HoldsFrom(m.w, lo, m.s.nextSequence) && RouteKnown(r, m.w.leases.Keys)
  }

  lemma TurnKeepsShape(m: Machine, m': Machine, r: Route, p: Option<nat>, p': Option<nat>, lo: nat)
    requires Shape(m, r, p, lo) && Turned(m, m', r, p, p')
    ensures var r' := m'.s.route.value;
            && Shape(m', r', p', lo) && |r'.contexts| == |r.contexts|
            && r'.id == r.id && HandleOf(r') == HandleOf(r) && r'.queue == r.queue && r'.imageCount == r.imageCount
  {
    var r1 := Offered(r, p, m.s.nextSequence);
    OfferedKept(r, p, lo, m.s.nextSequence, m.w.leases.Keys);
    assert m.w.leases.Keys + {} == m.w.leases.Keys;
    StartKept(r1, m'.s.route.value, p', m'.w.leases.Keys);
    assert forall q :: q in m'.w.leases <==> q in m'.w.leases.Keys;
  }

  // ---- When a copy can start ----

  /** Where each held sequence is, oldest first, and the taken one last. */
  function Places(m: Machine, k: nat, lo: nat): seq<nat>
    requires lo <= m.s.nextSequence && forall q :: lo <= q < m.s.nextSequence ==> q in m.w.leases
  {
    seq(m.s.nextSequence - lo, j requires 0 <= j < m.s.nextSequence - lo => m.w.leases[lo + j].1) + [k]
  }

  lemma PlacesHold(m: Machine, r: Route, k: nat, lo: nat)
    requires InService(m, r, Some(k), lo)
    ensures Placed(TakenRoute(r, k, m.s.nextSequence).contexts, lo, Places(m, k, lo))
  {
    ServiceFacts(m, r, Some(k), lo);
    forall q | lo <= q < m.s.nextSequence
      ensures LeaseHeld(r, m.w.leases[q].1, q)
    {
      assert q in m.w.leases && m.w.leases[q].0 == r.id;
    }
  }

  /** With up to four buffers held, a copy starts unless the pending one has just filled the pool. */
  lemma CopyStartsUnlessFull(m: Machine, r: Route, p: Option<nat>, lo: nat)
    requires InService(m, r, p, lo) && m.s.nextSequence - lo <= REPLAY_ENCODER_PIPELINE_DEPTH
    ensures SomeEligible(Offered(r, p, m.s.nextSequence))
            <==> (p.None? || m.s.nextSequence - lo + 1 < |r.contexts|)
  {
    ServiceFacts(m, r, p, lo);
    if p.Some? && m.s.nextSequence - lo + 1 >= |r.contexts| {
      TakenFills(m, r, p.value, lo);
    } else {
      RoomIsFree(m, r, p, lo);
    }
  }

  lemma EligibleIsFree(r: Route)
    requires Sound(r) && PendingAt(r.contexts, None)
    ensures SomeEligible(r) <==> exists k :: 0 <= k < |r.contexts| && !Withheld(r.contexts[k])
  {
    assert forall k :: 0 <= k < |r.contexts| ==> (Eligible(r.contexts[k], true) <==> !Withheld(r.contexts[k]));
  }

  lemma RoomIsFree(m: Machine, r: Route, p: Option<nat>, lo: nat)
    requires InService(m, r, p, lo) && m.s.nextSequence - lo + (if p.Some? then 1 else 0) < |r.contexts|
    ensures SomeEligible(Offered(r, p, m.s.nextSequence))
  {
    ServiceFacts(m, r, p, lo);
    var r1 := Offered(r, p, m.s.nextSequence);
    OfferedKept(r, p, lo, m.s.nextSequence, m.w.leases.Keys);
    SomeIsFree(r1.contexts, lo, if p.Some? then m.s.nextSequence + 1 else m.s.nextSequence);
    EligibleIsFree(r1);
  }

  lemma TakenFills(m: Machine, r: Route, k: nat, lo: nat)
    requires InService(m, r, Some(k), lo) && m.s.nextSequence - lo + 1 >= |r.contexts|
    ensures !SomeEligible(TakenRoute(r, k, m.s.nextSequence))
  {
    var r1 := TakenRoute(r, k, m.s.nextSequence);
    OfferedKept(r, Some(k), lo, m.s.nextSequence, m.w.leases.Keys);
    PlacesHold(m, r, k, lo);
    forall j | 0 <= j < |r1.contexts|
      ensures Withheld(r1.contexts[j])
    {
      NoneIsFree(r1.contexts, lo, Places(m, k, lo), j);
    }
    EligibleIsFree(r1);
  }

  // ---- A present through the gate ----

  /** One turn of the application: the image it presents and the clock when it does. */
  datatype Turn = Turn(image: nat, now: nat)

  /** The turn presents an image of the swapchain when a capture is due; clocks are in range. */
  predicate Fits(m: Machine, r: Route, t: Turn) {
    && t.image < r.imageCount && 0 < t.now && m.w.now <= t.now <= U64_MAX / 2 && m.s.lastExport < U64_MAX
    && Cadence.VulkanCaptureDue(r.samplingRate, r.nextSubmit, t.now, r.variableMinInterval)
  }

  function PresentOf(r: Route, t: Turn): Event { PresentAt(r, t.image, t.now, true) }

  lemma PresentIsDue(m: Machine, r: Route, p: Option<nat>, lo: nat, t: Turn)
    requires InService(m, r, p, lo) && Finished(m, r) && Between(m.w, HandleOf(r), {t.image}) && Fits(m, r, t)
    ensures DuePresent(m, r, PresentOf(r, t), t.image) && PresentedImages(PresentOf(r, t)) == {(HandleOf(r), t.image)}
  {
    var e := PresentOf(r, t);
    ServiceFacts(m, r, p, lo);
    assert PresentedImages(e) == {(HandleOf(r), t.image)};
    assert PresentedImage([(r.swapchain, t.image)], r.swapchain) == Some(t.image);
    assert Captures(m.s, e);
  }

  /** What a turn's present leaves: a copy started in context p', or none. */
  ghost predicate Presented(m: Machine, m': Machine, r: Route, p: Option<nat>, p': Option<nat>, lo: nat, i: nat) {
    && m'.s.route.Some? && (p.Some? ==> p.value < |r.contexts|)
    && (p'.Some? <==> SomeEligible(Offered(r, p, m.s.nextSequence)))
    && m'.w.calls.Keys == {r.queue} && m'.w.calls[r.queue].images == {(HandleOf(r), i)}
    && m'.w.acquired == m.w.acquired && m'.w.gpus.Keys == m.w.gpus.Keys
    && m'.s.nextSequence == m.s.nextSequence + (if p.Some? then 1 else 0)
    && |m'.w.exports| == |m.w.exports| + (if p.Some? then 1 else 0)
    && var r' := m'.s.route.value;
       && Shape(m', r', p', lo) && |r'.contexts| == |r.contexts|
       && r'.id == r.id && HandleOf(r') == HandleOf(r) && r'.queue == r.queue && r'.imageCount == r.imageCount
  }

  lemma PresentShape(m: Machine, r: Route, p: Option<nat>, lo: nat, t: Turn) returns (p': Option<nat>)
    requires Shape(m, r, p, lo) && DuePresent(m, r, PresentOf(r, t), t.image) && m.w.calls == map[]
    requires PresentedImages(PresentOf(r, t)) == {(HandleOf(r), t.image)} && t.image < r.imageCount <= MAX_IMAGES
    requires Backed(m.w, r) && OldestPendingContext(r.contexts) == p
    ensures Presented(m, PresentStep(m, PresentOf(r, t)), r, p, p', lo, t.image)
  {
    var e := PresentOf(r, t);
    OpenPresentCaptures(m, r, e, t.image);
    var m1 := Gated(m, e);
    GateIsOpen(m, e);
    p' := CaptureTurns(m1, r, p, e, t.image);
    var m2 := CapturePresent(m1, r, e, t.image).0;
    TurnKeepsShape(m1, m2, r, p, p', lo);
    ForwardedShape(m, m1, m2, r, p, p', lo, t.image, if p'.Some? then Some((r.id, t.image)) else None);
  }

  lemma GateIsOpen(m: Machine, e: Event)
    requires e.PreparePresent? && e.now.Some? && m.s.route.Some? && Alone(m.s, m.s.route.value)
    ensures Gated(m, e) == m.(w := m.w.(now := e.now.value)) && GateOpen(m.s, e.sent)
  {
  }

  lemma ForwardedShape(m: Machine, m1: Machine, m2: Machine, r: Route, p: Option<nat>, p': Option<nat>, lo: nat, i: nat,
                       semaphore: Option<(nat, nat)>)
    requires m1 == m.(w := m.w.(now := m1.w.now)) && m.w.calls == map[] && Turned(m1, m2, r, p, p')
    requires var r' := m2.s.route.value;
             && Shape(m2, r', p', lo) && |r'.contexts| == |r.contexts|
             && r'.id == r.id && HandleOf(r') == HandleOf(r) && r'.queue == r.queue && r'.imageCount == r.imageCount
    ensures Presented(m, m2.(w := ForwardPresent(m2.w, r.queue, {(HandleOf(r), i)}, semaphore)), r, p, p', lo, i)
  {
  }

  lemma PresentTurns(m: Machine, r: Route, p: Option<nat>, lo: nat, t: Turn) returns (p': Option<nat>)
    requires InService(m, r, p, lo) && Finished(m, r) && Between(m.w, HandleOf(r), {t.image}) && Fits(m, r, t)
    ensures Allowed(m, PresentOf(r, t))
    ensures var m' := PresentStep(m, PresentOf(r, t));
            Presented(m, m', r, p, p', lo, t.image) && InService(m', m'.s.route.value, p', lo)
  {
    ServiceFacts(m, r, p, lo);
    PresentIsDue(m, r, p, lo, t);
    PresentKeeps(m, PresentOf(r, t));
    p' := PresentShape(m, r, p, lo, t);
  }

  lemma PresentComesBack(m: Machine, r: Route, p: Option<nat>, lo: nat, i: nat)
    requires InService(m, r, p, lo)
    requires m.w.calls.Keys == {r.queue} && m.w.calls[r.queue].images == {(HandleOf(r), i)}
    requires forall j :: (HandleOf(r), j) in m.w.acquired <==> j == i
    ensures var back := PresentReturned(r.queue, false, false, {});
            && Allowed(m, back)
            && var m' := ReturnStep(m, back);
               && InService(m', r, p, lo) && Between(m'.w, HandleOf(r), {})
               && m'.w.exports == m.w.exports && m'.s == m.s
  {
    var back := PresentReturned(r.queue, false, false, {});
    ReturnKeeps(m, back);
    assert ReturnStep(m, back).w.calls == map[];
  }

  // ---- Giving back ----

  function ReleaseOf(id: nat, lo: nat): Event {
    ReleaseSequence(lo, false, Setup(id + 1, false, false, 0, [], false, false, []), true)
  }

  /** The daemon gives back the oldest buffer and its acknowledgement is applied. */
  lemma OldestComesBack(m: Machine, r: Route, p: Option<nat>, lo: nat)
    requires InService(m, r, p, lo) && lo < m.s.nextSequence && Between(m.w, HandleOf(r), {})
    ensures var m1 := m.(w := Acknowledge(m.w, lo));
            && Allowed(m, DaemonReleases(lo)) && Allowed(m1, ReleaseOf(r.id, lo))
            && var m' := Release(m1, ReleaseOf(r.id, lo)).0;
               && InService(m', ReleaseRoute(r, lo), p, lo + 1) && Between(m'.w, HandleOf(r), {})
               && m'.w.exports == m.w.exports && m'.s == m.s.(route := Some(ReleaseRoute(r, lo)))
  {
    var m1 := m.(w := Acknowledge(m.w, lo));
    AcknowledgeKeeps(m, DaemonReleases(lo));
    ReleaseStepKeeps(m1, ReleaseOf(r.id, lo));
    var m' := Release(m1, ReleaseOf(r.id, lo)).0;
    assert m'.w == m1.w && m'.s == m.s.(route := Some(ReleaseRoute(r, lo)));
  }
}

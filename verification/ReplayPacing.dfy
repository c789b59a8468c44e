/** How often the Vulkan producer captures, over every run, and what it announces about a copy. */
module ReplayPacing {
  import opened Wrappers
  import opened Messages
  import opened ReplayWorld
  import opened ReplayState
  import opened ReplayMachine
  import opened ReplayInvariant
  import opened ReplayPresentSteps
  import opened ReplaySafety
  import opened ReplayProgress
  import Cadence
  import CadenceRuns
  import Pacing

  // ---- Over every run ----

  /** In every run the capture times of each route keep its pace. At the variable rate any n
      captures take at least n - 2 encoder intervals, which pay for the macroblocks and for 240 frames
      a second; at a fixed rate each capture is a whole frame interval after the one before. */
  lemma EveryRunIsPaced(events: seq<Event>, slot: nat, r: Route, i: nat, j: nat)
    requires AllAllowed(Initial, events) && slot < 5
    requires |Run(Initial, events).s.retired| == 2 && Slot(Run(Initial, events).s, slot) == Some(r)
    requires r.id in Run(Initial, events).w.gpus && i < j < |Run(Initial, events).w.gpus[r.id].captures|
    ensures var captures := Run(Initial, events).w.gpus[r.id].captures;
            && (r.samplingRate == 0 ==> captures[i] + (j - i - 1) * r.variableMinInterval <= captures[j])
            && (r.samplingRate != 0 ==>
                  && r.samplingRate in {30, 60, 120} && r.samplingRate == r.candidate.targetFramesPerSecond
                  && captures[i] + (j - i) * (1_000_000_000 / r.candidate.targetFramesPerSecond) <= captures[j])
  {
    var m := Run(Initial, events);
    RoutesFollowPace(events, slot, r);
    var captures := m.w.gpus[r.id].captures;
    if r.samplingRate == 0 {
      Pacing.VariableSpacing(captures, r.variableMinInterval, i, j);
    } else {
      Pacing.FixedSpacing(captures, r.samplingRate, r.variableMinInterval, i, j);
    }
  }

  lemma RoutesFollowPace(events: seq<Event>, slot: nat, r: Route)
    requires AllAllowed(Initial, events) && slot < 5
    requires |Run(Initial, events).s.retired| == 2 && Slot(Run(Initial, events).s, slot) == Some(r)
    ensures var m := Run(Initial, events);
            && r.id in m.w.gpus && Described(r)
            && Pacing.Paced(r.samplingRate, r.nextSubmit, r.variableMinInterval, m.w.gpus[r.id].captures)
  {
    InitialInv();
    RunKeeps(Initial, events);
    assert RouteOk(r, Run(Initial, events).s.nextSequence, Run(Initial, events).w);
  }

  /** Beyond a burst of two frames a variable-rate route of a supported source stays within the
      encoder's macroblocks a second and within 240 frames a second, over every stretch of every run. */
  lemma EncoderBudgetHolds(events: seq<Event>, slot: nat, r: Route, i: nat, j: nat)
    requires AllAllowed(Initial, events) && slot < 5
    requires |Run(Initial, events).s.retired| == 2 && Slot(Run(Initial, events).s, slot) == Some(r)
    requires r.id in Run(Initial, events).w.gpus && i < j < |Run(Initial, events).w.gpus[r.id].captures|
    requires r.samplingRate == 0 && SourceDimensionsSupported(r.candidate.width, r.candidate.height)
    ensures var captures := Run(Initial, events).w.gpus[r.id].captures;
            var macroblocks := Macroblocks(r.candidate.width, r.candidate.height);
            && captures[i] <= captures[j]
            && (j - i - 1) * (macroblocks * 1_000_000_000) <= (captures[j] - captures[i]) * 2_073_600
            && (j - i - 1) * 1_000_000_000 <= (captures[j] - captures[i]) * 240
  {
    RoutesFollowPace(events, slot, r);
    BudgetFromPace(r, Run(Initial, events).w.gpus[r.id].captures, i, j);
  }

  lemma BudgetFromPace(r: Route, captures: seq<nat>, i: nat, j: nat)
    requires Described(r) && Pacing.Paced(0, r.nextSubmit, r.variableMinInterval, captures) && i < j < |captures|
    requires SourceDimensionsSupported(r.candidate.width, r.candidate.height)
    ensures captures[i] <= captures[j]
    ensures (j - i - 1) * (Macroblocks(r.candidate.width, r.candidate.height) * 1_000_000_000)
            <= (captures[j] - captures[i]) * 2_073_600
    ensures (j - i - 1) * 1_000_000_000 <= (captures[j] - captures[i]) * 240
  {
    Pacing.VariableSpacing(captures, r.variableMinInterval, i, j);
    BudgetFromSpacing(r.candidate.width, r.candidate.height, captures[i], captures[j], j - i - 1);
  }

  lemma BudgetFromSpacing(width: nat, height: nat, first: nat, last: nat, n: nat)
    requires SourceDimensionsSupported(width, height)
    requires first + n * Cadence.VulkanVariableInterval(width, height) <= last
    ensures first <= last
    ensures n * (Macroblocks(width, height) * 1_000_000_000) <= (last - first) * 2_073_600
    ensures n * 1_000_000_000 <= (last - first) * 240
  {
    var interval := Cadence.VulkanVariableInterval(width, height);
    CadenceRuns.IntervalCoversBudget(width, height);
    CadenceRuns.WindowBudget(first, last, n, Macroblocks(width, height) * 1_000_000_000, interval, 2_073_600);
    CadenceRuns.WindowBudget(first, last, n, 1_000_000_000, interval, 240);
  }

  // ---- One present ----

  /** This entry is the first for its swapchain. */
  predicate FirstEntry(entries: seq<(nat, nat)>, swapchain: nat, i: nat) {
    i < |entries| && entries[i].0 == swapchain && forall j :: 0 <= j < i ==> entries[j].0 != swapchain
  }

  lemma {:induction false} PresentedIsFirst(entries: seq<(nat, nat)>, swapchain: nat) returns (i: nat)
    ensures PresentedImage(entries, swapchain).Some? ==>
              FirstEntry(entries, swapchain, i) && PresentedImage(entries, swapchain).value == entries[i].1
  {
    i := 0;
    if entries != [] && entries[0].0 != swapchain {
      var rest := PresentedIsFirst(entries[1..], swapchain);
      i := rest + 1;
    }
  }

  /** A usable present, of at most eight swapchains and eight waits, names a known image of the recorded
      swapchain, on its queue and at a known time. */
  predicate Reaches(s: State, e: Event)
    requires e.PreparePresent? && e.info.Some?
  {
    && s.route.Some? && s.route.value.queue == e.queue && e.now.Some?
    && e.info.value.wellFormed && 1 <= |e.info.value.entries| <= 8 && e.info.value.waitCount <= 8
    && exists i :: 0 <= i < |e.info.value.entries| && ShowsRoute(e.info.value.entries, s.route.value, i)
  }

  predicate ShowsRoute(entries: seq<(nat, nat)>, r: Route, i: nat) {
    && FirstEntry(entries, r.swapchain, i)
    && entries[i].1 < |r.images| && r.images[entries[i].1] != 0 && entries[i].1 < r.imageCount
  }

  lemma ShownImage(entries: seq<(nat, nat)>, r: Route)
    ensures var image := PresentedImage(entries, r.swapchain);
            (image.Some? && image.value < |r.images| && r.images[image.value] != 0 && image.value < r.imageCount)
            <==> exists i :: 0 <= i < |entries| && ShowsRoute(entries, r, i)
  {
    var image := PresentedImage(entries, r.swapchain);
    var first := PresentedIsFirst(entries, r.swapchain);
    if image.Some? {
      assert forall i :: 0 <= i < |entries| && FirstEntry(entries, r.swapchain, i) ==> i == first;
      assert ShowsRoute(entries, r, first) <==>
             image.value < |r.images| && r.images[image.value] != 0 && image.value < r.imageCount;
    } else {
      assert forall i :: 0 <= i < |entries| ==> (r.swapchain, entries[i].1) !in entries && entries[i] in entries;
    }
  }

  /** Another capture now would keep the pace of these. */
  predicate PaceAllows(r: Route, captures: seq<nat>, now: nat) {
    if r.samplingRate == 0 then Pacing.FitsWindows(captures, r.variableMinInterval, now)
    else captures == [] || captures[|captures| - 1] + 1_000_000_000 / r.samplingRate <= now
  }

  /** A present that reaches the route is due exactly when its pace allows one more capture. */
  lemma DueExactly(m: Machine, e: Event, r: Route)
    requires Inv(m) && e.PreparePresent? && Allowed(m, e) && e.info.Some? && m.s.route == Some(r)
    ensures r.id in m.w.gpus
    ensures Captures(m.s, e) <==> Reaches(m.s, e) && PaceAllows(r, m.w.gpus[r.id].captures, e.now.value)
  {
    assert Slot(m.s, 0) == Some(r) && RouteOk(r, m.s.nextSequence, m.w);
    ShownImage(e.info.value.entries, r);
    if e.now.Some? {
      PaceIsDue(r, m.w.gpus[r.id].captures, e.now.value);
    }
  }

  lemma PaceIsDue(r: Route, captures: seq<nat>, now: nat)
    requires r.samplingRate in {0, 30, 60, 120} && now <= U64_MAX / 2
    requires Pacing.Paced(r.samplingRate, r.nextSubmit, r.variableMinInterval, captures)
    ensures Cadence.VulkanCaptureDue(r.samplingRate, r.nextSubmit, now, r.variableMinInterval)
            <==> PaceAllows(r, captures, now)
  {
    Pacing.BucketAdmitsExactly(captures, r.variableMinInterval, now);
  }

  lemma SubmitCaptures(w: World, r: Route, i: nat, stamp: nat, duration: nat, calls: DriverCalls)
    requires Backed(w, r) && |calls.ready| == |r.contexts|
    ensures var (w', r', signalled) := SubmitNext(w, r, i, stamp, duration, calls);
            r.id in w'.gpus && w'.gpus[r.id].captures
                               == (if signalled then w.gpus[r.id].captures + [stamp] else w.gpus[r.id].captures)
  {
  }

  lemma CopyCaptures(m: Machine, r: Route, e: Event, image: nat)
    requires CallsFit(e, r) && e.now.Some? && Backed(m.w, r)
    ensures var (m', proof, signalled) := CopyPresented(m, r, e, image);
            var stamp := Cadence.VulkanCaptureTiming(r.samplingRate, r.nextSubmit, e.now.value, r.variableMinInterval).0;
            r.id in m'.w.gpus && m'.w.gpus[r.id].captures
                                 == (if signalled then m.w.gpus[r.id].captures + [stamp] else m.w.gpus[r.id].captures)
  {
    var (stamp, interval) := Cadence.VulkanCaptureTiming(r.samplingRate, r.nextSubmit, e.now.value, r.variableMinInterval);
    var (m1, r1, proof) := TakeCompleted(m, r, e.calls.oldestReady);
    TakeShape(m, r, e.calls.oldestReady);
    SubmitCaptures(m1.w, r1, image, stamp, r.frameInterval, e.calls);
  }

  lemma CaptureCaptures(m: Machine, r: Route, e: Event, image: nat)
    requires CallsFit(e, r) && e.now.Some? && Backed(m.w, r) && |m.s.retired| == 2
    ensures var (m', signalled) := CapturePresent(m, r, e, image);
            var stamp := Cadence.VulkanCaptureTiming(r.samplingRate, r.nextSubmit, e.now.value, r.variableMinInterval).0;
            r.id in m'.w.gpus && m'.w.gpus[r.id].captures
                                 == (if signalled then m.w.gpus[r.id].captures + [stamp] else m.w.gpus[r.id].captures)
  {
    CopyCaptures(m, r, e, image);
  }

  /** What one present may add to the capture times: nothing, or one capture that the pace allows, stamped
      with the clock at the variable rate and less than a frame behind it at a fixed rate. */
  predicate OneCapture(r: Route, captures: seq<nat>, captures': seq<nat>, now: Option<nat>) {
    || captures' == captures
    || (now.Some? && PaceAllows(r, captures, now.value)
        && |captures'| == |captures| + 1 && captures' == captures + [captures'[|captures|]]
        && captures'[|captures|] <= now.value
        && if r.samplingRate == 0 then captures'[|captures|] == now.value
           else now.value < captures'[|captures|] + 1_000_000_000 / r.samplingRate)
  }

  /** Every present records at most one capture, and one that the pace refuses submits nothing. */
  lemma PresentKeepsPace(m: Machine, e: Event, r: Route)
    requires Inv(m) && e.PreparePresent? && Allowed(m, e) && m.s.route == Some(r)
    ensures r.id in m.w.gpus && r.id in PresentStep(m, e).w.gpus
    ensures OneCapture(r, m.w.gpus[r.id].captures, PresentStep(m, e).w.gpus[r.id].captures, e.now)
    ensures !(e.now.Some? && PaceAllows(r, m.w.gpus[r.id].captures, e.now.value)) ==> PresentStep(m, e).w.gpus == m.w.gpus
  {
    assert Slot(m.s, 0) == Some(r) && RouteOk(r, m.s.nextSequence, m.w);
    var m1 := m.(w := m.w.(now := if e.now.Some? then e.now.value else m.w.now));
    GateKeeps(m, e);
    var (s, open) := PresentGate(m1.s, e);
    if e.queue != 0 && e.info.Some? && !e.busy && open && Captures(s, e) {
      var now := e.now.value;
      var captures := m.w.gpus[r.id].captures;
      PresentedIsReady(m, e, s);
      PaceIsDue(r, captures, now);
      Pacing.CaptureIsPaced(r.samplingRate, r.nextSubmit, r.variableMinInterval, captures, now);
      CaptureCaptures(m1.(s := s), r, e, PresentedImage(e.info.value.entries, r.swapchain).value);
    }
  }

  // ---- What is announced ----

  /** The copy handed off by a present describes the route's source and its own capture. */
  lemma AnnouncementDescribesCopy(events: seq<Event>, r: Route, e: Event, image: nat)
    requires AllAllowed(Initial, events)
    requires CallsFit(e, r) && e.now.Some? && Backed(Run(Initial, events).w, r)
    requires Run(Initial, events).s.route == Some(r)
    ensures var (m', proof, signalled) := CopyPresented(Run(Initial, events), r, e, image);
            proof.Some? ==>
              && proof.value.source == r.candidate && r.candidate.targetFramesPerSecond in {30, 60, 120}
              && proof.value.copiedBytes == r.candidate.width * r.candidate.height * 4
              && proof.value.duration == 1_000_000_000 / r.candidate.targetFramesPerSecond
              && proof.value.context < |r.contexts|
              && r.contexts[proof.value.context].pending
              && proof.value.timestamp == r.contexts[proof.value.context].capturedAt
              && proof.value.exportFd == r.contexts[proof.value.context].exportFd
  {
    var m := Run(Initial, events);
    InitialInv();
    RunKeeps(Initial, events);
    assert Slot(m.s, 0) == Some(r) && RouteOk(r, m.s.nextSequence, m.w);
  }
}

/** Why a route owns more contexts than the daemon's pipeline is deep. */
module ReplayPoolSize {
  import opened Wrappers
  import opened Messages
  import opened ReplayWorld
  import opened ReplayState
  import opened ReplayMachine
  import opened ReplayProgress

  /** Steps that bring no acknowledgement and keep the swapchain. */
  predicate BringsNothingBack(e: Event) {
    e.PreparePresent? || e.PresentReturned? || e.ImageAcquired? || e.GpuCompletes?
  }

  predicate Stuck(m: Machine, contexts: seq<Context>) {
    m.s.route.Some? && m.s.route.value.contexts == contexts && AllHeld(m.s.route.value, m.w)
  }

  /** When the daemon holds every context, nothing is captured and nothing is exported until it gives
      one back, whatever the application presents and the driver answers. */
  lemma AllHeldIsStuck(m: Machine, e: Event, contexts: seq<Context>)
    requires WellFormed(m, e) && Stuck(m, contexts) && BringsNothingBack(e)
    ensures var m' := Step(m, e);
            && Stuck(m', contexts) && m'.w.leases == m.w.leases && m'.w.exports == m.w.exports
            && (e.PreparePresent? ==> e.queue in m'.w.calls && m'.w.calls[e.queue].semaphore.None?)
  {
    match e
    case PreparePresent(_, _, _, _, _, _, _, _) => StuckPresent(m, e, contexts);
    case PresentReturned(_, _, _, _) => StuckReturn(m, e, contexts);
    case ImageAcquired(_, _, _, _, _, _) => StuckAcquire(m, e, contexts);
    case GpuCompletes(id, context) => assert Step(m, e) == m.(w := Complete(m.w, id, context));
    case _ =>
  }

  lemma StuckPresent(m: Machine, e: Event, contexts: seq<Context>)
    requires e.PreparePresent? && WellFormed(m, e) && Stuck(m, contexts)
    ensures var m' := PresentStep(m, e);
            && Stuck(m', contexts) && m'.w.leases == m.w.leases && m'.w.exports == m.w.exports
            && e.queue in m'.w.calls && m'.w.calls[e.queue].semaphore.None?
  {
    var m1 := m.(w := m.w.(now := if e.now.Some? then e.now.value else m.w.now));
    var (s, open) := PresentGate(m1.s, e);
    var r := m.s.route.value;
    assert s == m.s.(pendingAssessment := s.pendingAssessment);
    if e.queue != 0 && e.info.Some? && !e.busy && open && Captures(s, e) {
      assert OldestPendingContext(r.contexts).None?;
      assert forall k :: 0 <= k < |r.contexts| ==> Held(r.contexts[k], m.w);
      assert FirstEligible(r.contexts, e.calls.ready, 0).None?;
      NothingTaken(m1.(s := s), r, e, PresentedImage(e.info.value.entries, r.swapchain).value);
    }
  }

  lemma StuckReturn(m: Machine, e: Event, contexts: seq<Context>)
    requires e.PresentReturned? && WellFormed(m, e) && Stuck(m, contexts)
    ensures var m' := ReturnStep(m, e);
            Stuck(m', contexts) && m'.w.leases == m.w.leases && m'.w.exports == m.w.exports
  {
  }

  lemma StuckAcquire(m: Machine, e: Event, contexts: seq<Context>)
    requires e.ImageAcquired? && WellFormed(m, e) && Stuck(m, contexts)
    ensures var m' := AcquireStep(m, e);
            Stuck(m', contexts) && m'.w.leases == m.w.leases && m'.w.exports == m.w.exports
  {
    var handle := Handle(e.device, e.swapchain);
    var f := Confirming(handle, e.image, e.fence, e.signaled);
    var m1 := m.(w := AcquireImage(m.w, handle, e.image, e.signaled));
    assert f(m.s.route.value).contexts == contexts;
    StuckReclaim(m1, m1.(s := MapRetired(m1.s, f).(route := MapSlot(m1.s.route, f))), contexts);
  }

  lemma StuckReclaim(m: Machine, mapped: Machine, contexts: seq<Context>)
    requires |mapped.s.retired| == 2 && Stuck(m, contexts) && mapped.w == m.w
    requires mapped.s.route.Some? && mapped.s.route.value.contexts == contexts
    ensures var m' := ReclaimIdleReleased(mapped);
            Stuck(m', contexts) && m'.w.leases == m.w.leases && m'.w.exports == m.w.exports
  {
  }

  /** A pool of `count` contexts, all of them exported and none given back. */
  function FullPool(count: nat): seq<Context> {
    seq(count, k requires 0 <= k < count => Context(1, 1, false, true, 3 + k, 1 + k, false))
  }

  function FullLeases(count: nat): map<nat, (nat, nat)> {
    if count == 0 then map[] else FullLeases(count - 1)[count := (0, count - 1)]
  }

  function FullMachine(count: nat, candidate: SourceCandidate): Machine {
    var r := Route(0, 1, 1, 1, seq(MAX_IMAGES, _ => 1), 2, candidate, 0, 1, 60, 1, 2, FullPool(count),
                   seq(MAX_IMAGES, _ => true), seq(MAX_IMAGES, _ => false), true, false);
    Machine(InitialState.(route := Some(r), nextSequence := count + 1, lastExport := count),
            InitialWorld.(gpus := map[0 := Gpu(Handle(1, 1), 1, false, seq(count, _ => Signaled), seq(count, _ => Foreign),
                                               seq(MAX_IMAGES, _ => true), seq(MAX_IMAGES, _ => false), 1, [])],
                          alive := {0}, live := {Handle(1, 1)}, leases := FullLeases(count)))
  }

  /** A pool no larger than the pipeline depth can be held whole: such a state is settled, nothing in
      it is lost, the daemon holds no more than its depth, and no present moves it. */
  lemma SmallPoolCanBeHeldWhole(count: nat, candidate: SourceCandidate)
    requires count <= REPLAY_ENCODER_PIPELINE_DEPTH
    ensures var m := FullMachine(count, candidate);
            && Stuck(m, FullPool(count)) && |m.s.route.value.contexts| == |m.w.leases| == count
            && Backed(m.w, m.s.route.value) && Settled(m, m.s.route.value) && AllKnown(m.s, Known(m.w))
  {
    var m := FullMachine(count, candidate);
    FullLeasesSize(count);
    forall k | 0 <= k < 5 && Slot(m.s, k).Some?
      ensures RouteKnown(Slot(m.s, k).value, Known(m.w))
    {
      assert k == 0;
    }
  }

  lemma {:induction false} FullLeasesSize(count: nat)
    ensures |FullLeases(count)| == count && forall q :: q in FullLeases(count) <==> 0 < q <= count
  {
    if count > 0 {
      FullLeasesSize(count - 1);
    }
  }

  /** Every swapchain of 1 to 8 images gets more contexts than the pipeline holds, within
      the bound of eight, and one context beyond its images up to that bound. */
  lemma ContextCountExceedsDepth(imageCount: nat, variableRate: bool, nvidia: bool)
    ensures var count := ContextCountForSwapchain(imageCount, variableRate, nvidia);
            && (count.Some? <==> 1 <= imageCount <= MAX_IMAGES)
            && (count.Some? ==>
                  && REPLAY_ENCODER_PIPELINE_DEPTH < count.value <= MAX_IMAGES
                  && (imageCount < count.value || count.value == MAX_IMAGES))
  {
  }
}

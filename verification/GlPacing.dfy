/** How often the OpenGL producer captures, over every run. */
module GlPacing {
  import opened Wrappers
  import opened Messages
  import opened GlSlots
  import opened GlPools
  import opened GlSafety
  import opened GlRuns
  import Cadence
  import CadenceRuns
  import Pacing

  /** The recording mode of a process: the launch value, sources of supported size and rate, and clocks
      far from the end of 64-bit time. */
  predicate InMode(e: Event, variable: bool) {
    e.Presented? && !e.busy ==>
      e.calls.variable == variable && e.calls.now <= U64_MAX / 2 && CandidateValid(e.source)
  }

  predicate AllInMode(events: seq<Event>, variable: bool) {
    forall i :: 0 <= i < |events| ==> InMode(events[i], variable)
  }

  function RateOf(source: SourceCandidate, variable: bool): nat { if variable then 0 else source.targetFramesPerSecond }

  function IntervalOf(source: SourceCandidate): nat { Cadence.OpenGlVariableInterval(source.width, source.height) }

  /** The pool's deadline is what its charged capture times call for. */
  predicate PoolPaced(pool: Pool, w: GlWorld, variable: bool) {
    && CandidateValid(pool.source) && pool.id in w.charges
    && Pacing.Paced(RateOf(pool.source, variable), pool.nextCapture, IntervalOf(pool.source), w.charges[pool.id])
  }

  predicate AllPaced(pools: seq<Pool>, w: GlWorld, variable: bool) {
    forall p :: 0 <= p < |pools| ==> PoolPaced(pools[p], w, variable)
  }

  // ---- Pool lists ----

  /** The pool's cadence is that of some pool of the list. */
  predicate PaceOf(pools: seq<Pool>, pool: Pool) {
    exists p :: 0 <= p < |pools| && pools[p].id == pool.id && pools[p].source == pool.source
                && pools[p].nextCapture == pool.nextCapture
  }

  predicate PacesFrom(pools: seq<Pool>, pools': seq<Pool>) {
    forall q :: 0 <= q < |pools'| ==> PaceOf(pools, pools'[q])
  }

  lemma PacesKept(pools: seq<Pool>, pools': seq<Pool>, w: GlWorld, w': GlWorld, variable: bool)
    requires AllPaced(pools, w, variable) && PacesFrom(pools, pools') && w'.charges == w.charges
    ensures AllPaced(pools', w', variable)
  {
    forall q | 0 <= q < |pools'|
      ensures PoolPaced(pools'[q], w', variable)
    {
      assert PaceOf(pools, pools'[q]);
      var p :| 0 <= p < |pools| && pools[p].id == pools'[q].id && pools[p].source == pools'[q].source
               && pools[p].nextCapture == pools'[q].nextCapture;
      assert PoolPaced(pools[p], w, variable);
    }
  }

  lemma PacesInFront(pools: seq<Pool>, head: seq<Pool>, rest: seq<Pool>)
    requires pools != [] && PacesFrom(pools[1..], rest) && |head| <= 1
    requires head != [] ==> PaceOf(pools[..1], head[0])
    ensures PacesFrom(pools, head + rest)
  {
    forall q | 0 <= q < |head + rest|
      ensures PaceOf(pools, (head + rest)[q])
    {
      if q < |head| {
        assert pools[..1][0] == pools[0] && PaceOf(pools[..1], head[0]);
      } else {
        var pool := rest[q - |head|];
        assert PaceOf(pools[1..], pool);
        var p :| 0 <= p < |pools[1..]| && pools[1..][p].id == pool.id && pools[1..][p].source == pool.source
                 && pools[1..][p].nextCapture == pool.nextCapture;
        assert pools[p + 1] == pools[1..][p];
      }
    }
  }

  lemma {:induction false} RetirePaces(w: GlWorld, pools: seq<Pool>, context: nat, source: SourceCandidate,
                                       calls: seq<RetireCalls>)
    requires RetireCallsFit(pools, calls)
    ensures PacesFrom(pools, RetireStale(w, pools, context, source, calls).1)
    decreases pools
  {
    if pools != [] {
      var (w1, kept) := RetireOne(w, pools[0], context, source, calls[0]);
      RetirePaces(w1, pools[1..], context, source, calls[1..]);
      assert pools[..1][0] == pools[0];
      PacesInFront(pools, kept, RetireStale(w1, pools[1..], context, source, calls[1..]).1);
    }
  }

  lemma {:induction false} WithoutContextPaces(pools: seq<Pool>, context: nat)
    ensures PacesFrom(pools, WithoutContext(pools, context))
  {
    if pools != [] {
      WithoutContextPaces(pools[1..], context);
      assert pools[..1][0] == pools[0];
      PacesInFront(pools, if pools[0].context == context then [] else [pools[0]], WithoutContext(pools[1..], context));
      assert [] + WithoutContext(pools[1..], context) == WithoutContext(pools[1..], context);
    }
  }

  lemma ContinuingPaces(pools: seq<Pool>, pools': seq<Pool>, w: GlWorld)
    requires AllContinue(pools, pools', w)
    ensures PacesFrom(pools, pools')
  {
    forall q | 0 <= q < |pools'|
      ensures PaceOf(pools, pools'[q])
    {
      assert Continues(pools[q], pools'[q], w);
    }
  }

  // ---- One capture ----

  /** Another capture now would keep the pace of these. */
  predicate PaceAllows(source: SourceCandidate, variable: bool, charges: seq<nat>, now: nat)
    requires source.targetFramesPerSecond > 0
  {
    if variable then Pacing.FitsWindows(charges, IntervalOf(source), now)
    else charges == [] || charges[|charges| - 1] + 1_000_000_000 / source.targetFramesPerSecond <= now
  }

  lemma PaceIsDue(pool: Pool, w: GlWorld, variable: bool, now: nat)
    requires PoolPaced(pool, w, variable) && now <= U64_MAX / 2
    ensures Cadence.OpenGlCaptureDue(variable, pool.source.width, pool.source.height, pool.nextCapture, now)
            <==> PaceAllows(pool.source, variable, w.charges[pool.id], now)
  {
    Pacing.BucketAdmitsExactly(w.charges[pool.id], IntervalOf(pool.source), now);
  }

  /** The stamp lies at the clock, or at a fixed rate less than a frame interval behind it. */
  predicate StampedNear(source: SourceCandidate, variable: bool, stamp: nat, now: nat)
    requires source.targetFramesPerSecond > 0
  {
    stamp <= now && if variable then stamp == now else now < stamp + 1_000_000_000 / source.targetFramesPerSecond
  }

  /** A due present is charged to its pool, and one that the pace refuses changes nothing at all. */
  lemma StartDueExactly(g: Gl, k: nat, calls: CaptureCalls)
    requires k < |g.s.pools| && PoolPaced(g.s.pools[k], g.w, calls.variable) && calls.now <= U64_MAX / 2
    ensures var pool := g.s.pools[k];
            var g' := StartDue(g, k, pool.source, calls);
            var charges := g.w.charges[pool.id];
            && |g'.s.pools| == |g.s.pools| && PoolPaced(g'.s.pools[k], g'.w, calls.variable)
            && (!PaceAllows(pool.source, calls.variable, charges, calls.now) ==> g' == g)
            && (PaceAllows(pool.source, calls.variable, charges, calls.now) ==>
                  && |g'.w.charges[pool.id]| == |charges| + 1
                  && g'.w.charges == g.w.charges[pool.id := charges + [g'.w.charges[pool.id][|charges|]]]
                  && StampedNear(pool.source, calls.variable, g'.w.charges[pool.id][|charges|], calls.now))
  {
    var pool := g.s.pools[k];
    PaceIsDue(pool, g.w, calls.variable, calls.now);
    if PaceAllows(pool.source, calls.variable, g.w.charges[pool.id], calls.now) {
      CadenceRuns.ProducersAgree(pool.source, calls.variable, pool.nextCapture, calls.now);
      Pacing.CaptureIsPaced(RateOf(pool.source, calls.variable), pool.nextCapture, IntervalOf(pool.source),
                            g.w.charges[pool.id], calls.now);
    }
  }

  // ---- Every step ----

  lemma StartDueKeepsOthers(g: Gl, k: nat, calls: CaptureCalls)
    requires k < |g.s.pools| && AllPaced(g.s.pools, g.w, calls.variable) && Apart(g.s.pools) && calls.now <= U64_MAX / 2
    ensures var g' := StartDue(g, k, g.s.pools[k].source, calls); AllPaced(g'.s.pools, g'.w, calls.variable)
  {
    var g' := StartDue(g, k, g.s.pools[k].source, calls);
    StartDueExactly(g, k, calls);
    forall p | 0 <= p < |g'.s.pools|
      ensures PoolPaced(g'.s.pools[p], g'.w, calls.variable)
    {
      if p != k {
        assert PoolPaced(g.s.pools[p], g.w, calls.variable) && g'.s.pools[p] == g.s.pools[p];
        assert g.s.pools[p].id != g.s.pools[k].id;
      }
    }
  }

  lemma EnsuredPaces(w: GlWorld, pools: seq<Pool>, context: nat, source: SourceCandidate, created: Option<Pool>, next: nat,
                     lastExport: nat, variable: bool)
    requires AllPaced(pools, w, variable) && PoolsFit(pools, w, next, lastExport) && CandidateValid(source)
    requires created.Some? ==> FreshPool(created.value, w, context, source)
    ensures var (w', pools', index) := EnsurePool(w, pools, context, source, created); AllPaced(pools', w', variable)
  {
    var (w', pools', index) := EnsurePool(w, pools, context, source, created);
    forall p | 0 <= p < |pools'|
      ensures PoolPaced(pools'[p], w', variable)
    {
      if p < |pools| {
        assert PoolPaced(pools[p], w, variable) && PoolFits(pools[p], w, next, lastExport);
      }
    }
  }

  lemma PresentPaces(g: Gl, e: Event, variable: bool)
    requires e.Presented? && Inv(g) && Allowed(g, e) && InMode(e, variable) && AllPaced(g.s.pools, g.w, variable)
    ensures AllPaced(Present(g, e).s.pools, Present(g, e).w, variable)
  {
    if e.context != 0 && !e.busy {
      var next, last := g.s.nextSequence, g.s.lastExport;
      RetireStaleFits(g.w, g.s.pools, e.context, e.source, e.calls.retire, next, last);
      var (w1, kept) := RetireStale(g.w, g.s.pools, e.context, e.source, e.calls.retire);
      RetirePaces(g.w, g.s.pools, e.context, e.source, e.calls.retire);
      PacesKept(g.s.pools, kept, g.w, w1, variable);
      PublishActiveFits(w1, kept, e.context, e.source, next, e.calls.publish, last);
      var (w2, published, next2) := PublishActive(w1, kept, e.context, e.source, next, e.calls.publish);
      ContinuingPaces(kept, published, w1);
      PacesKept(kept, published, w1, w2, variable);
      EnsurePoolFits(w2, published, e.context, e.source, e.calls.created, next2, last);
      EnsuredPaces(w2, published, e.context, e.source, e.calls.created, next2, last, variable);
      var (w3, pools, index) := EnsurePool(w2, published, e.context, e.source, e.calls.created);
      if index.Some? {
        var ready := Gl(g.s.(pools := pools, nextSequence := next2, announced := Some(e.source)), w3);
        StartDueKeepsOthers(ready, index.value, e.calls);
      }
    }
  }

  lemma StepPaces(g: Gl, e: Event, variable: bool)
    requires Inv(g) && Allowed(g, e) && InMode(e, variable) && AllPaced(g.s.pools, g.w, variable)
    ensures AllPaced(Step(g, e).s.pools, Step(g, e).w, variable)
  {
    match e
    case Presented(_, _, _, _) => PresentPaces(g, e, variable);
    case ContextDestroyed(context) =>
      WithoutContextPaces(g.s.pools, context);
      if context != 0 {
        PacesKept(g.s.pools, WithoutContext(g.s.pools, context), g.w, g.w, variable);
      }
    case ReleaseReceived(sequence, busy) => ReleasePaces(g, sequence, busy, variable);
    case _ =>
  }

  lemma ReleasePaces(g: Gl, sequence: nat, busy: bool, variable: bool)
    requires AllPaced(g.s.pools, g.w, variable)
    ensures var g' := Release(g, sequence, busy).0; AllPaced(g'.s.pools, g'.w, variable)
  {
    if !busy {
      forall p | 0 <= p < |g.s.pools|
        ensures PoolPaced(ReleasePool(g.s.pools[p], sequence), MarkApplied(g.w, sequence), variable)
      {
        assert PoolPaced(g.s.pools[p], g.w, variable);
      }
    }
  }

  lemma {:induction false} RunPaces(g: Gl, events: seq<Event>, variable: bool)
    requires Inv(g) && AllAllowed(g, events) && AllInMode(events, variable) && AllPaced(g.s.pools, g.w, variable)
    ensures AllPaced(Run(g, events).s.pools, Run(g, events).w, variable)
    decreases |events|
  {
    if events != [] {
      StepPaces(g, events[0], variable);
      StepKeeps(g, events[0]);
      RunPaces(Step(g, events[0]), events[1..], variable);
    }
  }

  /** In every run the capture times charged to each pool keep its pace: at the variable rate any n of
      them take at least n - 2 encoder intervals, at a fixed rate each is a whole frame interval after
      the one before. */
  lemma EveryRunIsPaced(events: seq<Event>, variable: bool, p: nat, i: nat, j: nat)
    requires AllAllowed(Initial, events) && AllInMode(events, variable) && p < |Run(Initial, events).s.pools|
    requires i < j
    ensures var g := Run(Initial, events);
            var pool := g.s.pools[p];
            && pool.id in g.w.charges && pool.source.targetFramesPerSecond in {30, 60, 120}
            && var charges := g.w.charges[pool.id];
               j < |charges| ==>
                 if variable then charges[i] + (j - i - 1) * IntervalOf(pool.source) <= charges[j]
                 else charges[i] + (j - i) * (1_000_000_000 / pool.source.targetFramesPerSecond) <= charges[j]
  {
    RunPaces(Initial, events, variable);
    var g := Run(Initial, events);
    PoolSpacing(g.s.pools[p], g.w, variable, i, j);
  }

  lemma PoolSpacing(pool: Pool, w: GlWorld, variable: bool, i: nat, j: nat)
    requires PoolPaced(pool, w, variable) && i < j
    ensures var charges := w.charges[pool.id];
            j < |charges| ==>
              if variable then charges[i] + (j - i - 1) * IntervalOf(pool.source) <= charges[j]
              else charges[i] + (j - i) * (1_000_000_000 / pool.source.targetFramesPerSecond) <= charges[j]
  {
    var charges := w.charges[pool.id];
    if j < |charges| {
      if variable {
        Pacing.VariableSpacing(charges, IntervalOf(pool.source), i, j);
      } else {
        Pacing.FixedSpacing(charges, pool.source.targetFramesPerSecond, IntervalOf(pool.source), i, j);
      }
    }
  }

  /** Only a charged present begins GPU work. */
  lemma UnchargedBeginsNothing(g: Gl, k: nat, source: SourceCandidate, calls: CaptureCalls)
    requires k < |g.s.pools| && source.targetFramesPerSecond > 0 && g.s.pools[k].id in g.w.charges
    ensures var g' := StartDue(g, k, source, calls); g'.w.charges == g.w.charges ==> g' == g
  {
    var id := g.s.pools[k].id;
    var (stamp, _) := Cadence.OpenGlCaptureTiming(calls.variable, source, g.s.pools[k].nextCapture, calls.now);
    assert |Charge(g.w, id, stamp).charges[id]| == |g.w.charges[id]| + 1;
  }
}

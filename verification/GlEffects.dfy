/** What the OpenGL entry points change, and that they change nothing else. */
module GlEffects {
  import opened Subsequences
  import opened Wrappers
  import opened Messages
  import opened GlSlots
  import opened GlPools
  import opened GlInvariant
  import opened GlSafety
  import opened GlRuns

  // ---- Context destruction ----

  /** These are the pools of other contexts: all of them, unchanged, in order, each as often as before. */
  predicate OthersOf(pools: seq<Pool>, context: nat, kept: seq<Pool>) {
    && (forall p :: 0 <= p < |kept| ==> kept[p].context != context)
    && Subsequence(kept, pools)
    && forall p :: 0 <= p < |pools| && pools[p].context != context ==>
         multiset(kept)[pools[p]] == multiset(pools)[pools[p]]
  }

  lemma {:induction false} RemainingAreOthers(pools: seq<Pool>, context: nat)
    ensures OthersOf(pools, context, WithoutContext(pools, context))
  {
    if pools != [] {
      var head, tail := pools[0], pools[1..];
      var rest := WithoutContext(tail, context);
      RemainingAreOthers(tail, context);
      SubsequenceInFront(rest, tail, head, head.context != context);
      assert pools == [head] + tail;
      forall p | 0 <= p < |pools| && pools[p].context != context
        ensures multiset(WithoutContext(pools, context))[pools[p]] == multiset(pools)[pools[p]]
      {
        CountInFront(head, tail, rest, context, pools[p]);
      }
    }
  }

  lemma CountInFront(head: Pool, tail: seq<Pool>, rest: seq<Pool>, context: nat, pool: Pool)
    requires OthersOf(tail, context, rest) && pool.context != context
    ensures multiset(if head.context == context then rest else [head] + rest)[pool] == multiset([head] + tail)[pool]
  {
    assert multiset([head] + rest) == multiset([head]) + multiset(rest);
    assert multiset([head] + tail) == multiset([head]) + multiset(tail);
    if pool in tail {
      var p :| 0 <= p < |tail| && tail[p] == pool;
      assert multiset(rest)[tail[p]] == multiset(tail)[tail[p]];
    } else {
      NotInPart(rest, tail, pool);
    }
  }

  lemma {:induction false} NotInPart(part: seq<Pool>, whole: seq<Pool>, x: Pool)
    requires Subsequence(part, whole) && x !in whole
    ensures x !in part
    decreases |whole|
  {
    if whole != [] {
      var n := |whole| - 1;
      if Subsequence(part, whole[..n]) {
        NotInPart(part, whole[..n], x);
      } else {
        var m := |part| - 1;
        NotInPart(part[..m], whole[..n], x);
        assert part == part[..m] + [part[m]];
      }
    }
  }

  /** Destroying a context drops exactly its pools: no pool of it remains, those of every other context do,
      and the world, the counters and the announcement are untouched. */
  lemma ContextDropsItsPools(g: Gl, context: nat)
    requires Allowed(g, ContextDestroyed(context))
    ensures var g' := Step(g, ContextDestroyed(context));
            && g'.w == g.w && g'.s == g.s.(pools := g'.s.pools)
            && (context == 0 ==> g'.s.pools == g.s.pools)
            && (context != 0 ==> OthersOf(g.s.pools, context, g'.s.pools))
  {
    RemainingAreOthers(g.s.pools, context);
  }

  /** The end of a session forgets every pool and the announcement, and nothing else. */
  lemma SessionForgets(g: Gl, busy: bool)
    requires Allowed(g, SessionFinished(busy))
    ensures var g' := Step(g, SessionFinished(busy));
            if busy then g' == g
            else g'.w == g.w && g'.s.pools == [] && g'.s.announced.None?
                 && g'.s.lastExport == g.s.lastExport && g'.s.nextSequence == g.s.nextSequence
  {
  }

  // ---- Acknowledgements ----

  /** The slot gave its export back: everything but the export is as before, and it is free again. */
  predicate GivenBack(s: Slot, s': Slot) {
    && s' == s.(exportSequence := s'.exportSequence, exportReleased := s'.exportReleased)
    && s'.exportSequence.None? && !s'.exportReleased && (Allocated(s) ==> Available(s'))
  }

  /** An acknowledgement frees every slot exported under its sequence, in whatever pool, and no other. */
  lemma ReleaseFreesExactly(g: Gl, sequence: nat, p: nat, i: nat)
    requires Inv(g) && Allowed(g, ReleaseReceived(sequence, false))
    requires p < |g.s.pools| && i < |g.s.pools[p].slots|
    ensures var g' := Step(g, ReleaseReceived(sequence, false));
            && |g'.s.pools| == |g.s.pools| && g'.s == g.s.(pools := g'.s.pools)
            && g'.s.pools[p] == g.s.pools[p].(slots := g'.s.pools[p].slots)
            && |g'.s.pools[p].slots| == |g.s.pools[p].slots|
            && var s, s' := g.s.pools[p].slots[i], g'.s.pools[p].slots[i];
               if s.exportSequence == Some(sequence) then GivenBack(s, s') else s' == s
  {
    assert PoolFits(g.s.pools[p], g.w, g.s.nextSequence, g.s.lastExport);
    assert SlotFits(g.s.pools[p].slots[i], g.w, g.s.nextSequence);
  }

  // ---- Captures ----

  /** Retirement keeps every pool of another context, and those of the presented source, as they are. */
  lemma {:induction false} LivePoolsStay(w: GlWorld, pools: seq<Pool>, context: nat, source: SourceCandidate,
                                         calls: seq<RetireCalls>, p: nat)
    requires RetireCallsFit(pools, calls) && p < |pools|
    requires pools[p].context != context || pools[p].source == source
    ensures pools[p] in RetireStale(w, pools, context, source, calls).1
    decreases pools
  {
    var (w1, kept) := RetireOne(w, pools[0], context, source, calls[0]);
    var (_, rest) := RetireStale(w1, pools[1..], context, source, calls[1..]);
    if p == 0 {
      assert (kept + rest)[0] == pools[0];
    } else {
      LivePoolsStay(w1, pools[1..], context, source, calls[1..], p - 1);
      assert pools[1..][p - 1] == pools[p];
    }
  }

  /** Publication touches only the pool of the presented context and source. */
  lemma {:induction false} OtherPoolsRest(w: GlWorld, pools: seq<Pool>, context: nat, source: SourceCandidate, next: nat,
                                          calls: seq<PublishCalls>, p: nat)
    requires |calls| == |pools| && PublishAllFit(w, pools, context, source, next, calls) && p < |pools|
    requires pools[p].context != context || pools[p].source != source
    ensures var pools' := PublishActive(w, pools, context, source, next, calls).1;
            |pools'| == |pools| && pools'[p] == pools[p]
    decreases pools
  {
    var (w1, head, next1) := if Active(pools[0], context, source) then PublishReady(w, pools[0], next, calls[0])
                             else (w, pools[0], next);
    SameLength(w1, pools[1..], context, source, next1, calls[1..]);
    if p > 0 {
      OtherPoolsRest(w1, pools[1..], context, source, next1, calls[1..], p - 1);
    }
  }

  lemma {:induction false} SameLength(w: GlWorld, pools: seq<Pool>, context: nat, source: SourceCandidate, next: nat,
                                      calls: seq<PublishCalls>)
    requires |calls| == |pools| && PublishAllFit(w, pools, context, source, next, calls)
    ensures |PublishActive(w, pools, context, source, next, calls).1| == |pools|
    decreases pools
  {
    if pools != [] {
      var (w1, head, next1) := if Active(pools[0], context, source) then PublishReady(w, pools[0], next, calls[0])
                               else (w, pools[0], next);
      SameLength(w1, pools[1..], context, source, next1, calls[1..]);
    }
  }

  /** A source without a pool gets one while fewer than four exist: six slots, or eight with the bridge. */
  lemma PoolIsCreated(w: GlWorld, pools: seq<Pool>, context: nat, source: SourceCandidate, pool: Pool)
    requires FreshPool(pool, w, context, source)
    requires forall p :: 0 <= p < |pools| ==> pools[p].context != context || pools[p].source != source
    ensures var (w', pools', index) := EnsurePool(w, pools, context, source, Some(pool));
            && (index.Some? <==> |pools| < 4)
            && (if |pools| < 4 then pools' == pools + [pool] && index == Some(|pools|) else pools' == pools && w' == w)
            && |pool.slots| == (if IsNvidia(source) then 8 else 6)
  {
  }

  predicate HasPool(pools: seq<Pool>, context: nat, source: SourceCandidate) {
    exists p :: 0 <= p < |pools| && Active(pools[p], context, source)
  }

  /** A presented source is the announced one as soon as it has a pool, and the announcement changes for no
      other reason. */
  lemma SourceIsAnnounced(g: Gl, e: Event)
    requires e.Presented? && Allowed(g, e)
    ensures var s := Present(g, e).s;
            s.announced == if e.context != 0 && !e.busy && HasPool(s.pools, e.context, e.source) then Some(e.source)
                           else g.s.announced
  {
    if e.context != 0 && !e.busy {
      var (w1, kept) := RetireStale(g.w, g.s.pools, e.context, e.source, e.calls.retire);
      var (w2, published, next) := PublishActive(w1, kept, e.context, e.source, g.s.nextSequence, e.calls.publish);
      var (w3, pools, index) := EnsurePool(w2, published, e.context, e.source, e.calls.created);
      if index.Some? {
        var ready := Gl(g.s.(pools := pools, nextSequence := next, announced := Some(e.source)), w3);
        StartKeepsSource(ready, index.value, e.source, e.calls);
      } else {
        assert pools == published;
      }
    }
  }

  lemma StartKeepsSource(g: Gl, k: nat, source: SourceCandidate, calls: CaptureCalls)
    requires k < |g.s.pools| && source.targetFramesPerSecond > 0
    ensures var s := StartDue(g, k, source, calls).s;
            s.announced == g.s.announced && |s.pools| == |g.s.pools|
            && s.pools[k].context == g.s.pools[k].context && s.pools[k].source == g.s.pools[k].source
  {
  }

  // ---- One slot ----

  predicate FencePassed(w: GlWorld, s: Slot, poll: Poll) {
    s.sync == 0 || (poll.fence == Signaled && s.memory !in w.work)
  }

  predicate BridgePassed(w: GlWorld, s: Slot, poll: Poll) {
    !s.copyPending || (poll.bridge == Ready && s.memory !in w.bridge)
  }

  /** A polled copy is ready exactly when its fence and its bridge have passed, and is then unchanged but for
      them. A failed fence quarantines the slot without its copy, a failed bridge empties the slot, and in every
      other case the copy goes on waiting. */
  lemma PollFates(w: GlWorld, s: Slot, poll: Poll)
    requires InPhase(s, Copying)
    ensures var (w', s', ready) := CopyReady(w, s, poll);
            && (ready <==> FencePassed(w, s, poll) && BridgePassed(w, s, poll))
            && (ready ==> s' == s.(sync := 0, copyPending := false))
            && (s.sync != 0 && poll.fence == WaitFailed ==> s' == s.(failed := true, source := None, timestamp := 0))
            && (FencePassed(w, s, poll) && s.copyPending && poll.bridge == Failed ==> !Allocated(s'))
            && (!ready && !(s.sync != 0 && poll.fence == WaitFailed)
                && !(FencePassed(w, s, poll) && s.copyPending && poll.bridge == Failed) ==>
                  s' == s.(sync := if FencePassed(w, s, poll) then 0 else s.sync) && w' == w)
  {
  }

  /** A copy starts exactly when the bridge is rearmed and the copy gets a fence. A bridge that cannot be
      rearmed costs the slot, one that is not yet rearmed changes nothing, and a copy without a fence
      quarantines a bridge slot. */
  lemma StartFates(w: GlWorld, s: Slot, source: SourceCandidate, timestamp: nat, rearm: Completion, outcome: CopyOutcome)
    requires SlotOk(s) && Available(s)
    ensures var (w', s', started) := StartCopy(w, s, source, timestamp, rearm, outcome);
            && (started <==> rearm == Ready && outcome.Started? && outcome.sync != 0)
            && (started ==> InPhase(s', Copying) && s'.source == Some(source) && s'.timestamp == timestamp
                            && s'.sync == outcome.sync && s'.memory == s.memory && (s'.copyPending <==> s.native != 0))
            && (rearm == Failed ==> !Allocated(s'))
            && (rearm == Pending ==> s' == s && w' == w)
            && (rearm == Ready && !started ==> s' == s.(failed := s.semaphores))
  {
  }

  /** The first slot without storage gets the storage that the driver hands out, and no other slot does. */
  lemma FirstLostIsRefilled(w: GlWorld, slots: seq<Slot>, replacement: Slot, k: nat)
    requires k < |slots| && !Allocated(slots[k]) && forall j :: 0 <= j < k ==> Allocated(slots[j])
    ensures Refill(w, slots, Some(replacement)).1 == slots[k := replacement]
    ensures Refill(w, slots, Some(replacement)).0 == w.(memories := w.memories + {replacement.memory})
  {
    FirstLost(slots, 0, k);
  }

  lemma {:induction false} FirstLost(slots: seq<Slot>, from: nat, k: nat)
    requires from <= k < |slots| && !Allocated(slots[k]) && forall j :: from <= j < k ==> Allocated(slots[j])
    ensures FirstUnallocated(slots, from) == Some(k)
    decreases k - from
  {
    if from < k {
      FirstLost(slots, from + 1, k);
    }
  }
}

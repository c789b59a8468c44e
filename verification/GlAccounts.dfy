/** What becomes of every copy an OpenGL pool was charged for: it is exported, dropped or still pending,
    and only failing polls can lose one without a trace in the counters. */
module GlAccounts {
  import opened Wrappers
  import opened Messages
  import opened GlSlots
  import opened GlPools
  import opened GlInvariant
  import opened GlPublication
  import opened GlSafety
  import opened GlRuns
  import Cadence

  function One(s: Slot): nat { if s.source.Some? then 1 else 0 }

  /** Copies on their way. */
  function InFlight(slots: seq<Slot>): nat {
    if slots == [] then 0 else InFlight(slots[..|slots| - 1]) + One(slots[|slots| - 1])
  }

  lemma {:induction false} OneSlotChanges(slots: seq<Slot>, k: nat, s: Slot)
    requires k < |slots|
    ensures InFlight(slots[k := s]) + One(slots[k]) == InFlight(slots) + One(s)
    decreases |slots|
  {
    var n := |slots| - 1;
    if k == n {
      assert slots[k := s][..n] == slots[..n];
    } else {
      OneSlotChanges(slots[..n], k, s);
      assert slots[k := s][..n] == slots[..n][k := s];
    }
  }

  /** The fence wait and the bridge both answer. */
  predicate Answers(poll: Poll) { poll.fence != WaitFailed && poll.bridge != Failed }

  predicate AllAnswer(polls: seq<Poll>) { forall i :: 0 <= i < |polls| ==> Answers(polls[i]) }

  predicate AttemptsAnswer(attempts: seq<Attempt>) { forall i :: 0 <= i < |attempts| ==> Answers(attempts[i].poll) }

  /** No copy appears from nowhere, and none is lost unless a poll fails. */
  predicate Accounts(before: int, after: int, answered: bool) { after <= before && (answered ==> after == before) }

  lemma PollLoses(w: GlWorld, s: Slot, poll: Poll)
    ensures Accounts(One(s), One(CopyReady(w, s, poll).1), Answers(poll))
    ensures CopyReady(w, s, poll).2 ==> s.source.Some? && CopyReady(w, s, poll).1.source.Some?
  {
  }

  // ---- Passes over the slots ----

  /** The polls of a bridge pool count every copy they lose. */
  lemma {:induction false} PollsBalance(w: GlWorld, slots: seq<Slot>, polls: seq<Poll>, k: nat, drops: nat)
    requires k <= |slots| == |polls|
    ensures var (w', slots', drops') := PollSlots(w, slots, polls, k, drops);
            drops' + InFlight(slots') == drops + InFlight(slots)
    decreases |slots| - k
  {
    if k < |slots| {
      var (w1, s1, _) := CopyReady(w, slots[k], polls[k]);
      PollLoses(w, slots[k], polls[k]);
      OneSlotChanges(slots, k, s1);
      PollsBalance(w1, slots[k := s1], polls, k + 1, drops + Lost(slots[k], s1));
    }
  }

  lemma {:induction false} RetirementBalance(w: GlWorld, slots: seq<Slot>, polls: seq<Poll>, k: nat, drops: nat)
    requires k <= |slots| == |polls|
    ensures var (w', slots', drops') := RetireSlots(w, slots, polls, k, drops);
            Accounts(drops + InFlight(slots), drops' + InFlight(slots'), AllAnswer(polls))
    decreases |slots| - k
  {
    if k < |slots| {
      var s := slots[k];
      var (w1, s1, _) := if s.sync != 0 || s.copyPending then CopyReady(w, s, polls[k]) else (w, s, false);
      var (s2, dropped) := DiscardRetiredCopy(s1);
      PollLoses(w, s, polls[k]);
      OneSlotChanges(slots, k, s2);
      RetirementBalance(w1, slots[k := s2], polls, k + 1, if dropped then drops + 1 else drops);
    }
  }

  lemma {:induction false} CompletionBalance(w: GlWorld, slots: seq<Slot>, polls: seq<Poll>, k: nat)
    requires k <= |slots| == |polls|
    ensures Accounts(InFlight(slots), InFlight(CompleteSlots(w, slots, polls, k).1), AllAnswer(polls))
    decreases |slots| - k
  {
    if k < |slots| {
      var (w1, s1, done) := Completed(w, slots[k], polls[k]);
      PollLoses(w, slots[k], polls[k]);
      OneSlotChanges(slots, k, s1);
      if done {
        CompletionBalance(w1, slots[k := s1], polls, k + 1);
      }
    }
  }

  function PassTotal(p: Pass): nat { p.exports + p.drops + InFlight(p.slots) }

  /** One publication attempt moves one copy to the exports or to the drops. */
  lemma PublicationBalance(p: Pass, pool: nat, ordered: bool, k: nat, a: Attempt)
    requires k < |p.slots| && p.slots[k].source.Some?
    ensures PassTotal(PublishSlot(p, pool, ordered, k, a)) == PassTotal(p)
    ensures PublishSlot(p, pool, ordered, k, a).next == p.next + (if a.duplicated then 1 else 0)
  {
    OneSlotChanges(p.slots, k, PublishSlot(p, pool, ordered, k, a).slots[k]);
  }

  lemma {:induction false} OldestBalance(p: Pass, pool: nat, attempts: seq<Attempt>)
    ensures Accounts(PassTotal(p), PassTotal(PublishOldest(p, pool, attempts)), AttemptsAnswer(attempts))
    decreases attempts
  {
    var oldest := OldestPendingSlot(p.slots);
    if attempts != [] && oldest.Some? {
      var k := oldest.value;
      var (w1, s1, ready) := CopyReady(p.w, p.slots[k], attempts[0].poll);
      var p1 := p.(w := w1, slots := p.slots[k := s1]);
      PollLoses(p.w, p.slots[k], attempts[0].poll);
      OneSlotChanges(p.slots, k, s1);
      if ready {
        PublicationBalance(p1, pool, true, k, attempts[0]);
        OldestBalance(PublishSlot(p1, pool, true, k, attempts[0]), pool, attempts[1..]);
      }
    }
  }

  /** This copy's fence wait fails now. */
  predicate FenceFails(s: Slot, poll: Poll) { !s.failed && s.source.Some? && s.sync != 0 && poll.fence == WaitFailed }

  function FailedFences(slots: seq<Slot>, attempts: seq<Attempt>, k: nat): nat
    requires k <= |slots| == |attempts|
    decreases |slots| - k
  {
    if k == |slots| then 0
    else (if FenceFails(slots[k], attempts[k].poll) then 1 else 0) + FailedFences(slots, attempts, k + 1)
  }

  lemma {:induction false} LaterFences(slots: seq<Slot>, attempts: seq<Attempt>, j: nat, s: Slot, k: nat)
    requires j < k <= |slots| == |attempts|
    ensures FailedFences(slots[j := s], attempts, k) == FailedFences(slots, attempts, k)
    decreases |slots| - k
  {
    if k < |slots| {
      LaterFences(slots, attempts, j, s, k + 1);
    }
  }

  /** One slot's turn in the pass over a pool without the bridge. */
  function Visit(p: Pass, pool: nat, k: nat, a: Attempt): Pass
    requires k < |p.slots|
  {
    var (w1, s1, ready) := CopyReady(p.w, p.slots[k], a.poll);
    var p1 := p.(w := w1, slots := p.slots[k := s1]);
    if ready then PublishSlot(p1, pool, false, k, a) else p1
  }

  lemma VisitBalance(p: Pass, pool: nat, k: nat, a: Attempt)
    requires k < |p.slots| && !p.slots[k].copyPending
    ensures PassTotal(Visit(p, pool, k, a)) + (if FenceFails(p.slots[k], a.poll) then 1 else 0) == PassTotal(p)
    ensures |Visit(p, pool, k, a).slots| == |p.slots|
    ensures Visit(p, pool, k, a).slots == p.slots[k := Visit(p, pool, k, a).slots[k]]
  {
    var (w1, s1, ready) := CopyReady(p.w, p.slots[k], a.poll);
    var p1 := p.(w := w1, slots := p.slots[k := s1]);
    OneSlotChanges(p.slots, k, s1);
    if ready {
      PublicationBalance(p1, pool, false, k, a);
    }
  }

  /** A pool without the bridge loses from its counters exactly the copies whose fence waits fail: neither
      exported nor dropped, they are gone. */
  lemma {:induction false} IndexLosesFailedFences(p: Pass, pool: nat, attempts: seq<Attempt>, k: nat)
    requires k <= |p.slots| == |attempts| && forall j :: k <= j < |p.slots| ==> !p.slots[j].copyPending
    ensures PassTotal(PublishByIndex(p, pool, attempts, k)) + FailedFences(p.slots, attempts, k) == PassTotal(p)
    decreases |p.slots| - k
  {
    if k < |p.slots| {
      var p' := Visit(p, pool, k, attempts[k]);
      VisitBalance(p, pool, k, attempts[k]);
      LaterFences(p.slots, attempts, k, p'.slots[k], k + 1);
      IndexLosesFailedFences(p', pool, attempts, k + 1);
      assert PublishByIndex(p, pool, attempts, k) == PublishByIndex(p', pool, attempts, k + 1);
    }
  }

  lemma {:induction false} IndexBalance(p: Pass, pool: nat, attempts: seq<Attempt>, k: nat)
    requires k <= |p.slots| == |attempts|
    ensures Accounts(PassTotal(p), PassTotal(PublishByIndex(p, pool, attempts, k)), AttemptsAnswer(attempts))
    decreases |p.slots| - k
  {
    if k < |p.slots| {
      var (w1, s1, ready) := CopyReady(p.w, p.slots[k], attempts[k].poll);
      var p1 := p.(w := w1, slots := p.slots[k := s1]);
      PollLoses(p.w, p.slots[k], attempts[k].poll);
      OneSlotChanges(p.slots, k, s1);
      if ready {
        PublicationBalance(p1, pool, false, k, attempts[k]);
      }
      var p' := Visit(p, pool, k, attempts[k]);
      assert |p'.slots| == |p.slots|;
      IndexBalance(p', pool, attempts, k + 1);
    }
  }

  // ---- One pool ----

  /** Copies exported, dropped and on their way. */
  function Total(pool: Pool): nat { pool.exports + pool.drops + InFlight(pool.slots) }

  lemma PublishingBalance(w: GlWorld, pool: Pool, next: nat, calls: PublishCalls)
    requires PublishCallsFit(pool, w, calls) && SlotsOk(pool.slots)
    ensures Accounts(Total(pool), Total(PublishReady(w, pool, next, calls).1), AttemptsAnswer(calls.attempts))
  {
    if IsNvidia(pool.source) {
      var (w1, filled) := Refill(w, pool.slots, calls.replacement);
      RefillBalance(w, pool, calls.replacement);
      PollsBalance(w1, filled, calls.polls, 0, pool.drops);
      var (w2, polled, drops) := PollSlots(w1, filled, calls.polls, 0, pool.drops);
      OldestBalance(Pass(w2, polled, pool.exports, drops, next), pool.id, calls.attempts);
    } else {
      IndexBalance(Pass(w, pool.slots, pool.exports, pool.drops, next), pool.id, calls.attempts, 0);
    }
  }

  predicate SlotsOk(slots: seq<Slot>) { forall i :: 0 <= i < |slots| ==> SlotOk(slots[i]) }

  lemma RefillBalance(w: GlWorld, pool: Pool, replacement: Option<Slot>)
    requires SlotsOk(pool.slots) && (replacement.Some? ==> FreshSlot(replacement.value, w, IsNvidia(pool.source)))
    ensures InFlight(Refill(w, pool.slots, replacement).1) == InFlight(pool.slots)
  {
    var missing := FirstUnallocated(pool.slots, 0);
    if missing.Some? && replacement.Some? {
      assert SlotOk(pool.slots[missing.value]);
      OneSlotChanges(pool.slots, missing.value, replacement.value);
    }
  }

  predicate RetireAnswers(answers: RetireCalls) { AllAnswer(answers.drain) && AllAnswer(answers.check) }

  lemma RetiringBalance(w: GlWorld, pool: Pool, context: nat, source: SourceCandidate, answers: RetireCalls)
    requires |answers.drain| == |answers.check| == |pool.slots|
    ensures var kept := RetireOne(w, pool, context, source, answers).1;
            |kept| <= 1 && (kept != [] ==> kept[0].id == pool.id
                                           && Accounts(Total(pool), Total(kept[0]), RetireAnswers(answers)))
  {
    if Stale(pool, context, source) {
      RetirementBalance(w, pool.slots, answers.drain, 0, pool.drops);
      var (w1, drained, drops) := RetireSlots(w, pool.slots, answers.drain, 0, pool.drops);
      CompletionBalance(w1, drained, answers.check, 0);
    }
  }

  lemma {:induction false} ReleaseBalance(slots: seq<Slot>, slots': seq<Slot>)
    requires |slots'| == |slots| && forall i :: 0 <= i < |slots| ==> slots'[i].source == slots[i].source
    ensures InFlight(slots') == InFlight(slots)
    decreases |slots|
  {
    if slots != [] {
      ReleaseBalance(slots[..|slots| - 1], slots'[..|slots| - 1]);
    }
  }

  lemma StartBalance(w: GlWorld, s: Slot, source: SourceCandidate, timestamp: nat, rearm: Completion, outcome: CopyOutcome)
    requires Available(s)
    ensures var (w', s', started) := StartCopy(w, s, source, timestamp, rearm, outcome);
            One(s') == (if started then 1 else 0) && w'.charges == w.charges
  {
  }

  /** The charged capture times of a pool. */
  function Charged(w: GlWorld, id: nat): nat { if id in w.charges then |w.charges[id]| else 0 }

  /** A due present is charged, and its copy is under way or counted as dropped. */
  lemma ChargeBalance(g: Gl, k: nat, source: SourceCandidate, calls: CaptureCalls)
    requires k < |g.s.pools| && source.targetFramesPerSecond > 0 && g.s.pools[k].id in g.w.charges
    ensures var g' := StartDue(g, k, source, calls);
            var pool, pool' := g.s.pools[k], g'.s.pools[k];
            && g'.s.pools == g.s.pools[k := pool'] && pool'.id == pool.id
            && (forall id :: id != pool.id ==> Charged(g'.w, id) == Charged(g.w, id))
            && Total(pool') + Charged(g.w, pool.id) == Total(pool) + Charged(g'.w, pool.id)
  {
    var pool := g.s.pools[k];
    assert g.s.pools[k := pool] == g.s.pools;
    if Cadence.OpenGlCaptureDue(calls.variable, source.width, source.height, pool.nextCapture, calls.now) {
      var (presentation, interval) := Cadence.OpenGlCaptureTiming(calls.variable, source, pool.nextCapture, calls.now);
      var w0 := Charge(g.w, pool.id, presentation);
      assert Charged(w0, pool.id) == Charged(g.w, pool.id) + 1;
      var free := FirstAvailable(pool.slots);
      if free.Some? {
        var timestamp := Cadence.MonotonicExportTimestamp(g.s.lastExport, presentation);
        var slot := StartCopy(w0, pool.slots[free.value], source, timestamp, calls.rearm, calls.outcome).1;
        StartBalance(w0, pool.slots[free.value], source, timestamp, calls.rearm, calls.outcome);
        OneSlotChanges(pool.slots, free.value, slot);
      }
    }
  }

  // ---- Pool lists ----

  /** The pool carries on the accounts of some pool of the list. */
  predicate TracedTo(pools: seq<Pool>, pool: Pool, answered: bool) {
    exists p :: 0 <= p < |pools| && pools[p].id == pool.id && Accounts(Total(pools[p]), Total(pool), answered)
  }

  predicate AllTraced(pools: seq<Pool>, pools': seq<Pool>, answered: bool) {
    forall q :: 0 <= q < |pools'| ==> TracedTo(pools, pools'[q], answered)
  }

  /** No pool has more copies than it was charged for, and none fewer while every poll answers. */
  predicate Accounted(pool: Pool, w: GlWorld, answered: bool) {
    pool.id in w.charges && Accounts(Charged(w, pool.id), Total(pool), answered)
  }

  predicate AllAccounted(pools: seq<Pool>, w: GlWorld, answered: bool) {
    forall p :: 0 <= p < |pools| ==> Accounted(pools[p], w, answered)
  }

  lemma AccountsKept(pools: seq<Pool>, pools': seq<Pool>, w: GlWorld, w': GlWorld, answered: bool)
    requires AllAccounted(pools, w, answered) && AllTraced(pools, pools', answered) && w'.charges == w.charges
    ensures AllAccounted(pools', w', answered)
  {
    forall q | 0 <= q < |pools'|
      ensures Accounted(pools'[q], w', answered)
    {
      assert TracedTo(pools, pools'[q], answered);
      var p :| 0 <= p < |pools| && pools[p].id == pools'[q].id && Accounts(Total(pools[p]), Total(pools'[q]), answered);
      assert Accounted(pools[p], w, answered);
    }
  }

  lemma TracedInFront(pools: seq<Pool>, head: seq<Pool>, rest: seq<Pool>, answered: bool)
    requires pools != [] && AllTraced(pools[1..], rest, answered) && |head| <= 1
    requires head != [] ==> head[0].id == pools[0].id && Accounts(Total(pools[0]), Total(head[0]), answered)
    ensures AllTraced(pools, head + rest, answered)
  {
    forall q | 0 <= q < |head + rest|
      ensures TracedTo(pools, (head + rest)[q], answered)
    {
      if q >= |head| {
        var pool := rest[q - |head|];
        assert TracedTo(pools[1..], pool, answered);
        var p :| 0 <= p < |pools[1..]| && pools[1..][p].id == pool.id
                 && Accounts(Total(pools[1..][p]), Total(pool), answered);
        assert pools[p + 1] == pools[1..][p];
      }
    }
  }

  lemma {:induction false} RetireTraced(w: GlWorld, pools: seq<Pool>, context: nat, source: SourceCandidate,
                                        calls: seq<RetireCalls>, answered: bool)
    requires RetireCallsFit(pools, calls)
    requires answered ==> forall i :: 0 <= i < |calls| ==> RetireAnswers(calls[i])
    ensures AllTraced(pools, RetireStale(w, pools, context, source, calls).1, answered)
    decreases pools
  {
    if pools != [] {
      var (w1, kept) := RetireOne(w, pools[0], context, source, calls[0]);
      RetiringBalance(w, pools[0], context, source, calls[0]);
      RetireTraced(w1, pools[1..], context, source, calls[1..], answered);
      TracedInFront(pools, kept, RetireStale(w1, pools[1..], context, source, calls[1..]).1, answered);
    }
  }

  lemma {:induction false} PublishTraced(w: GlWorld, pools: seq<Pool>, context: nat, source: SourceCandidate, next: nat,
                                         calls: seq<PublishCalls>, answered: bool)
    requires |calls| == |pools| && PublishAllFit(w, pools, context, source, next, calls)
    requires forall p :: 0 <= p < |pools| ==> SlotsOk(pools[p].slots)
    requires answered ==> forall i :: 0 <= i < |calls| ==> AttemptsAnswer(calls[i].attempts)
    ensures AllTraced(pools, PublishActive(w, pools, context, source, next, calls).1, answered)
    decreases pools
  {
    if pools != [] {
      var (w1, head, next1) := if Active(pools[0], context, source) then PublishReady(w, pools[0], next, calls[0])
                               else (w, pools[0], next);
      if Active(pools[0], context, source) {
        PublishingBalance(w, pools[0], next, calls[0]);
      }
      PublishTraced(w1, pools[1..], context, source, next1, calls[1..], answered);
      TracedInFront(pools, [head], PublishActive(w1, pools[1..], context, source, next1, calls[1..]).1, answered);
    }
  }

  lemma {:induction false} WithoutContextTraced(pools: seq<Pool>, context: nat, answered: bool)
    ensures AllTraced(pools, WithoutContext(pools, context), answered)
  {
    if pools != [] {
      WithoutContextTraced(pools[1..], context, answered);
      var head := if pools[0].context == context then [] else [pools[0]];
      TracedInFront(pools, head, WithoutContext(pools[1..], context), answered);
      assert [] + WithoutContext(pools[1..], context) == WithoutContext(pools[1..], context);
    }
  }

  lemma {:induction false} NothingInFlight(slots: seq<Slot>)
    requires forall i :: 0 <= i < |slots| ==> slots[i].source.None?
    ensures InFlight(slots) == 0
    decreases |slots|
  {
    if slots != [] {
      NothingInFlight(slots[..|slots| - 1]);
    }
  }

  lemma FreshAccounts(pool: Pool, w: GlWorld, context: nat, source: SourceCandidate)
    requires FreshPool(pool, w, context, source)
    ensures Total(pool) == 0
  {
    forall i | 0 <= i < |pool.slots|
      ensures pool.slots[i].source.None?
    {
      assert FreshSlot(pool.slots[i], w, IsNvidia(source));
    }
    NothingInFlight(pool.slots);
  }

  // ---- Runs ----

  /** No poll of a copy that is to be retired or announced fails. Everything else may. */
  predicate Answered(e: Event) {
    e.Presented? ==>
      && (forall i :: 0 <= i < |e.calls.retire| ==> RetireAnswers(e.calls.retire[i]))
      && forall i :: 0 <= i < |e.calls.publish| ==> AttemptsAnswer(e.calls.publish[i].attempts)
  }

  predicate EveryPollAnswers(events: seq<Event>) { forall i :: 0 <= i < |events| ==> Answered(events[i]) }

  lemma EnsuredAccounts(w: GlWorld, pools: seq<Pool>, context: nat, source: SourceCandidate, created: Option<Pool>, next: nat,
                        lastExport: nat, answered: bool)
    requires AllAccounted(pools, w, answered) && PoolsFit(pools, w, next, lastExport)
    requires created.Some? ==> FreshPool(created.value, w, context, source)
    ensures var (w', pools', index) := EnsurePool(w, pools, context, source, created); AllAccounted(pools', w', answered)
  {
    if created.Some? {
      FreshAccounts(created.value, w, context, source);
    }
    var (w', pools', index) := EnsurePool(w, pools, context, source, created);
    forall p | 0 <= p < |pools'|
      ensures Accounted(pools'[p], w', answered)
    {
      if p < |pools| {
        assert Accounted(pools[p], w, answered) && PoolFits(pools[p], w, next, lastExport);
      }
    }
  }

  lemma StartKeepsAccounts(g: Gl, k: nat, source: SourceCandidate, calls: CaptureCalls, answered: bool)
    requires k < |g.s.pools| && source.targetFramesPerSecond > 0 && AllAccounted(g.s.pools, g.w, answered) && Apart(g.s.pools)
    ensures var g' := StartDue(g, k, source, calls); AllAccounted(g'.s.pools, g'.w, answered)
  {
    var g' := StartDue(g, k, source, calls);
    assert Accounted(g.s.pools[k], g.w, answered);
    ChargeBalance(g, k, source, calls);
    forall p | 0 <= p < |g'.s.pools|
      ensures Accounted(g'.s.pools[p], g'.w, answered)
    {
      assert Accounted(g.s.pools[p], g.w, answered);
      assert p != k ==> g.s.pools[p].id != g.s.pools[k].id;
    }
  }

  lemma PresentAccounts(g: Gl, e: Event, answered: bool)
    requires e.Presented? && Inv(g) && Allowed(g, e) && AllAccounted(g.s.pools, g.w, answered)
    requires answered ==> Answered(e)
    ensures AllAccounted(Present(g, e).s.pools, Present(g, e).w, answered)
  {
    if e.context != 0 && !e.busy {
      var next, last := g.s.nextSequence, g.s.lastExport;
      RetireStaleFits(g.w, g.s.pools, e.context, e.source, e.calls.retire, next, last);
      var (w1, kept) := RetireStale(g.w, g.s.pools, e.context, e.source, e.calls.retire);
      RetireTraced(g.w, g.s.pools, e.context, e.source, e.calls.retire, answered);
      AccountsKept(g.s.pools, kept, g.w, w1, answered);
      PublishActiveFits(w1, kept, e.context, e.source, next, e.calls.publish, last);
      var (w2, published, next2) := PublishActive(w1, kept, e.context, e.source, next, e.calls.publish);
      FittingSlotsOk(kept, w1, next, last);
      PublishTraced(w1, kept, e.context, e.source, next, e.calls.publish, answered);
      AccountsKept(kept, published, w1, w2, answered);
      EnsurePoolFits(w2, published, e.context, e.source, e.calls.created, next2, last);
      EnsuredAccounts(w2, published, e.context, e.source, e.calls.created, next2, last, answered);
      var (w3, pools, index) := EnsurePool(w2, published, e.context, e.source, e.calls.created);
      if index.Some? {
        var ready := Gl(g.s.(pools := pools, nextSequence := next2, announced := Some(e.source)), w3);
        StartKeepsAccounts(ready, index.value, e.source, e.calls, answered);
      }
    }
  }

  lemma FittingSlotsOk(pools: seq<Pool>, w: GlWorld, next: nat, lastExport: nat)
    requires PoolsFit(pools, w, next, lastExport)
    ensures forall p :: 0 <= p < |pools| ==> SlotsOk(pools[p].slots)
  {
    forall p | 0 <= p < |pools|
      ensures SlotsOk(pools[p].slots)
    {
      assert PoolFits(pools[p], w, next, lastExport);
    }
  }

  lemma StepAccounts(g: Gl, e: Event, answered: bool)
    requires Inv(g) && Allowed(g, e) && AllAccounted(g.s.pools, g.w, answered) && (answered ==> Answered(e))
    ensures AllAccounted(Step(g, e).s.pools, Step(g, e).w, answered)
  {
    match e
    case Presented(_, _, _, _) => PresentAccounts(g, e, answered);
    case ContextDestroyed(context) =>
      WithoutContextTraced(g.s.pools, context, answered);
      if context != 0 {
        AccountsKept(g.s.pools, WithoutContext(g.s.pools, context), g.w, g.w, answered);
      }
    case ReleaseReceived(sequence, busy) =>
      if !busy {
        ReleaseKeepsAccounts(g.s.pools, g.w, sequence, answered);
      }
    case GpuCompletes(memory) => AccountsKept(g.s.pools, g.s.pools, g.w, Finish(g.w, memory), answered);
    case BridgeCompletes(memory) => AccountsKept(g.s.pools, g.s.pools, g.w, FinishBridge(g.w, memory), answered);
    case DaemonReleases(sequence) => AccountsKept(g.s.pools, g.s.pools, g.w, Acknowledge(g.w, sequence), answered);
    case SessionFinished(_) =>
  }

  lemma ReleaseKeepsAccounts(pools: seq<Pool>, w: GlWorld, sequence: nat, answered: bool)
    requires AllAccounted(pools, w, answered)
    ensures forall p :: 0 <= p < |pools| ==> Accounted(ReleasePool(pools[p], sequence), MarkApplied(w, sequence), answered)
  {
    forall p | 0 <= p < |pools|
      ensures Accounted(ReleasePool(pools[p], sequence), MarkApplied(w, sequence), answered)
    {
      assert Accounted(pools[p], w, answered);
      ReleaseBalance(pools[p].slots, ReleasePool(pools[p], sequence).slots);
    }
  }

  lemma {:induction false} RunAccounts(g: Gl, events: seq<Event>, answered: bool)
    requires Inv(g) && AllAllowed(g, events) && AllAccounted(g.s.pools, g.w, answered)
    requires answered ==> EveryPollAnswers(events)
    ensures AllAccounted(Run(g, events).s.pools, Run(g, events).w, answered)
    decreases |events|
  {
    if events != [] {
      StepAccounts(g, events[0], answered);
      StepKeeps(g, events[0]);
      RunAccounts(Step(g, events[0]), events[1..], answered);
    }
  }

  /** In every run a pool never reports more exports and drops, together with the copies on their way,
      than the due presents it was charged for; and exactly that many as long as no poll of a copy fails, whatever
      else does: missing slots, refused copies, missing fences, descriptors that cannot be duplicated and sends. */
  lemma EveryCopyIsAccounted(events: seq<Event>, p: nat)
    requires AllAllowed(Initial, events) && p < |Run(Initial, events).s.pools|
    ensures var g := Run(Initial, events);
            var pool := g.s.pools[p];
            && pool.id in g.w.charges
            && pool.exports + pool.drops + InFlight(pool.slots) <= |g.w.charges[pool.id]|
            && (EveryPollAnswers(events) ==>
                  pool.exports + pool.drops + InFlight(pool.slots) == |g.w.charges[pool.id]|)
  {
    RunAccounts(Initial, events, EveryPollAnswers(events));
    assert Accounted(Run(Initial, events).s.pools[p], Run(Initial, events).w, EveryPollAnswers(events));
  }
}

/** The OpenGL producer does make progress: finished copies leave, due presents are copied when
    the driver cooperates, and a finished stale pool goes. */
module GlProgress {
  import opened Wrappers
  import opened Messages
  import opened GlSlots
  import opened GlPools
  import opened GlInvariant
  import opened GlPublication
  import opened GlRuns
  import Cadence

  // ---- Publication ----

  function PendingCount(slots: seq<Slot>): nat {
    if slots == [] then 0
    else PendingCount(slots[..|slots| - 1]) + (if slots[|slots| - 1].source.Some? then 1 else 0)
  }

  lemma {:induction false} PendingCountUpdate(slots: seq<Slot>, k: nat, s: Slot)
    requires k < |slots| && slots[k].source.Some? && s.source.None?
    ensures PendingCount(slots[k := s]) == PendingCount(slots) - 1
  {
    var n := |slots| - 1;
    if k == n {
      assert slots[k := s][..n] == slots[..n];
    } else {
      assert slots[k := s][..n] == slots[..n][k := s];
      PendingCountUpdate(slots[..n], k, s);
    }
  }

  lemma {:induction false} NonePending(slots: seq<Slot>)
    requires PendingCount(slots) == 0
    ensures forall i :: 0 <= i < |slots| ==> slots[i].source.None?
  {
    if slots != [] {
      var n := |slots| - 1;
      NonePending(slots[..n]);
      assert forall i :: 0 <= i < n ==> slots[i] == slots[..n][i];
    }
  }

  lemma {:induction false} SomePending(slots: seq<Slot>)
    requires PendingCount(slots) > 0
    ensures OldestPendingSlot(slots).Some?
  {
    if OldestPendingSlot(slots).None? {
      AllNone(slots);
    }
  }

  lemma {:induction false} AllNone(slots: seq<Slot>)
    requires forall i :: 0 <= i < |slots| ==> slots[i].source.None?
    ensures PendingCount(slots) == 0
  {
    if slots != [] {
      AllNone(slots[..|slots| - 1]);
    }
  }

  /** GPU and bridge work of every pending copy has completed. */
  predicate CopiesDone(slots: seq<Slot>) {
    forall i :: 0 <= i < |slots| && slots[i].source.Some? ==>
      slots[i].sync == 0 && !slots[i].copyPending && !slots[i].failed
  }

  predicate Delivers(a: GlPools.Attempt) { a.duplicated && a.sent }

  /** Publishing the oldest finished copy exports exactly that slot under the next sequence. */
  lemma OldestLeaves(p: Pass, pool: nat, a: GlPools.Attempt)
    requires CopiesDone(p.slots) && OldestPendingSlot(p.slots).Some? && Delivers(a)
    ensures var k := OldestPendingSlot(p.slots).value;
            var p' := PublishSlot(p, pool, true, k, a);
            && CopyReady(p.w, p.slots[k], a.poll) == (p.w, p.slots[k], true)
            && p'.slots == p.slots[k := p'.slots[k]] && p'.slots[k].exportSequence == Some(p.next)
            && p'.slots[k].source.None? && CopiesDone(p'.slots)
            && PendingCount(p'.slots) == PendingCount(p.slots) - 1
            && p'.exports == p.exports + 1 && p'.next == p.next + 1 && p'.drops == p.drops
            && p'.w.leases == p.w.leases[p.next := p.slots[k].memory]
            && p'.w.log == p.w.log + [Announcement(pool, p.next, p.slots[k].memory, p.slots[k].timestamp)]
            && NewestIs(p'.w, pool, p.slots[k].timestamp)
  {
    var k := OldestPendingSlot(p.slots).value;
    PendingCountUpdate(p.slots, k, PublishSlot(p, pool, true, k, a).slots[k]);
  }

  /** The announcement list of a pass over these slots: consecutive sequences, oldest first, and
      exactly the pending copies, each from its own slot. */
  predicate Announces(slots: seq<Slot>, slots': seq<Slot>, pool: nat, next: nat, left: seq<Announcement>)
    requires |slots'| == |slots|
  {
    && |left| == PendingCount(slots) && Sequenced(left, pool, next) && OldestFirst(left)
    && AllCarried(slots, left) && AllLeave(slots, slots', left)
  }

  predicate Sequenced(left: seq<Announcement>, pool: nat, next: nat) {
    forall i :: 0 <= i < |left| ==> left[i].pool == pool && left[i].sequence == next + i
  }

  predicate AllCarried(slots: seq<Slot>, left: seq<Announcement>) {
    forall i :: 0 <= i < |left| ==> Carried(slots, left[i])
  }

  predicate AllLeave(slots: seq<Slot>, slots': seq<Slot>, left: seq<Announcement>)
    requires |slots'| == |slots|
  {
    forall k :: 0 <= k < |slots| && slots[k].source.Some? ==> LeavesIn(slots[k], slots'[k], left)
  }

  predicate OldestFirst(left: seq<Announcement>) {
    forall i, j :: 0 <= i < j < |left| ==> left[i].timestamp <= left[j].timestamp
  }

  /** The announcement is of a pending copy. */
  predicate Carried(slots: seq<Slot>, a: Announcement) {
    exists k :: 0 <= k < |slots| && slots[k].source.Some? && slots[k].memory == a.memory && slots[k].timestamp == a.timestamp
  }

  /** The copy is in the list, and its slot now waits for that sequence. */
  predicate LeavesIn(s: Slot, s': Slot, left: seq<Announcement>) {
    exists i :: 0 <= i < |left| && left[i].memory == s.memory && left[i].timestamp == s.timestamp
                && s'.exportSequence == Some(left[i].sequence)
  }

  /** The daemon got a lease for each announcement and keeps those it had. */
  predicate Granted(w: GlWorld, w': GlWorld, next: nat, left: seq<Announcement>) {
    && w'.log == w.log + left
    && (forall q :: q < next && q in w.leases ==> q in w'.leases && w'.leases[q] == w.leases[q])
    && forall i :: 0 <= i < |left| ==>
         left[i].sequence in w'.leases && w'.leases[left[i].sequence] == left[i].memory
  }

  /** Every pending copy left and nothing else changed. */
  predicate AllLeft(p: Pass, p': Pass) {
    && |p'.slots| == |p.slots| && (forall i :: 0 <= i < |p'.slots| ==> p'.slots[i].source.None?)
    && (forall i :: 0 <= i < |p.slots| && p.slots[i].source.None? ==> p'.slots[i] == p.slots[i])
    && p'.exports == p.exports + PendingCount(p.slots)
    && p'.next == p.next + PendingCount(p.slots) && p'.drops == p.drops
  }

  /** One NVIDIA pass with a willing daemon announces every finished copy, each under its own
      sequence and oldest first, leases each to the daemon, and drops none. */
  lemma {:induction false} EveryFinishedCopyLeaves(p: Pass, pool: nat, attempts: seq<GlPools.Attempt>)
    returns (left: seq<Announcement>)
    requires CopiesDone(p.slots) && |attempts| >= PendingCount(p.slots)
    requires forall i :: 0 <= i < |attempts| ==> Delivers(attempts[i])
    ensures var p' := PublishOldest(p, pool, attempts);
            && AllLeft(p, p') && Granted(p.w, p'.w, p.next, left)
            && Announces(p.slots, p'.slots, pool, p.next, left)
    decreases |attempts|
  {
    if PendingCount(p.slots) == 0 {
      NonePending(p.slots);
      left := [];
    } else {
      SomePending(p.slots);
      var k := OldestPendingSlot(p.slots).value;
      OldestLeaves(p, pool, attempts[0]);
      assert p.slots[k := p.slots[k]] == p.slots;
      var p1 := PublishSlot(p, pool, true, k, attempts[0]);
      assert PublishOldest(p, pool, attempts) == PublishOldest(p1, pool, attempts[1..]);
      var rest := EveryFinishedCopyLeaves(p1, pool, attempts[1..]);
      var first := Announcement(pool, p.next, p.slots[k].memory, p.slots[k].timestamp);
      left := [first] + rest;
      OneMoreLeaves(p, p1, PublishOldest(p1, pool, attempts[1..]), k, pool, first, rest);
    }
  }

  /** Pass p1 is p after its oldest copy, in slot k, was announced. */
  predicate OneLeft(p: Pass, p1: Pass, k: nat, first: Announcement) {
    && OldestPendingSlot(p.slots) == Some(k) && |p1.slots| == |p.slots|
    && p1.slots == p.slots[k := p1.slots[k]] && p1.slots[k].source.None? && p1.slots[k].exportSequence == Some(p.next)
    && PendingCount(p1.slots) == PendingCount(p.slots) - 1
    && p1.exports == p.exports + 1 && p1.next == p.next + 1 && p1.drops == p.drops
    && first.sequence == p.next && first.memory == p.slots[k].memory && first.timestamp == p.slots[k].timestamp
    && p1.w.leases == p.w.leases[first.sequence := first.memory] && p1.w.log == p.w.log + [first]
  }

  /** The oldest copy goes in front of the rest. */
  lemma {:induction false} OneMoreLeaves(p: Pass, p1: Pass, p': Pass, k: nat, pool: nat, first: Announcement,
                                         rest: seq<Announcement>)
    requires OneLeft(p, p1, k, first) && first.pool == pool
    requires AllLeft(p1, p') && Granted(p1.w, p'.w, p1.next, rest) && Announces(p1.slots, p'.slots, pool, p1.next, rest)
    ensures AllLeft(p, p') && Granted(p.w, p'.w, p.next, [first] + rest)
    ensures Announces(p.slots, p'.slots, pool, p.next, [first] + rest)
  {
    AllLeftInFront(p, p1, p', k, first);
    GrantedInFront(p.w, p1.w, p'.w, first, rest);
    CarriedInFront(p.slots, p1.slots, k, first, rest);
    LeavesInFront(p.slots, p1.slots, p'.slots, k, first, rest);
    SequencedInFront(pool, first, rest);
    OldestInFront(first, rest);
  }

  lemma {:induction false} AllLeftInFront(p: Pass, p1: Pass, p': Pass, k: nat, first: Announcement)
    requires OneLeft(p, p1, k, first) && AllLeft(p1, p')
    ensures AllLeft(p, p') && p'.slots[k] == p1.slots[k]
  {
  }

  lemma {:induction false} SequencedInFront(pool: nat, first: Announcement, rest: seq<Announcement>)
    requires Sequenced(rest, pool, first.sequence + 1) && first.pool == pool
    ensures Sequenced([first] + rest, pool, first.sequence)
  {
  }

  lemma {:induction false} OldestInFront(first: Announcement, rest: seq<Announcement>)
    requires OldestFirst(rest) && forall i :: 0 <= i < |rest| ==> first.timestamp <= rest[i].timestamp
    ensures OldestFirst([first] + rest)
  {
    var left := [first] + rest;
    assert left[0] == first && forall i :: 0 < i < |left| ==> left[i] == rest[i - 1];
  }

  lemma {:induction false} GrantedInFront(w: GlWorld, w1: GlWorld, w': GlWorld, first: Announcement, rest: seq<Announcement>)
    requires w1.leases == w.leases[first.sequence := first.memory] && w1.log == w.log + [first]
    requires Granted(w1, w', first.sequence + 1, rest)
    ensures Granted(w, w', first.sequence, [first] + rest)
  {
    assert (w.log + [first]) + rest == w.log + ([first] + rest);
  }

  lemma {:induction false} CarriedInFront(slots: seq<Slot>, slots1: seq<Slot>, k: nat, first: Announcement, rest: seq<Announcement>)
    requires OldestPendingSlot(slots) == Some(k) && |slots1| == |slots|
    requires slots1 == slots[k := slots1[k]] && slots1[k].source.None?
    requires first.memory == slots[k].memory && first.timestamp == slots[k].timestamp
    requires AllCarried(slots1, rest)
    ensures AllCarried(slots, [first] + rest)
    ensures forall i :: 0 <= i < |rest| ==> first.timestamp <= rest[i].timestamp
  {
    assert Carried(slots, first);
    forall i | 0 <= i < |rest|
      ensures Carried(slots, rest[i]) && first.timestamp <= rest[i].timestamp
    {
      assert Carried(slots1, rest[i]);
      var j :| 0 <= j < |slots1| && slots1[j].source.Some? && slots1[j].memory == rest[i].memory
               && slots1[j].timestamp == rest[i].timestamp;
      assert slots[j] == slots1[j];
    }
  }

  lemma {:induction false} LeavesInFront(slots: seq<Slot>, slots1: seq<Slot>, slots': seq<Slot>, k: nat, first: Announcement,
                      rest: seq<Announcement>)
    requires k < |slots1| == |slots| == |slots'| && slots1 == slots[k := slots1[k]]
    requires slots'[k].exportSequence == Some(first.sequence)
    requires first.memory == slots[k].memory && first.timestamp == slots[k].timestamp
    requires AllLeave(slots1, slots', rest)
    ensures AllLeave(slots, slots', [first] + rest)
  {
    var left := [first] + rest;
    forall j | 0 <= j < |slots| && slots[j].source.Some?
      ensures LeavesIn(slots[j], slots'[j], left)
    {
      if j == k {
        assert left[0] == first;
      } else {
        assert LeavesIn(slots1[j], slots'[j], rest);
        var i :| 0 <= i < |rest| && rest[i].memory == slots1[j].memory && rest[i].timestamp == slots1[j].timestamp
                 && slots'[j].exportSequence == Some(rest[i].sequence);
        assert left[i + 1] == rest[i];
      }
    }
  }

  // ---- Capture ----

  /** A due present with an available slot and a cooperating driver starts a copy there, with a
      timestamp later than every one before it. */
  lemma DuePresentIsCopied(g: Gl, k: nat, source: SourceCandidate, calls: CaptureCalls)
    requires k < |g.s.pools| && source.targetFramesPerSecond > 0 && g.s.lastExport < U64_MAX
    requires Cadence.OpenGlCaptureDue(calls.variable, source.width, source.height, g.s.pools[k].nextCapture, calls.now)
    requires calls.rearm == Ready && calls.outcome.Started? && calls.outcome.sync != 0
    requires exists i :: 0 <= i < |g.s.pools[k].slots| && Available(g.s.pools[k].slots[i])
    ensures var g' := StartDue(g, k, source, calls);
            && |g'.s.pools| == |g.s.pools|
            && g'.s.pools[k].drops == g.s.pools[k].drops
            && var i := FirstAvailable(g.s.pools[k].slots).value;
               && InPhase(g'.s.pools[k].slots[i], Copying)
               && g'.s.pools[k].slots[i].source == Some(source)
               && g.s.lastExport < g'.s.pools[k].slots[i].timestamp == g'.s.lastExport
               && (forall j :: 0 <= j < |g.s.pools[k].slots| && j != i ==>
                     g'.s.pools[k].slots[j] == g.s.pools[k].slots[j])
  {
  }

  // ---- Retirement ----

  /** A slot no copy and no lease holds. */
  predicate Rests(s: Slot) { SlotOk(s) && s.source.None? && s.exportSequence.None? && !s.failed && s.sync == 0 }

  lemma {:induction false} RestingDrains(w: GlWorld, slots: seq<Slot>, polls: seq<Poll>, k: nat, drops: nat)
    requires k <= |slots| == |polls| && forall i :: 0 <= i < |slots| ==> Rests(slots[i])
    ensures RetireSlots(w, slots, polls, k, drops) == (w, slots, drops)
    decreases |slots| - k
  {
    if k < |slots| {
      assert Rests(slots[k]);
      assert slots[k := slots[k]] == slots;
      RestingDrains(w, slots, polls, k + 1, drops);
    }
  }

  lemma {:induction false} RestingCompletes(w: GlWorld, slots: seq<Slot>, polls: seq<Poll>, k: nat)
    requires k <= |slots| == |polls| && forall i :: 0 <= i < |slots| ==> Rests(slots[i])
    ensures CompleteSlots(w, slots, polls, k) == (w, slots, true)
    decreases |slots| - k
  {
    if k < |slots| {
      assert Rests(slots[k]);
      assert slots[k := slots[k]] == slots;
      RestingCompletes(w, slots, polls, k + 1);
    }
  }

  /** A stale pool at rest is removed by the next capture of its context. */
  lemma RestingPoolGoes(w: GlWorld, pool: Pool, context: nat, source: SourceCandidate, answers: RetireCalls)
    requires |answers.drain| == |answers.check| == |pool.slots| && Stale(pool, context, source)
    requires forall i :: 0 <= i < |pool.slots| ==> Rests(pool.slots[i])
    ensures RetireOne(w, pool, context, source, answers).1 == []
  {
    RestingDrains(w, pool.slots, answers.drain, 0, pool.drops);
    RestingCompletes(w, pool.slots, answers.check, 0);
  }

  lemma {:induction false} DrainKeepsHeld(w: GlWorld, slots: seq<Slot>, polls: seq<Poll>, k: nat, drops: nat, i: nat)
    requires k <= |slots| == |polls| && i < |slots| && SlotOk(slots[i]) && (slots[i].exportSequence.Some? || slots[i].failed)
    ensures var slots' := RetireSlots(w, slots, polls, k, drops).1;
            SlotOk(slots'[i]) && (slots'[i].exportSequence.Some? || slots'[i].failed)
    decreases |slots| - k
  {
    if k < |slots| {
      var s := slots[k];
      var (w1, s1, _) := if s.sync != 0 || s.copyPending then CopyReady(w, s, polls[k]) else (w, s, false);
      var (s2, dropped) := DiscardRetiredCopy(s1);
      DrainKeepsHeld(w1, slots[k := s2], polls, k + 1, if dropped then drops + 1 else drops, i);
    }
  }

  lemma {:induction false} HeldNeverCompletes(w: GlWorld, slots: seq<Slot>, polls: seq<Poll>, k: nat, i: nat)
    requires k <= i < |slots| == |polls| && SlotOk(slots[i]) && (slots[i].exportSequence.Some? || slots[i].failed)
    ensures !CompleteSlots(w, slots, polls, k).2
    decreases |slots| - k
  {
    var (w1, s1, done) := Completed(w, slots[k], polls[k]);
    if done && k < i {
      HeldNeverCompletes(w1, slots[k := s1], polls, k + 1, i);
    }
  }

  /** A stale pool stays while the daemon holds one of its exports or one of its slots is
      quarantined, whatever the driver answers. */
  lemma HeldPoolStays(w: GlWorld, pool: Pool, context: nat, source: SourceCandidate, answers: RetireCalls, i: nat)
    requires |answers.drain| == |answers.check| == |pool.slots| && i < |pool.slots|
    requires SlotOk(pool.slots[i]) && (pool.slots[i].exportSequence.Some? || pool.slots[i].failed)
    ensures RetireOne(w, pool, context, source, answers).1 != []
  {
    DrainKeepsHeld(w, pool.slots, answers.drain, 0, pool.drops, i);
    var (w1, drained, drops) := RetireSlots(w, pool.slots, answers.drain, 0, pool.drops);
    HeldNeverCompletes(w1, drained, answers.check, 0, i);
  }

  // ---- A first frame ----

  /** Slots without a copy are passed over. */
  lemma {:induction false} PassesIdle(p: Pass, pool: nat, attempts: seq<GlPools.Attempt>, k: nat)
    requires k <= |p.slots| == |attempts|
    requires forall i :: k <= i < |p.slots| ==> Quiet(p.slots[i])
    ensures PublishByIndex(p, pool, attempts, k) == p
    decreases |p.slots| - k
  {
    if k < |p.slots| {
      assert p.slots[k := p.slots[k]] == p.slots;
      assert p.(w := p.w, slots := p.slots) == p;
      PassesIdle(p, pool, attempts, k + 1);
    }
  }

  lemma StartKeepsLeases(g: Gl, k: nat, source: SourceCandidate, calls: CaptureCalls)
    requires k < |g.s.pools| && source.targetFramesPerSecond > 0
    ensures StartDue(g, k, source, calls).w.leases == g.w.leases && StartDue(g, k, source, calls).w.log == g.w.log
  {
  }

  /** A slot that carries a fresh copy. */
  function Filled(s: Slot, source: SourceCandidate, stamp: nat, sync: nat): Slot {
    s.(copyPending := s.native != 0, source := Some(source), timestamp := stamp, sync := sync)
  }

  /** The pool after its first copy was started. */
  function Started(pool: Pool, source: SourceCandidate, stamp: nat, sync: nat, deadline: nat): Pool
    requires pool.slots != []
  {
    pool.(slots := pool.slots[0 := Filled(pool.slots[0], source, stamp, sync)], nextCapture := deadline)
  }

  function FirstDeadline(source: SourceCandidate, variable: bool, now: nat): nat
    requires source.targetFramesPerSecond > 0
  {
    Cadence.AdvanceCaptureDeadline(variable, 0, now, Cadence.OpenGlCaptureTiming(variable, source, 0, now).1)
  }

  /** The first present of a process: the driver hands out a pool and starts the copy. */
  function FirstCalls(pool: Pool, now: nat, variable: bool, sync: nat): CaptureCalls {
    CaptureCalls(now, variable, [], [], Some(pool), Ready, CopyOutcome.Started(sync))
  }

  lemma FirstCapture(context: nat, source: SourceCandidate, pool: Pool, now: nat, variable: bool, sync: nat)
    requires context != 0 && source.targetFramesPerSecond > 0 && sync != 0 && 0 < now
    requires FreshPool(pool, Initial.w, context, source)
    ensures var calls := FirstCalls(pool, now, variable, sync);
            && CaptureFit(Initial, context, source, calls)
            && var g := Capture(Initial, context, source, calls);
               && g.s == State([Started(pool, source, now, sync, FirstDeadline(source, variable, now))], now, Some(source), 1)
               && g.w.work == {pool.slots[0].memory} && g.w.unfenced == {}
               && g.w.bridge == (if IsNvidia(source) then {pool.slots[0].memory} else {})
               && g.w.leases == map[] && g.w.released == {} && g.w.log == [] && pool.id in g.w.newest
  {
    var calls := FirstCalls(pool, now, variable, sync);
    assert FreshSlot(pool.slots[0], Initial.w, IsNvidia(source));
    assert FirstAvailable(pool.slots) == Some(0);
    var g := Capture(Initial, context, source, calls);
    assert g.s.pools == [Started(pool, source, now, sync, FirstDeadline(source, variable, now))];
  }

  /** What the driver did in between: the GL work finished and, with the bridge, the native copy. */
  function CopyFinishes(pool: Pool): seq<Event>
    requires pool.slots != []
  {
    [GpuCompletes(pool.slots[0].memory)] + (if IsNvidia(pool.source) then [BridgeCompletes(pool.slots[0].memory)] else [])
  }

  function SecondCalls(later: nat, variable: bool, polls: seq<Poll>, attempts: seq<GlPools.Attempt>): CaptureCalls {
    CaptureCalls(later, variable, [RetireCalls(polls, polls)], [PublishCalls(None, polls, attempts)], None, Pending, EarlyError)
  }

  /** From the start, for every source of every vendor and whatever storage the driver hands out: the
      first present is copied, and the present after its completion announces it as sequence 1. */
  lemma FirstFrameLeaves(context: nat, source: SourceCandidate, pool: Pool, now: nat, later: nat, variable: bool, sync: nat,
                         polls: seq<Poll>, attempts: seq<GlPools.Attempt>)
    requires context != 0 && source.targetFramesPerSecond > 0 && sync != 0 && 0 < now < U64_MAX
    requires FreshPool(pool, Initial.w, context, source)
    requires |polls| == |attempts| == |pool.slots| && Delivers(attempts[0])
    requires (if IsNvidia(source) then polls[0] else attempts[0].poll) == Poll(Signaled, Ready)
    ensures var first := Presented(context, source, false, FirstCalls(pool, now, variable, sync));
            var third := Presented(context, source, false, SecondCalls(later, variable, polls, attempts));
            var events := [first] + CopyFinishes(pool) + [third];
            && AllAllowed(Initial, events)
            && Run(Initial, events).w.leases == map[1 := pool.slots[0].memory]
            && Run(Initial, events).w.log == [Announcement(pool.id, 1, pool.slots[0].memory, now)]
  {
    var calls, calls3 := FirstCalls(pool, now, variable, sync), SecondCalls(later, variable, polls, attempts);
    var first, third := Presented(context, source, false, calls), Presented(context, source, false, calls3);
    FirstCapture(context, source, pool, now, variable, sync);
    var g1 := Capture(Initial, context, source, calls);
    var m := pool.slots[0].memory;
    var g2 := g1.(w := g1.w.(work := {}, bridge := {}));
    SecondCapture(g2, context, source, pool, now, sync, FirstDeadline(source, variable, now), calls3, polls, attempts);
    assert g1.w.work - {m} == {} && (IsNvidia(source) ==> g1.w.bridge - {m} == {});
    FinishRuns(g1, g2, pool);
    OneEvent(g2, third);
    RunsJoin(g1, CopyFinishes(pool), [third]);
    OneEvent(Initial, first);
    RunsJoin(Initial, [first], CopyFinishes(pool) + [third]);
    assert [first] + CopyFinishes(pool) + [third] == [first] + (CopyFinishes(pool) + [third]);
  }

  lemma OneEvent(g: Gl, e: Event)
    requires Allowed(g, e)
    ensures AllAllowed(g, [e]) && Run(g, [e]) == Step(g, e)
  {
    assert [e][1..] == [];
  }

  lemma {:induction false} RunsJoin(g: Gl, a: seq<Event>, b: seq<Event>)
    requires AllAllowed(g, a) && AllAllowed(Run(g, a), b)
    ensures AllAllowed(g, a + b) && Run(g, a + b) == Run(Run(g, a), b)
    decreases |a|
  {
    if a == [] {
      assert a + b == b;
    } else {
      RunsJoin(Step(g, a[0]), a[1..], b);
      assert (a + b)[0] == a[0] && (a + b)[1..] == a[1..] + b;
    }
  }

  lemma FinishRuns(g: Gl, g': Gl, pool: Pool)
    requires pool.slots != [] && g.w.work == {pool.slots[0].memory} && g' == g.(w := g.w.(work := {}, bridge := {}))
    requires g.w.bridge == if IsNvidia(pool.source) then {pool.slots[0].memory} else {}
    ensures AllAllowed(g, CopyFinishes(pool)) && Run(g, CopyFinishes(pool)) == g'
  {
    var m := pool.slots[0].memory;
    var g1 := g.(w := Finish(g.w, m));
    assert g.w.work - {m} == {};
    OneEvent(g, GpuCompletes(m));
    if IsNvidia(pool.source) {
      assert g1.w.bridge - {m} == {};
      OneEvent(g1, BridgeCompletes(m));
      RunsJoin(g, [GpuCompletes(m)], [BridgeCompletes(m)]);
    } else {
      assert CopyFinishes(pool) == [GpuCompletes(m)];
    }
  }

  lemma SecondCapture(g: Gl, context: nat, source: SourceCandidate, pool: Pool, now: nat, sync: nat, deadline: nat,
                      calls: CaptureCalls, polls: seq<Poll>, attempts: seq<GlPools.Attempt>)
    requires source.targetFramesPerSecond > 0 && FreshPool(pool, Initial.w, context, source) && 0 < now
    requires g.s == State([Started(pool, source, now, sync, deadline)], now, Some(source), 1)
    requires g.w.work == {} && g.w.bridge == {} && g.w.leases == map[] && g.w.log == []
    requires |polls| == |attempts| == |pool.slots| && Delivers(attempts[0])
    requires (if IsNvidia(source) then polls[0] else attempts[0].poll) == Poll(Signaled, Ready)
    requires calls == SecondCalls(calls.now, calls.variable, polls, attempts)
    ensures CaptureFit(g, context, source, calls)
    ensures var w := Capture(g, context, source, calls).w;
            && w.leases == map[1 := pool.slots[0].memory]
            && w.log == [Announcement(pool.id, 1, pool.slots[0].memory, now)]
  {
    var started := Started(pool, source, now, sync, deadline);
    OnePoolCapture(g, context, source, started, calls);
    FirstPublishes(g.w, pool, source, now, sync, deadline, calls.publish[0]);
    var (w1, head, next1) := PublishReady(g.w, started, 1, calls.publish[0]);
    StartKeepsLeases(Gl(g.s.(pools := [head], nextSequence := next1, announced := Some(source)), w1), 0, source, calls);
  }

  /** A capture of a process with just the active pool: publish, then start a copy if one is due. */
  lemma OnePoolCapture(g: Gl, context: nat, source: SourceCandidate, pool: Pool, calls: CaptureCalls)
    requires source.targetFramesPerSecond > 0 && g.s.pools == [pool] && Active(pool, context, source)
    requires calls.created.None? && |calls.retire| == 1 && |calls.publish| == 1
    requires |calls.retire[0].drain| == |calls.retire[0].check| == |pool.slots|
    requires PublishCallsFit(pool, g.w, calls.publish[0])
    ensures CaptureFit(g, context, source, calls)
    ensures var (w1, head, next1) := PublishReady(g.w, pool, g.s.nextSequence, calls.publish[0]);
            Capture(g, context, source, calls)
            == StartDue(Gl(g.s.(pools := [head], nextSequence := next1, announced := Some(source)), w1), 0, source, calls)
  {
    assert g.s.pools[0] == pool && g.s.pools[1..] == [] && calls.retire[1..] == [] && calls.publish[1..] == [];
    assert RetireCallsFit(g.s.pools, calls.retire);
    assert RetireOne(g.w, pool, context, source, calls.retire[0]) == (g.w, [pool]);
    assert RetireStale(g.w, [], context, source, []) == (g.w, []);
    assert [pool] + [] == [pool] && [pool][1..] == [];
    assert RetireStale(g.w, g.s.pools, context, source, calls.retire) == (g.w, [pool]);
    assert PublishAllFit(g.w, [pool], context, source, g.s.nextSequence, calls.publish);
    var (w1, head, next1) := PublishReady(g.w, pool, g.s.nextSequence, calls.publish[0]);
    assert head.context == context && head.source == source;
    assert PublishActive(w1, [], context, source, next1, []) == (w1, [], next1) && [head] + [] == [head];
    assert PublishActive(g.w, [pool], context, source, g.s.nextSequence, calls.publish) == (w1, [head], next1);
  }

  /** The slot carries nothing and has nothing to wait for. */
  predicate Quiet(s: Slot) { s.source.None? && s.sync == 0 && !s.copyPending && !s.failed }

  lemma {:induction false} PollsIdle(w: GlWorld, slots: seq<Slot>, polls: seq<Poll>, k: nat, drops: nat)
    requires k <= |slots| == |polls| && forall i :: k <= i < |slots| ==> Quiet(slots[i])
    ensures PollSlots(w, slots, polls, k, drops) == (w, slots, drops)
    decreases |slots| - k
  {
    if k < |slots| {
      assert slots[k := slots[k]] == slots;
      PollsIdle(w, slots, polls, k + 1, drops);
    }
  }

  lemma {:induction false} OnlyFirstPending(slots: seq<Slot>)
    requires slots != [] && slots[0].source.Some? && forall i :: 1 <= i < |slots| ==> slots[i].source.None?
    ensures OldestPendingSlot(slots) == Some(0)
  {
    assert OldestPendingSlot(slots).Some?;
  }

  lemma FirstPublishes(w: GlWorld, pool: Pool, source: SourceCandidate, now: nat, sync: nat, deadline: nat,
                       calls: PublishCalls)
    requires FreshPool(pool, Initial.w, pool.context, source) && w.work == {} && w.bridge == {}
    requires w.leases == map[] && w.log == []
    requires |calls.polls| == |calls.attempts| == |pool.slots| && calls.replacement.None? && Delivers(calls.attempts[0])
    requires (if IsNvidia(source) then calls.polls[0] else calls.attempts[0].poll) == Poll(Signaled, Ready)
    ensures var w' := PublishReady(w, Started(pool, source, now, sync, deadline), 1, calls).0;
            && w'.leases == map[1 := pool.slots[0].memory]
            && w'.log == [Announcement(pool.id, 1, pool.slots[0].memory, now)]
  {
    var started := Started(pool, source, now, sync, deadline);
    forall i | 1 <= i < |pool.slots|
      ensures Quiet(started.slots[i])
    {
      assert FreshSlot(pool.slots[i], Initial.w, IsNvidia(source));
    }
    assert FreshSlot(pool.slots[0], Initial.w, IsNvidia(source));
    var done := started.slots[0].(sync := 0, copyPending := false);
    var polled := started.slots[0 := done];
    if IsNvidia(source) {
      assert PollSlots(w, started.slots, calls.polls, 0, 0) == PollSlots(w, polled, calls.polls, 1, 0);
      PollsIdle(w, polled, calls.polls, 1, 0);
      OldestPublishes(Pass(w, polled, 0, 0, 1), pool.id, calls.attempts);
    } else {
      IndexPublishes(Pass(w, started.slots, 0, 0, 1), pool.id, calls.attempts);
    }
  }

  lemma OldestPublishes(p: Pass, pool: nat, attempts: seq<GlPools.Attempt>)
    requires p.slots != [] && attempts != [] && Delivers(attempts[0]) && p.w.leases == map[] && p.w.log == []
    requires var s := p.slots[0]; s.source.Some? && s.sync == 0 && !s.copyPending && !s.failed
    requires forall i :: 1 <= i < |p.slots| ==> Quiet(p.slots[i])
    ensures var w' := PublishOldest(p, pool, attempts).w;
            && w'.leases == map[p.next := p.slots[0].memory]
            && w'.log == [Announcement(pool, p.next, p.slots[0].memory, p.slots[0].timestamp)]
  {
    OnlyFirstPending(p.slots);
    assert p.slots[0 := p.slots[0]] == p.slots;
    var p1 := PublishSlot(p, pool, true, 0, attempts[0]);
    assert OldestPendingSlot(p1.slots).None?;
    assert PublishOldest(p1, pool, attempts[1..]) == p1;
  }

  lemma IndexPublishes(p: Pass, pool: nat, attempts: seq<GlPools.Attempt>)
    requires |p.slots| == |attempts| > 0 && Delivers(attempts[0]) && attempts[0].poll == Poll(Signaled, Ready)
    requires p.w.work == {} && p.w.bridge == {} && p.w.leases == map[] && p.w.log == []
    requires p.slots[0].source.Some? && !p.slots[0].failed
    requires forall i :: 1 <= i < |p.slots| ==> Quiet(p.slots[i])
    ensures var w' := PublishByIndex(p, pool, attempts, 0).w;
            && w'.leases == map[p.next := p.slots[0].memory]
            && w'.log == [Announcement(pool, p.next, p.slots[0].memory, p.slots[0].timestamp)]
  {
    var s1 := p.slots[0].(sync := 0, copyPending := false);
    var published := PublishSlot(p.(slots := p.slots[0 := s1]), pool, false, 0, attempts[0]);
    assert PublishByIndex(p, pool, attempts, 0) == PublishByIndex(published, pool, attempts, 1);
    PassesIdle(published, pool, attempts, 1);
  }
}

/** A run in which a pool without the NVIDIA bridge announces a newer frame before an older one. */
module GlReversal {
  import opened Wrappers
  import opened Messages
  import opened GlSlots
  import opened GlPools
  import opened GlRuns
  import opened GlProgress
  import opened GlOrder
  import Cadence

  // ---- One present of a process with a single pool ----

  const DONE: GlPools.Attempt := GlPools.Attempt(Poll(Signaled, Ready), true, true)

  function Done(n: nat): seq<GlPools.Attempt> { seq(n, _ => DONE) }

  function Polls(n: nat): seq<Poll> { seq(n, _ => Poll(Signaled, Ready)) }

  /** Every driver call succeeds and the daemon receives everything. */
  function GoodCalls(n: nat, now: nat): CaptureCalls {
    CaptureCalls(now, true, [RetireCalls(Polls(n), Polls(n))], [PublishCalls(None, Polls(n), Done(n))], None, Ready,
                 CopyOutcome.Started(1))
  }

  /** The variable-rate recording of one source from one pool with these slots. */
  predicate At(g: Gl, pool: Pool, slots: seq<Slot>, deadline: nat, last: nat, next: nat) {
    && |g.s.pools| == 1
    && g.s.pools[0] == pool.(slots := slots, nextCapture := deadline, exports := g.s.pools[0].exports,
                             drops := g.s.pools[0].drops)
    && g.s.lastExport == last && g.s.nextSequence == next && g.w.bridge == {}
  }

  /** What a visit with a signalled poll makes of slot k. */
  function Visited(p: Pass, pool: nat, k: nat): Pass
    requires k < |p.slots|
  {
    var s := p.slots[k];
    if s.source.None? || s.memory in p.w.work then p
    else
      Pass(Announce(p.w, pool, false, s.(sync := 0), p.next, true),
           p.slots[k := s.(sync := 0, source := None, timestamp := 0, exportSequence := Some(p.next))],
           p.exports + 1, p.drops, p.next + 1)
  }

  /** The slot carries a copy without a bridge, or nothing. */
  predicate Plain(s: Slot) { !s.copyPending && !s.failed && (s.source.None? <==> s.sync == 0) }

  lemma Visit(p: Pass, pool: nat, n: nat, k: nat)
    requires k < |p.slots| == n && Plain(p.slots[k])
    ensures PublishByIndex(p, pool, Done(n), k) == PublishByIndex(Visited(p, pool, k), pool, Done(n), k + 1)
  {
    var s := p.slots[k];
    assert p.slots[k := s] == p.slots && p.(w := p.w, slots := p.slots) == p;
    if s.source.Some? && s.memory !in p.w.work {
      var s1 := s.(sync := 0);
      assert CopyReady(p.w, s, DONE.poll) == (p.w, s1, true);
      var p1 := p.(slots := p.slots[k := s1]);
      assert p1.slots[k := s1.(source := None, timestamp := 0, exportSequence := Some(p.next))]
          == p.slots[k := s1.(source := None, timestamp := 0, exportSequence := Some(p.next))];
      assert PublishSlot(p1, pool, false, k, DONE) == Visited(p, pool, k);
    } else {
      assert CopyReady(p.w, s, DONE.poll) == (p.w, s, false);
    }
  }

  /** All slots but the first two are idle. */
  predicate RestIdle(slots: seq<Slot>) { |slots| >= 2 && forall i :: 2 <= i < |slots| ==> Quiet(slots[i]) }

  lemma TwoVisits(p: Pass, pool: nat)
    requires RestIdle(p.slots) && Plain(p.slots[0]) && Plain(p.slots[1])
    ensures PublishByIndex(p, pool, Done(|p.slots|), 0) == Visited(Visited(p, pool, 0), pool, 1)
  {
    var n := |p.slots|;
    Visit(p, pool, n, 0);
    var p1 := Visited(p, pool, 0);
    Visit(p1, pool, n, 1);
    PassesIdle(Visited(p1, pool, 1), pool, Done(n), 2);
  }

  function Interval(pool: Pool): nat { Cadence.OpenGlVariableInterval(pool.source.width, pool.source.height) }

  function Advanced(pool: Pool, deadline: nat, now: nat): nat {
    Cadence.AdvanceCaptureDeadline(true, deadline, now, Interval(pool))
  }

  predicate Due(pool: Pool, deadline: nat, now: nat) {
    Cadence.OpenGlCaptureDue(true, pool.source.width, pool.source.height, deadline, now)
  }

  predicate Recorded(pool: Pool) {
    pool.context != 0 && !IsNvidia(pool.source) && pool.source.targetFramesPerSecond > 0
  }

  /** The present publishes what is finished. */
  lemma PresentPublishes(g: Gl, pool: Pool, slots: seq<Slot>, deadline: nat, last: nat, next: nat, now: nat)
    returns (p: Pass, ready: Gl)
    requires At(g, pool, slots, deadline, last, next) && Recorded(pool) && last < U64_MAX
    requires RestIdle(slots) && Plain(slots[0]) && Plain(slots[1])
    ensures var start := Pass(g.w, slots, g.s.pools[0].exports, g.s.pools[0].drops, next);
            p == Visited(Visited(start, pool.id, 0), pool.id, 1)
    ensures At(ready, pool, p.slots, deadline, last, p.next) && ready.w == p.w
    ensures var e := Presented(pool.context, pool.source, false, GoodCalls(|slots|, now));
            Allowed(g, e) && Step(g, e) == StartDue(ready, 0, pool.source, e.calls)
  {
    var calls := GoodCalls(|slots|, now);
    var current := g.s.pools[0];
    assert g.s.pools == [current];
    p := PublishByIndex(Pass(g.w, slots, current.exports, current.drops, next), pool.id, Done(|slots|), 0);
    TwoVisits(Pass(g.w, slots, current.exports, current.drops, next), pool.id);
    OnePoolCapture(g, pool.context, pool.source, current, calls);
    var head := current.(slots := p.slots, exports := p.exports, drops := p.drops);
    assert PublishReady(g.w, current, next, calls.publish[0]) == (p.w, head, p.next);
    ready := Gl(g.s.(pools := [head], nextSequence := p.next, announced := Some(pool.source)), p.w);
  }

  /** Then it starts a copy in the first available slot if one is due. */
  lemma PresentCopies(g: Gl, pool: Pool, slots: seq<Slot>, deadline: nat, last: nat, next: nat, now: nat, f: nat)
    requires At(g, pool, slots, deadline, last, next) && Recorded(pool) && last < now
    requires FirstAvailable(slots) == Some(f) && slots[f].native == 0 && !slots[f].semaphores && Due(pool, deadline, now)
    ensures var g' := StartDue(g, 0, pool.source, GoodCalls(|slots|, now));
            && At(g', pool, slots[f := Filled(slots[f], pool.source, now, 1)], Advanced(pool, deadline, now), now, next)
            && g'.w.work == g.w.work + {slots[f].memory} && g'.w.log == g.w.log
            && g'.w.leases == g.w.leases && g'.w.released == g.w.released
  {
  }

  // ---- The run ----

  /** An allowed run goes from one state to the other. */
  ghost predicate Leads(g: Gl, g': Gl) {
    exists events: seq<Event> :: AllAllowed(g, events) && Run(g, events) == g'
  }

  lemma LeadsBy(g: Gl, e: Event)
    requires Allowed(g, e)
    ensures Leads(g, Step(g, e))
  {
    OneEvent(g, e);
  }

  lemma LeadsOn(a: Gl, b: Gl, c: Gl)
    requires Leads(a, b) && Leads(b, c)
    ensures Leads(a, c)
  {
    var first: seq<Event> :| AllAllowed(a, first) && Run(a, first) == b;
    var second: seq<Event> :| AllAllowed(b, second) && Run(b, second) == c;
    RunsJoin(a, first, second);
  }

  predicate Unused(s: Slot) { Available(s) && Quiet(s) && s.native == 0 && !s.semaphores && s.timestamp == 0 }

  /** Storage as the driver hands it out. */
  predicate Storage(pool: Pool) {
    && Recorded(pool) && FreshPool(pool, Initial.w, pool.context, pool.source)
    && (forall i :: 0 <= i < |pool.slots| ==> Unused(pool.slots[i]))
    && pool.slots[0].memory != pool.slots[1].memory
  }

  lemma FreshIsStorage(pool: Pool)
    requires Recorded(pool) && FreshPool(pool, Initial.w, pool.context, pool.source)
    ensures Storage(pool)
  {
    assert forall i :: 0 <= i < |pool.slots| ==> FreshSlot(pool.slots[i], Initial.w, false);
  }

  /** The slots of the pool with the first two replaced. */
  function With(pool: Pool, a: Slot, b: Slot): seq<Slot>
    requires |pool.slots| >= 2
  {
    pool.slots[0 := a][1 := b]
  }

  function Carrying(pool: Pool, i: nat, stamp: nat): Slot
    requires i < |pool.slots|
  {
    Filled(pool.slots[i], pool.source, stamp, 1)
  }

  function Lent(pool: Pool, i: nat, sequence: nat): Slot
    requires i < |pool.slots|
  {
    pool.slots[i].(exportSequence := Some(sequence))
  }

  /** The first present copies into slot 0 at time a, and the GPU finishes. */
  lemma FirstTurn(pool: Pool, a: nat) returns (g: Gl)
    requires Storage(pool) && 0 < a
    ensures Leads(Initial, g) && At(g, pool, With(pool, Carrying(pool, 0, a), pool.slots[1]), Advanced(pool, 0, a), a, 1)
    ensures g.w.work == {} && g.w.log == [] && g.w.leases == map[] && g.w.released == {}
  {
    var e := Presented(pool.context, pool.source, false, FirstCalls(pool, a, true, 1));
    FirstCapture(pool.context, pool.source, pool, a, true, 1);
    var g1 := Capture(Initial, pool.context, pool.source, e.calls);
    LeadsBy(Initial, e);
    LeadsBy(g1, GpuCompletes(pool.slots[0].memory));
    g := g1.(w := Finish(g1.w, pool.slots[0].memory));
    assert g.w.work == {};
    LeadsOn(Initial, g1, g);
    assert pool.slots[0 := Carrying(pool, 0, a)][1 := pool.slots[1]] == pool.slots[0 := Carrying(pool, 0, a)];
  }

  /** The second present announces slot 0 and copies into slot 1 at time b. */
  lemma SecondTurn(g: Gl, pool: Pool, a: nat, d: nat, b: nat) returns (g': Gl)
    requires Storage(pool) && At(g, pool, With(pool, Carrying(pool, 0, a), pool.slots[1]), d, a, 1) && a < b < U64_MAX
    requires g.w.work == {} && g.w.log == [] && g.w.leases == map[] && g.w.released == {} && Due(pool, d, b)
    ensures Leads(g, g') && At(g', pool, With(pool, Lent(pool, 0, 1), Carrying(pool, 1, b)), Advanced(pool, d, b), b, 2)
    ensures g'.w.work == {pool.slots[1].memory} && Stamps(g'.w.log) == [a]
    ensures g'.w.leases == map[1 := pool.slots[0].memory] && g'.w.released == {}
  {
    var slots := With(pool, Carrying(pool, 0, a), pool.slots[1]);
    var p, ready := PresentPublishes(g, pool, slots, d, a, 1, b);
    var published := With(pool, Lent(pool, 0, 1), pool.slots[1]);
    assert p.slots == published;
    assert FirstAvailable(published) == Some(1);
    PresentCopies(ready, pool, published, d, a, 2, b, 1);
    var e := Presented(pool.context, pool.source, false, GoodCalls(|slots|, b));
    g' := Step(g, e);
    LeadsBy(g, e);
    assert published[1 := Carrying(pool, 1, b)] == With(pool, Lent(pool, 0, 1), Carrying(pool, 1, b));
  }

  /** The daemon gives the first frame back. */
  lemma GivenBack(g: Gl, pool: Pool, d: nat, b: nat) returns (g': Gl)
    requires Storage(pool) && At(g, pool, With(pool, Lent(pool, 0, 1), Carrying(pool, 1, b)), d, b, 2)
    requires g.w.leases == map[1 := pool.slots[0].memory] && g.w.released == {}
    ensures Leads(g, g') && At(g', pool, With(pool, pool.slots[0], Carrying(pool, 1, b)), d, b, 2)
    ensures g'.w.work == g.w.work && g'.w.log == g.w.log && g'.w.leases == map[]
  {
    var g1 := g.(w := Acknowledge(g.w, 1));
    LeadsBy(g, DaemonReleases(1));
    LeadsBy(g1, ReleaseReceived(1, false));
    g' := Release(g1, 1, false).0;
    LeadsOn(g, g1, g');
    assert g'.s.pools[0].slots == With(pool, pool.slots[0], Carrying(pool, 1, b));
    assert g1.w.leases == map[];
  }

  /** The third present finds slot 1 unfinished and copies into slot 0 at time c; then both finish. */
  lemma ThirdTurn(g: Gl, pool: Pool, d: nat, b: nat, c: nat) returns (g': Gl)
    requires Storage(pool) && At(g, pool, With(pool, pool.slots[0], Carrying(pool, 1, b)), d, b, 2) && b < c < U64_MAX
    requires g.w.work == {pool.slots[1].memory} && Due(pool, d, c)
    ensures Leads(g, g') && At(g', pool, With(pool, Carrying(pool, 0, c), Carrying(pool, 1, b)), Advanced(pool, d, c), c, 2)
    ensures g'.w.work == {} && g'.w.log == g.w.log
  {
    var slots := With(pool, pool.slots[0], Carrying(pool, 1, b));
    var p, ready := PresentPublishes(g, pool, slots, d, b, 2, c);
    assert p.slots == slots && p.w == g.w;
    PresentCopies(ready, pool, slots, d, b, 2, c, 0);
    var e := Presented(pool.context, pool.source, false, GoodCalls(|slots|, c));
    var g1 := Step(g, e);
    LeadsBy(g, e);
    assert slots[0 := Carrying(pool, 0, c)] == With(pool, Carrying(pool, 0, c), Carrying(pool, 1, b));
    var g2 := g1.(w := Finish(g1.w, pool.slots[0].memory));
    LeadsBy(g1, GpuCompletes(pool.slots[0].memory));
    LeadsBy(g2, GpuCompletes(pool.slots[1].memory));
    g' := g2.(w := Finish(g2.w, pool.slots[1].memory));
    assert g'.w.work == {};
    LeadsOn(g, g1, g2);
    LeadsOn(g, g2, g');
  }

  /** The fourth present announces slot 0 before slot 1. */
  lemma FourthTurn(g: Gl, pool: Pool, d: nat, b: nat, c: nat, now: nat) returns (g': Gl)
    requires Storage(pool) && At(g, pool, With(pool, Carrying(pool, 0, c), Carrying(pool, 1, b)), d, c, 2) && c < U64_MAX
    requires g.w.work == {}
    ensures Leads(g, g') && Stamps(g'.w.log) == Stamps(g.w.log) + [c, b]
  {
    var slots := With(pool, Carrying(pool, 0, c), Carrying(pool, 1, b));
    var p, ready := PresentPublishes(g, pool, slots, d, c, 2, now);
    var e := Presented(pool.context, pool.source, false, GoodCalls(|slots|, now));
    g' := Step(g, e);
    LeadsBy(g, e);
    StartKeepsLeases(ready, 0, pool.source, e.calls);
    assert Stamps(p.w.log) == Stamps(g.w.log) + [c, b];
  }

  /** For every source of another vendor and any three present times, the first and the third an encoder
      interval apart: a run announces the first frame, then the third, then the second. */
  lemma IndexOrderReverses(pool: Pool, a: nat, b: nat, c: nat) returns (g: Gl)
    requires Recorded(pool) && FreshPool(pool, Initial.w, pool.context, pool.source)
    requires 0 < a < b < c < U64_MAX && a + Interval(pool) <= c
    ensures Leads(Initial, g) && Stamps(g.w.log) == [a, c, b] && !IncreasingAbove(0, Stamps(g.w.log))
  {
    FreshIsStorage(pool);
    var d1 := Advanced(pool, 0, a);
    var d2 := Advanced(pool, d1, b);
    var g1 := FirstTurn(pool, a);
    var g2 := SecondTurn(g1, pool, a, d1, b);
    var g3 := GivenBack(g2, pool, d2, b);
    var g4 := ThirdTurn(g3, pool, d2, b, c);
    g := FourthTurn(g4, pool, Advanced(pool, d2, c), b, c, c);
    LeadsOn(Initial, g1, g2);
    LeadsOn(Initial, g2, g3);
    LeadsOn(Initial, g3, g4);
    LeadsOn(Initial, g4, g);
    assert Stamps(g.w.log)[1] > Stamps(g.w.log)[2];
  }
}

/** Turns of a producer in service, one after the other: the GPU finishes, the application acquires
    and presents, and the daemon gives back what exceeds its pipeline. */
module ReplayTurns {
  import opened Wrappers
  import opened Messages
  import opened ReplayWorld
  import opened ReplayState
  import opened ReplayMachine
  import opened ReplayInvariant
  import opened ReplaySafety
  import opened ReplayFirstFrame
  import opened ReplayServing

  /** Nothing runs between turns and the daemon holds at most its pipeline depth. */
  ghost predicate Serving(m: Machine, lo: nat) {
    && m.s.route.Some?
    && var r := m.s.route.value;
       && InService(m, r, OldestPendingContext(r.contexts), lo) && Between(m.w, HandleOf(r), {})
       && m.s.nextSequence - lo <= REPLAY_ENCODER_PIPELINE_DEPTH
  }

  function Pending(m: Machine): Option<nat>
    requires m.s.route.Some?
  {
    OldestPendingContext(m.s.route.value.contexts)
  }

  function Middle(r: Route, t: Turn): seq<Event> {
    [AcquireFor(r, t.image), PresentOf(r, t), PresentReturned(r.queue, false, false, {})]
  }

  /** The daemon gives its oldest buffer back when a fifth one arrives. */
  predicate Overfull(m: Machine, lo: nat)
    requires m.s.route.Some?
  {
    Pending(m).Some? && m.s.nextSequence - lo >= REPLAY_ENCODER_PIPELINE_DEPTH
  }

  /** Everything that happens in one turn: the GPU finishes, the application acquires, presents and
      gets its present back, and the daemon returns what is too much. */
  function Round(m: Machine, lo: nat, t: Turn): seq<Event>
    requires m.s.route.Some?
  {
    FirstPart(m, t) + GivesBack(m.s.route.value.id, lo, Overfull(m, lo))
  }

  function FirstPart(m: Machine, t: Turn): seq<Event>
    requires m.s.route.Some?
  {
    CopyDone(m) + Middle(m.s.route.value, t)
  }

  function CopyDone(m: Machine): seq<Event>
    requires m.s.route.Some?
  {
    if Pending(m).Some? then [GpuCompletes(m.s.route.value.id, Pending(m).value)] else []
  }

  function GivesBack(id: nat, lo: nat, overfull: bool): seq<Event> {
    if overfull then [DaemonReleases(lo), ReleaseOf(id, lo)] else []
  }

  function NextLo(m: Machine, lo: nat): nat
    requires m.s.route.Some?
  {
    if Overfull(m, lo) then lo + 1 else lo
  }

  lemma TwoSteps(m: Machine, a: Event, b: Event)
    requires Allowed(m, a) && Allowed(Step(m, a), b)
    ensures AllAllowed(m, [a, b]) && Run(m, [a, b]) == Step(Step(m, a), b)
  {
    FirstStep(Step(m, a), b, []);
    FirstStep(m, a, [b]);
    assert [b] + [] == [b] && [a] + [b] == [a, b];
  }

  lemma OneStep(m: Machine, a: Event)
    requires Allowed(m, a)
    ensures AllAllowed(m, [a]) && Run(m, [a]) == Step(m, a)
  {
    FirstStep(m, a, []);
    assert [a] + [] == [a];
  }

  predicate Does(m: Machine, e: Event, m': Machine) { Allowed(m, e) && Step(m, e) == m' }

  lemma ThreeSteps(m: Machine, a: Event, m1: Machine, b: Event, m2: Machine, c: Event, m3: Machine)
    requires Does(m, a, m1) && Does(m1, b, m2) && Does(m2, c, m3)
    ensures AllAllowed(m, [a, b, c]) && Run(m, [a, b, c]) == m3
  {
    OneStep(m, a);
    TwoSteps(m1, b, c);
    RunsJoin(m, [a], [b, c]);
    assert [a] + [b, c] == [a, b, c];
  }

  lemma AcquireDoes(m: Machine, r: Route, p: Option<nat>, lo: nat, t: Turn) returns (m': Machine)
    requires InService(m, r, p, lo) && Finished(m, r) && Between(m.w, HandleOf(r), {}) && Fits(m, r, t)
    ensures var r1 := Confirmed(r, t.image);
            && Does(m, AcquireFor(r, t.image), m')
            && InService(m', r1, p, lo) && Finished(m', r1) && Between(m'.w, HandleOf(r1), {t.image}) && Fits(m', r1, t)
            && PresentOf(r1, t) == PresentOf(r, t)
            && m'.w.exports == m.w.exports && m'.s == m.s.(route := Some(r1))
  {
    ImageIsAcquired(m, r, p, lo, t.image);
    m' := AcquireStep(m, AcquireFor(r, t.image));
  }

  lemma PresentDoes(m: Machine, r: Route, p: Option<nat>, lo: nat, t: Turn) returns (m': Machine, p': Option<nat>)
    requires InService(m, r, p, lo) && Finished(m, r) && Between(m.w, HandleOf(r), {t.image}) && Fits(m, r, t)
    ensures Does(m, PresentOf(r, t), m')
    ensures Presented(m, m', r, p, p', lo, t.image) && InService(m', m'.s.route.value, p', lo)
  {
    p' := PresentTurns(m, r, p, lo, t);
    m' := PresentStep(m, PresentOf(r, t));
  }

  lemma ReturnDoes(m: Machine, r: Route, p: Option<nat>, lo: nat, i: nat) returns (m': Machine)
    requires InService(m, r, p, lo)
    requires m.w.calls.Keys == {r.queue} && m.w.calls[r.queue].images == {(HandleOf(r), i)}
    requires forall j :: (HandleOf(r), j) in m.w.acquired <==> j == i
    ensures Does(m, PresentReturned(r.queue, false, false, {}), m')
    ensures InService(m', r, p, lo) && Between(m'.w, HandleOf(r), {}) && m'.w.exports == m.w.exports && m'.s == m.s
  {
    PresentComesBack(m, r, p, lo, i);
    m' := ReturnStep(m, PresentReturned(r.queue, false, false, {}));
  }

  /** The effect of the application's part of a turn. */
  ghost predicate TurnDone(m: Machine, m': Machine, r: Route, p: Option<nat>, p': Option<nat>, lo: nat) {
    && m'.s.route.Some? && (p.Some? ==> p.value < |r.contexts|)
    && (p'.Some? <==> SomeEligible(Offered(r, p, m.s.nextSequence)))
    && m'.s.nextSequence == m.s.nextSequence + (if p.Some? then 1 else 0)
    && |m'.w.exports| == |m.w.exports| + (if p.Some? then 1 else 0)
    && var r' := m'.s.route.value;
       && InService(m', r', p', lo) && Between(m'.w, HandleOf(r'), {})
       && |r'.contexts| == |r.contexts| && r'.id == r.id
  }

  lemma MiddleRuns(m: Machine, r: Route, p: Option<nat>, lo: nat, t: Turn) returns (m': Machine, p': Option<nat>)
    requires InService(m, r, p, lo) && Finished(m, r) && Between(m.w, HandleOf(r), {}) && Fits(m, r, t)
    ensures AllAllowed(m, Middle(r, t)) && Run(m, Middle(r, t)) == m' && TurnDone(m, m', r, p, p', lo)
  {
    var m1 := AcquireDoes(m, r, p, lo, t);
    var m2;
    m2, p' := PresentDoes(m1, Confirmed(r, t.image), p, lo, t);
    m' := ReturnDoes(m2, m2.s.route.value, p', lo, t.image);
    ThreeSteps(m, AcquireFor(r, t.image), m1, PresentOf(r, t), m2, PresentReturned(r.queue, false, false, {}), m');
    ConfirmedOffers(r, t.image, p, m.s.nextSequence);
  }

  lemma ConfirmedOffers(r: Route, i: nat, p: Option<nat>, next: nat)
    requires p.Some? ==> p.value < |r.contexts|
    ensures SomeEligible(Offered(Confirmed(r, i), p, next)) <==> SomeEligible(Offered(r, p, next))
  {
    assert Offered(Confirmed(r, i), p, next).contexts == Offered(r, p, next).contexts;
  }

  lemma CopyDoneRuns(m: Machine, lo: nat)
    requires Serving(m, lo)
    ensures var r := m.s.route.value;
            && AllAllowed(m, CopyDone(m))
            && var m' := Run(m, CopyDone(m));
               && m'.s == m.s && InService(m', r, Pending(m), lo) && Finished(m', r) && Between(m'.w, HandleOf(r), {})
               && m'.w.exports == m.w.exports && m'.w.now == m.w.now
  {
    var r := m.s.route.value;
    if Pending(m).Some? {
      CopyFinishes(m, r, Pending(m).value, lo);
      OneStep(m, GpuCompletes(r.id, Pending(m).value));
    } else {
      NothingRuns(m, r, lo);
    }
  }

  /** After the daemon's part of a turn. */
  ghost predicate Returned(m: Machine, m': Machine, r: Route, p: Option<nat>, lo: nat) {
    && m'.s.route.Some? && InService(m', m'.s.route.value, p, lo)
    && Between(m'.w, HandleOf(m'.s.route.value), {}) && |m'.s.route.value.contexts| == |r.contexts|
    && m'.w.exports == m.w.exports && m'.s.nextSequence == m.s.nextSequence
  }

  lemma ReturnsRun(m: Machine, r: Route, p: Option<nat>, lo: nat, overfull: bool) returns (m': Machine)
    requires InService(m, r, p, lo) && Between(m.w, HandleOf(r), {}) && (overfull ==> lo < m.s.nextSequence)
    ensures AllAllowed(m, GivesBack(r.id, lo, overfull)) && Run(m, GivesBack(r.id, lo, overfull)) == m'
    ensures Returned(m, m', r, p, if overfull then lo + 1 else lo)
  {
    m' := Run(m, []);
    if overfull {
      m' := Release(m.(w := Acknowledge(m.w, lo)), ReleaseOf(r.id, lo)).0;
      OldestComesBack(m, r, p, lo);
      TwoSteps(m, DaemonReleases(lo), ReleaseOf(r.id, lo));
    }
  }

  /** The first two parts of a turn. */
  lemma CopyAndPresentRun(m: Machine, lo: nat, t: Turn) returns (m': Machine, p': Option<nat>)
    requires Serving(m, lo) && Fits(m, m.s.route.value, t)
    ensures var r := m.s.route.value;
            && AllAllowed(m, FirstPart(m, t)) && Run(m, FirstPart(m, t)) == m'
            && TurnDone(m, m', r, Pending(m), p', lo)
            && (p'.Some? <==> (Pending(m).None? || m.s.nextSequence - lo + 1 < |r.contexts|))
  {
    var r := m.s.route.value;
    CopyDoneRuns(m, lo);
    var m1 := Run(m, CopyDone(m));
    m', p' := MiddleRuns(m1, r, Pending(m), lo, t);
    CopyStartsUnlessFull(m1, r, Pending(m), lo);
    RunsJoin(m, CopyDone(m), Middle(r, t));
  }

  /** Every turn of a producer in service is possible, keeps it in service with at most four buffers
      held, and delivers the pending copy if there is one; afterwards a copy is pending again unless
      the delivery filled the pool. */
  lemma RoundServes(m: Machine, lo: nat, t: Turn)
    requires Serving(m, lo) && Fits(m, m.s.route.value, t)
    ensures AllAllowed(m, Round(m, lo, t)) && RoundDone(m, Run(m, Round(m, lo, t)), lo)
  {
    var r, overfull := m.s.route.value, Overfull(m, lo);
    var m2, p2 := CopyAndPresentRun(m, lo, t);
    var m3 := ReturnsRun(m2, m2.s.route.value, p2, lo, overfull);
    RunsJoin(m, FirstPart(m, t), GivesBack(r.id, lo, overfull));
    RoundCloses(m, m2, m3, p2, lo);
  }

  /** The outcome of one turn. */
  ghost predicate RoundDone(m: Machine, m': Machine, lo: nat) {
    && m.s.route.Some? && Serving(m', NextLo(m, lo))
    && |m'.s.route.value.contexts| == |m.s.route.value.contexts|
    && |m'.w.exports| == |m.w.exports| + (if Pending(m).Some? then 1 else 0)
    && m'.s.nextSequence == m.s.nextSequence + (if Pending(m).Some? then 1 else 0)
    && (Pending(m').Some? <==> (Pending(m).None? || m.s.nextSequence - lo + 1 < |m.s.route.value.contexts|))
  }

  lemma RoundCloses(m: Machine, m2: Machine, m3: Machine, p2: Option<nat>, lo: nat)
    requires Serving(m, lo) && TurnDone(m, m2, m.s.route.value, Pending(m), p2, lo)
    requires p2.Some? <==> (Pending(m).None? || m.s.nextSequence - lo + 1 < |m.s.route.value.contexts|)
    requires Returned(m2, m3, m2.s.route.value, p2, NextLo(m, lo))
    ensures RoundDone(m, m3, lo)
  {
    ServiceFacts(m3, m3.s.route.value, p2, NextLo(m, lo));
  }

  // ---- Any number of turns ----

  /** Each turn fits where it happens. */
  predicate TurnsFit(m: Machine, lo: nat, turns: seq<Turn>)
    decreases |turns|
  {
    turns == []
    || (m.s.route.Some? && Fits(m, m.s.route.value, turns[0]) && AllAllowed(m, Round(m, lo, turns[0]))
        && TurnsFit(Run(m, Round(m, lo, turns[0])), NextLo(m, lo), turns[1..]))
  }

  function Played(m: Machine, lo: nat, turns: seq<Turn>): seq<Event>
    requires TurnsFit(m, lo, turns)
    decreases |turns|
  {
    if turns == [] then []
    else
      var round := Round(m, lo, turns[0]);
      round + Played(Run(m, round), NextLo(m, lo), turns[1..])
  }

  /** Copies delivered over some turns. */
  predicate DeliveredEnough(m: Machine, m': Machine, turns: nat, slack: nat) {
    && m.s.route.Some? && |m'.w.exports| >= |m.w.exports|
    && 2 * (|m'.w.exports| - |m.w.exports|) + slack >= turns
    && (|m.s.route.value.contexts| > REPLAY_PRODUCER_CONTEXT_COUNT ==>
          |m'.w.exports| - |m.w.exports| + slack >= turns)
  }

  /** However long the daemon goes on keeping four buffers and giving back the oldest for each new one,
      recording never stalls: every second due present delivers a frame, and with more than five
      contexts every due present after the first does. */
  lemma {:induction false} RecordingGoesOn(m: Machine, lo: nat, turns: seq<Turn>) returns (last: nat)
    requires Serving(m, lo) && TurnsFit(m, lo, turns)
    ensures AllAllowed(m, Played(m, lo, turns))
    ensures var m' := Run(m, Played(m, lo, turns));
            && Serving(m', last) && |m'.w.leases| <= REPLAY_ENCODER_PIPELINE_DEPTH
            && DeliveredEnough(m, m', |turns|, if Pending(m).None? then 1 else 0)
    decreases |turns|
  {
    last := lo;
    if turns == [] {
      HeldCount(m, lo);
    } else {
      var round := Round(m, lo, turns[0]);
      RoundServes(m, lo, turns[0]);
      var next := Run(m, round);
      last := RecordingGoesOn(next, NextLo(m, lo), turns[1..]);
      RunsJoin(m, round, Played(next, NextLo(m, lo), turns[1..]));
      Accumulates(m, lo, next, Run(next, Played(next, NextLo(m, lo), turns[1..])), |turns|);
    }
  }

  lemma HeldCount(m: Machine, lo: nat)
    requires Serving(m, lo)
    ensures |m.w.leases| <= REPLAY_ENCODER_PIPELINE_DEPTH
  {
    RangeSize(lo, m.s.nextSequence);
    assert m.w.leases.Keys == Range(lo, m.s.nextSequence);
  }

  lemma Accumulates(m: Machine, lo: nat, next: Machine, end: Machine, turns: nat)
    requires Serving(m, lo) && turns > 0 && next.s.route.Some?
    requires |next.s.route.value.contexts| == |m.s.route.value.contexts|
    requires |next.w.exports| == |m.w.exports| + (if Pending(m).Some? then 1 else 0)
    requires Pending(next).Some?
             <==> (Pending(m).None? || m.s.nextSequence - lo + 1 < |m.s.route.value.contexts|)
    requires DeliveredEnough(next, end, turns - 1, if Pending(next).None? then 1 else 0)
    ensures DeliveredEnough(m, end, turns, if Pending(m).None? then 1 else 0)
  {
  }

  /** Frames that reach the daemon from a pool of five: one a turn until four buffers are held, then
      every second one. The first turn without a pending copy only starts one. */
  function FramesOfFive(turns: nat, held: nat, pending: bool): nat
    requires held <= REPLAY_ENCODER_PIPELINE_DEPTH
  {
    var copies := if pending || turns == 0 then turns else turns - 1;
    var room := REPLAY_ENCODER_PIPELINE_DEPTH - held;
    if copies <= room then copies else room + (copies - room + 1) / 2
  }

  lemma OneTurnMore(turns: nat, held: nat, pending: bool)
    requires turns > 0 && held <= REPLAY_ENCODER_PIPELINE_DEPTH
    ensures !pending ==> FramesOfFive(turns, held, pending) == FramesOfFive(turns - 1, held, true)
    ensures pending && held < REPLAY_ENCODER_PIPELINE_DEPTH ==>
              FramesOfFive(turns, held, pending) == 1 + FramesOfFive(turns - 1, held + 1, true)
    ensures pending && held == REPLAY_ENCODER_PIPELINE_DEPTH ==>
              FramesOfFive(turns, held, pending) == 1 + FramesOfFive(turns - 1, held, false)
  {
  }

  /** With five contexts the number of delivered frames is exactly this, from any state in service. */
  lemma {:induction false} FiveContextsAlternate(m: Machine, lo: nat, turns: seq<Turn>)
    requires Serving(m, lo) && TurnsFit(m, lo, turns)
    requires |m.s.route.value.contexts| == REPLAY_PRODUCER_CONTEXT_COUNT
    ensures AllAllowed(m, Played(m, lo, turns))
    ensures |Run(m, Played(m, lo, turns)).w.exports|
            == |m.w.exports| + FramesOfFive(|turns|, m.s.nextSequence - lo, Pending(m).Some?)
    decreases |turns|
  {
    if turns != [] {
      var round := Round(m, lo, turns[0]);
      RoundServes(m, lo, turns[0]);
      var next := Run(m, round);
      FiveContextsAlternate(next, NextLo(m, lo), turns[1..]);
      RunsJoin(m, round, Played(next, NextLo(m, lo), turns[1..]));
      FiveAccumulate(m, lo, next, |turns|);
    }
  }

  /** What the rest of the turns deliver, with this one. */
  lemma FiveAccumulate(m: Machine, lo: nat, next: Machine, turns: nat)
    requires turns > 0 && Serving(m, lo) && RoundDone(m, next, lo)
    requires |m.s.route.value.contexts| == REPLAY_PRODUCER_CONTEXT_COUNT
    ensures |next.w.exports| + FramesOfFive(turns - 1, next.s.nextSequence - NextLo(m, lo), Pending(next).Some?)
            == |m.w.exports| + FramesOfFive(turns, m.s.nextSequence - lo, Pending(m).Some?)
  {
    OneTurnMore(turns, m.s.nextSequence - lo, Pending(m).Some?);
  }

  /** There is always a next turn while the clock and the timestamps are in range. */
  lemma NextTurnFits(m: Machine, lo: nat, i: nat, now: nat)
    requires Serving(m, lo) && i < m.s.route.value.imageCount && m.s.lastExport < U64_MAX
    requires 0 < now <= U64_MAX / 2 && m.w.now <= now && m.s.route.value.nextSubmit <= now
    ensures Fits(m, m.s.route.value, Turn(i, now)) && TurnsFit(m, lo, [Turn(i, now)])
  {
    RoundServes(m, lo, Turn(i, now));
  }

  // ---- From the start of the process ----

  lemma StartupServes(device: nat, queue: nat, swapchain: nat, candidate: SourceCandidate, setup: Setup) returns (m: Machine)
    requires queue != 0 && swapchain != 0 && GoodSetup(setup, candidate)
    ensures Leads(Initial, m) && Serving(m, 1) && Pending(m).None? && m.w.exports == [] && m.s.nextSequence == 1
    ensures Some(|m.s.route.value.contexts|)
            == ContextCountForSwapchain(setup.imageCount, setup.variableRate, IsNvidia(candidate))
  {
    m := StartupLeads(device, queue, swapchain, candidate, setup);
    ReachedInv(m);
    StartsServing(m, device, queue, swapchain, setup);
  }

  lemma ReachedInv(m: Machine)
    requires Leads(Initial, m)
    ensures Inv(m)
  {
    var events: seq<Event> :| AllAllowed(Initial, events) && Run(Initial, events) == m;
    InitialInv();
    RunKeeps(Initial, events);
  }

  lemma StartsServing(m: Machine, device: nat, queue: nat, swapchain: nat, setup: Setup)
    requires Inv(m) && m.s.route.Some? && NewlyCreated(m.s.route.value, device, queue, swapchain, setup) && queue != 0
    requires Recording(m, m.s.route.value, FreshGpu(m.s.route.value))
    requires forall i :: 0 <= i < |setup.images| ==> setup.images[i] != 0
    requires forall k :: 0 <= k < |setup.exportFds| ==> setup.exportFds[k] >= 3
    ensures Serving(m, 1) && Pending(m).None?
  {
    var r := m.s.route.value;
    assert forall k :: 0 <= k < |r.contexts| ==> r.contexts[k] == NewContext(true, setup.exportFds[k]);
    assert InService(m, r, None, 1);
    ServiceFacts(m, r, None, 1);
  }

  /** From process start to any number of due presents: an allowed run exists, the daemon never holds
      more than four buffers after a turn, and it receives every frame after the first if the pool has
      more than five contexts, and the first four and then every second one if it has five. */
  lemma RecordingNeverStalls(device: nat, queue: nat, swapchain: nat, candidate: SourceCandidate, setup: Setup)
    returns (start: Machine)
    requires queue != 0 && swapchain != 0 && GoodSetup(setup, candidate)
    ensures Leads(Initial, start) && start.w.exports == []
    ensures forall turns :: TurnsFit(start, 1, turns) ==> AllAllowed(start, Played(start, 1, turns))
    ensures forall turns :: TurnsFit(start, 1, turns) ==>
              var end := Run(start, Played(start, 1, turns));
              && |end.w.leases| <= REPLAY_ENCODER_PIPELINE_DEPTH
              && 2 * |end.w.exports| + 1 >= |turns|
              && if REPLAY_PRODUCER_CONTEXT_COUNT
                    < ContextCountForSwapchain(setup.imageCount, setup.variableRate, IsNvidia(candidate)).value
                 then |end.w.exports| + 1 >= |turns|
                 else |end.w.exports| == FramesOfFive(|turns|, 0, false)
  {
    start := StartupServes(device, queue, swapchain, candidate, setup);
    forall turns | TurnsFit(start, 1, turns)
      ensures AllAllowed(start, Played(start, 1, turns))
      ensures var end := Run(start, Played(start, 1, turns));
              && |end.w.leases| <= REPLAY_ENCODER_PIPELINE_DEPTH && DeliveredEnough(start, end, |turns|, 1)
              && (|start.s.route.value.contexts| == REPLAY_PRODUCER_CONTEXT_COUNT ==>
                    |end.w.exports| == FramesOfFive(|turns|, 0, false))
    {
      var last := RecordingGoesOn(start, 1, turns);
      if |start.s.route.value.contexts| == REPLAY_PRODUCER_CONTEXT_COUNT {
        FiveContextsAlternate(start, 1, turns);
      }
    }
  }
}

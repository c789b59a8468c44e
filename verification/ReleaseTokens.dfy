/** Release tokens between the reply socket and the capture paths: locks are only tried, so a
    token waits in the producer until every path that must see it has applied it. */
module ReleaseTokens {
  const MAX_PENDING: nat := 8

  /** What a reply datagram decodes to; anything but a release token is dropped. */
  datatype Datagram = Token(sequence: nat) | Other

  /** Tokens fully applied, tokens waiting, datagrams not yet read, and what each of the two
      OpenGL paths has been told. */
  datatype Queue = Queue(
    applied: seq<nat>,
    waiting: seq<nat>,
    unread: seq<Datagram>,
    readback: set<nat>,
    exported: set<nat>)

  const EMPTY: Queue := Queue([], [], [], {}, {})

  function Tokens(unread: seq<Datagram>): seq<nat> {
    if unread == [] then []
    else (if unread[0].Token? then [unread[0].sequence] else []) + Tokens(unread[1..])
  }

  /** Every token that ever arrived, oldest first. */
  function Everything(q: Queue): seq<nat> { q.applied + q.waiting + Tokens(q.unread) }

  // ---- OpenGL: a bounded queue, two paths ----

  /** Which of the two paths' locks were free for one attempt. */
  datatype Locks = Locks(readbackFree: bool, exportFree: bool)

  datatype OpenGlCalls = OpenGlCalls(queueBusy: bool, producerBusy: bool, connected: bool, ready: nat, locks: seq<Locks>)

  function Attempt(q: Queue, sequence: nat, locks: Locks): (Queue, bool) {
    (q.(readback := if locks.readbackFree then q.readback + {sequence} else q.readback,
        exported := if locks.exportFree then q.exported + {sequence} else q.exported),
     locks.readbackFree && locks.exportFree)
  }

  /** Apply waiting tokens oldest first, stopping at the first busy lock. */
  function Drain(q: Queue, locks: seq<Locks>): (Queue, seq<Locks>)
    decreases |q.waiting|
  {
    if q.waiting == [] || locks == [] then (q, locks)
    else
      var (q1, done) := Attempt(q, q.waiting[0], locks[0]);
      if !done then (q1, locks[1..])
      else Drain(q1.(applied := q.applied + [q.waiting[0]], waiting := q.waiting[1..]), locks[1..])
  }

  /** Read while there is room; `ready` datagrams arrive before the socket reports an error. */
  function Receive(q: Queue, ready: nat): Queue
    decreases ready
  {
    if |q.waiting| >= MAX_PENDING || ready == 0 || q.unread == [] then q
    else
      var q1 := q.(unread := q.unread[1..]);
      Receive(if q.unread[0].Token? then q1.(waiting := q.waiting + [q.unread[0].sequence]) else q1, ready - 1)
  }

  function PollOpenGl(q: Queue, c: OpenGlCalls): Queue {
    if c.queueBusy then q
    else
      var (q1, locks) := Drain(q, c.locks);
      if c.producerBusy || !c.connected then q1
      else Drain(Receive(q1, c.ready), locks).0
  }

  // ---- Vulkan: one waiting token, one path ----

  datatype VulkanCalls = VulkanCalls(producerBusy: bool, connected: bool, ready: nat, free: seq<bool>)

  /** Apply tokens as they are read; the first that meets a busy lock waits. */
  function ReadAndApply(q: Queue, ready: nat, free: seq<bool>): Queue
    decreases ready
  {
    if ready == 0 || q.unread == [] then q
    else
      var q1 := q.(unread := q.unread[1..]);
      if q.unread[0].Other? then ReadAndApply(q1, ready - 1, free)
      else if free == [] || !free[0] then q1.(waiting := [q.unread[0].sequence])
      else ReadAndApply(q1.(applied := q.applied + [q.unread[0].sequence]), ready - 1, free[1..])
  }

  function PollVulkan(q: Queue, c: VulkanCalls): Queue {
    if c.producerBusy then q
    else if q.waiting != [] && (c.free == [] || !c.free[0]) then q
    else
      var retried := q.waiting != [];
      var q1 := if retried then q.(applied := q.applied + [q.waiting[0]], waiting := []) else q;
      if !c.connected then q1 else ReadAndApply(q1, c.ready, if retried then c.free[1..] else c.free)
  }

  // ---- One poll ----

  /** Applied tokens were seen by both paths, and only the oldest waiting token may have been
      seen by one of them already. */
  predicate Confirmed(q: Queue) {
    && (forall t :: t in q.applied ==> t in q.readback && t in q.exported)
    && (forall t :: t in q.readback + q.exported ==> t in q.applied || (q.waiting != [] && t == q.waiting[0]))
  }

  lemma {:induction false} DrainKeeps(q: Queue, locks: seq<Locks>)
    requires Confirmed(q)
    ensures var q' := Drain(q, locks).0;
            && Confirmed(q') && Everything(q') == Everything(q) && |q'.waiting| <= |q.waiting|
            && q.applied <= q'.applied && q'.unread == q.unread
    decreases |q.waiting|
  {
    if q.waiting != [] && locks != [] {
      var (q1, done) := Attempt(q, q.waiting[0], locks[0]);
      if done {
        var q2 := q1.(applied := q.applied + [q.waiting[0]], waiting := q.waiting[1..]);
        assert q2.applied + q2.waiting == q.applied + q.waiting;
        DrainKeeps(q2, locks[1..]);
      }
    }
  }

  lemma {:induction false} ReceiveKeeps(q: Queue, ready: nat)
    requires Confirmed(q) && |q.waiting| <= MAX_PENDING
    ensures var q' := Receive(q, ready);
            && Confirmed(q') && Everything(q') == Everything(q) && |q'.waiting| <= MAX_PENDING && q'.applied == q.applied
    decreases ready
  {
    if |q.waiting| < MAX_PENDING && ready > 0 && q.unread != [] {
      var q1 := q.(unread := q.unread[1..]);
      if q.unread[0].Token? {
        var q2 := q1.(waiting := q.waiting + [q.unread[0].sequence]);
        assert Everything(q2) == Everything(q) by {
          assert q.waiting + ([q.unread[0].sequence] + Tokens(q.unread[1..]))
              == q.waiting + [q.unread[0].sequence] + Tokens(q.unread[1..]);
        }
        ReceiveKeeps(q2, ready - 1);
      } else {
        assert Everything(q1) == Everything(q) by {
          assert [] + Tokens(q.unread[1..]) == Tokens(q.unread[1..]);
        }
        ReceiveKeeps(q1, ready - 1);
      }
    }
  }

  lemma PollOpenGlKeeps(q: Queue, c: OpenGlCalls)
    requires Confirmed(q) && |q.waiting| <= MAX_PENDING
    ensures var q' := PollOpenGl(q, c);
            && Confirmed(q') && Everything(q') == Everything(q) && |q'.waiting| <= MAX_PENDING
            && q.applied <= q'.applied
  {
    if !c.queueBusy {
      DrainKeeps(q, c.locks);
      var (q1, locks) := Drain(q, c.locks);
      ReceiveKeeps(q1, c.ready);
      DrainKeeps(Receive(q1, c.ready), locks);
    }
  }

  lemma {:induction false} ReadAndApplyKeeps(q: Queue, ready: nat, free: seq<bool>)
    requires q.waiting == []
    ensures var q' := ReadAndApply(q, ready, free);
            Everything(q') == Everything(q) && |q'.waiting| <= 1 && q.applied <= q'.applied
    decreases ready
  {
    if ready > 0 && q.unread != [] {
      var q1 := q.(unread := q.unread[1..]);
      if q.unread[0].Other? {
        assert [] + Tokens(q.unread[1..]) == Tokens(q.unread[1..]);
        ReadAndApplyKeeps(q1, ready - 1, free);
      } else if free == [] || !free[0] {
        assert q.applied + [] == q.applied;
        assert q.applied + ([q.unread[0].sequence] + Tokens(q.unread[1..]))
            == q.applied + [q.unread[0].sequence] + Tokens(q.unread[1..]);
      } else {
        var q2 := q1.(applied := q.applied + [q.unread[0].sequence]);
        assert q.applied + [] + ([q.unread[0].sequence] + Tokens(q.unread[1..]))
            == q.applied + [q.unread[0].sequence] + [] + Tokens(q.unread[1..]);
        ReadAndApplyKeeps(q2, ready - 1, free[1..]);
      }
    }
  }

  lemma PollVulkanKeeps(q: Queue, c: VulkanCalls)
    requires |q.waiting| <= 1
    ensures var q' := PollVulkan(q, c);
            Everything(q') == Everything(q) && |q'.waiting| <= 1 && q.applied <= q'.applied
  {
    if !c.producerBusy && !(q.waiting != [] && (c.free == [] || !c.free[0])) {
      if q.waiting == [] {
        ReadAndApplyKeeps(q, c.ready, c.free);
      } else {
        assert q.waiting == [q.waiting[0]];
        var q1 := q.(applied := q.applied + [q.waiting[0]], waiting := []);
        assert Everything(q1) == Everything(q);
        ReadAndApplyKeeps(q1, c.ready, c.free[1..]);
      }
    }
  }

  // ---- Runs ----

  datatype Event = Arrives(datagram: Datagram) | Polls(gl: OpenGlCalls, vulkan: VulkanCalls)

  function Step(q: Queue, e: Event, openGl: bool): Queue {
    match e
    case Arrives(datagram) => q.(unread := q.unread + [datagram])
    case Polls(gl, vulkan) => if openGl then PollOpenGl(q, gl) else PollVulkan(q, vulkan)
  }

  function Run(q: Queue, events: seq<Event>, openGl: bool): Queue
    decreases |events|
  {
    if events == [] then q else Run(Step(q, events[0], openGl), events[1..], openGl)
  }

  function Arrived(events: seq<Event>): seq<Datagram> {
    if events == [] then []
    else (if events[0].Arrives? then [events[0].datagram] else []) + Arrived(events[1..])
  }

  lemma {:induction false} TokensConcat(a: seq<Datagram>, b: seq<Datagram>)
    ensures Tokens(a + b) == Tokens(a) + Tokens(b)
  {
    if a == [] {
      assert a + b == b;
    } else {
      var first := if a[0].Token? then [a[0].sequence] else [];
      assert (a + b)[0] == a[0] && (a + b)[1..] == a[1..] + b;
      TokensConcat(a[1..], b);
      assert first + (Tokens(a[1..]) + Tokens(b)) == first + Tokens(a[1..]) + Tokens(b);
    }
  }

  predicate Sound(q: Queue, openGl: bool) {
    if openGl then Confirmed(q) && |q.waiting| <= MAX_PENDING else |q.waiting| <= 1
  }

  lemma StepKeeps(q: Queue, e: Event, openGl: bool)
    requires Sound(q, openGl)
    ensures Sound(Step(q, e, openGl), openGl)
    ensures Everything(Step(q, e, openGl)) == Everything(q) + Tokens(if e.Arrives? then [e.datagram] else [])
  {
    match e {
      case Arrives(datagram) =>
        TokensConcat(q.unread, [datagram]);
        assert q.applied + q.waiting + (Tokens(q.unread) + Tokens([datagram])) == Everything(q) + Tokens([datagram]);
      case Polls(gl, vulkan) =>
        if openGl { PollOpenGlKeeps(q, gl); } else { PollVulkanKeeps(q, vulkan); }
        assert Everything(q) + [] == Everything(q);
    }
  }

  lemma {:induction false} RunKeeps(q: Queue, events: seq<Event>, openGl: bool)
    requires Sound(q, openGl)
    ensures Sound(Run(q, events, openGl), openGl)
    ensures Everything(Run(q, events, openGl)) == Everything(q) + Tokens(Arrived(events))
    decreases |events|
  {
    if events == [] {
      assert Everything(q) + [] == Everything(q);
    } else {
      var first := if events[0].Arrives? then [events[0].datagram] else [];
      StepKeeps(q, events[0], openGl);
      RunKeeps(Step(q, events[0], openGl), events[1..], openGl);
      TokensConcat(first, Arrived(events[1..]));
      assert Everything(q) + Tokens(first) + Tokens(Arrived(events[1..])) == Everything(q) + Tokens(Arrived(events));
    }
  }

  /** However locks, errors and arrivals interleave, OpenGL tokens are applied in arrival
      order and none is lost or duplicated: what was applied, then what waits, then what is
      unread is exactly what arrived. At most eight wait; an applied token was seen by both
      paths, and only the oldest waiting one can have been seen by a single path. */
  lemma OpenGlTokensAreNeverLost(events: seq<Event>)
    ensures var q := Run(EMPTY, events, true);
            && q.applied + q.waiting + Tokens(q.unread) == Tokens(Arrived(events))
            && |q.waiting| <= 8 && Confirmed(q)
  {
    RunKeeps(EMPTY, events, true);
    assert Everything(EMPTY) + Tokens(Arrived(events)) == Tokens(Arrived(events));
  }

  /** The same for Vulkan between two device sessions, with a single waiting token. */
  lemma VulkanTokensAreNeverLost(events: seq<Event>)
    ensures var q := Run(EMPTY, events, false);
            && q.applied + q.waiting + Tokens(q.unread) == Tokens(Arrived(events))
            && |q.waiting| <= 1
  {
    RunKeeps(EMPTY, events, false);
    assert Everything(EMPTY) + Tokens(Arrived(events)) == Tokens(Arrived(events));
  }

  // ---- Progress ----

  predicate AllFree(locks: seq<Locks>) { forall i :: 0 <= i < |locks| ==> locks[i] == Locks(true, true) }

  lemma {:induction false} FreeDrainEmpties(q: Queue, locks: seq<Locks>)
    requires |locks| >= |q.waiting| && AllFree(locks)
    ensures var (q', rest) := Drain(q, locks);
            && q'.waiting == [] && q'.applied == q.applied + q.waiting && q'.unread == q.unread
            && rest == locks[|q.waiting|..]
    decreases |q.waiting|
  {
    if q.waiting != [] {
      var (q1, _) := Attempt(q, q.waiting[0], locks[0]);
      FreeDrainEmpties(q1.(applied := q.applied + [q.waiting[0]], waiting := q.waiting[1..]), locks[1..]);
      assert q.applied + [q.waiting[0]] + q.waiting[1..] == q.applied + q.waiting;
    }
  }

  lemma {:induction false} ReceiveFills(q: Queue, ready: nat)
    requires ready >= |q.unread| && |q.waiting| <= MAX_PENDING
    ensures var q' := Receive(q, ready);
            && (q'.unread == [] || |q'.waiting| == MAX_PENDING) && q'.applied == q.applied && |q'.waiting| <= MAX_PENDING
    decreases ready
  {
    if |q.waiting| < MAX_PENDING && ready > 0 && q.unread != [] {
      var q1 := q.(unread := q.unread[1..]);
      ReceiveFills(if q.unread[0].Token? then q1.(waiting := q.waiting + [q.unread[0].sequence]) else q1, ready - 1);
    }
  }

  /** A poll that meets no busy lock applies everything that waited and then everything
      unread, up to eight more. */
  lemma FreePollAppliesTokens(q: Queue, c: OpenGlCalls)
    requires |q.waiting| <= 8 && !c.queueBusy && !c.producerBusy && c.connected && c.ready >= |q.unread|
    requires |c.locks| >= 16 && AllFree(c.locks)
    ensures var q' := PollOpenGl(q, c);
            && q'.waiting == [] && q.applied + q.waiting <= q'.applied
            && (q'.unread == [] || |q'.applied| == |q.applied| + |q.waiting| + 8)
  {
    FreeDrainEmpties(q, c.locks);
    var (q1, locks) := Drain(q, c.locks);
    ReceiveFills(q1, c.ready);
    FreeDrainEmpties(Receive(q1, c.ready), locks);
  }

  predicate AllTrue(free: seq<bool>) { forall i :: 0 <= i < |free| ==> free[i] }

  lemma {:induction false} FreeReadApplies(q: Queue, ready: nat, free: seq<bool>)
    requires q.waiting == [] && ready >= |q.unread| && |free| >= |q.unread| && AllTrue(free)
    ensures var q' := ReadAndApply(q, ready, free);
            q'.waiting == [] && q'.unread == [] && q'.applied == q.applied + Tokens(q.unread)
    decreases ready
  {
    if q.unread == [] {
      assert q.applied + [] == q.applied;
    } else {
      var q1 := q.(unread := q.unread[1..]);
      if q.unread[0].Token? {
        var t := [q.unread[0].sequence];
        FreeReadApplies(q1.(applied := q.applied + t), ready - 1, free[1..]);
        assert q.applied + t + Tokens(q.unread[1..]) == q.applied + (t + Tokens(q.unread[1..]));
      } else {
        FreeReadApplies(q1, ready - 1, free);
        assert [] + Tokens(q.unread[1..]) == Tokens(q.unread[1..]);
      }
    }
  }

  /** On Vulkan a poll that meets no busy lock applies everything that arrived. */
  lemma FreeVulkanPollAppliesAll(q: Queue, c: VulkanCalls)
    requires |q.waiting| <= 1 && !c.producerBusy && c.connected && c.ready >= |q.unread|
    requires |c.free| >= |q.unread| + 1 && AllTrue(c.free)
    ensures var q' := PollVulkan(q, c);
            q'.waiting == [] && q'.unread == [] && q'.applied == Everything(q)
  {
    if q.waiting == [] {
      FreeReadApplies(q, c.ready, c.free);
      assert q.applied + [] + Tokens(q.unread) == q.applied + Tokens(q.unread);
    } else {
      assert q.waiting == [q.waiting[0]];
      FreeReadApplies(q.(applied := q.applied + [q.waiting[0]], waiting := []), c.ready, c.free[1..]);
    }
  }

  // ---- The producers' own form ----

  class OpenGlReleases {
    var waiting: seq<nat>
    var unread: seq<Datagram>
    ghost var applied: seq<nat>
    ghost var readback: set<nat>
    ghost var exported: set<nat>

    ghost function Value(): Queue
      reads this
    {
      Queue(applied, waiting, unread, readback, exported)
    }

    constructor ()
      ensures Value() == EMPTY
    {
      waiting, unread, applied, readback, exported := [], [], [], {}, {};
    }

    /** Tell both paths; a busy one asks for a retry of both. */
    method Apply(sequence: nat, locks: Locks) returns (done: bool)
      modifies this`readback, this`exported
      ensures (Value(), done) == Attempt(old(Value()), sequence, locks)
    {
      var readbackDone := locks.readbackFree;
      if readbackDone {
        readback := readback + {sequence};
      }
      var exportDone := locks.exportFree;
      if exportDone {
        exported := exported + {sequence};
      }
      done := readbackDone && exportDone;
    }

    method DrainReleases(locks: seq<Locks>) returns (rest: seq<Locks>)
      modifies this`waiting, this`applied, this`readback, this`exported
      ensures (Value(), rest) == Drain(old(Value()), locks)
    {
      rest := locks;
      while waiting != [] && rest != []
        invariant Drain(Value(), rest) == Drain(old(Value()), locks)
        decreases |waiting|
      {
        var sequence := waiting[0];
        var done := Apply(sequence, rest[0]);
        rest := rest[1..];
        if !done {
          return;
        }
        applied := applied + [sequence];
        waiting := waiting[1..];
      }
    }

    method PollReleases(c: OpenGlCalls)
      requires Confirmed(Value()) && |waiting| <= MAX_PENDING
      modifies this
      ensures Value() == PollOpenGl(old(Value()), c)
      ensures Confirmed(Value()) && |waiting| <= MAX_PENDING && Everything(Value()) == old(Everything(Value()))
    {
      PollOpenGlKeeps(Value(), c);
      if c.queueBusy {
        return;
      }
      var locks := DrainReleases(c.locks);
      if c.producerBusy || !c.connected {
        return;
      }
      ghost var drained := Value();
      var ready := c.ready;
      while |waiting| < MAX_PENDING && ready > 0 && unread != []
        invariant Receive(Value(), ready) == Receive(drained, c.ready)
        decreases ready
      {
        if unread[0].Token? {
          waiting := waiting + [unread[0].sequence];
        }
        unread := unread[1..];
        ready := ready - 1;
      }
      locks := DrainReleases(locks);
    }
  }

  class VulkanReleases {
    var waiting: seq<nat>
    var unread: seq<Datagram>
    ghost var applied: seq<nat>

    ghost function Value(): Queue
      reads this
    {
      Queue(applied, waiting, unread, {}, {})
    }

    constructor ()
      ensures Value() == EMPTY
    {
      waiting, unread, applied := [], [], [];
    }

    method PollReleases(c: VulkanCalls)
      requires |waiting| <= 1
      modifies this
      ensures Value() == PollVulkan(old(Value()), c)
      ensures |waiting| <= 1 && Everything(Value()) == old(Everything(Value()))
    {
      PollVulkanKeeps(Value(), c);
      if c.producerBusy {
        return;
      }
      var free := c.free;
      if waiting != [] {
        if free == [] || !free[0] {
          return;
        }
        applied := applied + [waiting[0]];
        waiting := [];
        free := free[1..];
      }
      if !c.connected {
        return;
      }
      ghost var start, locks := Value(), free;
      var ready := c.ready;
      while ready > 0 && unread != []
        invariant waiting == []
        invariant ReadAndApply(Value(), ready, free) == ReadAndApply(start, c.ready, locks)
        decreases ready
      {
        var datagram := unread[0];
        unread := unread[1..];
        ready := ready - 1;
        if datagram.Token? {
          if free == [] || !free[0] {
            waiting := [datagram.sequence];
            return;
          }
          applied := applied + [datagram.sequence];
          free := free[1..];
        }
      }
    }

    /** The last device went away: the token path ends with its socket. */
    method Finish()
      modifies this
      ensures waiting == [] && unread == [] && applied == old(applied)
    {
      waiting, unread := [], [];
    }
  }
}

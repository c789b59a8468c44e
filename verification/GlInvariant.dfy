/** What holds of every OpenGL pool, and how each pass over its slots keeps it. */
module GlInvariant {
  import opened Wrappers
  import opened Messages
  import opened GlSlots
  import opened GlPools
  import Cadence

  // ---- One slot ----

  /** A slot agrees with the world: fenced work is tracked by its fence, and a daemon lease
      on its memory is its exported sequence. */
  predicate SlotFits(s: Slot, w: GlWorld, next: nat) {
    && SlotOk(s)
    && (Allocated(s) ==>
          && s.memory in w.memories
          && (s.memory in w.work ==> s.sync != 0)
          && (s.memory in w.bridge ==> s.copyPending)
          && (s.semaphores && s.memory in w.unfenced ==> s.failed)
          && forall q :: q in w.leases && w.leases[q] == s.memory ==> s.exportSequence == Some(q))
    && (s.exportSequence.Some? ==> s.exportSequence.value < next && s.exportSequence.value !in w.applied)
  }

  /** Same storage, or none left. */
  predicate Descends(s: Slot, s': Slot) { s' == IDLE || (s'.memory == s.memory && Allocated(s) && Allocated(s')) }

  /** A poll never changes the world, and a ready slot carries a finished copy. */
  lemma CopyReadyFits(w: GlWorld, s: Slot, poll: Poll, next: nat)
    requires SlotFits(s, w, next)
    ensures var (w', s', ready) := CopyReady(w, s, poll);
            && w' == w && SlotFits(s', w, next) && Descends(s, s')
            && (s'.source.None? || (s'.source == s.source && s'.timestamp == s.timestamp))
            && s'.exportSequence == s.exportSequence
            && (ready ==> s'.source.Some? && s'.sync == 0 && !s'.copyPending && !Busy(w, s') && !s'.failed)
  {
  }

  lemma CompletedFits(w: GlWorld, s: Slot, poll: Poll, next: nat)
    requires SlotFits(s, w, next)
    ensures var (w', s', done) := Completed(w, s, poll);
            && w' == w && SlotFits(s', w, next) && Descends(s, s')
            && (s'.source.None? || (s'.source == s.source && s'.timestamp == s.timestamp))
            && (done ==> Finished(s', w))
  {
    CopyReadyFits(w, s, poll, next);
  }

  /** Nothing holds the storage: no GPU work and no lease. */
  predicate Finished(s: Slot, w: GlWorld) {
    s.source.None? && s.exportSequence.None? && !s.failed && s.sync == 0
  }

  lemma DiscardFits(w: GlWorld, s: Slot, next: nat)
    requires SlotFits(s, w, next)
    ensures var (s', dropped) := DiscardRetiredCopy(s);
            && SlotFits(s', w, next) && Descends(s, s')
            && (s'.source.None? || (s'.source == s.source && s'.timestamp == s.timestamp))
  {
  }

  lemma ReleaseFits(w: GlWorld, s: Slot, next: nat, sequence: nat)
    requires SlotFits(s, w, next) && sequence !in w.leases
    ensures SlotFits(ReleaseExport(s, sequence), MarkApplied(w, sequence), next)
  {
  }

  // ---- The slots of one pool ----

  predicate DistinctMemory(slots: seq<Slot>) {
    forall i, j :: 0 <= i < j < |slots| && Allocated(slots[i]) && Allocated(slots[j]) ==>
      slots[i].memory != slots[j].memory
  }

  predicate SlotsFit(slots: seq<Slot>, w: GlWorld, next: nat) {
    && (forall i :: 0 <= i < |slots| ==> SlotFits(slots[i], w, next))
    && DistinctMemory(slots)
  }

  /** Pending copies are newer than the last publication and no two are stamped alike. */
  predicate Ordered(slots: seq<Slot>, newest: nat, lastExport: nat) {
    && newest <= lastExport
    && (forall i :: 0 <= i < |slots| && slots[i].source.Some? ==> newest < slots[i].timestamp <= lastExport)
    && (forall i, j :: 0 <= i < j < |slots| && slots[i].source.Some? && slots[j].source.Some? ==>
          slots[i].timestamp != slots[j].timestamp)
  }

  /** Each slot kept its storage or lost it, and carries the same copy or none. */
  predicate Derived(slots: seq<Slot>, slots': seq<Slot>) {
    && |slots'| == |slots|
    && forall i :: 0 <= i < |slots| ==>
         && Descends(slots[i], slots'[i])
         && (slots'[i].source.None?
             || (slots'[i].source == slots[i].source && slots'[i].timestamp == slots[i].timestamp))
  }

  lemma DerivedKeeps(slots: seq<Slot>, slots': seq<Slot>, newest: nat, lastExport: nat)
    requires Derived(slots, slots')
    ensures DistinctMemory(slots) ==> DistinctMemory(slots')
    ensures Ordered(slots, newest, lastExport) ==> Ordered(slots', newest, lastExport)
  {
  }

  lemma DerivedTransitive(a: seq<Slot>, b: seq<Slot>, c: seq<Slot>)
    requires Derived(a, b) && Derived(b, c)
    ensures Derived(a, c)
  {
  }

  lemma UpdateDerived(slots: seq<Slot>, k: nat, s: Slot, w: GlWorld, next: nat)
    requires SlotsFit(slots, w, next) && k < |slots| && SlotFits(s, w, next) && Descends(slots[k], s)
    requires s.source.None? || (s.source == slots[k].source && s.timestamp == slots[k].timestamp)
    ensures SlotsFit(slots[k := s], w, next) && Derived(slots, slots[k := s])
  {
    assert forall i :: 0 <= i < |slots| ==> Descends(slots[i], slots[i]) by {
      forall i | 0 <= i < |slots|
        ensures Descends(slots[i], slots[i])
      {
        assert SlotFits(slots[i], w, next);
      }
    }
  }

  lemma {:induction false} PollSlotsFit(w: GlWorld, slots: seq<Slot>, polls: seq<Poll>, k: nat, drops: nat, next: nat)
    requires k <= |slots| == |polls| && SlotsFit(slots, w, next)
    ensures var (w', slots', _) := PollSlots(w, slots, polls, k, drops);
            w' == w && SlotsFit(slots', w, next) && Derived(slots, slots')
    decreases |slots| - k
  {
    if k == |slots| {
      SelfDerived(slots, w, next);
    } else {
      CopyReadyFits(w, slots[k], polls[k], next);
      var (w1, s1, _) := CopyReady(w, slots[k], polls[k]);
      UpdateDerived(slots, k, s1, w, next);
      PollSlotsFit(w, slots[k := s1], polls, k + 1, drops + Lost(slots[k], s1), next);
      DerivedTransitive(slots, slots[k := s1],
                        PollSlots(w, slots[k := s1], polls, k + 1, drops + Lost(slots[k], s1)).1);
    }
  }

  lemma SelfDerived(slots: seq<Slot>, w: GlWorld, next: nat)
    requires SlotsFit(slots, w, next)
    ensures Derived(slots, slots)
  {
    forall i | 0 <= i < |slots|
      ensures Descends(slots[i], slots[i])
    {
      assert SlotFits(slots[i], w, next);
    }
  }

  lemma {:induction false} RetireSlotsFit(w: GlWorld, slots: seq<Slot>, polls: seq<Poll>, k: nat, drops: nat, next: nat)
    requires k <= |slots| == |polls| && SlotsFit(slots, w, next)
    ensures var (w', slots', _) := RetireSlots(w, slots, polls, k, drops);
            w' == w && SlotsFit(slots', w, next) && Derived(slots, slots')
    decreases |slots| - k
  {
    if k == |slots| {
      SelfDerived(slots, w, next);
    } else {
      var s := slots[k];
      CopyReadyFits(w, s, polls[k], next);
      SelfDerived(slots, w, next);
      var (w1, s1, _) := if s.sync != 0 || s.copyPending then CopyReady(w, s, polls[k]) else (w, s, false);
      DiscardFits(w, s1, next);
      var (s2, dropped) := DiscardRetiredCopy(s1);
      UpdateDerived(slots, k, s2, w, next);
      var drops' := if dropped then drops + 1 else drops;
      RetireSlotsFit(w, slots[k := s2], polls, k + 1, drops', next);
      DerivedTransitive(slots, slots[k := s2], RetireSlots(w, slots[k := s2], polls, k + 1, drops').1);
    }
  }

  /** A pool passes the completion check only when every slot is finished. */
  lemma {:induction false} CompleteSlotsFit(w: GlWorld, slots: seq<Slot>, polls: seq<Poll>, k: nat, next: nat)
    requires k <= |slots| == |polls| && SlotsFit(slots, w, next)
    requires forall i :: 0 <= i < k ==> Finished(slots[i], w)
    ensures var (w', slots', done) := CompleteSlots(w, slots, polls, k);
            && w' == w && SlotsFit(slots', w, next) && Derived(slots, slots')
            && (done ==> forall i :: 0 <= i < |slots'| ==> Finished(slots'[i], w))
    decreases |slots| - k
  {
    if k == |slots| {
      SelfDerived(slots, w, next);
    } else {
      CompletedFits(w, slots[k], polls[k], next);
      var (w1, s1, done) := Completed(w, slots[k], polls[k]);
      UpdateDerived(slots, k, s1, w, next);
      if done {
        CompleteSlotsFit(w, slots[k := s1], polls, k + 1, next);
        DerivedTransitive(slots, slots[k := s1], CompleteSlots(w, slots[k := s1], polls, k + 1).1);
      }
    }
  }

  /** Finished slots are deleted without touching anything in use. */
  lemma {:induction false} ReleaseSlotsIsSafe(w: GlWorld, slots: seq<Slot>, next: nat)
    requires 0 !in w.work && 0 !in w.bridge && !Leased(w, 0)
    requires forall i :: 0 <= i < |slots| ==> SlotFits(slots[i], w, next) && Finished(slots[i], w)
    ensures ReleaseSlots(w, slots) == w
    decreases |slots|
  {
    if slots != [] {
      assert SlotFits(slots[0], w, next);
      assert !Leased(w, slots[0].memory);
      assert DeleteSlot(w, slots[0]) == w;
      ReleaseSlotsIsSafe(w, slots[1..], next);
    }
  }
}

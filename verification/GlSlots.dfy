/** One OpenGL export slot: its fields, its operations, and the surroundings they call. */
module GlSlots {
  import opened Wrappers
  import opened Messages

  datatype Slot = Slot(
    memory: nat,
    buffer: nat,
    native: nat,
    copyPending: bool,
    semaphores: bool,
    failed: bool,
    fd: int,
    source: Option<SourceCandidate>,
    sync: nat,
    timestamp: nat,
    exportSequence: Option<nat>,
    exportReleased: bool)

  const IDLE: Slot := Slot(0, 0, 0, false, false, false, -1, None, 0, 0, None, false)

  /** Zero-timeout answers: the GL fence, the native bridge, and an attempted copy. */
  datatype FenceAnswer = Waiting | Signaled | WaitFailed
  datatype Completion = Pending | Ready | Failed
  datatype Poll = Poll(fence: FenceAnswer, bridge: Completion)
  datatype CopyOutcome = EarlyError | FenceMissing | Started(sync: nat)

  datatype GlFault = CopyIntoLease | CopyIntoWork | DeletedInUse | PublishedUnfinished | PublishedOutOfOrder | SequenceReused

  /** A frame the daemon was told about. */
  datatype Announcement = Announcement(pool: nat, sequence: nat, memory: nat, timestamp: nat)

  /** GL driver and daemon: memories with fenced GL work in flight, with work whose fence could
      not be created, or with a native bridge copy in flight, daemon leases by sequence, tokens the
      daemon returned and those already applied here, per pool the newest publication and the capture
      times charged to its cadence, and everything announced so far. */
  datatype GlWorld = GlWorld(
    memories: set<nat>,
    work: set<nat>,
    unfenced: set<nat>,
    bridge: set<nat>,
    leases: map<nat, nat>,
    released: set<nat>,
    applied: set<nat>,
    newest: map<nat, nat>,
    log: seq<Announcement>,
    charges: map<nat, seq<nat>>,
    faults: set<GlFault>)

  function Flag(condition: bool, fault: GlFault): set<GlFault> { if condition then {} else {fault} }

  predicate Leased(w: GlWorld, memory: nat) { exists q :: q in w.leases && w.leases[q] == memory }

  /** GPU work may still touch the storage. Work without a fence is tracked for bridge slots only. */
  predicate Busy(w: GlWorld, slot: Slot) {
    slot.memory in w.work || slot.memory in w.bridge || (slot.semaphores && slot.memory in w.unfenced)
  }

  /** Delete the GL names of a slot and close its descriptor. */
  function DeleteSlot(w: GlWorld, slot: Slot): GlWorld {
    w.(faults := w.faults + Flag(!Busy(w, slot) && !Leased(w, slot.memory), DeletedInUse))
  }

  /** Detach a slot whose bridge failed: its GL work must be finished, its native side is kept by
      the bridge's own retire list. */
  function DetachSlot(w: GlWorld, slot: Slot): GlWorld {
    w.(faults := w.faults + Flag(slot.memory !in w.work && !Leased(w, slot.memory), DeletedInUse))
  }

  /** A fenced copy of a bridge slot goes on in the native bridge. */
  function BeginCopy(w: GlWorld, slot: Slot, fenced: bool): GlWorld {
    w.(bridge := if fenced && slot.native != 0 then w.bridge + {slot.memory} else w.bridge,
       work := if fenced then w.work + {slot.memory} else w.work,
       unfenced := if fenced then w.unfenced else w.unfenced + {slot.memory},
       faults := w.faults + Flag(!Leased(w, slot.memory), CopyIntoLease) + Flag(!Busy(w, slot), CopyIntoWork))
  }

  /** Announce a finished copy; a delivered announcement is a lease until acknowledged.
      Pools with the NVIDIA bridge must publish in timestamp order. */
  function Announce(w: GlWorld, pool: nat, ordered: bool, slot: Slot, sequence: nat, sent: bool): GlWorld {
    var newest := if pool in w.newest then w.newest[pool] else 0;
    w.(leases := if sent then w.leases[sequence := slot.memory] else w.leases,
       newest := if sent then w.newest[pool := slot.timestamp] else w.newest,
       log := if sent then w.log + [Announcement(pool, sequence, slot.memory, slot.timestamp)] else w.log,
       faults := w.faults
         + Flag(!Busy(w, slot), PublishedUnfinished)
         + Flag(!sent || (sequence !in w.leases && sequence !in w.released), SequenceReused)
         + Flag(!sent || !ordered || newest < slot.timestamp, PublishedOutOfOrder))
  }

  function Finish(w: GlWorld, memory: nat): GlWorld { w.(work := w.work - {memory}) }

  /** A due present of a pool, whether or not a slot is free for its copy. */
  function Charge(w: GlWorld, pool: nat, stamp: nat): GlWorld {
    w.(charges := w.charges[pool := (if pool in w.charges then w.charges[pool] else []) + [stamp]])
  }

  function FinishBridge(w: GlWorld, memory: nat): GlWorld { w.(bridge := w.bridge - {memory}) }

  function Acknowledge(w: GlWorld, sequence: nat): GlWorld {
    w.(leases := w.leases - {sequence}, released := w.released + {sequence})
  }

  // ---- Slot operations ----

  predicate Allocated(s: Slot) { s.fd >= 3 && s.memory != 0 && s.buffer != 0 }

  predicate Available(s: Slot) {
    Allocated(s) && !s.failed && s.sync == 0 && s.source.None? && s.exportSequence.None?
  }

  function ReleaseExport(s: Slot, sequence: nat): Slot {
    if s.exportSequence != Some(sequence) then s
    else if s.sync == 0 then s.(exportSequence := None, exportReleased := false)
    else s.(exportReleased := true)
  }

  function DiscardRetiredCopy(s: Slot): (Slot, bool) {
    if s.sync != 0 || s.copyPending then (s, false)
    else
      var dropped := s.source.Some?;
      var s1 := if dropped then s.(source := None, timestamp := 0) else s;
      (if s1.exportReleased then s1.(exportSequence := None, exportReleased := false) else s1, dropped)
  }

  /** What the driver reports: never that work still in flight has finished. */
  function FenceStatus(w: GlWorld, memory: nat, poll: Poll): FenceAnswer {
    if poll.fence == Signaled && memory in w.work then Waiting else poll.fence
  }

  /** Nor that a bridge copy still in flight is ready. */
  function BridgeStatus(w: GlWorld, memory: nat, poll: Poll): Completion {
    if poll.bridge == Ready && memory in w.bridge then Pending else poll.bridge
  }

  /** Poll the copy without waiting. A bridge failure detaches the slot. */
  function CopyReady(w: GlWorld, s: Slot, poll: Poll): (GlWorld, Slot, bool) {
    var status := FenceStatus(w, s.memory, poll);
    if s.failed then (w, s, false)
    else if s.sync != 0 && status == Waiting then (w, s, false)
    else if s.sync != 0 && status == WaitFailed then (w, s.(failed := true, source := None, timestamp := 0), false)
    else
      var s1 := s.(sync := 0);
      var bridge := BridgeStatus(w, s.memory, poll);
      if s1.copyPending && bridge == Pending then (w, s1, false)
      else if s1.copyPending && bridge == Failed then (DetachSlot(w, s1), IDLE, false)
      else (w, s1.(copyPending := false), s1.source.Some?)
  }

  function Completed(w: GlWorld, s: Slot, poll: Poll): (GlWorld, Slot, bool) {
    if s.failed then (w, s, false)
    else
      var (w1, s1, ready) := if s.sync != 0 || s.copyPending then CopyReady(w, s, poll) else (w, s, true);
      if !ready then (w1, s1, false)
      else
        var s2 := if s1.exportReleased then s1.(exportSequence := None, exportReleased := false) else s1;
        (w1, s2, s2.source.None? && s2.exportSequence.None?)
  }

  function PrepareCopy(w: GlWorld, s: Slot, rearm: Completion): (GlWorld, Slot, bool) {
    match rearm
    case Pending => (w, s, false)
    case Failed => (DeleteSlot(w, s), IDLE, false)
    case Ready => (w, if s.semaphores then s.(failed := true) else s, true)
  }

  function StartCopy(w: GlWorld, s: Slot, source: SourceCandidate, timestamp: nat, rearm: Completion,
                     outcome: CopyOutcome): (GlWorld, Slot, bool)
  {
    var (w1, s1, prepared) := PrepareCopy(w, s, rearm);
    if !prepared || outcome == EarlyError then (w1, s1, false)
    else if outcome == FenceMissing || outcome.sync == 0 then (BeginCopy(w1, s1, false), s1, false)
    else (BeginCopy(w1, s1, true),
          s1.(failed := false, copyPending := s1.native != 0, source := Some(source), timestamp := timestamp,
              sync := outcome.sync), true)
  }

  // ---- Phases ----

  datatype Phase = Unallocated | Free | Copying | Exported | Quarantined

  predicate InPhase(s: Slot, phase: Phase) {
    match phase
    case Unallocated => !Allocated(s)
    case Free => Available(s)
    case Copying => Allocated(s) && !s.failed && s.source.Some?
    case Exported => Allocated(s) && !s.failed && s.exportSequence.Some?
    case Quarantined => Allocated(s) && s.failed
  }

  /** What every operation keeps of a slot's flags. */
  predicate SlotOk(s: Slot) {
    && !s.exportReleased
    && (s.copyPending ==> s.source.Some? || s.failed)
    && (s.copyPending ==> s.native != 0)
    && (s.sync != 0 ==> s.source.Some? || s.failed)
    && (s.failed ==> s.source.None? && s.exportSequence.None?)
    && (s.exportSequence.Some? ==> s.sync == 0 && !s.copyPending && s.source.None?)
    && (!Allocated(s) ==> s == IDLE)
    && (s.semaphores <==> s.native != 0)
  }

  /** A slot is in exactly one phase, and a release never has to wait for a fence: it
      makes the exported slot free at once. */
  lemma ExactlyOnePhase(s: Slot, sequence: nat)
    requires SlotOk(s)
    ensures exists phase :: InPhase(s, phase)
    ensures forall p, q :: InPhase(s, p) && InPhase(s, q) ==> p == q
    ensures s.exportSequence == Some(sequence) ==> InPhase(s, Exported) && InPhase(ReleaseExport(s, sequence), Free)
  {
    var phase := if !Allocated(s) then Unallocated else if s.failed then Quarantined
                 else if s.source.Some? then Copying else if s.exportSequence.Some? then Exported else Free;
    assert InPhase(s, phase);
  }

  /** Starting a copy can leave GPU work behind in a slot that looks free exactly when the
      fence could not be created and no bridge semaphore quarantines the slot. */
  lemma UnfencedWorkInFreeSlot(w: GlWorld, s: Slot, source: SourceCandidate, timestamp: nat, rearm: Completion,
                               outcome: CopyOutcome)
    requires SlotOk(s) && Available(s) && s.memory !in w.unfenced
    ensures var (w', s', started) := StartCopy(w, s, source, timestamp, rearm, outcome);
            (Available(s') && s.memory in w'.unfenced)
            <==> (rearm == Ready && (outcome == FenceMissing || (outcome.Started? && outcome.sync == 0)) && !s.semaphores)
  {
  }
}

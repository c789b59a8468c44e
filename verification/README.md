# Verified model of the Redunar capture hand-off

Redunar records games by copying presented frames inside the game process and passing the
buffers to a daemon. This project models the parts where that can go wrong and proves what
they promise. `dafny verify dfyconfig.toml` checks every proof.

## What is modelled

**Vulkan hand-off** (`ReplayWorld`, `ReplayState`, `ReplayMachine`, `ReplayInvariant` and the
`Replay*` proof modules, `ReplayCopy`). A route copies the images of one swapchain into
exported buffers. Every entry point that runs under the state lock is one atomic step, and a
busy lock is a step that changes nothing. A world beside the producer's state holds fences,
buffer ownership, semaphore waits, acquired images, daemon leases and forwarded presents. It
records a fault whenever a call breaks a rule: copying into a leased buffer, reusing an
unsignalled fence, signalling a semaphore whose wait was not consumed, mismatching queue-family
ownership, exporting out of order, destroying something in use or twice, leaking. The main
theorem says that no run of allowed steps records any fault. `ReplayCopy.CaptureState` is the
producer in its own form, an object whose methods update its fields and are each proved equal
to the modelled step.

What the surroundings promise is in `ReplayMachine.Allowed`: only acquired images are
presented, existing routes have no work in flight at idle proofs and when their device is
destroyed, a new swapchain gets a handle that no retained route uses, the clock is positive and
far from the end of 64-bit time, and the daemon acknowledges only what it holds.

`ReplayProgress`, `ReplayTurns`, `ReplayReclaim`, `ReplayRetirement` and `ReplayFirstFrame` say
that the producer also gets somewhere: no reachable state is stuck behind an open gate, a daemon
that keeps four buffers goes on receiving frames, replacements take over, a retired route can go
exactly when its presentations are confirmed, and the rules above leave room for runs that take
frames to the daemon. `ReplayPacing` says how often every run captures, `ReplayAdmission` which
devices, queues and swapchains decide about the recording, and `ReplayFailures` what failing driver
calls and failed presents leave behind. `ReplayAssessment` is about what the daemon hears of the
source.

**OpenGL hand-off** (`GlSlots`, `GlPools`, `GlInvariant`, `GlPublication`, `GlSafety`, `GlRuns`,
`GlProgress`, `GlPacing`, `GlAccounts`, `GlEffects`, `GlOrder`, `GlReversal`, `GlReplay`). Pools of slots, their
polls, publication, retirement and captures, with the same kind of world and monitors. The native
bridge and the driver are answers given to each call; they may answer anything except that unfinished
work has finished. `GlPacing` says how often every run captures, `GlAccounts` what becomes of each copy, and
`GlEffects` what the entry points change and leave alone. `GlReplay.ReplayExport` is the object form, with the loops over the slots and
the pool vector.

**Cadence** (`Cadence`, `CadenceRuns`, `Pacing`). Deadlines and timestamps in saturating 64-bit
arithmetic, their consequences over whole runs, and the pace of a list of capture times, said without
deadlines. The two worlds list the capture times that the runs of both producers are held to.

**Release tokens** (`ReleaseTokens`), **wire protocol** (`Bytes`, `Wire`, `WireProofs`,
`WireEncoders`, `WireRules`), **batching** (`Batching`, `BatchLatency`), **registry scanner**
(`Registry`, `RegistryEnvelope`), **frame history** (`FrameHistory`, `FrameMetrics`) and **source
admission** (`Transfer`).
`Wrappers`, `Messages` and `Subsequences` are shared definitions.

## What the proofs found

- A retired route whose last presentation was not confirmed before its swapchain was destroyed
  can never be confirmed afterwards: images are not acquired from a destroyed swapchain. Such routes
  are reachable by recording one present (`ReplayRetirement.WaitingRouteIsReachable`), and a retired
  route can be destroyed before its device exactly when no presentation is outstanding
  (`ReplayRetirement.GoesUnlessPresenting`). Only a reissued handle could confirm it, and then the
  confirmation would be wrong (`ReplayRetention.ReusedHandleDestroysWaitingRoute`).
- One failed present, or one refused submission, costs its route for good: the given-up semaphore can
  no longer be confirmed, so the route keeps its buffers until its device ends
  (`ReplayFailures.SpoiledImageKeepsRoute`), and a failed present also ends the captures of every route
  that exists (`ReplayFailures.FailedPresentEndsCaptures`).
- Five contexts never get stuck, but a daemon that keeps its full depth of four receives only every
  second due frame from them; six or more contexts give it every frame
  (`ReplayTurns.FiveContextsAlternate`, `ReplayTurns.RecordingNeverStalls`). Fixed-rate swapchains of
  up to four images on other vendors than NVIDIA get five.
- Queue-family ownership pairs on reuse exactly when the earlier capture time is not zero, so the
  code relies on a clock that never reads zero (`ReplayTheorems.ReusePairsIffStampNonzero`).
- OpenGL pools of other vendors than NVIDIA publish in slot order. A run from the start announces a
  newer frame before an older one (`GlReversal.IndexOrderReverses`); a pass is in time order exactly
  when the copies that leave are in time order by slot (`GlOrder.IndexOrderExactly`). Strictly
  increasing announcements in every run are therefore proved for NVIDIA pools.
- When the fence of an OpenGL copy cannot be created and the slot has no bridge semaphore, the slot
  looks free while its copy may still run (`GlSlots.UnfencedWorkInFreeSlot` says exactly when).
  The monitors of the OpenGL world track fenced work of every slot, native bridge copies, and
  unfenced work of bridge slots.
- The failure paths of OpenGL captures are meant to count a drop each. A copy whose fence wait fails while
  its pool, without the bridge, is being published is neither exported nor counted as dropped
  (`GlAccounts.IndexLosesFailedFences`). The counters are exact while no poll fails
  (`GlAccounts.EveryCopyIsAccounted`).
- The decoder of hello messages ignores three reserved bytes, so a hello is the one message whose
  bytes are not canonical (`WireProofs.HelloCanonicalUnlessPadded`).
- Three admission checks never decide: launch values never ask for a fixed 120 frames per second, so
  the full-HD limit is not reached, and the pixel limit keeps every source below both macroblock
  limits (`Transfer.SupportedMacroblocks`, `Transfer.AdmittedExactly`).

## Model

| member | source | states |
|---|---|---|
| ReplaySafety.EveryRunIsSafe | crates/redunar-capture-vulkan/src/replay_copy.rs:444-999 | In every run with busy locks (presents included), refused submissions, lost sends, stale and repeated acknowledgements and replaced swapchains, none of the fifteen monitored faults occurs: no copy into a leased buffer, no semaphore signalled before its wait was consumed, paired ownership transfers, exports in capture order with new sequences and rising timestamps, and no route destroyed twice, leaked, or destroyed in flight, with an outstanding presentation wait or with a live lease outside device destruction |
| ReplaySafety.StepKeeps | crates/redunar-capture-vulkan/src/replay_copy.rs:444-1138 | The invariant is kept by each of the thirteen kinds of step, and no step trips a monitor |
| ReplayTheorems.LeasedBuffersAreGuarded | crates/redunar-capture-vulkan/src/replay_copy.rs:489-524 | In every reachable state pending implies usable, usable without a pending copy implies a signalled fence, and a live lease is the current, unreleased sequence of a context without a copy in progress |
| ReplayTheorems.RoutesAreConserved | crates/redunar-capture-vulkan/src/replay_copy.rs:1033-1058 | Every created route is in exactly one of active, two retired slots or abandoned, or destroyed once; quarantine and leak are unreachable, abandoned excludes active, a swapchain waiting beside an active route replaces that route, and at most 3 routes with 24 contexts exist |
| ReplayTheorems.ExportedTimestampsIncrease | crates/redunar-capture-vulkan/src/replay_copy.rs:436-442 | Timestamps delivered to the daemon strictly increase over the whole process, across route replacement |
| ReplayTheorems.ReusePairsIffStampNonzero | crates/redunar-capture-vulkan/src/replay_copy.rs:1646-1690 | Recording an acquire from FOREIGN pairs with the previous release exactly when the previous capture time is not zero |
| ReplayPresentSteps.RecordedBarriersPair | crates/redunar-capture-vulkan/src/replay_copy.rs:1743-1934 | Executing the recorded barriers starts with the producer or, on reuse, FOREIGN as owner, never mismatches, and ends released to FOREIGN with the image back in its present layout |
| ReplayPresentSteps.SubmitIsSafe | crates/redunar-capture-vulkan/src/replay_copy.rs:1605-1691 | Submitting into the chosen context trips no monitor: its fence is signalled and reset, its buffer is not leased, its semaphore was reacquired |
| ReplayPresentSteps.CaptureKeeps | crates/redunar-capture-vulkan/src/replay_copy.rs:878-976 | Taking the oldest copy, submitting the next and announcing the taken one keeps the whole invariant |
| ReplayPresentSteps.HandOffKeeps | crates/redunar-capture-vulkan/src/replay_copy.rs:978-999 | An announced copy becomes a lease or, if the send fails, is released locally; both keep the invariant |
| ReplaySlotLemmas.ReclaimableIsFree | crates/redunar-capture-vulkan/src/replay_copy.rs:1112-1119 | A route the reclaim test accepts has no work in flight, no outstanding presentation wait and no live lease |
| ReplaySlotLemmas.ReclaimKeeps | crates/redunar-capture-vulkan/src/replay_copy.rs:1085-1110 | Reclaiming retired routes keeps the invariant and destroys only free ones |
| ReplaySlotSteps.RetireKeeps | crates/redunar-capture-vulkan/src/replay_copy.rs:1033-1058 | Retiring the active route always finds a free slot |
| ReplaySlotSteps.DestroySwapchainKeeps | crates/redunar-capture-vulkan/src/replay_copy.rs:790-817 | Destroying a swapchain in any state keeps the invariant |
| ReplaySlotSteps.CreateSwapchainKeeps | crates/redunar-capture-vulkan/src/replay_copy.rs:673-788 | Creating or replacing a swapchain in any state keeps the invariant |
| ReplaySlotSteps.DestroyDeviceKeeps | crates/redunar-capture-vulkan/src/replay_copy.rs:819-876 | Destroying a device removes exactly its routes and keeps the invariant |
| ReplaySafety.ReleaseStepKeeps | crates/redunar-capture-vulkan/src/replay_copy.rs:489-516 | Applying an acknowledgement, stale or repeated ones included, keeps the invariant |
| ReplaySafety.AcquireStepKeeps | crates/redunar-capture-vulkan/src/replay_copy.rs:529-575 | Acquiring an image and confirming its presentation keeps the invariant; under the rules an acquisition never names the handle of a retired route |
| ReplaySafety.QueueIdleKeeps | crates/redunar-capture-vulkan/src/replay_copy.rs:1062-1083 | A queue-idle proof marks exactly the routes of that queue and keeps the invariant |
| ReplaySafety.DeviceIdleKeeps | crates/redunar-capture-vulkan/src/replay_copy.rs:1936-1956 | A device-idle proof keeps the invariant |
| ReplaySafety.ReturnKeeps | crates/redunar-capture-vulkan/src/replay_copy.rs:1013-1031 | A failed present latches the image or, under a busy lock, the whole route off, so that its semaphore is never signalled again |
| ReplayRetention.RetainedWaitsAreFinal | crates/redunar-capture-vulkan/src/replay_copy.rs:554-575 | A retired route with an outstanding presentation wait keeps it through every step short of its device's destruction |
| ReplayRetention.RetainedWaitsLast | crates/redunar-capture-vulkan/src/replay_copy.rs:554-575 | The same over whole runs |
| ReplayRetirement.GoesUnlessPresenting | crates/redunar-capture-vulkan/src/replay_copy.rs:1033-1119 | In every reachable state, some allowed continuation destroys a retired route while its device lives on if and only if no presentation of that route is outstanding |
| ReplayRetirement.PresentedCanGo | crates/redunar-capture-vulkan/src/replay_copy.rs:1062-1119 | A retired route with all presentations confirmed is destroyed by finishing the GPU, waiting for the device and returning its sequences one by one, from any state the invariant describes |
| ReplayRetirement.WaitingRouteIsReachable | crates/redunar-capture-vulkan/src/replay_copy.rs:790-817 | For every device, source, image and clock: one recorded present and the destruction of its swapchain lead to a retired route that nothing short of its device's destruction destroys |
| ReplayRetention.LastConfirmationReclaims | crates/redunar-capture-vulkan/src/replay_copy.rs:529-575 | Only when the driver reissues the handle of a retired route: the acquisition of the new swapchain's image reclaims the old route if that confirmation was the last proof |
| ReplayRetention.ReusedHandleDestroysWaitingRoute | crates/redunar-capture-vulkan/src/replay_copy.rs:564-575 | If a retained route's handle is reissued, an acquisition of the new swapchain destroys the old route while its wait is outstanding |
| ReplayOrder.AheadIsKept | crates/redunar-capture-vulkan/src/replay_copy.rs:399-442 | A fixed-rate route ahead of the last export stays ahead, and whatever it exports carries the cadence's own timestamp: the monotonic bump changes nothing |
| ReplayOrder.FirstCaptureStartsAhead | crates/redunar-capture-vulkan/src/replay_copy.rs:929-976 | A fixed-rate route whose first capture is later than the last export starts ahead |
| ReplayOrder.AheadLasts | crates/redunar-capture-vulkan/src/replay_copy.rs:399-442 | Over every run in which the route remains active, the exported timestamps are exactly the capture times of the copies taken, in order: the bump never alters one |
| ReplayOrder.CadenceStampsAreExported | crates/redunar-capture-vulkan/src/replay_copy.rs:399-442 | The same from the first capture of a fixed-rate route on, when that capture is later than the last export |
| ReplayOrder.TakeOrder | crates/redunar-capture-vulkan/src/replay_copy.rs:1693-1736 | Taking the oldest pending copy leaves only strictly newer ones, whatever the order of the contexts |
| ReplayProgress.NoLeaseIsLost | crates/redunar-capture-vulkan/src/replay_copy.rs:978-999 | A context that waits for an acknowledgement is leased by the daemon or its acknowledgement is on the way |
| ReplayProgress.NoReachableStateIsStuck | crates/redunar-capture-vulkan/src/replay_copy.rs:1605-1727 | In every reachable state with finished GPU work and applied acknowledgements, while the daemon keeps at most its pipeline depth, the step of an allowed due present submits a copy or delivers one if and only if the gate is open: no latched uncertainty, no unsent assessment, not disabled, source not rejected |
| ReplayProgress.MovesUnlessAllHeld | crates/redunar-capture-vulkan/src/replay_copy.rs:1605-1727 | Whatever the number of contexts, a due present on a settled route submits or delivers a copy if and only if the daemon does not hold every context |
| ReplayProgress.SomeContextIsNotHeld | crates/redunar-capture/src/lib.rs:39-43 | A daemon holding at most its pipeline depth cannot hold every context of a route |
| ReplayPoolSize.AllHeldIsStuck | crates/redunar-capture-vulkan/src/replay_copy.rs:878-976 | When the daemon holds every context, presents, their returns, acquisitions and GPU completions leave contexts, leases and exports as they are, whatever the driver answers |
| ReplayPoolSize.SmallPoolCanBeHeldWhole | crates/redunar-capture/src/lib.rs:39-43 | For every pool size up to the pipeline depth, four included, there is a settled state in which a daemon within its depth holds every context |
| ReplayTurns.RoundServes | crates/redunar-capture-vulkan/src/replay_copy.rs:878-999 | Every turn of a producer in service (copy finishes, acquire, due present, return, the daemon gives its oldest buffer back when a fifth arrives) is allowed, delivers the pending copy if there is one, leaves at most four buffers held, and leaves a copy pending exactly unless the delivery filled the pool |
| ReplayTurns.NextTurnFits | crates/redunar-capture-vulkan/src/replay_copy.rs:929-976 | In every state in service a next turn exists at any clock reading from the capture deadline on, while clock and timestamps are in range |
| ReplayTurns.RecordingGoesOn | crates/redunar-capture-vulkan/src/replay_copy.rs:878-999 | Over any number of such turns the daemon receives at least every second frame, and with more than five contexts every frame after the first |
| ReplayTurns.FiveContextsAlternate | crates/redunar-capture-vulkan/src/replay_copy.rs:1313-1334 | With five contexts the number of delivered frames is exact from any state in service: one a turn until four buffers are held, then every second one |
| ReplayTurns.RecordingNeverStalls | crates/redunar-capture-vulkan/src/replay_copy.rs:444-999 | From the start of the process, for every device, swapchain and source, any such turns form an allowed run with at most four buffers held after each: more than five contexts deliver every frame after the first, five deliver the first four and then every second one |
| ReplayPoolSize.ContextCountExceedsDepth | crates/redunar-capture-vulkan/src/replay_copy.rs:1313-1334 | Every swapchain of 1 to 8 images gets more contexts than the pipeline is deep and at most eight |
| ReplayFirstFrame.FirstFrameReachesDaemon | crates/redunar-capture-vulkan/src/replay_copy.rs:444-999 | From the start, for every device, swapchain, source, image and clock, an allowed run exists that takes the first frame to the daemon: the rules are not empty |
| ReplayReclaim.LastIdleReclaims | crates/redunar-capture-vulkan/src/replay_copy.rs:1062-1119 | A retired route that only lacks the idle proof is destroyed when that proof arrives |
| ReplayReclaim.LastAcknowledgementReclaims | crates/redunar-capture-vulkan/src/replay_copy.rs:489-516 | A retired route that only lacks one acknowledgement is destroyed when it arrives |
| ReplayReclaim.MissingProofKeeps | crates/redunar-capture-vulkan/src/replay_copy.rs:1085-1119 | A retired route that lacks any one proof stays |
| ReplayReclaim.ReplacementTakesOver | crates/redunar-capture-vulkan/src/replay_copy.rs:790-817 | Destroying a recorded swapchain hands over to its waiting replacement and retains the old route |
| ReplayReclaim.OverflowRecovers | crates/redunar-capture-vulkan/src/replay_copy.rs:1121-1138 | After an overflow, the proof that frees the overflow route puts the waiting swapchain into service |
| ReplayAdmission.QueueIsFirstGraphics | crates/redunar-capture-vulkan/src/replay_copy.rs:444-667 | In every run a known device is the one last registered under its name with graphics families, and its queue is the first unprotected queue of one of those families below 64 seen since, or none |
| ReplayAdmission.AtMostTwoDevices | crates/redunar-capture-vulkan/src/replay_copy.rs:444-485 | No run registers a third device |
| ReplayAdmission.OtherSwapchainsRest | crates/redunar-capture-vulkan/src/replay_copy.rs:253-265 | A new swapchain that neither replaces the recorded, the waiting or the replaced one, nor is the first, changes nothing, whatever is wrong with it |
| ReplayAdmission.ObjectionsStopRecording | crates/redunar-capture-vulkan/src/replay_copy.rs:673-739 | A deciding swapchain with shared presentation, a refused source, a device that cannot export or a failing setup stops the recording for just that reason and changes nothing else |
| ReplayAdmission.SuccessorWaits | crates/redunar-capture-vulkan/src/replay_copy.rs:740-763 | While a swapchain is recorded, its accepted successor waits for it, replacing an earlier one, and nothing else changes |
| ReplayAdmission.FirstIsRecordedOrWaits | crates/redunar-capture-vulkan/src/replay_copy.rs:740-788 | While nothing is recorded, an accepted swapchain of a known device is recorded at once, waits for its queue or for retention, or is refused when its own setup fails |
| ReplayAdmission.NewestSuccessorWaits | crates/redunar-capture-vulkan/src/replay_copy.rs:673-788 | However long the line of replacements before the recorded swapchain is destroyed, the newest one waits for it and the recording goes on undisturbed |
| ReplayAdmission.LossIsReported | crates/redunar-capture-vulkan/src/replay_copy.rs:790-817 | Destroying the recorded swapchain either puts its successor on record or stops the recording and reports it |
| ReplayAdmission.RoomResumesWaiting | crates/redunar-capture-vulkan/src/replay_copy.rs:489-516 | Whatever proof leaves no overflow route behind puts the waiting swapchain on record: an acknowledgement and a device wait always, a queue wait for its own queue |
| ReplayAdmission.QueuePutsWaitingOnRecord | crates/redunar-capture-vulkan/src/replay_copy.rs:627-667 | Seeing a usable queue puts its device's waiting swapchain on record, unless one is recorded, retention is full, or it waits for another swapchain to go |
| ReplayAdmission.OtherQueuesResumeNothing | crates/redunar-capture-vulkan/src/replay_copy.rs:1062-1138 | Waiting for one queue puts no swapchain of another queue on record |
| ReplayAdmission.LastDeviceStartsOver | crates/redunar-capture-vulkan/src/replay_copy.rs:819-876 | After its last device a process is as at its start, but for its counters and a swapchain that waits for another device |
| ReplayAdmission.RouteFitsSwapchain | crates/redunar-capture-vulkan/src/replay_copy.rs:1313-1334 | A route is created exactly for one to eight images when the driver agrees and, for export, device and buffers allow it; it has one context more than images, at least five, at least eight at the variable rate or on NVIDIA, at most eight, all unused |
| ReplayFailures.SubmissionOutcome | crates/redunar-capture-vulkan/src/replay_copy.rs:1605-1691 | A copy goes into the first free context; it is under way exactly when every driver call succeeded, otherwise that context is given up, and a refused submission also gives up the semaphore of its image; nothing else changes |
| ReplayFailures.NothingSubmitted | crates/redunar-capture-vulkan/src/replay_copy.rs:1605-1640 | Without a free context or a usable semaphore nothing is called and nothing changes |
| ReplayFailures.AnnouncementOutcome | crates/redunar-capture-vulkan/src/replay_copy.rs:978-999 | An announced copy, or one not for export, moves the newest timestamp to its own or by one; the announced one is leased under its sequence; a failed send frees exactly the buffers under the sequence in every route and moves no timestamp |
| ReplayFailures.FailedPresentEndsCaptures | crates/redunar-capture-vulkan/src/replay_copy.rs:1013-1031 | After a failed present that was to wait for a copy, no route that exists captures anything in any continuation, even when the lock was busy |
| ReplayFailures.SpoiledImageKeepsRoute | crates/redunar-capture-vulkan/src/replay_copy.rs:529-575 | Once an image's wait is outstanding and its semaphore given up, no continuation destroys the route before its device: acknowledgements, idle waits and acquisitions do not help |
| ReplayFailures.FailureSpoils | crates/redunar-capture-vulkan/src/replay_copy.rs:1013-1031 | A failed present whose lock is free puts its route into that state |
| ReplayCopy.ReleaseRouteSequence | crates/redunar-capture-vulkan/src/replay_copy.rs:518-524 | The release loop marks exactly the contexts carrying the sequence |
| ReplayCopy.CaptureState.constructor | crates/redunar-capture-vulkan/src/replay_copy.rs:226-243 | The initial state satisfies the invariant |
| ReplayCopy.CaptureState.Report | crates/redunar-capture-vulkan/src/replay_copy.rs:267-274 | Replaces the waiting assessment and tries to send it |
| ReplayCopy.CaptureState.FlushReport | crates/redunar-capture-vulkan/src/replay_copy.rs:275-287 | Sends the waiting assessment or keeps it for the next attempt |
| ReplayCopy.CaptureState.Install | crates/redunar-capture-vulkan/src/replay_copy.rs:577-607 | Installs a route exactly when no route, overflow route or disabling flag forbids it |
| ReplayCopy.CaptureState.Retain | crates/redunar-capture-vulkan/src/replay_copy.rs:1033-1058 | A retired route takes the first free slot, else the overflow slots, else is leaked |
| ReplayCopy.CaptureState.Reclaim | crates/redunar-capture-vulkan/src/replay_copy.rs:1085-1110 | Destroys exactly the reclaimable retired routes, in slot order |
| ReplayCopy.CaptureState.ResumeOn | crates/redunar-capture-vulkan/src/replay_copy.rs:1121-1138 | Resumes a waiting swapchain only on the synchronised queue |
| ReplayCopy.CaptureState.DeviceCreated | crates/redunar-capture-vulkan/src/replay_copy.rs:444-485 | Registers at most two devices |
| ReplayCopy.CaptureState.QueueObserved | crates/redunar-capture-vulkan/src/replay_copy.rs:627-667 | Takes the first graphics queue and installs a waiting route |
| ReplayCopy.CaptureState.SwapchainCreated | crates/redunar-capture-vulkan/src/replay_copy.rs:673-788 | Admission, replacement and rejection of a new swapchain, keeping the invariant |
| ReplayCopy.CaptureState.SwapchainDestroyed | crates/redunar-capture-vulkan/src/replay_copy.rs:790-817 | Retires the active route and resumes a waiting one |
| ReplayCopy.CaptureState.DeviceDestroyed | crates/redunar-capture-vulkan/src/replay_copy.rs:819-876 | Destroys every route of the device once |
| ReplayCopy.CaptureState.ReleaseSequence | crates/redunar-capture-vulkan/src/replay_copy.rs:489-516 | Applies an acknowledgement to all routes, then reclaims; a busy lock changes nothing |
| ReplayCopy.CaptureState.ImageAcquired | crates/redunar-capture-vulkan/src/replay_copy.rs:529-552 | Confirms the acquired image's wait on the active and the retained routes |
| ReplayCopy.CaptureState.QueueIdle | crates/redunar-capture-vulkan/src/replay_copy.rs:1062-1083 | Marks the queue's routes idle, reclaims, resumes |
| ReplayCopy.CaptureState.DeviceIdle | crates/redunar-capture-vulkan/src/replay_copy.rs:1936-1956 | Marks the device's routes idle, reclaims, resumes |
| ReplayCopy.CaptureState.TakeCompletedCopy | crates/redunar-capture-vulkan/src/replay_copy.rs:1693-1727 | Takes the oldest pending copy only when its fence is signalled |
| ReplayCopy.CaptureState.SubmitNextCopy | crates/redunar-capture-vulkan/src/replay_copy.rs:1605-1691 | Submits into the first usable, idle, released context |
| ReplayCopy.CaptureState.CompleteCopyHandoff | crates/redunar-capture-vulkan/src/replay_copy.rs:978-999 | Announces a copy or restores its context |
| ReplayCopy.CaptureState.PreparePresent | crates/redunar-capture-vulkan/src/replay_copy.rs:878-976 | A whole intercepted present is exactly the modelled step, which keeps the invariant and, by ReplayPacing.PresentKeepsPace, submits at most one copy and none that the pace refuses |
| ReplayCopy.CaptureState.PresentReturned | crates/redunar-capture-vulkan/src/replay_copy.rs:1013-1031 | A failed present disables its image |
| ReplayAssessment.NewestIsHeardOrWaiting | crates/redunar-capture-vulkan/src/replay_copy.rs:267-287 | Over any sequence of reports and presents with any sends failing, the daemon hears assessments in the order raised, each at most once, and the newest is the last it heard or still waits |
| ReplayAssessment.SuccessfulSendCatchesUp | crates/redunar-capture-vulkan/src/replay_copy.rs:888-899 | The next present whose send succeeds brings the daemon to the newest assessment, a withdrawal for an uncertain presentation included |
| ReplayAssessment.LastReportDecides | crates/redunar-capture-vulkan/src/replay_copy.rs:267-274 | Recording is refused exactly when the last reported assessment was a rejection |
| CadenceRuns.VariableWindow | crates/redunar-capture-vulkan/src/replay_copy.rs:376-397 | A two-frame token bucket on its own: any n captures of a variable-rate run take at least n - 2 intervals, over every window, whether or not the frames dropped in between are charged. ReplayPacing.EveryRunIsPaced and GlPacing.EveryRunIsPaced say it of the producers |
| CadenceRuns.VariableThroughput | crates/redunar-capture-vulkan/src/replay_copy.rs:350-360 | Beyond a burst of two frames, captures stay within 2,073,600 macroblocks and 240 frames per second |
| CadenceRuns.FixedStampBounds | crates/redunar-capture-vulkan/src/replay_copy.rs:362-407 | Fixed-rate stamps are never ahead of the clock, less than one interval behind it, and the k-th is at least k intervals past the start |
| CadenceRuns.FixedWindow | crates/redunar-capture-opengl/src/replay_export.rs:549-590 | Fixed-rate stamps are at least one interval apart and n captures span more than n - 2 intervals, after arbitrary stalls |
| CadenceRuns.SlowVariableLosesNothing | crates/redunar-capture-vulkan/src/replay_copy.rs:376-397 | A variable-rate game no faster than the budget loses no frame |
| CadenceRuns.SlowFixedLosesNothing | crates/redunar-capture-opengl/src/replay_export.rs:549-574 | A game no faster than the fixed rate loses no frame |
| CadenceRuns.ProducersAgree | crates/redunar-capture-opengl/src/replay_export.rs:506-590 | On every supported source both producers admit the same presents, stamp them alike and advance alike; Pacing.IntervalIsQuotient and CadenceRuns.IntervalIsLeast say by how much |
| Pacing.IntervalIsQuotient | crates/redunar-capture-vulkan/src/replay_copy.rs:344-346 | At 30, 60 and 120 frames a second the capture interval is the whole number of nanoseconds that a second has room for that often, and no fewer |
| CadenceRuns.IntervalIsLeast | crates/redunar-capture-vulkan/src/replay_copy.rs:353-360 | Both producers space variable-rate captures by the least number of nanoseconds that pays for a frame's macroblocks at 2,073,600 a second and for 240 frames a second |
| Pacing.BucketAdmitsExactly | crates/redunar-capture-vulkan/src/replay_copy.rs:376-385 | A variable-rate present is due exactly when every window of the captures so far still has room for it |
| Pacing.CaptureIsPaced | crates/redunar-capture-vulkan/src/replay_copy.rs:362-434 | One more due capture keeps the pace of all before it, and the new deadline is what they call for |
| ReplayPacing.EveryRunIsPaced | crates/redunar-capture-vulkan/src/replay_copy.rs:929-958 | In every run, for every route: the i-th and the j-th submitted copy are at least j - i - 1 minimum intervals apart at the variable rate, and j - i times one second divided by the frame rate at a fixed rate |
| ReplayPacing.EncoderBudgetHolds | crates/redunar-capture-vulkan/src/replay_copy.rs:353-397 | Over every stretch of every run the captures of a variable-rate route of a supported source stay, beyond a burst of two, within 2,073,600 macroblocks and 240 frames a second |
| ReplayPacing.DueExactly | crates/redunar-capture-vulkan/src/replay_copy.rs:376-385 | An allowed present of at most eight swapchains and eight waits that names a known image of the recorded swapchain, by its first entry, on its queue is due if and only if the captures so far leave room for one more |
| ReplayPacing.PresentKeepsPace | crates/redunar-capture-vulkan/src/replay_copy.rs:878-976 | Every present records at most one capture, stamped with the clock at the variable rate and less than a frame behind it at a fixed rate; a present that the pace refuses changes no GPU state |
| ReplayPacing.AnnouncementDescribesCopy | crates/redunar-capture-vulkan/src/replay_copy.rs:1693-1736 | In every reachable state what is announced of a copy is the route's source, four bytes a pixel, its own context, descriptor and capture time, and one second divided by the frame rate as duration |
| GlRuns.EveryRunIsSafe | crates/redunar-capture-opengl/src/replay_export.rs:1266-1361 | In every run, with out-of-order completion of fences and bridge copies, failed fences, bridges, transfers and sends, busy locks, stale tokens and changing sources: no copy enters storage that is leased or has fenced or bridge work, captures delete storage only when that work is finished, only finished copies are announced, and NVIDIA pools announce in strictly increasing timestamp order. Unfenced work of slots without a bridge and the pools dropped at context destruction and session end are not monitored |
| GlRuns.EverySlotHasOnePhase | crates/redunar-capture-opengl/src/replay_export.rs:287-328 | In every reachable state each slot is in exactly one phase with no release owed, at most four pools exist, and leased or busy storage belongs to an exported or a copying (or quarantined) slot |
| GlRuns.RetriedTokenChangesNothing | crates/redunar-capture-opengl/src/replay_export.rs:1549-1561 | A token applied once changes nothing when applied again at any later time, because sequences are never reissued |
| GlRuns.StepKeeps | crates/redunar-capture-opengl/src/replay_export.rs:1266-1621 | Captures, tokens, context destruction, session end, completion of GL and bridge work and daemon releases keep the invariant and trip no monitor |
| GlProgress.FirstFrameLeaves | crates/redunar-capture-opengl/src/replay_export.rs:1266-1361 | From the start, for every source of every vendor and whatever fresh storage the driver hands out, the first present is copied and the present after its completion announces it as sequence 1 with its own time |
| GlProgress.EveryFinishedCopyLeaves | crates/redunar-capture-opengl/src/replay_export.rs:1199-1247 | One NVIDIA pass with a willing daemon announces exactly the finished copies, with consecutive sequences and oldest first, each slot waiting for its own sequence and leased under it, and drops none |
| GlProgress.DuePresentIsCopied | crates/redunar-capture-opengl/src/replay_export.rs:1331-1361 | A due present with an available slot and a cooperating driver starts a copy with a timestamp later than every earlier one and touches no other slot |
| GlProgress.RestingPoolGoes | crates/redunar-capture-opengl/src/replay_export.rs:1077-1109 | A stale pool at rest is removed by the next capture of its context |
| GlProgress.HeldPoolStays | crates/redunar-capture-opengl/src/replay_export.rs:1385-1390 | A stale pool stays while one of its exports is held or one of its slots is quarantined, whatever the driver answers |
| GlSlots.ExactlyOnePhase | crates/redunar-capture-opengl/src/replay_export.rs:287-310 | A slot is unallocated, free, copying, exported or quarantined and nothing else; releasing its export frees it at once |
| GlSlots.UnfencedWorkInFreeSlot | crates/redunar-capture-opengl/src/replay_export.rs:1488-1516 | Starting a copy leaves untracked work in a free-looking slot exactly when the fence could not be created and no bridge semaphore quarantines the slot |
| GlInvariant.CopyReadyFits | crates/redunar-capture-opengl/src/replay_export.rs:763-801 | A ready slot carries a finished copy; polling changes nothing outside the slot |
| GlInvariant.CompleteSlotsFit | crates/redunar-capture-opengl/src/replay_export.rs:1385-1390 | The completion check passes only when every slot is finished |
| GlInvariant.ReleaseSlotsIsSafe | crates/redunar-capture-opengl/src/replay_export.rs:985-1022 | Deleting finished slots touches nothing in use |
| GlPublication.PublishOldestFits | crates/redunar-capture-opengl/src/replay_export.rs:1175-1248 | Every NVIDIA publication pass, also unfinished, failed, unduplicated or unsent, keeps pending copies newer than the last publication |
| GlOrder.IndexOrderExactly | crates/redunar-capture-opengl/src/replay_export.rs:1199-1247 | A pool without the bridge announces strictly increasing timestamps above any bound, such as its newest announcement, if and only if the finished copies that leave are in time order by slot and newer than the bound |
| GlReversal.IndexOrderReverses | crates/redunar-capture-opengl/src/replay_export.rs:1199-1210 | For every such source and any three present times with the first and third an interval apart, a run from the start announces the first frame, then the third, then the second |
| GlPublication.StartCopyFits | crates/redunar-capture-opengl/src/replay_export.rs:1400-1516 | A copy starts only into storage without work and without a lease |
| GlPools.OldestPendingSlot | crates/redunar-capture-opengl/src/replay_export.rs:1252-1259 | The slot of a smallest pending timestamp, none exactly when nothing is pending |
| GlSafety.RetireStaleFits | crates/redunar-capture-opengl/src/replay_export.rs:1077-1109 | Retirement drains stale pools and removes only finished ones |
| GlReplay.PollCopy | crates/redunar-capture-opengl/src/replay_export.rs:763-801 | Polls one copy in place |
| GlReplay.CheckCompleted | crates/redunar-capture-opengl/src/replay_export.rs:805-817 | Completion of one slot |
| GlReplay.CopyInto | crates/redunar-capture-opengl/src/replay_export.rs:1400-1516 | Prepares and starts one copy |
| GlReplay.ReplayExport.PublishReadyExports | crates/redunar-capture-opengl/src/replay_export.rs:1175-1248 | The refill, poll and publication loops compute exactly one publication pass of the pool |
| GlReplay.ReplayExport.Publish | crates/redunar-capture-opengl/src/replay_export.rs:1199-1247 | One visit per slot, oldest first on NVIDIA pools, in slot order on others |
| GlReplay.ReplayExport.RetireStalePools | crates/redunar-capture-opengl/src/replay_export.rs:1077-1109 | The retirement loop with removal in the middle of the vector keeps exactly the unfinished pools |
| GlReplay.ReplayExport.RemoveContextPools | crates/redunar-capture-opengl/src/replay_export.rs:1578-1599 | The removal loop computes the list without the context, of which GlEffects.RemainingAreOthers says which pools it has, and counts the removed ones |
| GlReplay.ReplayExport.DestroyContext | crates/redunar-capture-opengl/src/replay_export.rs:1568-1576 | Keeps the invariant and is the step of GlEffects.ContextDropsItsPools |
| GlReplay.ReplayExport.Finish | crates/redunar-capture-opengl/src/replay_export.rs:1605-1621 | Session end clears pools and announcement unless the lock is busy |
| GlReplay.ReplayExport.ReleaseSequence | crates/redunar-capture-opengl/src/replay_export.rs:1549-1561 | Applies a token to every slot of every pool and keeps the invariant |
| GlReplay.ReplayExport.CapturePresented | crates/redunar-capture-opengl/src/replay_export.rs:1266-1361 | A whole capture keeps the invariant and trips no monitor |
| GlReplay.ReplayExport.PoolFor | crates/redunar-capture-opengl/src/replay_export.rs:1312-1323 | Finds the active pool or creates one within the budget |
| GlReplay.ReplayExport.StartDueCopy | crates/redunar-capture-opengl/src/replay_export.rs:1331-1361 | Charges the cadence before looking for a free slot |
| GlPacing.EveryRunIsPaced | crates/redunar-capture-opengl/src/replay_export.rs:1331-1361 | In every run of one launch mode, for every pool: the capture times charged to it are j - i - 1 minimum intervals apart at the variable rate, and j - i times one second divided by the frame rate at a fixed rate |
| GlPacing.StartDueExactly | crates/redunar-capture-opengl/src/replay_export.rs:1331-1361 | A due present is charged once, stamped with the clock or less than a frame behind it, and is due if and only if the pace of the charges so far allows it; otherwise nothing changes |
| GlPacing.UnchargedBeginsNothing | crates/redunar-capture-opengl/src/replay_export.rs:1331-1341 | What is not charged begins no GPU work |
| GlEffects.ContextDropsItsPools | crates/redunar-capture-opengl/src/replay_export.rs:1568-1599 | Destroying a context leaves exactly the pools of the other contexts, unchanged, in order and as often as before, and changes neither surroundings nor counters nor announcement; the null context drops nothing |
| GlEffects.RemainingAreOthers | crates/redunar-capture-opengl/src/replay_export.rs:1578-1599 | The same of any list of pools |
| GlEffects.SessionForgets | crates/redunar-capture-opengl/src/replay_export.rs:1605-1621 | The end of a session forgets every pool and the announcement and nothing else, unless the lock is busy |
| GlEffects.ReleaseFreesExactly | crates/redunar-capture-opengl/src/replay_export.rs:300-310 | An acknowledgement frees every slot exported under its sequence and leaves every other slot as it is |
| GlEffects.LivePoolsStay | crates/redunar-capture-opengl/src/replay_export.rs:1077-1109 | Retirement keeps every pool of another context and those of the presented source as they are |
| GlEffects.OtherPoolsRest | crates/redunar-capture-opengl/src/replay_export.rs:1175-1198 | Publication touches only the pools of the presented context and source |
| GlEffects.SourceIsAnnounced | crates/redunar-capture-opengl/src/replay_export.rs:1312-1328 | A presented source is the announced one as soon as it has a pool, and the announcement changes for no other reason in a present |
| GlEffects.PoolIsCreated | crates/redunar-capture-opengl/src/replay_export.rs:1312-1323 | A source without a pool gets one while fewer than four exist, of six slots or of eight with the bridge |
| GlEffects.PollFates | crates/redunar-capture-opengl/src/replay_export.rs:763-801 | A polled copy is ready exactly when its fence and its bridge have passed; a failed fence quarantines the slot without its copy, a failed bridge empties it, and otherwise the copy goes on waiting |
| GlEffects.StartFates | crates/redunar-capture-opengl/src/replay_export.rs:1400-1516 | A copy starts exactly when the bridge is rearmed and the copy gets a fence; a failed rearming empties the slot, a pending one changes nothing, and a missing fence quarantines a bridge slot |
| GlEffects.FirstLostIsRefilled | crates/redunar-capture-opengl/src/replay_export.rs:1180-1189 | The first slot of a bridge pool that lost its storage gets fresh storage, and no other slot does |
| GlAccounts.EveryCopyIsAccounted | crates/redunar-capture-opengl/src/replay_export.rs:1262-1361 | In every run the exports and drops of a pool and its copies on their way never exceed the due presents charged to it, and are exactly that many as long as no poll of a copy fails, whatever else does: missing slots, failed bridges at rearming, missing fences, descriptors that cannot be duplicated and sends |
| GlAccounts.IndexLosesFailedFences | crates/redunar-capture-opengl/src/replay_export.rs:1199-1247 | A publication pass over a pool without the bridge loses from its counters exactly the copies whose fence waits fail |
| GlAccounts.PollsBalance | crates/redunar-capture-opengl/src/replay_export.rs:1190-1197 | The polling loop of a bridge pool counts every copy that it loses |
| GlAccounts.PublicationBalance | crates/redunar-capture-opengl/src/replay_export.rs:1217-1247 | One publication moves one copy to the exports or to the drops and uses one sequence exactly when its descriptor could be duplicated |
| GlAccounts.ChargeBalance | crates/redunar-capture-opengl/src/replay_export.rs:1331-1361 | A due present is charged once, and its copy is under way or counted as dropped |
| ReleaseTokens.OpenGlTokensAreNeverLost | crates/redunar-capture-opengl/src/lib.rs:1129-1174 | Applied, then waiting, then unread tokens are exactly those that arrived, in order; at most eight wait, applied tokens were seen by both paths, and only the oldest waiting one may have been seen by a single path |
| ReleaseTokens.VulkanTokensAreNeverLost | crates/redunar-capture-vulkan/src/producer.rs:130-159 | The same between two device sessions with at most one waiting token |
| ReleaseTokens.FreePollAppliesTokens | crates/redunar-capture-opengl/src/lib.rs:1129-1174 | A poll that meets no busy lock applies everything that waited and everything unread, up to eight more |
| ReleaseTokens.FreeVulkanPollAppliesAll | crates/redunar-capture-vulkan/src/producer.rs:130-159 | A Vulkan poll that meets no busy lock applies everything that arrived |
| ReleaseTokens.OpenGlReleases.Apply | crates/redunar-capture-opengl/src/lib.rs:1159-1165 | Both paths are told; one busy path asks for a retry |
| ReleaseTokens.OpenGlReleases.DrainReleases | crates/redunar-capture-opengl/src/lib.rs:1167-1174 | Applies waiting tokens oldest first up to the first busy lock |
| ReleaseTokens.OpenGlReleases.PollReleases | crates/redunar-capture-opengl/src/lib.rs:1129-1157 | Drain, bounded receive and drain again, losing nothing |
| ReleaseTokens.VulkanReleases.PollReleases | crates/redunar-capture-vulkan/src/producer.rs:130-159 | Retry, then apply while reading, losing nothing |
| ReleaseTokens.VulkanReleases.Finish | crates/redunar-capture-vulkan/src/producer.rs:416-442 | The end of a session drops the waiting token with its socket |
| WireProofs.RoundTrip | crates/redunar-capture/src/lib.rs:374-549 | Every valid message of all ten kinds decodes from its encoding to itself, and the encoder accepts exactly the valid messages, which WireRules.EncodesExactlyInRange gives in numbers |
| WireProofs.AcceptedIsCanonical | crates/redunar-capture/src/lib.rs:631-877 | Every accepted byte string other than a hello is what the encoder writes for the decoded message |
| WireProofs.AcceptedExactlyEncodings | crates/redunar-capture/src/lib.rs:631-700 | The accepted byte strings other than hellos are exactly the encodings of valid messages |
| WireProofs.HelloCanonicalUnlessPadded | crates/redunar-capture/src/lib.rs:645-650 | A hello re-encodes to itself exactly when bytes 37 to 39 are zero; all other bytes are kept |
| WireProofs.DecodingIsInjective | crates/redunar-capture/src/lib.rs:631-700 | Two byte strings that decode to the same message other than a hello are equal |
| WireProofs.IdentityRoundTrip | crates/redunar-capture/src/gpu_identity.rs:57-79 | An identity field decodes to the identity it was written from |
| WireProofs.IdentityCanonical | crates/redunar-capture/src/gpu_identity.rs:66-79 | An accepted identity field is what the encoder writes |
| Wire.NewIdentity | crates/redunar-capture/src/gpu_identity.rs:22-39 | Succeeds exactly for a PCI vendor and two non-zero identifiers |
| Wire.DecodeHeader | crates/redunar-capture/src/lib.rs:702-732 | An accepted header matches the total length and carries a non-zero session |
| WireEncoders.EncodeMessage | crates/redunar-capture/src/lib.rs:374-549 | Filling the buffer in place writes exactly the encoding and leaves the rest, or reports the error and leaves the buffer untouched |
| WireEncoders.EncodeFrameBatch | crates/redunar-capture/src/lib.rs:588-623 | Writes the same bytes as encoding the corresponding message |
| WireEncoders.WriteIdentity | crates/redunar-capture/src/gpu_identity.rs:57-64 | Clearing then writing in place produces the identity field |
| WireEncoders.ReadBatchIntervals | crates/redunar-capture/src/lib.rs:752-758 | The decoder's loop reads every interval |
| WireRules.EncodesExactlyInRange | crates/redunar-capture/src/lib.rs:879-978 | A well-typed message encodes if and only if its values are in range: batches of 1 to 128 positive intervals, sources of supported size at 30, 60 or 120, copied bytes of four a pixel, and for frames descriptors from 3 to 1,000,000, strides up to 32,768, durations up to a second and an end within 64 bits |
| WireRules.DecodedIsInRange | crates/redunar-capture/src/lib.rs:631-877 | No accepted byte string carries a value outside those ranges |
| WireRules.AdmittedFramesEncode | crates/redunar-capture-vulkan/src/replay_transfer.rs:146-215 | Every frame of every admitted source can be announced, with a stride of four widths and the planned duration |
| WireRules.LittleEndian | crates/redunar-capture/src/lib.rs:1002-1012 | Numbers are read and written low byte first |
| WireRules.AcceptedLayout | crates/redunar-capture/src/lib.rs:702-877 | Every accepted byte string has magic, version 7, kind, length and session in its header and every field of every kind at its fixed offset with its fixed code |
| Batching.DaemonReadsWhatWasPresented | crates/redunar-capture-opengl/src/lib.rs:1108-1127 | With sends succeeding, decoding the flushed datagrams and appending the buffer gives exactly the presented (sequence, interval) pairs in order, fewer than 64 of them buffered; finishing delivers those too |
| Batching.LostSendsOnlyDelete | crates/redunar-capture-opengl/src/lib.rs:1420-1441 | Whatever sends fail, the daemon reads a subsequence of the presented pairs |
| Batching.ObservedIncreases | crates/redunar-capture-vulkan/src/producer.rs:117-128 | Recorded sequences strictly increase and no interval is zero, whatever the clock does |
| Batching.PushKeeps | crates/redunar-capture-opengl/src/lib.rs:1398-1418 | Every push leaves fewer than 64 contiguous intervals and adds exactly its pair, whatever gap precedes it |
| Batching.FlushKeeps | crates/redunar-capture-vulkan/src/producer.rs:395-414 | The encoder never refuses a buffered batch |
| Batching.BatchArrives | crates/redunar-capture/src/lib.rs:588-623 | A batch datagram decodes to the pairs of its batch |
| Batching.BatchProducer.FlushBatch | crates/redunar-capture-vulkan/src/producer.rs:395-414 | Encodes and sends the fixed array's filled part and empties it |
| Batching.BatchProducer.PushInterval | crates/redunar-capture-vulkan/src/producer.rs:374-393 | Flush at a gap, append, flush when full or late, keeping the buffer contiguous; BatchLatency says when exactly |
| Batching.BatchProducer.RecordPresentAt | crates/redunar-capture-vulkan/src/producer.rs:117-128 | Sequences advance even when the producer lock is busy |
| BatchLatency.PushSendsExactly | crates/redunar-capture-opengl/src/lib.rs:1398-1418 | A push sends its batch exactly when it is the 64th interval or, for OpenGL, 250 ms have passed since the last flush, and what was buffered exactly when the sequence has a gap; otherwise it only buffers |
| BatchLatency.WaitingBatchIsYoung | crates/redunar-capture-opengl/src/lib.rs:1398-1418 | After every present of every OpenGL run that reaches the producer, a batch that still waits is younger than 250 ms since the last flush, whatever the clock and the sends do |
| BatchLatency.OpenGlFramesWaitBriefly | crates/redunar-capture-opengl/src/lib.rs:1398-1418 | On a monotonic clock the presents whose intervals still wait lie within 250 ms of each other and are fewer than 64 |
| BatchLatency.VulkanBatchesAreFull | crates/redunar-capture-vulkan/src/producer.rs:374-393 | A Vulkan run without busy locks sends nothing but batches of 64 |
| Registry.ScannerAcceptsExactlyBalanced | crates/redunar-capture-audio/src/node.rs:269-313 | The scanner accepts exactly the texts whose braces balance outside strings and returns exactly their top-level objects, escapes and braces inside strings included |
| Registry.ScanInvertsPrinting | crates/redunar-capture-audio/src/node.rs:269-313 | Scanning any printed text returns its printed objects |
| Registry.ScanObjects | crates/redunar-capture-audio/src/node.rs:269-313 | The one-pass loop computes exactly that |
| RegistryEnvelope.EnvelopeAcceptsExactlyLists | crates/redunar-capture-audio/src/node.rs:120-145 | A bracketed body is accepted exactly when it is a comma-separated list of objects with optional whitespace, and with exactly those objects |
| RegistryEnvelope.CheckEnvelope | crates/redunar-capture-audio/src/node.rs:129-145 | The peeling loop computes exactly that |
| FrameHistory.LowsAreOrdered | crates/redunar-capture-opengl/src/overlay.rs:130-160 | 0.1% low is at most 1% low, which is at most the average, despite sorting, floors, max(1) and clamping |
| FrameHistory.PointOneIsSlowest | crates/redunar-capture-opengl/src/overlay.rs:2145-2150 | Within the ring's capacity the 0.1% low is the rate of the single slowest frame |
| FrameHistory.RotationSorts | crates/redunar-capture-opengl/src/overlay.rs:134-140 | The order in which the ring holds its values does not change sum or sorted order |
| FrameHistory.History.Push | crates/redunar-capture-opengl/src/overlay.rs:124-128 | The ring holds exactly the last min(n, 240) intervals |
| FrameHistory.History.Summarize | crates/redunar-capture-opengl/src/overlay.rs:130-160 | The metrics are those of the last 240 pushes, and the shown frame time is the newest one's |
| FrameMetrics.NumbersMeanWhatTheySay | crates/redunar-capture-opengl/src/overlay.rs:130-160 | The shown rate is the frames a second of the window, the shown time the newest interval in tenths of a millisecond, and the lows are the rates of just enough slowest frames to make up a hundredth and a thousandth of the window, all rounded down and at most 9,999 |
| FrameMetrics.SortPermutes | crates/redunar-capture-opengl/src/overlay.rs:138-140 | Sorting keeps every interval as often as it occurs |
| FrameMetrics.ShownAfter | crates/redunar-capture-opengl/src/overlay.rs:130-160 | After any pushes the overlay shows the rate of the last 240 and the time of the newest |
| Transfer.SupportedMacroblocks | crates/redunar-capture/src/lib.rs:31-38 | Within the axis and pixel limits a source has at most 32,940 macroblocks, so the separate macroblock limit excludes nothing |
| Transfer.AdmittedExactly | crates/redunar-capture-vulkan/src/replay_transfer.rs:146-215 | Under every launch configuration, fixed-rate or variable-rate, a source is admitted exactly when it is structurally sound, at least 320 by 180 and supported: the full-HD and throughput branches are never taken |
| Transfer.ProducersAdmitAlike | crates/redunar-capture-opengl/src/replay_export.rs:612-646 | OpenGL and Vulkan admit the same sizes at the same rates |
| Transfer.AdmittedIsEncodable | crates/redunar-capture-vulkan/src/replay_transfer.rs:146-215 | An admitted source can be announced and its copies reported on the wire, and its producer owns more buffers than the pipeline is deep; WireRules.AdmittedFramesEncode adds its exported frames |
| Transfer.CaptureRateFitsEncoder | crates/redunar-capture-vulkan/src/replay_transfer.rs:196-209 | Every admitted source fits the macroblock budget within the rounded interval between its captures, at the fixed and at the variable rate, and the planned frame interval is that interval |
| Transfer.FirstUnmetIsReported | crates/redunar-capture-vulkan/src/replay_transfer.rs:146-215 | A swapchain is planned exactly when it meets all six requirements, given in numbers, and is otherwise refused for the first it misses; the plan has its own size, the format with its Vulkan number, 60 frames a second and five buffers or up to 120 and eight |

## Left out

- Function loading, Vulkan, EGL, GLX and SDL hooks, image contents, checksums, and saving and
  restoring GL state: calls into code outside these files appear as answers of the driver.
- Objects are values inside their owner: a route, context, pool or slot is a record stored in the
  producer's field and replaced on update. The Rust producers own them without sharing, so there is
  no aliasing to capture; addresses and native handles are represented by identifiers.
- The answers to the assessment messages of one step share a single send outcome.
- Closing a swapchain or a device takes effect in the world at the start of the destroying call.
- With two devices, destroying the device of an abandoned route leaves the disabling flag set
  until the next reclaim. The invariant therefore only says that an abandoned route implies the
  flag, not the converse.
- GlRuns.EveryRunIsSafe: the order of announcements is claimed for NVIDIA pools only, and unfenced
  work is tracked for slots with bridge semaphores only, because the code does not promise more
  (see the findings above). Context destruction and session end drop pools without a monitor, since
  the GL objects end with the context; a slot detached after a bridge failure leaves its native side
  to the bridge's retire list, which is not modelled.
- GlReplay.ReplayExport.RemoveContextPools: closing descriptors and releasing native allocations of
  the removed slots is not modelled, since the slots are dropped in the same call.
- ReleaseTokens.OpenGlReleases.Apply: the diagnostic readback path keeps no lease of its own and is
  represented by the set of tokens it has seen.
- ReplayProgress.NoReachableStateIsStuck: no bound on wall-clock time is claimed; frames per turn are
  counted in ReplayTurns.
- ReplayTurns.RecordingGoesOn: the turns are those of a producer with one swapchain in service,
  nothing retired or waiting, and a driver whose calls succeed.
- GlPacing.EveryRunIsPaced: the launch mode is one for the whole run, as the environment variable is
  in a process, sources have a supported size and rate, as SDL, EGL and GLX viewports have after admission,
  and clocks stay below half of 64-bit time.
- GlAccounts.EveryCopyIsAccounted: the counters are unbounded here and saturate in the code, and they end
  with their pool.
- ReplayPacing.EncoderBudgetHolds: sources of supported size only; others are never admitted
  (Transfer.FirstUnmetIsReported).
- BatchLatency.VulkanBatchesAreFull: presents that meet a busy lock leave gaps, which send a shorter
  batch as BatchLatency.PushSendsExactly says.
- ReplayAssessment.NewestIsHeardOrWaiting: the sequence of reports and presents is arbitrary; which
  reports one entry point makes is in the modelled steps.
- Batching.BatchProducer.FlushBatch: the goodbye datagram of a finished session and reconnecting
  are not modelled; sequences stay below the end of 64-bit counting.
- FrameHistory.History.Summarize: the library's unstable in-place sort is represented by a sorted
  result; equal intervals are indistinguishable.
- RegistryEnvelope.CheckEnvelope: size limit, UTF-8 check, stripping of the outer brackets, and the
  property lookups that select microphones are not modelled.
- Wire: error texts are constructors of one type, in the order in which the code reports them.
- Session identifiers in hexadecimal, overlay and menu telemetry, overlay drawing, microphone and
  Opus processing, sockets, descriptors, environment variables and process spawning.

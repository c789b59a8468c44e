/** Capture-cadence arithmetic shared by the Vulkan and OpenGL producers, on saturating
    64-bit nanoseconds, and the theorems about whole capture runs. */
module Cadence {
  import opened Messages

  const NANOSECONDS_PER_SECOND: nat := 1_000_000_000
  const MAX_ENCODE_MACROBLOCKS_PER_SECOND: nat := 2_073_600
  const VFR_MAX_FRAMES_PER_SECOND: nat := 240
  const VFR_MIN_INTERVAL_NS: nat := DivCeil(NANOSECONDS_PER_SECOND, VFR_MAX_FRAMES_PER_SECOND)

  function Max(a: nat, b: nat): nat { if a < b then b else a }
  function SaturatingAdd(a: nat, b: nat): nat { if a + b > U64_MAX then U64_MAX else a + b }
  function SaturatingSub(a: nat, b: nat): nat { if a < b then 0 else a - b }
  function SaturatingMul(a: nat, b: nat): nat { if a * b > U64_MAX then U64_MAX else a * b }

  function FrameIntervalForFps(framesPerSecond: nat): nat
    requires framesPerSecond > 0
  {
    NANOSECONDS_PER_SECOND / framesPerSecond
  }

  function NextCaptureDeadline(deadline: nat, now: nat, interval: nat): nat {
    var scheduled := if deadline == 0 then now else deadline;
    var next := SaturatingAdd(scheduled, interval);
    if next <= now then SaturatingAdd(now, interval) else next
  }

  function AdvanceCaptureDeadline(variable: bool, deadline: nat, now: nat, interval: nat): nat {
    if variable then SaturatingAdd(Max(deadline, now), interval) else NextCaptureDeadline(deadline, now, interval)
  }

  function CapturePresentationTimestamp(deadline: nat, now: nat, interval: nat): nat {
    if deadline == 0 || SaturatingSub(now, deadline) >= interval then now else deadline
  }

  function MonotonicExportTimestamp(previous: nat, candidate: nat): nat {
    if candidate > previous then candidate else SaturatingAdd(previous, 1)
  }

  // ---- The two producers' own interval and admission functions ----

  function VulkanVariableInterval(width: nat, height: nat): nat {
    Max(VFR_MIN_INTERVAL_NS,
        DivCeil(SaturatingMul(NANOSECONDS_PER_SECOND, Macroblocks(width, height)), MAX_ENCODE_MACROBLOCKS_PER_SECOND))
  }

  function OpenGlVariableInterval(width: nat, height: nat): nat {
    Max(DivCeil(Macroblocks(width, height) * NANOSECONDS_PER_SECOND, MAX_ENCODE_MACROBLOCKS_PER_SECOND),
        VFR_MIN_INTERVAL_NS)
  }

  predicate VulkanCaptureDue(samplingRate: nat, deadline: nat, now: nat, interval: nat) {
    if samplingRate == 0 then SaturatingAdd(now, interval) >= deadline else deadline == 0 || now >= deadline
  }

  predicate OpenGlCaptureDue(variable: bool, width: nat, height: nat, deadline: nat, now: nat) {
    if variable then SaturatingAdd(now, OpenGlVariableInterval(width, height)) >= deadline else now >= deadline
  }

  /** The timestamp given to a captured frame and the interval its deadline advances by. */
  function VulkanCaptureTiming(samplingRate: nat, deadline: nat, now: nat, interval: nat): (nat, nat) {
    if samplingRate == 0 then (now, interval)
    else
      var fixed := FrameIntervalForFps(samplingRate);
      (CapturePresentationTimestamp(deadline, now, fixed), fixed)
  }

  function OpenGlCaptureTiming(variable: bool, source: SourceCandidate, deadline: nat, now: nat): (nat, nat)
    requires source.targetFramesPerSecond > 0
  {
    if variable then (now, OpenGlVariableInterval(source.width, source.height))
    else
      var fixed := FrameIntervalForFps(source.targetFramesPerSecond);
      (CapturePresentationTimestamp(deadline, now, fixed), fixed)
  }

  // ---- One fixed-rate capture ----

  /** A due fixed-rate capture is stamped no later than the clock and less than one interval
      behind it, never before its deadline, and the next deadline is one interval later. */
  lemma FixedCaptureStep(deadline: nat, now: nat, interval: nat)
    requires 0 < interval && deadline <= now && now + interval <= U64_MAX
    ensures var stamp := CapturePresentationTimestamp(deadline, now, interval);
            && deadline <= stamp <= now < stamp + interval
            && (0 < now ==> 0 < stamp)
            && NextCaptureDeadline(deadline, now, interval) == stamp + interval
  {
  }
}

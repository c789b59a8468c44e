/** Whole capture runs under the cadence arithmetic: a token bucket in variable mode, an
    exact grid with re-anchoring in fixed mode, and agreement of the two producers. */
module CadenceRuns {
  import opened Messages
  import opened Cadence

  /** One presentation: when it happened, and whether a due copy could be started. */
  datatype Attempt = Attempt(now: nat, started: bool)

  /** Clock readings never go back and stay clear of the end of the counter. */
  predicate ClockOk(attempts: seq<Attempt>, interval: nat) {
    && (forall i, j :: 0 <= i <= j < |attempts| ==> attempts[i].now <= attempts[j].now)
    && (forall i :: 0 <= i < |attempts| ==> attempts[i].now + 2 * interval <= U64_MAX)
  }

  lemma Multiple(k: nat, interval: nat)
    ensures (k + 1) * interval == k * interval + interval
  {
  }

  // ---- Variable rate ----

  /** Capture times of a variable-rate run. OpenGL charges every due attempt, even one that
      finds no free slot; Vulkan charges only copies that were submitted. */
  function VariableCaptures(attempts: seq<Attempt>, deadline: nat, interval: nat, chargeDrops: bool): seq<nat> {
    if attempts == [] then []
    else
      var a, rest := attempts[0], attempts[1..];
      var next := AdvanceCaptureDeadline(true, deadline, a.now, interval);
      if SaturatingAdd(a.now, interval) < deadline then VariableCaptures(rest, deadline, interval, chargeDrops)
      else if a.started then [a.now] + VariableCaptures(rest, next, interval, chargeDrops)
      else VariableCaptures(rest, if chargeDrops then next else deadline, interval, chargeDrops)
  }

  /** The k-th capture waits until the bucket has refilled k - 1 times. */
  lemma {:induction false} VariableRefill(attempts: seq<Attempt>, deadline: nat, interval: nat, chargeDrops: bool, k: nat)
    requires ClockOk(attempts, interval)
    requires k < |VariableCaptures(attempts, deadline, interval, chargeDrops)|
    ensures deadline + k * interval <= VariableCaptures(attempts, deadline, interval, chargeDrops)[k] + interval
    decreases |attempts|
  {
    var a, rest := attempts[0], attempts[1..];
    var next := AdvanceCaptureDeadline(true, deadline, a.now, interval);
    if SaturatingAdd(a.now, interval) < deadline {
      VariableRefill(rest, deadline, interval, chargeDrops, k);
    } else if a.started {
      if k > 0 {
        VariableRefill(rest, next, interval, chargeDrops, k - 1);
        Multiple(k - 1, interval);
      }
    } else {
      VariableRefill(rest, if chargeDrops then next else deadline, interval, chargeDrops, k);
    }
  }

  /** A two-frame token bucket: n captures take at least n - 2 intervals, over every window
      of the run, whatever is dropped in between. */
  lemma {:induction false} VariableWindow(attempts: seq<Attempt>, deadline: nat, interval: nat, chargeDrops: bool,
                                          i: nat, j: nat)
    requires ClockOk(attempts, interval)
    requires i < j < |VariableCaptures(attempts, deadline, interval, chargeDrops)|
    ensures var times := VariableCaptures(attempts, deadline, interval, chargeDrops);
            times[i] + (j - i - 1) * interval <= times[j]
    decreases |attempts|
  {
    var a, rest := attempts[0], attempts[1..];
    var next := AdvanceCaptureDeadline(true, deadline, a.now, interval);
    if SaturatingAdd(a.now, interval) < deadline {
      VariableWindow(rest, deadline, interval, chargeDrops, i, j);
    } else if a.started {
      if i > 0 {
        VariableWindow(rest, next, interval, chargeDrops, i - 1, j - 1);
      } else {
        VariableRefill(rest, next, interval, chargeDrops, j - 1);
      }
    } else {
      VariableWindow(rest, if chargeDrops then next else deadline, interval, chargeDrops, i, j);
    }
  }

  lemma DivCeilCovers(n: nat, d: nat)
    requires d > 0
    ensures n <= DivCeil(n, d) * d
  {
    var q, m := (n + d - 1) / d, (n + d - 1) % d;
    assert n + d - 1 == q * d + m;
  }

  /** The interval of a supported source pays for its macroblocks and for 240 frames a second. */
  lemma IntervalCoversBudget(width: nat, height: nat)
    requires SourceDimensionsSupported(width, height)
    ensures var interval := VulkanVariableInterval(width, height);
            && Macroblocks(width, height) * NANOSECONDS_PER_SECOND <= interval * MAX_ENCODE_MACROBLOCKS_PER_SECOND
            && NANOSECONDS_PER_SECOND <= interval * VFR_MAX_FRAMES_PER_SECOND
  {
    DivCeilCovers(NANOSECONDS_PER_SECOND * Macroblocks(width, height), MAX_ENCODE_MACROBLOCKS_PER_SECOND);
    DivCeilCovers(NANOSECONDS_PER_SECOND, VFR_MAX_FRAMES_PER_SECOND);
  }

  lemma DivCeilIsLeast(n: nat, d: nat, x: nat)
    requires d > 0
    ensures DivCeil(n, d) <= x <==> n <= x * d
  {
    var q, m := (n + d - 1) / d, (n + d - 1) % d;
    assert n + d - 1 == q * d + m;
    if q <= x {
      MulMonotone(d, q, x);
    } else {
      MulMonotone(d, x + 1, q);
    }
  }

  /** Both producers space variable-rate captures by the least number of nanoseconds that pays for a frame's
      macroblocks at 2,073,600 a second and for 240 frames a second. */
  lemma IntervalIsLeast(width: nat, height: nat, x: nat)
    requires SourceDimensionsSupported(width, height)
    ensures VulkanVariableInterval(width, height) == OpenGlVariableInterval(width, height)
    ensures VulkanVariableInterval(width, height) <= x
            <==> Macroblocks(width, height) * 1_000_000_000 <= x * 2_073_600 && 1_000_000_000 <= x * 240
  {
    DivCeilIsLeast(1_000_000_000 * Macroblocks(width, height), 2_073_600, x);
    DivCeilIsLeast(1_000_000_000, 240, x);
  }

  lemma ScaleBound(n: nat, cost: nat, interval: nat, rate: nat, elapsed: nat)
    requires cost <= interval * rate && n * interval <= elapsed
    ensures n * cost <= elapsed * rate
  {
    assert n * cost <= n * (interval * rate) == (n * interval) * rate <= elapsed * rate by {
      MulMonotone(n, cost, interval * rate);
      MulMonotone(rate, n * interval, elapsed);
    }
  }

  lemma MulMonotone(n: nat, a: nat, b: nat)
    requires a <= b
    ensures n * a <= n * b && a * n <= b * n
  {
  }

  lemma WindowBudget(first: nat, last: nat, n: nat, cost: nat, interval: nat, rate: nat)
    requires first + n * interval <= last && cost <= interval * rate
    ensures first <= last && n * cost <= (last - first) * rate
  {
    MulMonotone(n, 0, interval);
    ScaleBound(n, cost, interval, rate, last - first);
  }

  lemma VariableRate(attempts: seq<Attempt>, deadline: nat, interval: nat, chargeDrops: bool, i: nat, j: nat,
                     cost: nat, rate: nat)
    requires ClockOk(attempts, interval) && cost <= interval * rate
    requires i < j < |VariableCaptures(attempts, deadline, interval, chargeDrops)|
    ensures var times := VariableCaptures(attempts, deadline, interval, chargeDrops);
            times[i] <= times[j] && (j - i - 1) * cost <= (times[j] - times[i]) * rate
  {
    var times := VariableCaptures(attempts, deadline, interval, chargeDrops);
    VariableWindow(attempts, deadline, interval, chargeDrops, i, j);
    WindowBudget(times[i], times[j], j - i - 1, cost, interval, rate);
  }

  /** Sustained variable-rate capture stays within the encoder's macroblock throughput and
      within 240 frames per second, beyond a burst of two frames. */
  lemma VariableThroughput(attempts: seq<Attempt>, width: nat, height: nat, deadline: nat, chargeDrops: bool,
                           i: nat, j: nat)
    requires SourceDimensionsSupported(width, height)
    requires ClockOk(attempts, VulkanVariableInterval(width, height))
    requires i < j < |VariableCaptures(attempts, deadline, VulkanVariableInterval(width, height), chargeDrops)|
    ensures var times := VariableCaptures(attempts, deadline, VulkanVariableInterval(width, height), chargeDrops);
            && times[i] <= times[j]
            && (j - i - 1) * (Macroblocks(width, height) * NANOSECONDS_PER_SECOND)
               <= (times[j] - times[i]) * MAX_ENCODE_MACROBLOCKS_PER_SECOND
            && (j - i - 1) * NANOSECONDS_PER_SECOND <= (times[j] - times[i]) * VFR_MAX_FRAMES_PER_SECOND
  {
    var interval := VulkanVariableInterval(width, height);
    IntervalCoversBudget(width, height);
    VariableRate(attempts, deadline, interval, chargeDrops, i, j, Macroblocks(width, height) * NANOSECONDS_PER_SECOND,
                 MAX_ENCODE_MACROBLOCKS_PER_SECOND);
    VariableRate(attempts, deadline, interval, chargeDrops, i, j, NANOSECONDS_PER_SECOND, VFR_MAX_FRAMES_PER_SECOND);
  }

  // ---- Fixed rate ----

  datatype Capture = Capture(at: nat, stamp: nat)

  /** Captures of a fixed-rate run with their presentation timestamps. */
  function FixedCaptures(attempts: seq<Attempt>, deadline: nat, interval: nat, chargeDrops: bool): seq<Capture> {
    if attempts == [] then []
    else
      var a, rest := attempts[0], attempts[1..];
      var next := AdvanceCaptureDeadline(false, deadline, a.now, interval);
      if a.now < deadline then FixedCaptures(rest, deadline, interval, chargeDrops)
      else if a.started
      then [Capture(a.now, CapturePresentationTimestamp(deadline, a.now, interval))]
           + FixedCaptures(rest, next, interval, chargeDrops)
      else FixedCaptures(rest, if chargeDrops then next else deadline, interval, chargeDrops)
  }

  /** No fixed-rate capture is stamped ahead of the clock or a whole interval behind it, and
      the k-th stamp is at least k intervals past the deadline the run started with. */
  lemma {:induction false} FixedStampBounds(attempts: seq<Attempt>, deadline: nat, interval: nat, chargeDrops: bool,
                                            k: nat)
    requires ClockOk(attempts, interval) && 0 < interval
    requires k < |FixedCaptures(attempts, deadline, interval, chargeDrops)|
    ensures var c := FixedCaptures(attempts, deadline, interval, chargeDrops)[k];
            c.stamp <= c.at < c.stamp + interval && deadline + k * interval <= c.stamp
    decreases |attempts|
  {
    var a, rest := attempts[0], attempts[1..];
    if a.now < deadline {
      FixedStampBounds(rest, deadline, interval, chargeDrops, k);
    } else {
      FixedCaptureStep(deadline, a.now, interval);
      var next := AdvanceCaptureDeadline(false, deadline, a.now, interval);
      if a.started {
        if k > 0 {
          FixedStampBounds(rest, next, interval, chargeDrops, k - 1);
          Multiple(k - 1, interval);
        }
      } else {
        FixedStampBounds(rest, if chargeDrops then next else deadline, interval, chargeDrops, k);
      }
    }
  }

  /** Over whole fixed-rate runs, with arbitrary stalls and drops, stamps are at least one
      interval apart, and n captures span more than n - 2 intervals of clock time. */
  lemma {:induction false} FixedWindow(attempts: seq<Attempt>, deadline: nat, interval: nat, chargeDrops: bool,
                                       i: nat, j: nat)
    requires ClockOk(attempts, interval) && 0 < interval
    requires i < j < |FixedCaptures(attempts, deadline, interval, chargeDrops)|
    ensures var captures := FixedCaptures(attempts, deadline, interval, chargeDrops);
            && captures[i].stamp + (j - i) * interval <= captures[j].stamp
            && captures[i].at + (j - i - 1) * interval < captures[j].at
    decreases |attempts|
  {
    var a, rest := attempts[0], attempts[1..];
    if a.now < deadline {
      FixedWindow(rest, deadline, interval, chargeDrops, i, j);
    } else {
      FixedCaptureStep(deadline, a.now, interval);
      var next := AdvanceCaptureDeadline(false, deadline, a.now, interval);
      if !a.started {
        FixedWindow(rest, if chargeDrops then next else deadline, interval, chargeDrops, i, j);
      } else if i > 0 {
        FixedWindow(rest, next, interval, chargeDrops, i - 1, j - 1);
      } else {
        FixedStampBounds(rest, next, interval, chargeDrops, j - 1);
        Multiple(j - 1, interval);
      }
    }
  }

  // ---- The two producers ----

  /** On every supported source and rate, Vulkan and OpenGL admit the same presents, stamp
      them alike and advance by the same interval. */
  lemma ProducersAgree(source: SourceCandidate, variable: bool, deadline: nat, now: nat)
    requires CandidateValid(source)
    ensures var rate := if variable then 0 else source.targetFramesPerSecond;
            var interval := VulkanVariableInterval(source.width, source.height);
            && interval == OpenGlVariableInterval(source.width, source.height)
            && (VulkanCaptureDue(rate, deadline, now, interval)
                <==> OpenGlCaptureDue(variable, source.width, source.height, deadline, now))
            && VulkanCaptureTiming(rate, deadline, now, interval)
               == OpenGlCaptureTiming(variable, source, deadline, now)
  {
    assert Macroblocks(source.width, source.height) * NANOSECONDS_PER_SECOND
           <= MAX_SOURCE_MACROBLOCKS * NANOSECONDS_PER_SECOND <= U64_MAX;
  }

  // ---- Nothing is withheld from a slow enough game ----

  /** Presents at least one interval apart, each with a free slot. */
  predicate Regular(attempts: seq<Attempt>, interval: nat) {
    && (forall i :: 0 <= i < |attempts| ==> attempts[i].started)
    && forall i :: 0 <= i < |attempts| - 1 ==> attempts[i].now + interval <= attempts[i + 1].now
  }

  /** A variable-rate game no faster than the budget loses no frame. */
  lemma {:induction false} SlowVariableLosesNothing(attempts: seq<Attempt>, deadline: nat, interval: nat, chargeDrops: bool)
    requires ClockOk(attempts, interval) && Regular(attempts, interval)
    requires attempts != [] ==> deadline <= attempts[0].now + interval
    ensures |VariableCaptures(attempts, deadline, interval, chargeDrops)| == |attempts|
    decreases |attempts|
  {
    if attempts != [] {
      var next := AdvanceCaptureDeadline(true, deadline, attempts[0].now, interval);
      SlowVariableLosesNothing(attempts[1..], next, interval, chargeDrops);
    }
  }

  /** Nor does a fixed-rate game no faster than the rate. */
  lemma {:induction false} SlowFixedLosesNothing(attempts: seq<Attempt>, deadline: nat, interval: nat, chargeDrops: bool)
    requires ClockOk(attempts, interval) && Regular(attempts, interval) && 0 < interval
    requires attempts != [] ==> deadline <= attempts[0].now
    ensures |FixedCaptures(attempts, deadline, interval, chargeDrops)| == |attempts|
    decreases |attempts|
  {
    if attempts != [] {
      var next := AdvanceCaptureDeadline(false, deadline, attempts[0].now, interval);
      if 0 < attempts[0].now {
        FixedCaptureStep(deadline, attempts[0].now, interval);
      }
      SlowFixedLosesNothing(attempts[1..], next, interval, chargeDrops);
    }
  }
}

/** How often a producer may capture, said of the recorded capture times alone. */
module Pacing {
  import opened Messages
  import Cadence

  /** No interval of a source is longer; clocks below half of 64-bit time stay clear of its end. */
  const LONGEST_INTERVAL: nat := 10_000_000_000_000

  /** When a token bucket of two frames is full again after these captures. */
  function Refilled(captures: seq<nat>, interval: nat): nat {
    if captures == [] then 0
    else
      var n := |captures| - 1;
      var before := Refilled(captures[..n], interval);
      (if before < captures[n] then captures[n] else before) + interval
  }

  /** The first time of the next capture on a grid of `rate` captures a second. */
  function NextOnGrid(captures: seq<nat>, rate: nat): nat
    requires rate > 0
  {
    if captures == [] then 0 else captures[|captures| - 1] + 1_000_000_000 / rate
  }

  /** Each capture had a token, or was not ahead of the grid. Rate 0 is the variable rate. */
  predicate Permitted(captures: seq<nat>, rate: nat, interval: nat) {
    captures == [] ||
    var n := |captures| - 1;
    && Permitted(captures[..n], rate, interval)
    && if rate == 0 then Refilled(captures[..n], interval) <= captures[n] + interval
       else NextOnGrid(captures[..n], rate) <= captures[n]
  }

  /** The deadline is exactly what the captures so far call for. */
  predicate Paced(rate: nat, deadline: nat, interval: nat, captures: seq<nat>) {
    && interval <= LONGEST_INTERVAL
    && Permitted(captures, rate, interval)
    && deadline == if rate == 0 then Refilled(captures, interval) else NextOnGrid(captures, rate)
  }

  // ---- One capture ----

  /** At 30, 60 and 120 frames a second the interval is one second divided by the rate, rounded down. */
  lemma IntervalIsQuotient(framesPerSecond: nat)
    requires framesPerSecond in {30, 60, 120}
    ensures var interval := Cadence.FrameIntervalForFps(framesPerSecond);
            framesPerSecond * interval <= 1_000_000_000 < framesPerSecond * (interval + 1)
  {
  }

  lemma OneMoreCapture(captures: seq<nat>, stamp: nat, rate: nat, interval: nat)
    requires Permitted(captures, rate, interval)
    requires if rate == 0 then Refilled(captures, interval) <= stamp + interval else NextOnGrid(captures, rate) <= stamp
    ensures Permitted(captures + [stamp], rate, interval)
    ensures Refilled(captures + [stamp], interval)
            == (if Refilled(captures, interval) < stamp then stamp else Refilled(captures, interval)) + interval
    ensures rate > 0 ==> NextOnGrid(captures + [stamp], rate) == stamp + 1_000_000_000 / rate
  {
    assert (captures + [stamp])[..|captures|] == captures;
  }

  /** A due capture stays within the pace, and the deadline follows it. */
  lemma CaptureIsPaced(rate: nat, deadline: nat, interval: nat, captures: seq<nat>, now: nat)
    requires Paced(rate, deadline, interval, captures) && rate in {0, 30, 60, 120} && now <= U64_MAX / 2
    requires Cadence.VulkanCaptureDue(rate, deadline, now, interval)
    ensures var (stamp, step) := Cadence.VulkanCaptureTiming(rate, deadline, now, interval);
            && Paced(rate, Cadence.AdvanceCaptureDeadline(rate == 0, deadline, now, step), interval, captures + [stamp])
            && stamp <= now && (rate == 0 ==> stamp == now) && (rate > 0 ==> now < stamp + 1_000_000_000 / rate)
  {
    var (stamp, step) := Cadence.VulkanCaptureTiming(rate, deadline, now, interval);
    OneMoreCapture(captures, stamp, rate, interval);
    if rate > 0 {
      Cadence.FixedCaptureStep(deadline, now, step);
    }
  }

  // ---- What the pace means for any two captures ----

  lemma Times(k: nat, interval: nat)
    ensures (k + 1) * interval == k * interval + interval
  {
  }

  lemma {:induction false} RefillsOneByOne(captures: seq<nat>, interval: nat, i: nat)
    requires i < |captures|
    ensures captures[i] + (|captures| - i) * interval <= Refilled(captures, interval)
    decreases |captures|
  {
    var n := |captures| - 1;
    if i < n {
      RefillsOneByOne(captures[..n], interval, i);
      Times(n - i, interval);
    }
  }

  /** A capture at this time would keep every window of the run within the bucket. */
  predicate FitsWindows(captures: seq<nat>, interval: nat, now: nat) {
    forall i :: 0 <= i < |captures| ==> captures[i] + (|captures| - i - 1) * interval <= now
  }

  /** The bucket admits a present exactly when no window would overflow. */
  lemma {:induction false} BucketAdmitsExactly(captures: seq<nat>, interval: nat, now: nat)
    ensures Refilled(captures, interval) <= now + interval <==> FitsWindows(captures, interval, now)
    decreases |captures|
  {
    if FitsWindows(captures, interval, now) {
      FullWindows(captures, interval, now);
    } else {
      var i :| 0 <= i < |captures| && captures[i] + (|captures| - i - 1) * interval > now;
      RefillsOneByOne(captures, interval, i);
      Times(|captures| - i - 1, interval);
    }
  }

  lemma {:induction false} FullWindows(captures: seq<nat>, interval: nat, now: nat)
    requires FitsWindows(captures, interval, now)
    ensures Refilled(captures, interval) <= now + interval
    decreases |captures|
  {
    if captures != [] {
      var n := |captures| - 1;
      assert captures[n] + (|captures| - n - 1) * interval <= now;
      if n > 0 && interval <= now {
        forall i | 0 <= i < n
          ensures captures[..n][i] + (n - i - 1) * interval <= now - interval
        {
          assert captures[i] + (|captures| - i - 1) * interval <= now;
          Times(n - i - 1, interval);
        }
        FullWindows(captures[..n], interval, now - interval);
      } else if n > 0 {
        assert captures[0] + (|captures| - 0 - 1) * interval <= now;
        Times(n - 1, interval);
        Grows(n - 1, interval);
        assert false;
      }
    }
  }

  lemma Grows(k: nat, interval: nat)
    ensures 0 <= k * interval
  {
  }

  /** Any n captures of a variable-rate run take at least n - 2 intervals. */
  lemma {:induction false} VariableSpacing(captures: seq<nat>, interval: nat, i: nat, j: nat)
    requires Permitted(captures, 0, interval) && i < j < |captures|
    ensures captures[i] + (j - i - 1) * interval <= captures[j]
    decreases |captures|
  {
    var n := |captures| - 1;
    if j < n {
      VariableSpacing(captures[..n], interval, i, j);
    } else {
      RefillsOneByOne(captures[..n], interval, i);
      Times(n - i - 1, interval);
    }
  }

  /** Captures of a fixed-rate run are at least one interval apart each. */
  lemma {:induction false} FixedSpacing(captures: seq<nat>, rate: nat, interval: nat, i: nat, j: nat)
    requires rate > 0 && Permitted(captures, rate, interval) && i < j < |captures|
    ensures captures[i] + (j - i) * (1_000_000_000 / rate) <= captures[j]
    decreases |captures|
  {
    var n := |captures| - 1;
    var step := 1_000_000_000 / rate;
    if j < n {
      FixedSpacing(captures[..n], rate, interval, i, j);
    } else {
      if i < n - 1 {
        FixedSpacing(captures[..n], rate, interval, i, n - 1);
      }
      Times(n - 1 - i, step);
    }
  }
}

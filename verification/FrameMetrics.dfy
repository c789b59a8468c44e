/** What the shown numbers mean, in literal units: frames a second, tenths of a millisecond, and the
    slowest hundredth and thousandth of the frames. */
module FrameMetrics {
  import opened Wrappers
  import opened Messages
  import opened FrameHistory

  /** The shown rate is the rounded-down frames per second of this many frames, at most 9,999; a total of no
      time counts as a nanosecond. */
  predicate Averages(rate: nat, frames: nat, nanoseconds: nat) {
    var total := if nanoseconds == 0 then 1 else nanoseconds;
    && rate <= 9_999
    && rate * total <= 1_000_000_000 * frames
    && (rate < 9_999 ==> 1_000_000_000 * frames < (rate + 1) * total)
  }

  /** The shown time is the interval in tenths of a millisecond, rounded down, at most 999.9 ms. */
  predicate Tenths(shown: nat, interval: u64) {
    shown <= 9_999 && 100_000 * shown <= interval && (shown < 9_999 ==> interval < 100_000 * (shown + 1))
  }

  /** These are the slowest of the frames: just enough to make up one in `share`, and none left out is
      slower. */
  predicate SlowestShare(window: seq<u64>, slow: seq<u64>, rest: seq<u64>, share: nat) {
    && multiset(slow) + multiset(rest) == multiset(window)
    && |slow| > 0 && share * (|slow| - 1) < |window| <= share * |slow|
    && forall i, j :: 0 <= i < |slow| && 0 <= j < |rest| ==> rest[j] <= slow[i]
  }

  lemma RateAverages(frames: nat, total: nat)
    ensures Averages(Rate(frames, total), frames, total)
  {
    var n, d := 1_000_000_000 * frames, if total == 0 then 1 else total;
    var q := n / d;
    assert q * d <= n < (q + 1) * d by { QuotientBounds(n, d); }
    if q > 9_999 {
      Smaller(9_999, q, d);
    }
  }

  lemma QuotientBounds(n: nat, d: nat)
    requires d > 0
    ensures n / d * d <= n < (n / d + 1) * d
  {
    assert n == n / d * d + n % d;
  }

  lemma Smaller(a: nat, b: nat, d: nat)
    requires a <= b
    ensures a * d <= b * d
  {
  }

  lemma {:induction false} InsertPermutes(x: u64, s: seq<u64>)
    ensures multiset(Insert(x, s)) == multiset{x} + multiset(s)
  {
    if !(s == [] || s[0] <= x) {
      InsertPermutes(x, s[1..]);
      assert s == [s[0]] + s[1..];
    }
  }

  lemma {:induction false} SortPermutes(s: seq<u64>)
    ensures multiset(SortDescending(s)) == multiset(s)
  {
    if s != [] {
      SortPermutes(s[1..]);
      InsertPermutes(s[0], SortDescending(s[1..]));
      assert s == [s[0]] + s[1..];
    }
  }

  lemma {:induction false} PrefixIsAhead(sorted: seq<u64>, k: nat)
    requires k <= |sorted| && Descending(sorted)
    ensures var slow, rest := sorted[..k], sorted[k..];
            && |slow| == k && multiset(slow) + multiset(rest) == multiset(sorted)
            && forall i, j :: 0 <= i < |slow| && 0 <= j < |rest| ==> rest[j] <= slow[i]
  {
    assert sorted == sorted[..k] + sorted[k..];
  }

  lemma {:induction false} PrefixIsSlowest(window: seq<u64>, k: nat, share: nat)
    requires 0 < k <= |window| && share * (k - 1) < |window| <= share * k
    ensures var sorted := SortDescending(window);
            |sorted| == |window| && SlowestShare(window, sorted[..k], sorted[k..], share)
  {
    SortPermutes(window);
    SortedDescending(window);
    PrefixIsAhead(SortDescending(window), k);
  }

  lemma ShareCounts(n: nat)
    requires 0 < n <= CAPACITY
    ensures 0 < OneCount(n) <= n && 100 * (OneCount(n) - 1) < n <= 100 * OneCount(n)
    ensures 0 < PointOneCount(n) <= n && 1_000 * (PointOneCount(n) - 1) < n <= 1_000 * PointOneCount(n)
  {
  }

  /** The shown numbers are the average rate of the window, the time of the newest frame, and the average
      rates of the slowest hundredth and the slowest thousandth of its frames. */
  lemma NumbersMeanWhatTheySay(window: seq<u64>, newest: u64) returns (slow: seq<u64>, rest: seq<u64>, slower: seq<u64>,
                                                                        others: seq<u64>)
    requires 0 < |window| <= 240
    ensures Summarized(window, newest).Some?
    ensures var m := Summarized(window, newest).value;
            && Averages(m.fps, |window|, Sum(window)) && Tenths(m.frameTimeTenthsMs, newest)
            && SlowestShare(window, slow, rest, 100) && Averages(m.onePercentLow, |slow|, Sum(slow))
            && SlowestShare(window, slower, others, 1_000) && Averages(m.pointOnePercentLow, |slower|, Sum(slower))
  {
    var n, sorted := |window|, SortDescending(window);
    var one, pointOne := OneCount(n), PointOneCount(n);
    ShareCounts(n);
    PrefixIsSlowest(window, one, 100);
    PrefixIsSlowest(window, pointOne, 1_000);
    slow, rest, slower, others := sorted[..one], sorted[one..], sorted[..pointOne], sorted[pointOne..];
    RateAverages(n, Sum(window));
    RateAverages(one, Sum(slow));
    RateAverages(pointOne, Sum(slower));
  }

  /** Likewise for what the overlay shows after any pushes. */
  method ShownAfter(h: History) returns (summary: Option<Summary>)
    requires h.Valid()
    ensures h.pushed == [] <==> summary.None?
    ensures summary.Some? ==> Tenths(summary.value.frameTimeTenthsMs, h.pushed[|h.pushed| - 1])
    ensures summary.Some? ==> Averages(summary.value.fps, |Recent(h.pushed)|, Sum(Recent(h.pushed)))
  {
    summary := h.Summarize();
    if summary.Some? {
      ghost var a, b, c, d := NumbersMeanWhatTheySay(Recent(h.pushed), h.pushed[|h.pushed| - 1]);
    }
  }
}

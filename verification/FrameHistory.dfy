/** The overlay's ring of recent frame intervals and the rates it shows. */
module FrameHistory {
  import opened Wrappers
  import opened Messages

  const CAPACITY: nat := 240
  const NANOSECONDS_PER_SECOND: nat := 1_000_000_000
  const MAX_METRIC: nat := 9_999

  function Min(a: nat, b: nat): nat { if a < b then a else b }
  function AtLeastOne(n: nat): nat { if n == 0 then 1 else n }

  function Sum(s: seq<u64>): nat {
    if s == [] then 0 else s[0] + Sum(s[1..])
  }

  /** A value inserted before the first smaller one. */
  function Insert(x: u64, s: seq<u64>): (r: seq<u64>)
    ensures |r| == |s| + 1
  {
    if s == [] || s[0] <= x then [x] + s else [s[0]] + Insert(x, s[1..])
  }

  /** Slowest frame first. */
  function SortDescending(s: seq<u64>): (r: seq<u64>)
    ensures |r| == |s|
  {
    if s == [] then [] else Insert(s[0], SortDescending(s[1..]))
  }

  function Clamp(value: nat): nat { Min(value, MAX_METRIC) }

  /** Frames per second of a number of frames that took a total time. */
  function Rate(frames: nat, total: nat): nat { Clamp(NANOSECONDS_PER_SECOND * frames / AtLeastOne(total)) }

  function FpsForSlice(s: seq<u64>): nat { Rate(|s|, Sum(s)) }

  datatype Summary = Summary(fps: nat, frameTimeTenthsMs: nat, onePercentLow: nat, pointOnePercentLow: nat)

  function OneCount(n: nat): nat { AtLeastOne(DivCeil(n, 100)) }
  function PointOneCount(n: nat): nat { AtLeastOne(DivCeil(n, 1_000)) }

  /** The metrics of a window of frames whose newest interval is given. */
  function Summarized(window: seq<u64>, newest: u64): Option<Summary> {
    if window == [] then None
    else
      var sorted := SortDescending(window);
      Some(Summary(
        Rate(|window|, Sum(window)),
        Clamp(newest / 100_000),
        FpsForSlice(sorted[..Min(OneCount(|window|), |window|)]),
        FpsForSlice(sorted[..Min(PointOneCount(|window|), |window|)])))
  }

  // ---- Sorting ----

  predicate Descending(s: seq<u64>) { forall i, j :: 0 <= i < j < |s| ==> s[i] >= s[j] }

  lemma {:induction false} InsertKeeps(x: u64, s: seq<u64>)
    requires Descending(s)
    ensures Descending(Insert(x, s)) && Sum(Insert(x, s)) == x + Sum(s)
    ensures forall i :: 0 <= i < |s| + 1 ==> Insert(x, s)[i] == x || Insert(x, s)[i] in s
  {
    if s == [] || s[0] <= x {
      assert ([x] + s)[1..] == s;
      assert forall i :: 0 < i < |s| + 1 ==> ([x] + s)[i] == s[i - 1];
    } else {
      InsertKeeps(x, s[1..]);
      var rest := Insert(x, s[1..]);
      assert ([s[0]] + rest)[1..] == rest;
      forall i | 0 <= i < |rest|
        ensures rest[i] <= s[0] && (rest[i] == x || rest[i] in s)
      {
      }
    }
  }

  lemma {:induction false} SortedDescending(s: seq<u64>)
    ensures Descending(SortDescending(s)) && Sum(SortDescending(s)) == Sum(s)
  {
    if s != [] {
      SortedDescending(s[1..]);
      InsertKeeps(s[0], SortDescending(s[1..]));
    }
  }

  lemma {:induction false} InsertCommutes(x: u64, y: u64, s: seq<u64>)
    ensures Insert(x, Insert(y, s)) == Insert(y, Insert(x, s))
  {
    if s == [] {
      assert ([x] + s)[1..] == s && ([y] + s)[1..] == s;
    } else {
      InsertCommutes(x, y, s[1..]);
      assert ([x] + s)[1..] == s && ([y] + s)[1..] == s;
      assert ([s[0]] + Insert(x, s[1..]))[1..] == Insert(x, s[1..]);
      assert ([s[0]] + Insert(y, s[1..]))[1..] == Insert(y, s[1..]);
    }
  }

  lemma {:induction false} SortAppended(s: seq<u64>, x: u64)
    ensures SortDescending(s + [x]) == Insert(x, SortDescending(s)) && Sum(s + [x]) == Sum(s) + x
  {
    if s == [] {
      assert s + [x] == [x] && [x][1..] == [];
    } else {
      assert (s + [x])[0] == s[0] && (s + [x])[1..] == s[1..] + [x];
      SortAppended(s[1..], x);
      InsertCommutes(s[0], x, SortDescending(s[1..]));
    }
  }

  /** The order in which a ring holds its values does not matter. */
  lemma {:induction false} RotationSorts(a: seq<u64>, b: seq<u64>)
    ensures SortDescending(a + b) == SortDescending(b + a) && Sum(a + b) == Sum(b + a)
    decreases |a|
  {
    if a == [] {
      assert a + b == b && b + a == b;
    } else {
      assert (a + b)[0] == a[0] && (a + b)[1..] == a[1..] + b;
      assert b + a == (b + [a[0]]) + a[1..];
      RotationSorts(a[1..], b + [a[0]]);
      assert a[1..] + (b + [a[0]]) == a[1..] + b + [a[0]];
      SortAppended(a[1..] + b, a[0]);
    }
  }

  // ---- Lows never exceed averages ----

  lemma {:induction false} SumSplits(s: seq<u64>, k: nat)
    requires k <= |s|
    ensures Sum(s) == Sum(s[..k]) + Sum(s[k..])
    decreases k
  {
    if k == 0 {
      assert s[..0] == [] && s[0..] == s;
    } else {
      assert s[..k][0] == s[0] && s[..k][1..] == s[1..][..k - 1] && s[1..][k - 1..] == s[k..];
      SumSplits(s[1..], k - 1);
    }
  }

  lemma {:induction false} SumBounds(s: seq<u64>, low: nat, high: nat)
    requires forall i :: 0 <= i < |s| ==> low <= s[i] <= high
    ensures |s| * low <= Sum(s) <= |s| * high
  {
    if s != [] {
      SumBounds(s[1..], low, high);
      OneMore(|s| - 1, low);
      OneMore(|s| - 1, high);
    }
  }

  lemma OneMore(n: nat, x: nat)
    ensures (n + 1) * x == n * x + x
  {
  }

  /** The k slowest of n frames are on average no faster than all of them. */
  lemma SlowestAverage(s: seq<u64>, k: nat, n: nat)
    requires Descending(s) && 0 < k <= n <= |s|
    ensures k * Sum(s[..n]) <= n * Sum(s[..k])
  {
    var pivot := s[k - 1];
    SumSplits(s[..n], k);
    assert s[..n][..k] == s[..k];
    var rest := s[..n][k..];
    assert forall i :: 0 <= i < k ==> pivot <= s[..k][i];
    SumBounds(s[..k], pivot, U64_MAX);
    assert forall i :: 0 <= i < |rest| ==> rest[i] == s[k + i] <= pivot;
    SumBounds(rest, 0, pivot);
    Cross(k, n, Sum(s[..k]), Sum(rest), pivot);
  }

  lemma Cross(k: nat, n: nat, front: nat, rest: nat, pivot: nat)
    requires k <= n && k * pivot <= front && rest <= (n - k) * pivot
    ensures k * (front + rest) <= n * front
  {
    assert k * rest <= k * ((n - k) * pivot) == (n - k) * (k * pivot) by {
      Scale(k, rest, (n - k) * pivot);
    }
    Scale(n - k, k * pivot, front);
  }

  lemma Scale(c: nat, a: nat, b: nat)
    requires a <= b
    ensures c * a <= c * b
  {
  }

  lemma QuotientsOrdered(a: nat, b: nat, c: nat, d: nat)
    requires b > 0 && d > 0 && a * d <= c * b
    ensures a / b <= c / d
  {
    var q := a / b;
    assert q * b <= a;
    if q * d > c {
      Scale(d, q * b, a);
      assert q * d * b >= (c + 1) * b by { Scale(b, c + 1, q * d); }
      assert false;
    }
    DivAtLeast(c, d, q);
  }

  lemma DivAtLeast(c: nat, d: nat, q: nat)
    requires d > 0 && q * d <= c
    ensures q <= c / d
  {
    if c / d < q {
      Scale(d, c / d + 1, q);
    }
  }

  lemma RatesOrdered(scale: nat, k: nat, a: nat, n: nat, b: nat)
    requires k <= n && k * b <= n * a && a <= b && (a == 0 ==> b == 0)
    ensures scale * k / AtLeastOne(a) <= scale * n / AtLeastOne(b)
  {
    var a', b' := AtLeastOne(a), AtLeastOne(b);
    assert k * b' <= n * a';
    Scale(scale, k * b', n * a');
    assert scale * (k * b') == scale * k * b' && scale * (n * a') == scale * n * a';
    QuotientsOrdered(scale * k, a', scale * n, b');
  }

  /** Rates of a longer prefix of the slowest frames are at least those of a shorter one. */
  lemma LongerPrefixFaster(s: seq<u64>, k: nat, n: nat)
    requires Descending(s) && 0 < k <= n <= |s|
    ensures FpsForSlice(s[..k]) <= FpsForSlice(s[..n])
  {
    var a, b := Sum(s[..k]), Sum(s[..n]);
    SlowestAverage(s, k, n);
    SumSplits(s[..n], k);
    assert s[..n][..k] == s[..k];
    if a == 0 {
      Positive(k, b, n);
    }
    RatesOrdered(NANOSECONDS_PER_SECOND, k, a, n, b);
  }

  lemma Positive(k: nat, b: nat, n: nat)
    requires k > 0 && k * b <= n * 0
    ensures b == 0
  {
  }

  /** Whatever the intervals, zeros included: the 0.1% low is at most the 1% low, which is at
      most the average, despite floors, clamps and division by at least one. */
  lemma LowsAreOrdered(window: seq<u64>, newest: u64)
    requires 0 < |window| <= CAPACITY
    ensures var m := Summarized(window, newest).value;
            m.pointOnePercentLow <= m.onePercentLow <= m.fps <= MAX_METRIC
  {
    var sorted, n := SortDescending(window), |window|;
    SortedDescending(window);
    CountsFit(n);
    LongerPrefixFaster(sorted, PointOneCount(n), OneCount(n));
    LongerPrefixFaster(sorted, OneCount(n), n);
    assert sorted[..n] == sorted;
    SummaryParts(window, newest);
  }

  lemma SummaryParts(window: seq<u64>, newest: u64)
    requires 0 < |window| <= CAPACITY
    requires PointOneCount(|window|) <= OneCount(|window|) <= |window|
    requires Sum(SortDescending(window)) == Sum(window)
    ensures var m := Summarized(window, newest).value;
            && m.pointOnePercentLow == FpsForSlice(SortDescending(window)[..PointOneCount(|window|)])
            && m.onePercentLow == FpsForSlice(SortDescending(window)[..OneCount(|window|)])
            && m.fps == FpsForSlice(SortDescending(window)) <= MAX_METRIC
  {
  }

  /** Within the ring's capacity the 0.1% low is the rate of the single slowest frame. */
  lemma PointOneIsSlowest(window: seq<u64>, newest: u64, k: nat)
    requires 0 < |window| <= CAPACITY && k < |window|
    requires forall i :: 0 <= i < |window| ==> window[i] <= window[k]
    ensures Summarized(window, newest).value.pointOnePercentLow
         == Rate(1, window[k])
  {
    SortedHead(window, k);
    CountsFit(|window|);
    SortedDescending(window);
    SummaryParts(window, newest);
    SingleSlice(SortDescending(window), window[k]);
  }

  lemma CountsFit(n: nat)
    requires 0 < n <= CAPACITY
    ensures PointOneCount(n) == 1 <= OneCount(n) <= n
  {
  }

  lemma SingleSlice(s: seq<u64>, x: u64)
    requires s != [] && s[0] == x
    ensures |s[..1]| == 1 && Sum(s[..1]) == x
  {
    assert s[..1] == [x] && [x][1..] == [];
  }

  lemma {:induction false} SortedHead(s: seq<u64>, k: nat)
    requires k < |s| && forall i :: 0 <= i < |s| ==> s[i] <= s[k]
    ensures SortDescending(s)[0] == s[k]
  {
    if |s| > 1 {
      var rest := s[1..];
      if k > 0 {
        SortedHead(rest, k - 1);
      } else {
        var top := MaxIndex(rest);
        SortedHead(rest, top);
      }
    }
  }

  lemma {:induction false} MaxIndex(s: seq<u64>) returns (k: nat)
    requires s != []
    ensures k < |s| && forall i :: 0 <= i < |s| ==> s[i] <= s[k]
  {
    if |s| == 1 {
      k := 0;
    } else {
      var rest := MaxIndex(s[1..]);
      k := if s[0] >= s[1..][rest] then 0 else rest + 1;
      forall i | 0 <= i < |s|
        ensures s[i] <= s[k]
      {
        if i > 0 { assert s[i] == s[1..][i - 1]; }
      }
    }
  }

  lemma SameSummary(a: seq<u64>, b: seq<u64>, newest: u64)
    requires |a| == |b| && SortDescending(a) == SortDescending(b) && Sum(a) == Sum(b)
    ensures Summarized(a, newest) == Summarized(b, newest)
  {
  }

  // ---- The ring ----

  /** The last pushes a ring of fixed capacity can hold. */
  function Recent(pushed: seq<u64>): (r: seq<u64>)
    ensures |r| == Min(|pushed|, CAPACITY)
  {
    pushed[|pushed| - Min(|pushed|, CAPACITY)..]
  }

  /** Contents of the ring's slots after these pushes. */
  ghost predicate RingHolds(slots: seq<u64>, pushed: seq<u64>) {
    && |slots| == CAPACITY
    && forall j :: |pushed| - Min(|pushed|, CAPACITY) <= j < |pushed| ==> slots[j % CAPACITY] == pushed[j]
  }

  lemma PushHolds(slots: seq<u64>, pushed: seq<u64>, interval: u64)
    requires RingHolds(slots, pushed)
    ensures RingHolds(slots[|pushed| % CAPACITY := interval], pushed + [interval])
  {
    var pushed' := pushed + [interval];
    var slots' := slots[|pushed| % CAPACITY := interval];
    forall j | |pushed'| - Min(|pushed'|, CAPACITY) <= j < |pushed'|
      ensures slots'[j % CAPACITY] == pushed'[j]
    {
      if j < |pushed| {
        assert j % CAPACITY != |pushed| % CAPACITY by {
          assert 0 < |pushed| - j < CAPACITY;
        }
      }
    }
  }

  /** The occupied slots are the recent pushes, rotated at the next write position. */
  lemma OccupiedRotates(slots: seq<u64>, pushed: seq<u64>)
    requires RingHolds(slots, pushed)
    ensures var length, next := Min(|pushed|, CAPACITY), |pushed| % CAPACITY;
            slots[..length] == (if length < CAPACITY then Recent(pushed)
                                else Recent(pushed)[CAPACITY - next..] + Recent(pushed)[..CAPACITY - next])
  {
    var n, length, next := |pushed|, Min(|pushed|, CAPACITY), |pushed| % CAPACITY;
    forall i | 0 <= i < length
      ensures slots[i] == if length < CAPACITY then Recent(pushed)[i]
                          else (Recent(pushed)[CAPACITY - next..] + Recent(pushed)[..CAPACITY - next])[i]
    {
      if length < CAPACITY {
        assert slots[i % CAPACITY] == pushed[i];
      } else {
        var j := if i < next then n - next + i else n - next + i - CAPACITY;
        assert j % CAPACITY == i by {
          assert n - next == CAPACITY * (n / CAPACITY);
        }
        assert slots[j % CAPACITY] == pushed[j];
      }
    }
  }

  class History {
    const intervals: array<u64>
    var length: nat
    var next: nat
    ghost var pushed: seq<u64>

    ghost predicate Valid()
      reads this, intervals
    {
      && intervals.Length == CAPACITY && length == Min(|pushed|, CAPACITY) && next == |pushed| % CAPACITY
      && RingHolds(intervals[..], pushed)
    }

    constructor ()
      ensures Valid() && pushed == [] && fresh(intervals)
    {
      intervals := new u64[CAPACITY](_ => 0);
      length, next, pushed := 0, 0, [];
    }

    method Push(interval: u64)
      requires Valid()
      modifies this, intervals
      ensures Valid() && pushed == old(pushed) + [interval]
    {
      PushHolds(intervals[..], pushed, interval);
      intervals[next] := interval;
      next := (next + 1) % CAPACITY;
      length := Min(length + 1, CAPACITY);
      pushed := pushed + [interval];
    }

    /** The metrics are those of the last 240 pushes, and the shown frame time is the last one's. */
    method Summarize() returns (summary: Option<Summary>)
      requires Valid()
      ensures summary.Some? <==> pushed != []
      ensures pushed != [] ==> summary == Summarized(Recent(pushed), pushed[|pushed| - 1])
    {
      if length == 0 {
        return None;
      }
      var window := intervals[..length];
      var newest := if next == 0 then length - 1 else next - 1;
      summary := Summarized(window, intervals[newest]);
      NewestHolds(intervals[..], pushed);
      WindowSummary(intervals[..], pushed, intervals[newest]);
      assert window == intervals[..][..length];
    }
  }

  lemma NewestHolds(slots: seq<u64>, pushed: seq<u64>)
    requires RingHolds(slots, pushed) && pushed != []
    ensures var length, next := Min(|pushed|, CAPACITY), |pushed| % CAPACITY;
            slots[if next == 0 then length - 1 else next - 1] == pushed[|pushed| - 1]
  {
    assert slots[(|pushed| - 1) % CAPACITY] == pushed[|pushed| - 1];
  }

  lemma WindowSummary(slots: seq<u64>, pushed: seq<u64>, newest: u64)
    requires RingHolds(slots, pushed)
    ensures Summarized(slots[..Min(|pushed|, CAPACITY)], newest) == Summarized(Recent(pushed), newest)
  {
    OccupiedRotates(slots, pushed);
    if |pushed| >= CAPACITY {
      var recent, next := Recent(pushed), |pushed| % CAPACITY;
      var a, b := recent[..CAPACITY - next], recent[CAPACITY - next..];
      RotationSorts(a, b);
      assert a + b == recent;
      SameSummary(b + a, recent, newest);
    }
  }
}

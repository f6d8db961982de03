/** Running statistics over the passengers' wait and travel times
    (`SystemSummary`): minimum, maximum, sum and count of the recorded times,
    and the number of passengers who needed no ride. */
module Summaries {
  import opened Basics

  /** The five counters of a summary, as a value. */
  datatype Stats = Stats(minValue: int, maxValue: int, sum: int, n: int, noActionPassengers: int)

  /** What `SystemSummary.__dict__` reports; `min` and `max` are `None` while
      still at their starting sentinels. */
  datatype SummaryView = SummaryView(min: Option<int>, max: Option<int>, mean: real, nPassengers: int, noActionPassengers: int)

  /** A fresh summary: the minimum starts at `sys.maxsize`, the maximum at -1. */
  const Initial: Stats := Stats(MaxSize, -1, 0, 0, 0)

  /** `include(time)`. */
  function Record(s: Stats, time: int): (r: Stats)
    ensures r.minValue <= s.minValue && r.minValue <= time && (r.minValue == s.minValue || r.minValue == time)
    ensures r.maxValue >= s.maxValue && r.maxValue >= time && (r.maxValue == s.maxValue || r.maxValue == time)
    ensures r.sum == s.sum + time && r.n == s.n + 1 && r.noActionPassengers == s.noActionPassengers
  {
    Stats(Min(s.minValue, time), Max(s.maxValue, time), s.sum + time, s.n + 1, s.noActionPassengers)
  }

  /** `no_action()`. */
  function NoAction(s: Stats): Stats
  {
    s.(noActionPassengers := s.noActionPassengers + 1)
  }

  /** `mean()`: the average recorded time, 0 before anything was recorded. */
  function Mean(s: Stats): real
  {
    if s.n == 0 then 0.0 else (s.sum as real) / (s.n as real)
  }

  /** `__dict__()`. */
  function View(s: Stats): (r: SummaryView)
    ensures r.min.None? <==> s.minValue >= MaxSize
    ensures r.max.None? <==> s.maxValue <= -1
    ensures r.nPassengers == s.n + s.noActionPassengers
  {
    SummaryView(
      if s.minValue < MaxSize then Some(s.minValue) else None,
      if s.maxValue > -1 then Some(s.maxValue) else None,
      Mean(s),
      s.n + s.noActionPassengers,
      s.noActionPassengers)
  }

  /** A fresh summary after `include` was called on each of `ts` in turn. */
  function Collected(ts: seq<int>): Stats
    decreases |ts|
  {
    if ts == [] then Initial else Record(Collected(ts[..|ts| - 1]), ts[|ts| - 1])
  }

  /** The sum of a list of times, for stating what a summary accumulates. */
  function Total(ts: seq<int>): int
    decreases |ts|
  {
    if ts == [] then 0 else Total(ts[..|ts| - 1]) + ts[|ts| - 1]
  }

  /** Recording counts every time. */
  lemma {:induction false} CollectedCounts(ts: seq<int>)
    ensures Collected(ts).n == |ts| && Collected(ts).noActionPassengers == 0
  {
    if ts != [] {
      CollectedCounts(ts[..|ts| - 1]);
    }
  }

  /** Recording adds every time to the sum. */
  lemma {:induction false} CollectedSum(ts: seq<int>)
    ensures Collected(ts).sum == Total(ts)
  {
    if ts != [] {
      CollectedSum(ts[..|ts| - 1]);
    }
  }

  /** The minimum and maximum bound every recorded time, never pass their
      sentinels, and are among the times once they have left them. */
  lemma {:induction false} CollectedBounds(ts: seq<int>)
    ensures var c := Collected(ts);
      c.minValue <= MaxSize && c.maxValue >= -1
      && (forall k :: 0 <= k < |ts| ==> c.minValue <= ts[k] <= c.maxValue)
      && (c.minValue == MaxSize || c.minValue in ts)
      && (c.maxValue == -1 || c.maxValue in ts)
  {
    if ts != [] {
      var init, t := ts[..|ts| - 1], ts[|ts| - 1];
      CollectedBounds(init);
      assert ts == init + [t];
      assert forall k :: 0 <= k < |init| ==> ts[k] == init[k];
    }
  }

  /** The sum lies between n times the minimum and n times the maximum. */
  lemma {:induction false} CollectedSpread(ts: seq<int>)
    requires ts != []
    ensures var c := Collected(ts); c.n * c.minValue <= c.sum <= c.n * c.maxValue
  {
    var init := ts[..|ts| - 1];
    CollectedCounts(init);
    if init != [] {
      CollectedSpread(init);
      RecordSpread(Collected(init), ts[|ts| - 1]);
    } else {
      RecordSpread(Initial, ts[0]);
    }
  }

  /** Recording one time keeps `n·min <= sum <= n·max`. */
  lemma RecordSpread(a: Stats, t: int)
    requires a.n >= 0 && a.n * a.minValue <= a.sum <= a.n * a.maxValue
    ensures var c := Record(a, t); c.n * c.minValue <= c.sum <= c.n * c.maxValue
  {
    var c := Record(a, t);
    SpreadStep(a.n, a.sum, a.minValue, c.minValue, t);
    SpreadStepUp(a.n, a.sum, a.maxValue, c.maxValue, t);
  }

  /** One more time `t` keeps `n·min <= sum` when the new minimum is at most
      both the old one and `t`. */
  lemma SpreadStep(n: nat, sum: int, previous: int, lowest: int, t: int)
    requires n * previous <= sum && lowest <= previous && lowest <= t
    ensures (n + 1) * lowest <= sum + t
  {
    MulMonotone(n, lowest, previous);
  }

  /** The same for `sum <= n·max` and a new maximum. */
  lemma SpreadStepUp(n: nat, sum: int, previous: int, highest: int, t: int)
    requires sum <= n * previous && previous <= highest && t <= highest
    ensures sum + t <= (n + 1) * highest
  {
    MulMonotone(n, previous, highest);
  }

  lemma MulMonotone(n: nat, x: int, y: int)
    requires x <= y
    ensures n * x <= n * y
  {
  }

  /** Once `ts` times inside `[0, sys.maxsize)` were recorded, the report
      has `None` for the minimum and the maximum exactly when nothing was
      recorded, and counts every recorded passenger. */
  lemma {:induction false} CollectedView(ts: seq<int>)
    requires forall k :: 0 <= k < |ts| ==> 0 <= ts[k] < MaxSize
    ensures var v := View(Collected(ts)); (v.min.None? <==> ts == []) && (v.max.None? <==> ts == [])
    ensures var v := View(Collected(ts)); v.nPassengers == |ts| && v.noActionPassengers == 0
  {
    CollectedBounds(ts);
    CollectedCounts(ts);
    if ts != [] {
      assert Collected(ts).minValue <= ts[0] < MaxSize;
      assert Collected(ts).maxValue >= ts[0] >= 0;
    }
  }

  /** A reported minimum or maximum is one of the recorded times, and it is
      the smallest or the largest of them. */
  lemma {:induction false} CollectedExtremes(ts: seq<int>)
    ensures var v := View(Collected(ts));
      (v.min.Some? ==> v.min.value in ts && forall k :: 0 <= k < |ts| ==> v.min.value <= ts[k])
      && (v.max.Some? ==> v.max.value in ts && forall k :: 0 <= k < |ts| ==> ts[k] <= v.max.value)
  {
    CollectedBounds(ts);
  }

  /** The reported mean lies between the smallest and the largest time. */
  lemma {:induction false} CollectedMean(ts: seq<int>)
    requires ts != []
    ensures Collected(ts).minValue as real <= View(Collected(ts)).mean <= Collected(ts).maxValue as real
  {
    CollectedCounts(ts);
    CollectedSpread(ts);
    MeanBetween(Collected(ts));
  }

  /** The mean is at least the minimum and at most the maximum. */
  lemma MeanBetween(s: Stats)
    requires s.n > 0 && s.n * s.minValue <= s.sum <= s.n * s.maxValue
    ensures s.minValue as real <= Mean(s) <= s.maxValue as real
  {
    var n, m := s.n as real, Mean(s);
    assert m * n == s.sum as real;
    assert n * (s.minValue as real) <= s.sum as real <= n * (s.maxValue as real);
  }

  /** The statistics do not depend on the order in which times arrive. */
  lemma RecordCommutes(s: Stats, a: int, b: int)
    ensures Record(Record(s, a), b) == Record(Record(s, b), a)
  {
  }

  /** `no_action` counts one more passenger and changes nothing else that is
      reported. */
  lemma NoActionCounted(s: Stats)
    ensures View(NoAction(s)) == View(s).(nPassengers := View(s).nPassengers + 1, noActionPassengers := s.noActionPassengers + 1)
  {
  }

  /** Collecting a list one time longer records that time last. */
  lemma CollectedSnoc(ts: seq<int>, t: int)
    ensures Collected(ts + [t]) == Record(Collected(ts), t)
  {
    assert (ts + [t])[..|ts|] == ts;
  }

  /** Recording the times 0, 1, ..., k-1 gives minimum 0, maximum k-1 and a
      sum of k(k-1)/2. */
  lemma {:induction false} CollectedCountUp(k: nat)
    requires k >= 1
    ensures var c := Collected(seq(k, i => i));
      c.minValue == 0 && c.maxValue == k - 1 && 2 * c.sum == k * (k - 1) && c.n == k && c.noActionPassengers == 0
  {
    if k == 1 {
      assert seq(k, i => i) == [] + [0];
      CollectedSnoc([], 0);
    } else {
      CollectedCountUp(k - 1);
      assert seq(k, i => i) == seq(k - 1, i => i) + [k - 1];
      CollectedSnoc(seq(k - 1, i => i), k - 1);
      TriangleStep(k);
    }
  }

  lemma TriangleStep(k: int)
    ensures k * (k - 1) == (k - 1) * (k - 2) + 2 * (k - 1)
  {
  }

  /** Their mean is (k-1)/2. */
  lemma CountUpMean(k: nat)
    requires k >= 1
    ensures Mean(Collected(seq(k, i => i))) == (k - 1) as real / 2.0
  {
    CollectedCountUp(k);
    var c := Collected(seq(k, i => i));
    HalfProduct(k, c.sum);
  }

  lemma HalfProduct(k: nat, sum: int)
    requires k >= 1 && 2 * sum == k * (k - 1)
    ensures (sum as real) / (k as real) == (k - 1) as real / 2.0
  {
    assert (2 * sum) as real == (k as real) * ((k - 1) as real);
  }

  /** The ten times 0..9 give minimum 0, maximum 9 and mean 4.5. */
  lemma TenTimes()
    ensures View(Collected([0, 1, 2, 3, 4, 5, 6, 7, 8, 9])) == SummaryView(Some(0), Some(9), 4.5, 10, 0)
  {
    CollectedCountUp(10);
    CountUpMean(10);
    assert seq(10, i => i) == [0, 1, 2, 3, 4, 5, 6, 7, 8, 9];
  }

  /** The object the controller keeps two of, updated in place. */
  class SystemSummary {
    var minValue: int
    var maxValue: int
    var sum: int
    var n: int
    var noActionPassengers: int

    function State(): Stats
      reads this
    {
      Stats(minValue, maxValue, sum, n, noActionPassengers)
    }

    constructor ()
      ensures State() == Initial
    {
      minValue, maxValue, sum, n, noActionPassengers := MaxSize, -1, 0, 0, 0;
    }

    method Include(time: int)
      modifies this
      ensures State() == Record(old(State()), time)
    {
      minValue := Min(minValue, time);
      maxValue := Max(maxValue, time);
      sum := sum + time;
      n := n + 1;
    }

    method NoActionPassenger()
      modifies this
      ensures State() == NoAction(old(State()))
    {
      noActionPassengers := noActionPassengers + 1;
    }
  }
}

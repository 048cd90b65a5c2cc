/**
  promql/functions.go: what rate, increase and delta compute for the float samples of a range.
  Times and durations are whole milliseconds, values exact reals.
 */
module ExtrapolatedRate {

  import opened Samples

  /** A float sample by its numeric value. */
  type Point = Sample<real>

  // ---------------------------------------------------------------------------
  // Counter resets

  /** The growth of a counter over one step: after a reset it started again at zero. */
  function Rise(prev: real, cur: real): real {
    if cur < prev then cur else cur - prev
  }

  function Rises(s: seq<Point>): real {
    if |s| < 2 then 0.0 else Rises(s[..|s| - 1]) + Rise(s[|s| - 2].v, s[|s| - 1].v)
  }

  lemma {:induction false} RisesSnoc(s: seq<Point>, n: int)
    requires 2 <= n <= |s|
    ensures Rises(s[..n]) == Rises(s[..n - 1]) + Rise(s[n - 2].v, s[n - 1].v)
  {
    assert s[..n][..n - 1] == s[..n - 1];
  }

  /** The difference of the ends, plus what each reset hides. */
  method CounterIncrease(s: seq<Point>) returns (r: real)
    requires |s| >= 2
    ensures r == Rises(s)
  {
    hide Rises;
    r := s[|s| - 1].v - s[0].v;
    var prev, i := s[0].v, 1;
    RisesOne(s[..1]);
    while i < |s|
      invariant 1 <= i <= |s| && prev == s[i - 1].v
      invariant r == Rises(s[..i]) + (s[|s| - 1].v - prev)
    {
      RisesSnoc(s, i + 1);
      if s[i].v < prev {
        r := r + prev;
      }
      prev := s[i].v;
      i := i + 1;
    }
    assert s[..i] == s;
  }

  lemma {:induction false} RisesOne(s: seq<Point>)
    requires |s| < 2
    ensures Rises(s) == 0.0
  {
  }

  /** Increases add up over a range cut at a sample. */
  lemma {:induction false} RisesSplit(s: seq<Point>, k: int)
    requires 0 <= k < |s|
    ensures Rises(s) == Rises(s[..k + 1]) + Rises(s[k..])
    decreases |s|
  {
    hide Rises;
    RisesOne(s[|s| - 1..]);
    if k == |s| - 1 {
      assert s[..k + 1] == s;
    } else {
      var n := |s| - 1;
      var t := s[..n];
      RisesSplit(t, k);
      assert t[..k + 1] == s[..k + 1] && t[k..] == s[k..][..n - k];
      RisesSnoc(s, n + 1);
      assert s[..n + 1] == s;
      RisesSnoc(s[k..], n + 1 - k);
      assert s[k..][..n + 1 - k] == s[k..];
    }
  }

  /** Without a reset the increase is the difference of the ends. */
  lemma {:induction false} NoResets(s: seq<Point>)
    requires |s| > 0 && forall i :: 0 < i < |s| ==> s[i - 1].v <= s[i].v
    ensures Rises(s) == s[|s| - 1].v - s[0].v
  {
    if |s| > 1 {
      NoResets(s[..|s| - 1]);
    }
  }

  /** A true history of the counter: between two samples it grew by a step, unseen resets included. */
  ghost predicate IsHistory(s: seq<Point>, steps: seq<real>) {
    && |s| == |steps| + 1
    && (forall i :: 0 <= i < |s| ==> 0.0 <= s[i].v)
    && (forall i :: 0 <= i < |steps| ==> 0.0 <= steps[i])
    && (forall i :: 0 <= i < |steps| ==> s[i + 1].v == s[i].v + steps[i] || s[i + 1].v <= steps[i])
  }

  function Total(steps: seq<real>): real {
    if |steps| == 0 then 0.0 else Total(steps[..|steps| - 1]) + steps[|steps| - 1]
  }

  /** Every step is seen whole: it had no reset, or one right after the earlier sample that lowered the value. */
  ghost predicate SeenWhole(s: seq<Point>, steps: seq<real>)
    requires |s| == |steps| + 1
  {
    forall i :: 0 <= i < |steps| ==>
      s[i + 1].v == s[i].v + steps[i] || (s[i + 1].v == steps[i] && s[i + 1].v < s[i].v)
  }

  /** The increase never exceeds the counter's true growth, and equals it exactly when each step is seen whole. */
  lemma {:induction false} NeverTooMuch(s: seq<Point>, steps: seq<real>)
    requires IsHistory(s, steps)
    ensures 0.0 <= Rises(s) <= Total(steps)
    ensures Rises(s) == Total(steps) <==> SeenWhole(s, steps)
  {
    if |steps| > 0 {
      var n := |steps| - 1;
      NeverTooMuch(s[..n + 1], steps[..n]);
      StepSeen(s[n].v, s[n + 1].v, steps[n]);
      SeenWholeSnoc(s, steps);
    }
  }

  lemma {:induction false} SeenWholeSnoc(s: seq<Point>, steps: seq<real>)
    requires |s| == |steps| + 1 && |steps| > 0
    ensures var n := |steps| - 1;
      SeenWhole(s, steps) <==>
      (SeenWhole(s[..n + 1], steps[..n])
       && (s[n + 1].v == s[n].v + steps[n] || (s[n + 1].v == steps[n] && s[n + 1].v < s[n].v)))
  {
    var n := |steps| - 1;
    if SeenWhole(s[..n + 1], steps[..n]) {
      forall i | 0 <= i < n
        ensures s[i + 1].v == s[i].v + steps[i] || (s[i + 1].v == steps[i] && s[i + 1].v < s[i].v)
      {
        assert s[..n + 1][i + 1] == s[i + 1] && s[..n + 1][i] == s[i] && steps[..n][i] == steps[i];
      }
    }
  }

  lemma {:induction false} StepSeen(prev: real, cur: real, step: real)
    requires 0.0 <= prev && 0.0 <= cur && 0.0 <= step && (cur == prev + step || cur <= step)
    ensures 0.0 <= Rise(prev, cur) <= step
    ensures Rise(prev, cur) == step <==> cur == prev + step || (cur == step && cur < prev)
  {
  }

  // ---------------------------------------------------------------------------
  // Extrapolation

  function Seconds(ms: int): real {
    ms as real / 1000.0
  }

  /** How far beyond an end sample the result is extended when the range goes on for d. */
  function Reach(d: real, average: real): real {
    if d < average * 1.1 then d else average / 2.0
  }

  /** A counter is not extended beyond the point at which it would have been zero. */
  function ToStart(d: real, isCounter: bool, first: real, increase: real, sampled: real): real {
    if isCounter && increase > 0.0 && first >= 0.0 && sampled * (first / increase) < d
    then sampled * (first / increase)
    else d
  }

  function Change(s: seq<Point>, isCounter: bool): real
    requires |s| > 0
  {
    if isCounter then Rises(s) else s[|s| - 1].v - s[0].v
  }

  function Sampled(s: seq<Point>): real
    requires |s| > 0
  {
    Seconds(s[|s| - 1].t - s[0].t)
  }

  function Average(s: seq<Point>): real
    requires |s| >= 2
  {
    Sampled(s) / (|s| - 1) as real
  }

  /** How far the result is extended before the first sample and after the last. */
  function Before(s: seq<Point>, lo: int, isCounter: bool): real
    requires |s| >= 2
  {
    Reach(ToStart(Seconds(s[0].t - lo), isCounter, s[0].v, Change(s, isCounter), Sampled(s)), Average(s))
  }

  function After(s: seq<Point>, hi: int): real
    requires |s| >= 2
  {
    Reach(Seconds(hi - s[|s| - 1].t), Average(s))
  }

  function Extended(s: seq<Point>, lo: int, hi: int, isCounter: bool): real
    requires |s| >= 2
  {
    Sampled(s) + Before(s, lo, isCounter) + After(s, hi)
  }

  method Extend(s: seq<Point>, lo: int, hi: int, isCounter: bool, result: real) returns (interval: real)
    requires |s| >= 2 && Sampled(s) > 0.0 && result == Change(s, isCounter)
    ensures interval == Extended(s, lo, hi, isCounter)
  {
    hide Rises, Seconds, Average, Change;
    var durationToStart, durationToEnd := Seconds(s[0].t - lo), Seconds(hi - s[|s| - 1].t);
    var sampledInterval, average := Sampled(s), Average(s);
    if isCounter && result > 0.0 && s[0].v >= 0.0 {
      var durationToZero := sampledInterval * (s[0].v / result);
      if durationToZero < durationToStart {
        durationToStart := durationToZero;
      }
    }
    var threshold := average * 1.1;
    interval := sampledInterval;
    if durationToStart < threshold {
      interval := interval + durationToStart;
    } else {
      interval := interval + average / 2.0;
    }
    if durationToEnd < threshold {
      interval := interval + durationToEnd;
    } else {
      interval := interval + average / 2.0;
    }
  }

  /** The change over the samples, carried over the extended interval. */
  method ExtrapolatedRate(s: seq<Point>, ts: int, range: int, offset: int, isCounter: bool, isRate: bool)
    returns (r: Option<real>)
    requires Increasing(s) && range > 0
    ensures r == None <==> |s| < 2
    ensures |s| >= 2 ==> Sampled(s) > 0.0
    ensures |s| >= 2 ==>
      r.value == Rate(Change(s, isCounter), Sampled(s), Extended(s, ts - (range + offset), ts - offset, isCounter),
                      if isRate then Seconds(range) else 1.0)
  {
    hide Rises, Extended, Rate;
    if |s| < 2 {
      return None;
    }
    var rangeStart, rangeEnd := ts - (range + offset), ts - offset;
    var result := s[|s| - 1].v - s[0].v;
    if isCounter {
      result := CounterIncrease(s);
    }
    var interval := Extend(s, rangeStart, rangeEnd, isCounter, result);
    var factor := interval / Sampled(s);
    if isRate {
      factor := factor / Seconds(range);
    }
    RateIs(result, Sampled(s), interval, if isRate then Seconds(range) else 1.0);
    return Some(result * factor);
  }

  /** The average slope of the samples over the extended interval, per unit. */
  function Rate(change: real, sampled: real, extended: real, unit: real): real
    requires sampled > 0.0 && unit > 0.0
  {
    (change / sampled) * extended / unit
  }

  lemma {:induction false} RateIs(change: real, sampled: real, extended: real, unit: real)
    requires sampled > 0.0 && unit > 0.0
    ensures Rate(change, sampled, extended, unit) == change * (extended / sampled / unit)
    ensures unit == 1.0 ==> Rate(change, sampled, extended, unit) == change * (extended / sampled)
  {
    var a, b := change / sampled, extended / sampled;
    assert change == a * sampled && extended == b * sampled;
    assert a * extended == a * (b * sampled) == (a * sampled) * b == change * b;
    var c := b / unit;
    assert b == c * unit;
    assert change * b == change * (c * unit) == (change * c) * unit;
    Undo(change * c, unit);
  }

  lemma {:induction false} Undo(x: real, unit: real)
    requires unit > 0.0
    ensures x * unit / unit == x
  {
  }

  // ---------------------------------------------------------------------------
  // What follows about extrapolation

  /** The result is extended over at least the samples and at most the range. */
  lemma {:induction false} ExtendedWithinRange(s: seq<Point>, lo: int, hi: int, isCounter: bool)
    requires |s| >= 2 && Increasing(s) && lo <= s[0].t && s[|s| - 1].t <= hi
    ensures Sampled(s) <= Extended(s, lo, hi, isCounter) <= Seconds(hi - lo)
  {
    hide Rises;
    var d := Seconds(s[0].t - lo);
    assert Sampled(s) > 0.0;
    AveragePositive(s);
    ZeroPoint(d, isCounter, s[0].v, Change(s, isCounter), Sampled(s));
    ReachWithin(ToStart(d, isCounter, s[0].v, Change(s, isCounter), Sampled(s)), Average(s));
    ReachWithin(Seconds(hi - s[|s| - 1].t), Average(s));
  }

  lemma {:induction false} AveragePositive(s: seq<Point>)
    requires |s| >= 2 && Sampled(s) > 0.0
    ensures Average(s) > 0.0
  {
  }

  lemma {:induction false} ReachWithin(d: real, average: real)
    requires 0.0 <= d && 0.0 < average
    ensures 0.0 <= Reach(d, average) <= d
  {
  }

  lemma {:induction false} ZeroPoint(d: real, isCounter: bool, first: real, increase: real, sampled: real)
    requires 0.0 <= d && 0.0 < sampled
    ensures 0.0 <= ToStart(d, isCounter, first, increase, sampled) <= d
    ensures isCounter && 0.0 < increase && 0.0 <= first ==>
      (increase / sampled) * ToStart(d, isCounter, first, increase, sampled) <= first
  {
    if isCounter && 0.0 < increase && 0.0 <= first {
      var slope, z := increase / sampled, sampled * (first / increase);
      assert slope > 0.0 && z >= 0.0;
      SlopeToZero(first, increase, sampled);
      ScaleSlope(slope, ToStart(d, isCounter, first, increase, sampled), z);
    }
  }

  lemma {:induction false} SlopeToZero(first: real, increase: real, sampled: real)
    requires 0.0 < increase && 0.0 < sampled
    ensures (increase / sampled) * (sampled * (first / increase)) == first
  {
    var a, b := increase / sampled, first / increase;
    assert a * sampled == increase && increase * b == first;
    assert a * (sampled * b) == (a * sampled) * b;
  }

  lemma {:induction false} ScaleSlope(k: real, a: real, b: real)
    requires 0.0 <= k && a <= b
    ensures k * a <= k * b
  {
  }

  /** A counter is never extrapolated below zero. */
  lemma {:induction false} NotBelowZero(s: seq<Point>, lo: int)
    requires |s| >= 2 && Increasing(s) && lo <= s[0].t && 0.0 <= s[0].v
    ensures Sampled(s) > 0.0 && 0.0 <= s[0].v - (Rises(s) / Sampled(s)) * Before(s, lo, true)
  {
    hide Rises;
    var d, slope := Seconds(s[0].t - lo), Rises(s) / Sampled(s);
    AveragePositive(s);
    ZeroPoint(d, true, s[0].v, Rises(s), Sampled(s));
    var z := ToStart(d, true, s[0].v, Rises(s), Sampled(s));
    ReachWithin(z, Average(s));
    if slope > 0.0 {
      ScaleSlope(slope, Before(s, lo, true), z);
    } else {
      ScaleSlope(Before(s, lo, true), slope, 0.0);
    }
  }

  ghost predicate OnLine(s: seq<Point>, k: real) {
    forall i :: 0 <= i < |s| ==> s[i].v == s[0].v + k * Seconds(s[i].t - s[0].t)
  }

  /** A straight line has its slope as rate when samples lie near both ends of the range. */
  lemma {:induction false} LineHasItsSlope(s: seq<Point>, lo: int, hi: int, isCounter: bool, k: real)
    requires |s| >= 2 && Increasing(s) && lo <= s[0].t && s[|s| - 1].t <= hi && 0.0 <= k && OnLine(s, k)
    requires Seconds(s[0].t - lo) < Average(s) * 1.1 && Seconds(hi - s[|s| - 1].t) < Average(s) * 1.1
    requires isCounter ==> k * Seconds(s[0].t - lo) <= s[0].v
    ensures Sampled(s) > 0.0 && Seconds(hi - lo) > 0.0
    ensures Rate(Change(s, isCounter), Sampled(s), Extended(s, lo, hi, isCounter), Seconds(hi - lo)) == k
  {
    hide OnLine, Rises, Average, Rate, ToStart, Change;
    LineChange(s, isCounter, k);
    NotCut(Seconds(s[0].t - lo), isCounter, s[0].v, k, Sampled(s), Change(s, isCounter));
    WholeRange(s, lo, hi, isCounter);
    RateOfLine(k, Sampled(s), Seconds(hi - lo), Change(s, isCounter));
  }

  /** Near samples at both ends and no cut: the result covers the range. */
  lemma {:induction false} WholeRange(s: seq<Point>, lo: int, hi: int, isCounter: bool)
    requires |s| >= 2
    requires Seconds(s[0].t - lo) < Average(s) * 1.1 && Seconds(hi - s[|s| - 1].t) < Average(s) * 1.1
    requires var d := Seconds(s[0].t - lo); ToStart(d, isCounter, s[0].v, Change(s, isCounter), Sampled(s)) == d
    ensures Extended(s, lo, hi, isCounter) == Seconds(hi - lo)
  {
    hide Rises, Average, ToStart, Change;
  }

  lemma {:induction false} RateOfLine(k: real, sampled: real, unit: real, change: real)
    requires sampled > 0.0 && unit > 0.0 && change == k * sampled
    ensures Rate(change, sampled, unit, unit) == k
  {
    Undo(k, sampled);
    Undo(k, unit);
  }

  /** The line is above zero over the whole range, so its start is not cut. */
  lemma {:induction false} NotCut(d: real, isCounter: bool, first: real, k: real, sampled: real,
                                  increase: real)
    requires 0.0 <= d && 0.0 <= k && 0.0 < sampled && increase == k * sampled && (isCounter ==> k * d <= first)
    ensures ToStart(d, isCounter, first, increase, sampled) == d
  {
    if isCounter && increase > 0.0 && first >= 0.0 {
      SlopeToZero(first, increase, sampled);
      Undo(k, sampled);
      NotSmaller(k, d, sampled * (first / increase));
    }
  }

  lemma {:induction false} NotSmaller(k: real, a: real, b: real)
    requires 0.0 < k && k * a <= k * b
    ensures a <= b
  {
  }

  lemma {:induction false} LineClimbs(s: seq<Point>, k: real, i: int)
    requires Increasing(s) && 0.0 <= k && OnLine(s, k) && 0 < i < |s|
    ensures s[i - 1].v <= s[i].v
  {
    ScaleSlope(k, Seconds(s[i - 1].t - s[0].t), Seconds(s[i].t - s[0].t));
  }

  lemma {:induction false} LineChange(s: seq<Point>, isCounter: bool, k: real)
    requires |s| >= 2 && Increasing(s) && 0.0 <= k && OnLine(s, k)
    ensures Sampled(s) > 0.0 && Change(s, isCounter) == k * Sampled(s)
  {
    hide Rises, OnLine;
    forall i | 0 < i < |s|
      ensures s[i - 1].v <= s[i].v
    {
      LineClimbs(s, k, i);
    }
    NoResets(s);
    LineEnds(s, k);
  }

  lemma {:induction false} LineEnds(s: seq<Point>, k: real)
    requires |s| >= 1 && OnLine(s, k)
    ensures s[|s| - 1].v - s[0].v == k * Sampled(s)
  {
  }

  // ---------------------------------------------------------------------------
  // The extension in numbers

  /** e is how far the result is carried over d seconds without samples: all of it, or half an average interval. */
  ghost predicate IsExtension(e: real, d: real, average: real) {
    if d < average * 1.1 then e == d else e == average / 2.0
  }

  /** first and change are of a counter that, going down as it went up, reaches zero before d seconds are over. */
  ghost predicate ReachesZero(first: real, change: real, sampled: real, d: real) {
    change > 0.0 && first >= 0.0 && sampled * first < d * change
  }

  /** After that many seconds. */
  ghost function ToZero(first: real, change: real, sampled: real): real
    requires change > 0.0
  {
    first / change * sampled
  }

  /**
    After the last sample the result is carried to the end of the range, or half an average interval if that is
    farther than 1.1 of them.  Before the first it is the same with the start, where for a counter the range is
    taken to start no earlier than where the counter would be zero.
   */
  lemma {:induction false} ExtensionIs(s: seq<Point>, lo: int, hi: int, isCounter: bool)
    requires |s| >= 2 && Increasing(s)
    ensures var sampled := (s[|s| - 1].t - s[0].t) as real / 1000.0;
      var average := sampled / (|s| - 1) as real;
      var change := if isCounter then Rises(s) else s[|s| - 1].v - s[0].v;
      var d := (s[0].t - lo) as real / 1000.0;
      var before, after := Before(s, lo, isCounter), After(s, hi);
      && Extended(s, lo, hi, isCounter) == sampled + before + after
      && IsExtension(after, (hi - s[|s| - 1].t) as real / 1000.0, average)
      && (isCounter && ReachesZero(s[0].v, change, sampled, d) ==>
            change > 0.0 && IsExtension(before, ToZero(s[0].v, change, sampled), average))
      && (!(isCounter && ReachesZero(s[0].v, change, sampled, d)) ==> IsExtension(before, d, average))
  {
    hide Rises, Reach, ToStart, IsExtension, ReachesZero, ToZero;
    var sampled, change, d := Sampled(s), Change(s, isCounter), Seconds(s[0].t - lo);
    StartIs(d, isCounter, s[0].v, change, sampled);
    ReachIs(ToStart(d, isCounter, s[0].v, change, sampled), Average(s));
    ReachIs(Seconds(hi - s[|s| - 1].t), Average(s));
  }

  lemma {:induction false} ReachIs(d: real, average: real)
    ensures IsExtension(Reach(d, average), d, average)
  {
  }

  lemma {:induction false} StartIs(d: real, isCounter: bool, first: real, change: real, sampled: real)
    ensures isCounter && ReachesZero(first, change, sampled, d) ==>
      change > 0.0 && ToStart(d, isCounter, first, change, sampled) == ToZero(first, change, sampled)
    ensures !(isCounter && ReachesZero(first, change, sampled, d)) ==> ToStart(d, isCounter, first, change, sampled) == d
  {
    if isCounter && change > 0.0 {
      ZeroBefore(first, change, sampled, d);
    }
  }

  lemma {:induction false} ZeroBefore(first: real, change: real, sampled: real, d: real)
    requires change > 0.0
    ensures sampled * (first / change) < d <==> sampled * first < d * change
  {
    var z := first / change;
    assert z * change == first;
    assert (sampled * z) * change == sampled * first;
    if sampled * z < d {
      LessTimes(sampled * z, d, change);
    } else {
      ScaleSlope(change, d, sampled * z);
    }
  }

  lemma {:induction false} LessTimes(a: real, b: real, c: real)
    requires a < b && 0.0 < c
    ensures a * c < b * c
  {
  }

  /** The result is the change per second of the samples, times the seconds covered, per second of range for a rate. */
  lemma {:induction false} RateTimes(change: real, sampled: real, extended: real, unit: real)
    requires sampled > 0.0 && unit > 0.0
    ensures Rate(change, sampled, extended, unit) * unit * sampled == change * extended
  {
    var a := change / sampled;
    assert a * sampled == change;
    var r := a * extended / unit;
    assert r * unit == a * extended;
    assert a * extended * sampled == (a * sampled) * extended;
  }
}

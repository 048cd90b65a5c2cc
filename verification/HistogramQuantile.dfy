/**
  promql/quantile.go: quantiles and fractions of native histograms, over exact reals.
  Both are read off one cumulative function, which makes one the inverse of the other.
 */
module HistogramQuantile {

  import opened Bounds

  datatype Bucket = Bucket(lower: real, upper: real, count: real)

  /** A float histogram: its bucket iterator's buckets, and whether it has any negative or positive ones. */
  datatype Histogram = Histogram(count: real, buckets: seq<Bucket>, hasNegative: bool, hasPositive: bool)

  /** The zero bucket of a one-sided histogram is cut at zero. */
  function Adjust(h: Histogram, b: Bucket): Bucket {
    if b.lower < 0.0 && b.upper > 0.0 then
      if !h.hasNegative && h.hasPositive then b.(lower := 0.0)
      else if !h.hasPositive && h.hasNegative then b.(upper := 0.0)
      else b
    else b
  }

  function Adjusted(h: Histogram): seq<Bucket> {
    seq(|h.buckets|, i requires 0 <= i < |h.buckets| => Adjust(h, h.buckets[i]))
  }

  function Sum(bs: seq<Bucket>): real {
    if |bs| == 0 then 0.0 else Sum(bs[..|bs| - 1]) + bs[|bs| - 1].count
  }

  /** Buckets of positive width, in order and without overlap, with counts that are not negative. */
  ghost predicate Proper(bs: seq<Bucket>) {
    && (forall i :: 0 <= i < |bs| ==> bs[i].lower < bs[i].upper && 0.0 <= bs[i].count)
    && (forall i, j :: 0 <= i < j < |bs| ==> bs[i].upper <= bs[j].lower)
  }

  /** The buckets count at most all observations: those of NaN are in none. */
  ghost predicate ValidHistogram(h: Histogram) {
    Proper(h.buckets) && Sum(h.buckets) <= h.count && 0.0 < h.count
  }

  // ---------------------------------------------------------------------------
  // The reference: observations spread evenly over their bucket

  /** The part of a bucket's count up to a point inside it. */
  function Share(b: Bucket, v: real): real
    requires b.lower < b.upper
  {
    b.count * ((v - b.lower) / (b.upper - b.lower))
  }

  /** How much of a bucket lies below x. */
  function Part(b: Bucket, x: Bound): real
    requires b.lower < b.upper
  {
    match x
    case MinusInf => 0.0
    case PlusInf => b.count
    case Fin(v) =>
      if v <= b.lower then 0.0 else if v >= b.upper then b.count
      else Share(b, v)
  }

  function Below(bs: seq<Bucket>, x: Bound): real
    requires forall i :: 0 <= i < |bs| ==> bs[i].lower < bs[i].upper
  {
    if |bs| == 0 then 0.0 else Below(bs[..|bs| - 1], x) + Part(bs[|bs| - 1], x)
  }

  lemma {:induction false} PartBounds(b: Bucket, x: Bound, y: Bound)
    requires b.lower < b.upper && 0.0 <= b.count && AtMost(x, y)
    ensures 0.0 <= Part(b, x) <= Part(b, y) <= b.count
  {
    hide Share;
    if x.Fin? && b.lower <= x.x <= b.upper {
      ShareBounds(b, x.x);
    }
    if y.Fin? && b.lower <= y.x <= b.upper {
      ShareBounds(b, y.x);
      if x.Fin? && b.lower <= x.x {
        ShareMonotone(b, x.x, y.x);
      }
    }
  }

  lemma {:induction false} ShareBounds(b: Bucket, v: real)
    requires b.lower < b.upper && 0.0 <= b.count && b.lower <= v <= b.upper
    ensures 0.0 <= Share(b, v) <= b.count
  {
    var r := (v - b.lower) / (b.upper - b.lower);
    QuotientInUnit(v - b.lower, b.upper - b.lower);
    Scale(b.count, 0.0, r);
    Scale(b.count, r, 1.0);
    assert b.count * 1.0 == b.count;
  }

  lemma {:induction false} ShareMonotone(b: Bucket, v: real, w: real)
    requires b.lower < b.upper && 0.0 <= b.count && v <= w
    ensures Share(b, v) <= Share(b, w)
  {
    var d := b.upper - b.lower;
    QuotientMonotone(v - b.lower, w - b.lower, d);
    Scale(b.count, (v - b.lower) / d, (w - b.lower) / d);
  }

  /** The cumulative function is monotone. */
  lemma {:induction false} BelowMonotone(bs: seq<Bucket>, x: Bound, y: Bound)
    requires Proper(bs) && AtMost(x, y)
    ensures 0.0 <= Below(bs, x) <= Below(bs, y) <= Sum(bs)
  {
    if |bs| > 0 {
      BelowMonotone(bs[..|bs| - 1], x, y);
      PartBounds(bs[|bs| - 1], x, y);
    }
  }

  lemma {:induction false} BelowConcat(a: seq<Bucket>, b: seq<Bucket>, x: Bound)
    requires forall i :: 0 <= i < |a| ==> a[i].lower < a[i].upper
    requires forall i :: 0 <= i < |b| ==> b[i].lower < b[i].upper
    ensures forall i :: 0 <= i < |a + b| ==> (a + b)[i].lower < (a + b)[i].upper
    ensures Below(a + b, x) == Below(a, x) + Below(b, x)
  {
    if |b| == 0 {
      assert a + b == a;
    } else {
      BelowConcat(a, b[..|b| - 1], x);
      assert (a + b)[..|a + b| - 1] == a + b[..|b| - 1];
    }
  }

  /** Buckets that end by x count in full. */
  lemma {:induction false} BelowAll(bs: seq<Bucket>, x: Bound)
    requires forall i :: 0 <= i < |bs| ==> bs[i].lower < bs[i].upper && AtMost(Fin(bs[i].upper), x)
    ensures Below(bs, x) == Sum(bs)
  {
    if |bs| > 0 {
      BelowAll(bs[..|bs| - 1], x);
    }
  }

  /** Buckets that begin at or after x do not count. */
  lemma {:induction false} BelowNone(bs: seq<Bucket>, x: Bound)
    requires forall i :: 0 <= i < |bs| ==> bs[i].lower < bs[i].upper && AtMost(x, Fin(bs[i].lower))
    ensures Below(bs, x) == 0.0
  {
    if |bs| > 0 {
      BelowNone(bs[..|bs| - 1], x);
    }
  }

  /** The cumulative function at a point in, or at an end of, the i-th bucket's reach. */
  lemma {:induction false} BelowAt(bs: seq<Bucket>, i: int, x: Bound)
    requires Proper(bs) && 0 <= i < |bs|
    requires forall k :: 0 <= k < i ==> AtMost(Fin(bs[k].upper), x)
    requires AtMost(x, Fin(bs[i].upper))
    ensures Below(bs, x) == Sum(bs[..i]) + Part(bs[i], x)
  {
    hide Below, Sum, Part;
    var a, b, c := bs[..i], [bs[i]], bs[i + 1..];
    assert bs == a + b + c;
    BelowConcat(a, b, x);
    BelowConcat(a + b, c, x);
    BelowAll(a, x);
    forall k | 0 <= k < |c|
      ensures AtMost(x, Fin(c[k].lower))
    {
      assert c[k] == bs[i + 1 + k] && bs[i].upper <= bs[i + 1 + k].lower;
    }
    BelowNone(c, x);
    BelowOne(bs[i], x);
  }

  lemma {:induction false} BelowOne(b: Bucket, x: Bound)
    requires b.lower < b.upper
    ensures Below([b], x) == Part(b, x)
  {
    assert [b][..0] == [];
  }

  // ---------------------------------------------------------------------------
  // The two functions of the source

  lemma {:induction false} AdjustedProper(h: Histogram)
    requires Proper(h.buckets)
    ensures Proper(Adjusted(h)) && Sum(Adjusted(h)) == Sum(h.buckets)
  {
    hide Sum;
    SumAdjusted(h, |h.buckets|);
    assert Sum(Adjusted(h)) == Sum(h.buckets) by {
      hide Proper, Adjust;
      assert Adjusted(h)[..|h.buckets|] == Adjusted(h);
      assert h.buckets[..|h.buckets|] == h.buckets;
    }
  }

  lemma {:induction false} SumAdjusted(h: Histogram, n: int)
    requires 0 <= n <= |h.buckets|
    ensures Sum(Adjusted(h)[..n]) == Sum(h.buckets[..n])
  {
    if n > 0 {
      SumAdjusted(h, n - 1);
      SumSnoc(Adjusted(h), n - 1);
      SumSnoc(h.buckets, n - 1);
    }
  }

  lemma {:induction false} SumSnoc(bs: seq<Bucket>, n: int)
    requires 0 <= n < |bs|
    ensures Sum(bs[..n + 1]) == Sum(bs[..n]) + bs[n].count
  {
    assert bs[..n + 1][..n] == bs[..n];
  }

  /** The cumulative count of a histogram. */
  function Cumulative(h: Histogram, x: Bound): real
    requires forall i :: 0 <= i < |h.buckets| ==> h.buckets[i].lower < h.buckets[i].upper
  {
    Below(Adjusted(h), x)
  }

  /** The loop of histogramQuantile: the first bucket with which the running count reaches the rank. */
  method FindBucket(bs: seq<Bucket>, rank: real) returns (n: int, count: real)
    ensures 0 <= n <= |bs| && count == Sum(bs[..n])
    ensures forall k :: 1 <= k < n ==> Sum(bs[..k]) < rank
    ensures n == 0 || n == |bs| || rank <= count
    ensures n == 0 ==> |bs| == 0
  {
    n, count := 0, 0.0;
    while n < |bs|
      invariant 0 <= n <= |bs| && count == Sum(bs[..n])
      invariant forall k :: 1 <= k <= n ==> Sum(bs[..k]) < rank
    {
      SumSnoc(bs, n);
      count := count + bs[n].count;
      n := n + 1;
      if count >= rank {
        break;
      }
    }
  }

  /** The zero bucket starts or ends at zero if there are buckets on one side only. */
  method CutAtZero(h: Histogram, b: Bucket) returns (r: Bucket)
    ensures r == Adjust(h, b) && r.count == b.count
    ensures b.lower == b.upper == 0.0 ==> r == b
  {
    r := b;
    if b.lower < 0.0 && b.upper > 0.0 {
      if !h.hasNegative && h.hasPositive {
        r := r.(lower := 0.0);
      } else if !h.hasPositive && h.hasNegative {
        r := r.(upper := 0.0);
      }
    }
  }

  /** v lies in a bucket that has observations. */
  ghost predicate InObserved(h: Histogram, v: real) {
    exists k :: 0 <= k < |h.buckets| && 0.0 < h.buckets[k].count && Adjusted(h)[k].lower < v <= Adjusted(h)[k].upper
  }

  /** The upper end of all buckets. */
  function Top(h: Histogram): real {
    if |h.buckets| == 0 then 0.0 else Adjust(h, h.buckets[|h.buckets| - 1]).upper
  }

  /** At q = 0: the start of the first bucket, if that has observations. */
  function Bottom(h: Histogram): Result {
    if |h.buckets| == 0 || h.buckets[0].count == 0.0 then NaN else Value(Fin(Adjust(h, h.buckets[0]).lower))
  }

  /**
    The quantile is the point up to which the share q of the observations lies; or the upper end of the buckets,
    if they do not have that many.
   */
  method HistogramQuantile(q: real, h: Histogram) returns (r: Result)
    ensures q < 0.0 ==> r == Value(MinusInf)
    ensures q > 1.0 ==> r == Value(PlusInf)
    ensures 0.0 <= q <= 1.0 && h.count == 0.0 ==> r == NaN
    ensures ValidHistogram(h) && 0.0 < q <= 1.0 && q * h.count <= Sum(h.buckets) ==>
      r.Value? && r.v.Fin? && Cumulative(h, r.v) == q * h.count && InObserved(h, r.v.x)
    ensures ValidHistogram(h) && 0.0 <= q <= 1.0 && Sum(h.buckets) < q * h.count ==> r == Value(Fin(Top(h)))
    ensures ValidHistogram(h) && q == 0.0 ==> r == Bottom(h)
    ensures ValidHistogram(h) && IsPositive(h) && 0.0 < q <= 1.0 ==> r.Value? && r.v.Fin? && 0.0 <= r.v.x
    ensures ValidHistogram(h) && IsNegative(h) && 0.0 < q <= 1.0 ==> r.Value? && r.v.Fin? && r.v.x <= 0.0
  {
    hide Sum, Below, Proper, Cumulative, ValidHistogram, InObserved, Top, IsPositive, IsNegative, Adjust;
    Widths(h);
    Sides(h);
    if q < 0.0 {
      return Value(MinusInf);
    }
    if q > 1.0 {
      return Value(PlusInf);
    }
    if h.count == 0.0 {
      NotEmpty(h);
      return NaN;
    }
    var rank := q * h.count;
    RankBounds(q, h.count, rank);
    var n, count := FindBucket(h.buckets, rank);
    var bucket := if n == 0 then Bucket(0.0, 0.0, 0.0) else h.buckets[n - 1];
    bucket := CutAtZero(h, bucket);
    if ValidHistogram(h) {
      if q == 0.0 {
        RankZero(h, rank, n, count);
      } else if rank <= Sum(h.buckets) {
        RankReached(h, rank, n, count);
      } else {
        RankMissed(h, rank, n, count);
      }
    }
    if count > h.count {
      count := h.count;
    }
    if count < rank {
      return Value(Fin(bucket.upper));
    }
    rank := rank - (count - bucket.count);
    if bucket.count == 0.0 {
      return NaN;
    }
    var v := bucket.lower + (bucket.upper - bucket.lower) * (rank / bucket.count);
    if ValidHistogram(h) && 0.0 < q {
      QuantilePoint(h, n - 1, rank, v);
    }
    assert rank == 0.0 ==> v == bucket.lower;
    return Value(Fin(v));
  }

  lemma {:induction false} Sides(h: Histogram)
    ensures ValidHistogram(h) && IsPositive(h) ==> 0.0 <= Top(h) && forall v :: InObserved(h, v) ==> 0.0 <= v
    ensures ValidHistogram(h) && IsNegative(h) ==> Top(h) <= 0.0 && forall v :: InObserved(h, v) ==> v <= 0.0
    ensures Top(h) == if |h.buckets| == 0 then 0.0 else Adjust(h, h.buckets[|h.buckets| - 1]).upper
  {
    hide ValidHistogram, InObserved;
    if ValidHistogram(h) && IsPositive(h) {
      NothingNegative(h);
    }
    if ValidHistogram(h) && IsNegative(h) {
      NothingPositive(h);
    }
  }

  lemma {:induction false} Widths(h: Histogram)
    ensures ValidHistogram(h) ==> forall i :: 0 <= i < |h.buckets| ==> h.buckets[i].lower < h.buckets[i].upper
    ensures ValidHistogram(h) ==> 0.0 < h.count
  {
  }

  lemma {:induction false} NotEmpty(h: Histogram)
    requires h.count == 0.0
    ensures !ValidHistogram(h)
  {
  }

  lemma {:induction false} SumPrefix(bs: seq<Bucket>, n: int)
    requires Proper(bs) && 0 <= n <= |bs|
    ensures 0.0 <= Sum(bs[..n]) <= Sum(bs)
    decreases |bs| - n
  {
    if n < |bs| {
      SumPrefix(bs, n + 1);
      SumSnoc(bs, n);
    } else {
      assert bs[..n] == bs;
    }
    SumNotNegative(bs[..n]);
  }

  lemma {:induction false} SumNotNegative(bs: seq<Bucket>)
    requires forall i :: 0 <= i < |bs| ==> 0.0 <= bs[i].count
    ensures 0.0 <= Sum(bs)
  {
    if |bs| > 0 {
      SumNotNegative(bs[..|bs| - 1]);
    }
  }

  /** The first bucket reaches rank 0. */
  lemma {:induction false} RankZero(h: Histogram, rank: real, n: int, count: real)
    requires ValidHistogram(h) && rank == 0.0 && 0 <= n <= |h.buckets| && count == Sum(h.buckets[..n])
    requires forall k :: 1 <= k < n ==> Sum(h.buckets[..k]) < rank
    requires n == 0 ==> |h.buckets| == 0
    ensures 0.0 <= Sum(h.buckets) && (n == 0 ==> count == 0.0)
    ensures n > 0 ==> n == 1 && count == h.buckets[0].count && 0.0 <= count <= h.count
  {
    var bs := h.buckets;
    SumPrefix(bs, 0);
    if n > 0 {
      SumPrefix(bs, 1);
      assert n == 1;
      SumSnoc(bs, 0);
      assert bs[..0] == [];
    }
  }

  /** A rank that the buckets do not have is not reached. */
  lemma {:induction false} RankMissed(h: Histogram, rank: real, n: int, count: real)
    requires ValidHistogram(h) && Sum(h.buckets) < rank && 0 <= n <= |h.buckets| && count == Sum(h.buckets[..n])
    requires n == 0 || n == |h.buckets| || rank <= count
    requires n == 0 ==> |h.buckets| == 0
    ensures n == |h.buckets| && count < rank && count <= h.count
  {
    SumPrefix(h.buckets, n);
  }

  /** A rank that they do have is reached, inside a bucket with observations. */
  lemma {:induction false} RankReached(h: Histogram, rank: real, n: int, count: real)
    requires ValidHistogram(h) && 0.0 < rank <= Sum(h.buckets) && 0 <= n <= |h.buckets| && count == Sum(h.buckets[..n])
    requires forall k :: 1 <= k < n ==> Sum(h.buckets[..k]) < rank
    requires n == 0 || n == |h.buckets| || rank <= count
    requires n == 0 ==> |h.buckets| == 0
    ensures 0 < n && rank <= count <= h.count
    ensures var c := h.buckets[n - 1].count;
      0.0 < c && count == Sum(h.buckets[..n - 1]) + c && 0.0 < rank - Sum(h.buckets[..n - 1]) <= c
  {
    var bs := h.buckets;
    SumPrefix(bs, n);
    assert bs[..|bs|] == bs;
    assert n > 0 by { assert |bs| == 0 ==> Sum(bs) == 0.0; }
    SumSnoc(bs, n - 1);
    assert n == 1 ==> Sum(bs[..n - 1]) == 0.0;
    if n == |bs| {
      assert bs[..n] == bs;
    }
  }

  lemma {:induction false} RankBounds(q: real, count: real, rank: real)
    requires rank == q * count
    ensures 0.0 < q <= 1.0 && 0.0 < count ==> 0.0 < rank <= count
    ensures q == 0.0 ==> rank == 0.0
    ensures 0.0 < q < 1.0 && 0.0 < count ==> rank < count
  {
    if 0.0 < q && 0.0 < count {
      Positive(q, count);
      if q < 1.0 {
        Positive(1.0 - q, count);
        assert (1.0 - q) * count == count - rank;
      }
    }
  }

  lemma {:induction false} Positive(a: real, b: real)
    requires 0.0 < a && 0.0 < b
    ensures 0.0 < a * b
  {
  }

  lemma {:induction false} Fraction(w: real, rank: real, count: real)
    requires 0.0 < w && 0.0 < rank <= count
    ensures 0.0 < w * (rank / count) <= w
    ensures w * (rank / count) == w ==> rank == count
    ensures count * ((w * (rank / count)) / w) == rank
  {
    var t := rank / count;
    assert 0.0 < t <= 1.0;
    assert count * t == rank;
    Scale(w, t, 1.0);
    assert (w * t) / w == t;
  }

  lemma {:induction false} PartAt(b: Bucket, rank: real, v: real)
    requires b.lower < b.upper && 0.0 < rank <= b.count && v == b.lower + (b.upper - b.lower) * (rank / b.count)
    ensures b.lower < v <= b.upper && Part(b, Fin(v)) == rank
  {
    Fraction(b.upper - b.lower, rank, b.count);
  }

  /** Interpolating in the k-th bucket meets the cumulative function. */
  lemma {:induction false} QuantilePoint(h: Histogram, k: int, rank: real, v: real)
    requires ValidHistogram(h) && 0 <= k < |h.buckets| && 0.0 < rank <= h.buckets[k].count
    requires var b := Adjust(h, h.buckets[k]); v == b.lower + (b.upper - b.lower) * (rank / b.count)
    ensures Cumulative(h, Fin(v)) == Sum(h.buckets[..k]) + rank && InObserved(h, v)
  {
    hide Below, Sum, Part;
    var bs := Adjusted(h);
    AdjustedProper(h);
    PartAt(bs[k], rank, v);
    assert 0.0 < h.buckets[k].count && Adjusted(h)[k].lower < v <= Adjusted(h)[k].upper;
    ReachesBack(bs, k, v);
    BelowAt(bs, k, Fin(v));
    SumAdjusted(h, k);
  }

  lemma {:induction false} ReachesBack(bs: seq<Bucket>, k: int, v: real)
    requires Proper(bs) && 0 <= k < |bs| && bs[k].lower <= v
    ensures forall j :: 0 <= j < k ==> AtMost(Fin(bs[j].upper), Fin(v))
  {
  }

  /** x is at or after the end of all buckets. */
  ghost predicate Past(bs: seq<Bucket>, x: Bound) {
    forall k :: 0 <= k < |bs| ==> AtMost(Fin(bs[k].upper), x)
  }

  /** Where one bound falls: nothing yet, or the cumulative count at it. */
  ghost predicate Tracks(bs: seq<Bucket>, n: int, x: Bound, set': bool, rank: real)
    requires Proper(bs) && 0 <= n <= |bs|
  {
    if set' then rank == Below(bs, x) && !Past(bs, x) else forall k :: 0 <= k < n ==> AtMost(Fin(bs[k].upper), x)
  }

  /** The part of a bucket's count up to a point inside it, as histogramFraction computes it. */
  function Inside(b: Bucket, v: real): real
    requires b.lower < b.upper
  {
    b.count * (v - b.lower) / (b.upper - b.lower)
  }

  /** A bound at or before the n-th bucket that no earlier bucket reaches. */
  lemma {:induction false} BoundBefore(bs: seq<Bucket>, n: int, x: Bound)
    requires Proper(bs) && 0 <= n < |bs| && Tracks(bs, n, x, false, 0.0) && AtMost(x, Fin(bs[n].lower))
    ensures Below(bs, x) == Sum(bs[..n])
  {
    BelowAt(bs, n, x);
  }

  /** A bound inside the n-th bucket. */
  lemma {:induction false} BoundInside(bs: seq<Bucket>, n: int, x: real)
    requires Proper(bs) && 0 <= n < |bs| && Tracks(bs, n, Fin(x), false, 0.0) && bs[n].lower < x < bs[n].upper
    ensures Below(bs, Fin(x)) == Sum(bs[..n]) + Inside(bs[n], x)
  {
    hide Below, Sum, Part, Inside;
    BelowAt(bs, n, Fin(x));
    PartInside(bs[n], x);
  }

  lemma {:induction false} PartInside(b: Bucket, x: real)
    requires b.lower < x < b.upper
    ensures Part(b, Fin(x)) == Inside(b, x)
  {
    Associate(b.count, x - b.lower, b.upper - b.lower);
  }

  lemma {:induction false} Associate(c: real, a: real, d: real)
    requires d > 0.0
    ensures c * (a / d) == c * a / d
  {
  }

  /** A bound, whether it has been placed, and the rank it was placed at. */
  datatype Placed = Placed(done: bool, rank: real)

  /** One bucket against one bound, as the loop of histogramFraction treats both bounds. */
  function Place(b: Bucket, x: Bound, rank: real, p: Placed): Placed {
    if p.done then p
    else if AtMost(x, Fin(b.lower)) then Placed(true, rank)
    else if x.Fin? && b.lower < x.x && b.upper > x.x then
      Placed(true, rank + Inside(b, x.x))
    else p
  }

  lemma {:induction false} PlaceTracks(bs: seq<Bucket>, n: int, x: Bound, p: Placed)
    requires Proper(bs) && 0 <= n < |bs| && Tracks(bs, n, x, p.done, p.rank)
    ensures var r := Place(bs[n], x, Sum(bs[..n]), p); Tracks(bs, n + 1, x, r.done, r.rank)
  {
    hide Below, Sum, Past, Inside;
    if !p.done {
      if AtMost(x, Fin(bs[n].lower)) {
        BoundBefore(bs, n, x);
        NotPast(bs, n, x);
      } else if x.Fin? && bs[n].lower < x.x && bs[n].upper > x.x {
        BoundInside(bs, n, x.x);
        NotPast(bs, n, x);
      } else {
        assert AtMost(Fin(bs[n].upper), x);
      }
    }
  }

  lemma {:induction false} NotPast(bs: seq<Bucket>, n: int, x: Bound)
    requires 0 <= n < |bs| && !AtMost(Fin(bs[n].upper), x)
    ensures !Past(bs, x)
  {
  }

  /** The observations up to a bound; past all buckets also those that are in none. */
  ghost function RankAt(h: Histogram, x: Bound): real
    requires forall i :: 0 <= i < |h.buckets| ==> h.buckets[i].lower < h.buckets[i].upper
  {
    if Past(Adjusted(h), x) then h.count else Cumulative(h, x)
  }

  /** The share of the observations between two bounds. */
  ghost function FractionOf(h: Histogram, lower: Bound, upper: Bound): real
    requires h.count != 0.0 && forall i :: 0 <= i < |h.buckets| ==> h.buckets[i].lower < h.buckets[i].upper
  {
    (RankAt(h, upper) - RankAt(h, lower)) / h.count
  }

  /** The fraction is the difference of the ranks of the two bounds. */
  method HistogramFraction(lower: Bound, upper: Bound, h: Histogram) returns (r: Result)
    ensures h.count == 0.0 ==> r == NaN
    ensures h.count != 0.0 && AtMost(upper, lower) ==> r == Value(Fin(0.0))
    ensures ValidHistogram(h) && !AtMost(upper, lower) ==> r == Value(Fin(FractionOf(h, lower, upper)))
  {
    hide Sum, Below, Proper, Tracks, Place, Adjust, RankAt, ValidHistogram;
    Widths(h);
    if h.count == 0.0 {
      NotEmpty(h);
      return NaN;
    }
    if AtMost(upper, lower) {
      return Value(Fin(0.0));
    }
    ghost var bs, valid := Adjusted(h), ValidHistogram(h);
    var rank, lo, hi := 0.0, Placed(false, 0.0), Placed(false, 0.0);
    if valid {
      StartTracks(h, lower);
      StartTracks(h, upper);
    }
    var i := 0;
    while i < |h.buckets|
      invariant 0 <= i <= |h.buckets|
      invariant valid ==> Proper(bs) && rank == Sum(bs[..i])
      invariant valid ==> Tracks(bs, i, lower, lo.done, lo.rank) && Tracks(bs, i, upper, hi.done, hi.rank)
    {
      var b := Adjust(h, h.buckets[i]);
      if valid {
        PlaceTracks(bs, i, lower, lo);
        PlaceTracks(bs, i, upper, hi);
        SumSnoc(bs, i);
      }
      lo, hi := Place(b, lower, rank, lo), Place(b, upper, rank, hi);
      rank := rank + b.count;
      i := i + 1;
      if lo.done && hi.done {
        break;
      }
    }
    if valid {
      EndTracks(h, i, lower, lo);
      EndTracks(h, i, upper, hi);
    }
    var lowerRank := if !lo.done || lo.rank > h.count then h.count else lo.rank;
    var upperRank := if !hi.done || hi.rank > h.count then h.count else hi.rank;
    return Value(Fin((upperRank - lowerRank) / h.count));
  }

  lemma {:induction false} StartTracks(h: Histogram, x: Bound)
    requires ValidHistogram(h)
    ensures var bs := Adjusted(h); Proper(bs) && Sum(bs[..0]) == 0.0 && Tracks(bs, 0, x, false, 0.0)
  {
    AdjustedProper(h);
  }

  /** A bound that no bucket placed lies after all of them. */
  lemma {:induction false} EndTracks(h: Histogram, i: int, x: Bound, p: Placed)
    requires ValidHistogram(h) && Proper(Adjusted(h)) && 0 <= i <= |h.buckets|
    requires Tracks(Adjusted(h), i, x, p.done, p.rank) && (i == |h.buckets| || p.done)
    ensures RankAt(h, x) == if !p.done || p.rank > h.count then h.count else p.rank
  {
    hide Below, Sum;
    AdjustedProper(h);
    BelowMonotone(Adjusted(h), x, x);
    if !p.done {
      BelowAll(Adjusted(h), x);
    }
  }

  // ---------------------------------------------------------------------------
  // What follows for every valid histogram

  /**
    When the fraction up to the quantile of q is q again.  With observations in no bucket it is not for the ranks
    they take, nor for the rank at the very end of the buckets: the fraction there is 1.
   */
  ghost predicate Inverts(q: real, h: Histogram) {
    && |h.buckets| > 0
    && if q == 0.0 then 0.0 < h.buckets[0].count
       else
         || q == 1.0 || q * h.count < Sum(h.buckets)
         || (q * h.count == Sum(h.buckets) && h.buckets[|h.buckets| - 1].count == 0.0)
  }

  method QuantileThenFraction(q: real, h: Histogram) returns (f: Result)
    requires ValidHistogram(h) && 0.0 <= q <= 1.0
    ensures f == Value(Fin(q)) <==> Inverts(q, h)
  {
    hide Sum, Proper, Cumulative, RankAt, InObserved, ValidHistogram, Top, Bottom, Inverts;
    Widths(h);
    var v := HistogramQuantile(q, h);
    NothingBelow(h);
    ghost var rank := q * h.count;
    assert rank / h.count == q && h.count / h.count == 1.0;
    if q == 0.0 {
      BottomRank(h);
    } else if rank <= Sum(h.buckets) {
      QuantileRank(h, q, rank, v.v.x);
    } else {
      TopRank(h, q, rank);
    }
    if v.NaN? {
      return NaN;
    }
    f := HistogramFraction(MinusInf, v.v, h);
  }

  lemma {:induction false} NothingBelow(h: Histogram)
    requires ValidHistogram(h)
    ensures RankAt(h, PlusInf) == h.count && RankAt(h, MinusInf) == if |h.buckets| == 0 then h.count else 0.0
  {
    AdjustedProper(h);
    BelowNone(Adjusted(h), MinusInf);
    if |h.buckets| > 0 {
      assert !AtMost(Fin(Adjusted(h)[0].upper), MinusInf);
    }
  }

  lemma {:induction false} BottomRank(h: Histogram)
    requires ValidHistogram(h)
    ensures Bottom(h).NaN? <==> !Inverts(0.0, h)
    ensures Bottom(h).Value? ==> Bottom(h).v.Fin? && |h.buckets| > 0 && RankAt(h, Bottom(h).v) == 0.0
  {
    hide Below, Sum, Part, Adjust;
    var bs := Adjusted(h);
    AdjustedProper(h);
    if |bs| > 0 {
      var x := Fin(bs[0].lower);
      assert !AtMost(Fin(bs[0].upper), x);
      assert forall i :: 0 <= i < |bs| ==> bs[0].lower <= bs[i].lower;
      BelowNone(bs, x);
    }
  }

  lemma {:induction false} TopRank(h: Histogram, q: real, rank: real)
    requires ValidHistogram(h) && 0.0 < q <= 1.0 && rank == q * h.count && Sum(h.buckets) < rank
    ensures RankAt(h, Fin(Top(h))) == h.count && (Inverts(q, h) <==> |h.buckets| > 0 && q == 1.0)
  {
    hide Below, Sum, Adjust;
    AdjustedProper(h);
    var bs := Adjusted(h);
    assert forall k :: 0 <= k < |bs| ==> bs[k].upper <= bs[|bs| - 1].upper;
  }

  /** The rank of a quantile is its own, except at the end of the buckets. */
  lemma {:induction false} QuantileRank(h: Histogram, q: real, rank: real, v: real)
    requires ValidHistogram(h) && 0.0 < q <= 1.0 && rank == q * h.count <= Sum(h.buckets)
    requires Cumulative(h, Fin(v)) == rank && InObserved(h, v)
    ensures |h.buckets| > 0
    ensures RankAt(h, Fin(v)) == if Inverts(q, h) then rank else h.count
    ensures q == 1.0 ==> Inverts(q, h)
  {
    hide Below, Sum;
    var bs, n := Adjusted(h), |h.buckets| - 1;
    AdjustedProper(h);
    RankBounds(q, h.count, rank);
    if Past(bs, Fin(v)) {
      BelowAll(bs, Fin(v));
      assert rank == Sum(h.buckets);
      if h.buckets[n].count == 0.0 {
        NotAtEnd(h, v);
      }
      if q == 1.0 {
        assert rank == h.count;
      }
    } else if h.buckets[n].count > 0.0 {
      BelowEnd(bs, v);
    }
  }

  lemma {:induction false} NotAtEnd(h: Histogram, v: real)
    requires Proper(Adjusted(h)) && InObserved(h, v) && h.buckets[|h.buckets| - 1].count == 0.0
    ensures !Past(Adjusted(h), Fin(v))
  {
    hide Adjust;
    var bs := Adjusted(h);
    var k :| 0 <= k < |h.buckets| && 0.0 < h.buckets[k].count && bs[k].lower < v <= bs[k].upper;
    assert k < |bs| - 1 && bs[k].upper <= bs[|bs| - 1].lower < bs[|bs| - 1].upper;
    assert !AtMost(Fin(bs[|bs| - 1].upper), Fin(v));
  }

  /** Before the end of a last bucket with observations there are fewer than all. */
  lemma {:induction false} BelowEnd(bs: seq<Bucket>, v: real)
    requires Proper(bs) && |bs| > 0 && 0.0 < bs[|bs| - 1].count && !Past(bs, Fin(v))
    ensures Below(bs, Fin(v)) < Sum(bs)
  {
    var n := |bs| - 1;
    var k :| 0 <= k < |bs| && !AtMost(Fin(bs[k].upper), Fin(v));
    assert bs[k].upper <= bs[n].upper;
    BelowMonotone(bs[..n], Fin(v), Fin(v));
    if bs[n].lower < v {
      ShareLess(bs[n], v);
    }
  }

  lemma {:induction false} ShareLess(b: Bucket, v: real)
    requires b.lower < v < b.upper && 0.0 < b.count
    ensures Share(b, v) < b.count
  {
    var a, d := v - b.lower, b.upper - b.lower;
    var r := a / d;
    assert r * d == a;
    if 1.0 <= r {
      Scale(d, 1.0, r);
      assert false;
    }
    assert 0.0 < b.count * (1.0 - r);
  }

  /** Without observations of NaN every positive q is given back. */
  lemma {:induction false} WholeInverts(q: real, h: Histogram)
    requires ValidHistogram(h) && Sum(h.buckets) == h.count && 0.0 < q <= 1.0
    ensures Inverts(q, h)
  {
    hide Sum, Proper;
    var rank := q * h.count;
    RankBounds(q, h.count, rank);
    if |h.buckets| == 0 {
      SumOfNone(h.buckets);
    }
  }

  lemma {:induction false} SumOfNone(bs: seq<Bucket>)
    requires |bs| == 0
    ensures Sum(bs) == 0.0
  {
  }

  /** Fractions are between 0 and 1 and add up over adjacent intervals. */
  lemma {:induction false} FractionsAddUp(h: Histogram, a: Bound, b: Bound, c: Bound)
    requires ValidHistogram(h) && AtMost(a, b) && AtMost(b, c)
    ensures FractionOf(h, a, b) + FractionOf(h, b, c) == FractionOf(h, a, c)
    ensures 0.0 <= FractionOf(h, a, b) <= FractionOf(h, a, c) <= 1.0
    ensures |h.buckets| > 0 ==> FractionOf(h, MinusInf, PlusInf) == 1.0
  {
    hide Below, Sum, Proper, Cumulative, RankAt;
    Widths(h);
    RankMonotone(h, a, b);
    RankMonotone(h, b, c);
    NothingBelow(h);
    AddQuotients(RankAt(h, a), RankAt(h, b), RankAt(h, c), h.count);
  }

  lemma {:induction false} RankMonotone(h: Histogram, a: Bound, b: Bound)
    requires ValidHistogram(h) && AtMost(a, b)
    ensures 0.0 <= RankAt(h, a) <= RankAt(h, b) <= h.count
  {
    hide Below, Sum, Adjust;
    AdjustedProper(h);
    BelowMonotone(Adjusted(h), a, b);
  }

  lemma {:induction false} AddQuotients(a: real, b: real, c: real, n: real)
    requires 0.0 < n && 0.0 <= a <= b <= c <= n
    ensures (b - a) / n + (c - b) / n == (c - a) / n
    ensures 0.0 <= (b - a) / n && 0.0 <= (c - b) / n && (c - a) / n <= 1.0 && n / n == 1.0
  {
    QuotientInUnit(b - a, n);
    QuotientInUnit(c - b, n);
    QuotientInUnit(c - a, n);
    AddDivided(b - a, c - b, n);
    assert b - a + (c - b) == c - a;
  }

  lemma {:induction false} AddDivided(x: real, y: real, n: real)
    requires 0.0 < n
    ensures x / n + y / n == (x + y) / n && n / n == 1.0
  {
    var p, q := x / n, y / n;
    assert x == p * n && y == q * n;
    assert x + y == (p + q) * n;
  }

  // ---------------------------------------------------------------------------
  // The cumulative count and the ends, on the buckets as they are

  /** The bucket has zero inside it, which only the zero bucket has. */
  predicate AroundZero(b: Bucket) {
    b.lower < 0.0 < b.upper
  }

  predicate OnlyPositive(h: Histogram) {
    h.hasPositive && !h.hasNegative
  }

  predicate OnlyNegative(h: Histogram) {
    h.hasNegative && !h.hasPositive
  }

  /** There are buckets, and all but the zero bucket are above zero. */
  ghost predicate IsPositive(h: Histogram) {
    OnlyPositive(h) && |h.buckets| > 0 && forall i :: 0 <= i < |h.buckets| ==> 0.0 < h.buckets[i].upper
  }

  ghost predicate IsNegative(h: Histogram) {
    OnlyNegative(h) && |h.buckets| > 0 && forall i :: 0 <= i < |h.buckets| ==> h.buckets[i].lower < 0.0
  }

  /** Observations are spread evenly over their bucket, unless it is the zero bucket of a one-sided histogram. */
  lemma {:induction false} CumulativeInside(h: Histogram, k: int, v: real)
    requires ValidHistogram(h) && 0 <= k < |h.buckets| && h.buckets[k].lower <= v <= h.buckets[k].upper
    requires !AroundZero(h.buckets[k]) || (!OnlyPositive(h) && !OnlyNegative(h))
    ensures forall i :: 0 <= i < |h.buckets| ==> h.buckets[i].lower < h.buckets[i].upper
    ensures var b := h.buckets[k];
      Cumulative(h, Fin(v)) == Sum(h.buckets[..k]) + b.count * ((v - b.lower) / (b.upper - b.lower))
  {
    hide Below, Sum, Part, Share;
    var bs := Adjusted(h);
    AdjustedProper(h);
    assert bs[k] == h.buckets[k];
    PartBetween(bs[k], v);
    ReachesBack(bs, k, v);
    BelowAt(bs, k, Fin(v));
    SumAdjusted(h, k);
  }

  lemma {:induction false} PartBetween(b: Bucket, v: real)
    requires b.lower < b.upper && b.lower <= v <= b.upper
    ensures Part(b, Fin(v)) == b.count * ((v - b.lower) / (b.upper - b.lower))
  {
    if v == b.lower {
      assert (v - b.lower) / (b.upper - b.lower) == 0.0;
    } else if v == b.upper {
      var w := b.upper - b.lower;
      AddDivided(0.0, 0.0, w);
    }
  }

  /** Without negative buckets the zero bucket has its observations evenly above zero and none below. */
  lemma {:induction false} CumulativeAboveZero(h: Histogram, k: int, v: real)
    requires ValidHistogram(h) && 0 <= k < |h.buckets| && h.buckets[k].lower <= v <= h.buckets[k].upper
    requires AroundZero(h.buckets[k]) && OnlyPositive(h)
    ensures forall i :: 0 <= i < |h.buckets| ==> h.buckets[i].lower < h.buckets[i].upper
    ensures v <= 0.0 ==> Cumulative(h, Fin(v)) == Sum(h.buckets[..k])
    ensures 0.0 <= v ==>
      Cumulative(h, Fin(v)) == Sum(h.buckets[..k]) + h.buckets[k].count * (v / h.buckets[k].upper)
  {
    hide Below, Sum, Part, Share;
    var bs := Adjusted(h);
    AdjustedProper(h);
    assert bs[k] == Bucket(0.0, h.buckets[k].upper, h.buckets[k].count);
    assert forall j :: 0 <= j < k ==> h.buckets[j].upper <= h.buckets[k].lower;
    BeforeZero(h, k, v);
    BelowAt(bs, k, Fin(v));
    SumAdjusted(h, k);
    if v <= 0.0 {
      PartBelow(bs[k], v);
    }
    if 0.0 <= v {
      PartBetween(bs[k], v);
    }
    assert v == 0.0 ==> v / h.buckets[k].upper == 0.0;
  }

  lemma {:induction false} PartBelow(b: Bucket, v: real)
    requires b.lower < b.upper && v <= b.lower
    ensures Part(b, Fin(v)) == 0.0
  {
  }

  /** Buckets before the zero bucket are not cut. */
  lemma {:induction false} BeforeZero(h: Histogram, k: int, v: real)
    requires Proper(h.buckets) && 0 <= k < |h.buckets| && h.buckets[k].lower <= v && h.buckets[k].lower < 0.0
    ensures forall j :: 0 <= j < k ==> AtMost(Fin(Adjusted(h)[j].upper), Fin(v))
  {
    forall j | 0 <= j < k
      ensures Adjusted(h)[j].upper <= v
    {
      assert h.buckets[j].upper <= h.buckets[k].lower;
    }
  }

  /** Without positive buckets it has them evenly below zero and none above. */
  lemma {:induction false} CumulativeBelowZero(h: Histogram, k: int, v: real)
    requires ValidHistogram(h) && 0 <= k < |h.buckets| && h.buckets[k].lower <= v <= h.buckets[k].upper
    requires AroundZero(h.buckets[k]) && OnlyNegative(h)
    ensures forall i :: 0 <= i < |h.buckets| ==> h.buckets[i].lower < h.buckets[i].upper
    ensures 0.0 <= v ==> Cumulative(h, Fin(v)) == Sum(h.buckets[..k]) + h.buckets[k].count
    ensures v <= 0.0 ==>
      var b := h.buckets[k]; Cumulative(h, Fin(v)) == Sum(h.buckets[..k]) + b.count * ((v - b.lower) / (0.0 - b.lower))
  {
    hide Below, Sum, Part, Share;
    var bs := Adjusted(h);
    AdjustedProper(h);
    var b := h.buckets[k];
    assert bs[k] == Bucket(b.lower, 0.0, b.count);
    BeforeZero(h, k, v);
    SumAdjusted(h, k);
    if v <= 0.0 {
      PartBetween(bs[k], v);
      BelowAt(bs, k, Fin(v));
    }
    if 0.0 <= v {
      PastBucket(bs, k, v, b.upper);
    }
    AddDivided(0.0, 0.0, 0.0 - b.lower);
  }

  /** Between a bucket and the next the cumulative count does not change. */
  lemma {:induction false} PastBucket(bs: seq<Bucket>, k: int, v: real, end: real)
    requires Proper(bs) && 0 <= k < |bs| && bs[k].upper <= v <= end
    requires forall j :: 0 <= j < k ==> AtMost(Fin(bs[j].upper), Fin(v))
    requires forall j :: k < j < |bs| ==> v <= bs[j].lower
    ensures Below(bs, Fin(v)) == Sum(bs[..k]) + bs[k].count
  {
    hide Below, Sum;
    SumSnoc(bs, k);
    if k + 1 < |bs| {
      BelowAt(bs, k + 1, Fin(v));
      PartBelow(bs[k + 1], v);
    } else {
      assert bs[..k + 1] == bs;
      BelowAll(bs, Fin(v));
    }
  }

  /** The quantiles of a histogram without negative buckets are not negative, and nothing is below zero. */
  lemma {:induction false} NothingNegative(h: Histogram)
    requires ValidHistogram(h) && IsPositive(h)
    ensures 0.0 <= Top(h) && (forall v :: InObserved(h, v) ==> 0.0 <= v)
    ensures Bottom(h).Value? ==> Bottom(h).v.Fin? && 0.0 <= Bottom(h).v.x
    ensures FractionOf(h, MinusInf, Fin(0.0)) == 0.0
  {
    hide Sum, Below, Part, Share;
    var bs := Adjusted(h);
    AdjustedProper(h);
    assert forall i :: 0 <= i < |bs| ==> 0.0 <= bs[i].lower;
    BelowNone(bs, Fin(0.0));
    NotPast(bs, 0, Fin(0.0));
    NothingBelow(h);
  }

  /** Dually, those of one without positive buckets are not positive, and everything is below zero. */
  lemma {:induction false} NothingPositive(h: Histogram)
    requires ValidHistogram(h) && IsNegative(h)
    ensures Top(h) <= 0.0 && (forall v :: InObserved(h, v) ==> v <= 0.0)
    ensures Bottom(h).Value? ==> Bottom(h).v == Fin(h.buckets[0].lower)
    ensures FractionOf(h, MinusInf, Fin(0.0)) == 1.0
  {
    hide Sum, Below, Part, Share;
    var bs := Adjusted(h);
    assert forall i :: 0 <= i < |bs| ==> bs[i].upper <= 0.0;
    assert Past(bs, Fin(0.0));
    NothingBelow(h);
    AddDivided(0.0, 0.0, h.count);
  }

  /** With both kinds of buckets, or neither, the ends are those of the buckets. */
  lemma {:induction false} EndsAre(h: Histogram)
    requires |h.buckets| > 0 && !OnlyPositive(h) && !OnlyNegative(h)
    ensures Top(h) == h.buckets[|h.buckets| - 1].upper
    ensures Bottom(h) == if h.buckets[0].count == 0.0 then NaN else Value(Fin(h.buckets[0].lower))
  {
  }
}

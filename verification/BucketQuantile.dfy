/**
  promql/quantile.go: the quantile of a classic histogram, a list of cumulative buckets that is
  sorted, coalesced and made monotone in place before it is searched. Counts are exact reals.
 */
module BucketQuantile {

  import opened Bounds
  import SeriesIterator

  /** The count of the observations up to an upper bound. */
  datatype Bucket = Bucket(upper: Bound, count: real)

  // ---------------------------------------------------------------------------
  // Sorting

  ghost predicate Sorted(s: seq<Bucket>) {
    forall i, j :: 0 <= i < j < |s| ==> AtMost(s[i].upper, s[j].upper)
  }

  lemma {:induction false} SwapKeepsMembers(s: seq<Bucket>, j: int)
    requires 0 < j < |s|
    ensures multiset(s[j - 1 := s[j]][j := s[j - 1]]) == multiset(s)
  {
    var t := s[j - 1 := s[j]][j := s[j - 1]];
    assert s == s[..j - 1] + [s[j - 1], s[j]] + s[j + 1..];
    assert t == s[..j - 1] + [s[j], s[j - 1]] + s[j + 1..];
    assert multiset([s[j], s[j - 1]]) == multiset([s[j - 1], s[j]]);
  }

  /** Moves the n-th bucket back to its place among the sorted ones before it. */
  method Insert(a: array<Bucket>, n: int)
    requires 0 <= n < a.Length && Sorted(a[..n])
    modifies a
    ensures Sorted(a[..n + 1]) && multiset(a[..]) == old(multiset(a[..]))
  {
    hide Sorted;
    var j := n;
    SortedButOne(a[..], n);
    while j > 0 && !AtMost(a[j - 1].upper, a[j].upper)
      invariant 0 <= j <= n && SortedBut(a[..], n, j)
      invariant multiset(a[..]) == old(multiset(a[..]))
    {
      ghost var before := a[..];
      SwapKeepsMembers(before, j);
      SwapSorts(before, n, j);
      a[j - 1], a[j] := a[j], a[j - 1];
      assert a[..] == before[j - 1 := before[j]][j := before[j - 1]];
      j := j - 1;
    }
    SortedAll(a[..], n, j);
    assert a[..n + 1] == a[..][..n + 1];
  }

  /** Of the first n + 1 buckets only the one at j may be smaller than some before it. */
  ghost predicate SortedBut(s: seq<Bucket>, n: int, j: int)
    requires 0 <= j <= n < |s|
  {
    forall i, k :: 0 <= i < k <= n && k != j ==> AtMost(s[i].upper, s[k].upper)
  }

  lemma {:induction false} SortedButOne(s: seq<Bucket>, n: int)
    requires 0 <= n < |s| && Sorted(s[..n])
    ensures SortedBut(s, n, n)
  {
    forall i, k | 0 <= i < k < n
      ensures AtMost(s[i].upper, s[k].upper)
    {
      assert s[..n][i] == s[i] && s[..n][k] == s[k];
    }
  }

  lemma {:induction false} SwapSorts(s: seq<Bucket>, n: int, j: int)
    requires 0 < j <= n < |s| && SortedBut(s, n, j) && !AtMost(s[j - 1].upper, s[j].upper)
    ensures SortedBut(s[j - 1 := s[j]][j := s[j - 1]], n, j - 1)
  {
  }

  lemma {:induction false} SortedAll(s: seq<Bucket>, n: int, j: int)
    requires 0 <= j <= n < |s| && SortedBut(s, n, j) && (j == 0 || AtMost(s[j - 1].upper, s[j].upper))
    ensures Sorted(s[..n + 1])
  {
    forall i | 0 <= i < j
      ensures AtMost(s[i].upper, s[j].upper)
    {
      assert i == j - 1 || AtMost(s[i].upper, s[j - 1].upper);
    }
  }

  /** sort.Sort by upper bound; nothing is promised about the order of equal bounds. */
  method Sort(a: array<Bucket>)
    modifies a
    ensures Sorted(a[..]) && multiset(a[..]) == old(multiset(a[..]))
  {
    var n := 0;
    while n < a.Length
      invariant 0 <= n <= a.Length && Sorted(a[..n])
      invariant multiset(a[..]) == old(multiset(a[..]))
    {
      Insert(a, n);
      n := n + 1;
    }
    assert a[..] == a[..n];
  }

  // ---------------------------------------------------------------------------
  // Coalescing

  ghost predicate Strict(s: seq<Bucket>) {
    forall i, j :: 0 <= i < j < |s| ==> AtMost(s[i].upper, s[j].upper) && s[i].upper != s[j].upper
  }

  ghost predicate HasBound(s: seq<Bucket>, x: Bound) {
    exists i :: 0 <= i < |s| && s[i].upper == x
  }

  /** What the buckets with bound x count together. */
  ghost function CountAt(s: seq<Bucket>, x: Bound): real {
    if |s| == 0 then 0.0
    else CountAt(s[..|s| - 1], x) + (if s[|s| - 1].upper == x then s[|s| - 1].count else 0.0)
  }

  /** One bucket for each bound of s, in order, with that bound's whole count. */
  ghost predicate IsMerged(s: seq<Bucket>, m: seq<Bucket>) {
    Strict(m) && forall x :: SameAt(s, m, x)
  }

  ghost predicate SameAt(s: seq<Bucket>, m: seq<Bucket>, x: Bound) {
    HasBound(m, x) == HasBound(s, x) && CountAt(m, x) == CountAt(s, x)
  }

  lemma {:induction false} CountAtSnoc(s: seq<Bucket>, b: Bucket, x: Bound)
    ensures CountAt(s + [b], x) == CountAt(s, x) + (if b.upper == x then b.count else 0.0)
    ensures HasBound(s + [b], x) == (HasBound(s, x) || b.upper == x)
  {
    assert (s + [b])[..|s|] == s;
    if b.upper == x {
      assert (s + [b])[|s|].upper == x;
    } else if HasBound(s, x) {
      var i :| 0 <= i < |s| && s[i].upper == x;
      assert (s + [b])[i].upper == x;
    }
  }

  /** A bucket with the bound of the last merged one is added to it. */
  lemma {:induction false} MergeSame(s: seq<Bucket>, m: seq<Bucket>, last: Bucket, b: Bucket)
    requires IsMerged(s, m + [last]) && b.upper == last.upper
    ensures IsMerged(s + [b], m + [Bucket(last.upper, last.count + b.count)])
  {
    hide CountAt, HasBound;
    var last' := Bucket(last.upper, last.count + b.count);
    StrictShape(m, last, last');
    forall x
      ensures SameAt(s + [b], m + [last'], x)
    {
      assert SameAt(s, m + [last], x);
      CountAtSnoc(s, b, x);
      CountAtSnoc(m, last, x);
      CountAtSnoc(m, last', x);
    }
  }

  lemma {:induction false} StrictShape(m: seq<Bucket>, a: Bucket, b: Bucket)
    requires Strict(m + [a]) && a.upper == b.upper
    ensures Strict(m + [b])
  {
    forall i, j | 0 <= i < j < |m + [b]|
      ensures AtMost((m + [b])[i].upper, (m + [b])[j].upper) && (m + [b])[i].upper != (m + [b])[j].upper
    {
      assert (m + [a])[i].upper == (m + [b])[i].upper && (m + [a])[j].upper == (m + [b])[j].upper;
    }
  }

  /** A bucket with a greater bound starts a new one. */
  lemma {:induction false} MergeNew(s: seq<Bucket>, m: seq<Bucket>, last: Bucket, b: Bucket)
    requires IsMerged(s, m + [last]) && AtMost(last.upper, b.upper) && last.upper != b.upper
    ensures IsMerged(s + [b], m + [last] + [b])
  {
    hide CountAt, HasBound;
    StrictSnoc(m, last, b);
    forall x
      ensures SameAt(s + [b], m + [last] + [b], x)
    {
      assert SameAt(s, m + [last], x);
      CountAtSnoc(s, b, x);
      CountAtSnoc(m + [last], b, x);
    }
  }

  lemma {:induction false} StrictSnoc(m: seq<Bucket>, last: Bucket, b: Bucket)
    requires Strict(m + [last]) && AtMost(last.upper, b.upper) && last.upper != b.upper
    ensures Strict(m + [last] + [b])
  {
    var t := m + [last];
    forall i | 0 <= i < |t|
      ensures AtMost(t[i].upper, b.upper) && t[i].upper != b.upper
    {
      assert t[|m|] == last;
      assert i == |m| || AtMost(t[i].upper, t[|m|].upper);
    }
  }

  /** The buckets are merged in the front of the array; n of them are left. */
  method CoalesceBuckets(a: array<Bucket>) returns (n: int)
    requires a.Length > 0 && Sorted(a[..])
    modifies a
    ensures 0 < n <= a.Length && IsMerged(old(a[..]), a[..n])
    ensures a[n - 1].upper == old(a[a.Length - 1].upper)
  {
    hide IsMerged, Strict;
    var last, i, k := a[0], 0, 1;
    ghost var s := a[..];
    ghost var m: seq<Bucket> := [];
    MergeOne(last);
    assert s[..1] == [last] == m + [last];
    while k < a.Length
      invariant 0 <= i < k <= a.Length && a[k..] == s[k..]
      invariant a[..i] == m && IsMerged(s[..k], m + [last]) && last.upper == s[k - 1].upper
    {
      var b := a[k];
      assert b == a[k..][0] == s[k] && s[..k + 1] == s[..k] + [b];
      if b.upper == last.upper {
        MergeSame(s[..k], m, last, b);
        last := Bucket(last.upper, last.count + b.count);
      } else {
        MergeNew(s[..k], m, last, b);
        a[i] := last;
        m := m + [last];
        last := b;
        i := i + 1;
      }
      k := k + 1;
    }
    a[i] := last;
    assert a[..i + 1] == m + [last] && s[..k] == s;
    return i + 1;
  }

  lemma {:induction false} MergeOne(b: Bucket)
    ensures IsMerged([b], [b])
  {
  }

  /** The merged list is a function of the buckets alone: it does not depend on how equal bounds were sorted. */
  lemma {:induction false} MergedUnique(s: seq<Bucket>, t: seq<Bucket>, m: seq<Bucket>, n: seq<Bucket>)
    requires multiset(s) == multiset(t) && IsMerged(s, m) && IsMerged(t, n)
    ensures m == n
  {
    hide HasBound, CountAt, Strict;
    forall x
      ensures SameAt(n, m, x)
    {
      assert SameAt(s, m, x) && SameAt(t, n, x);
      CountAtMembers(s, t, x);
    }
    SameMerged(m, n);
  }

  lemma {:induction false} CountAtConcat(s: seq<Bucket>, t: seq<Bucket>, x: Bound)
    ensures CountAt(s + t, x) == CountAt(s, x) + CountAt(t, x)
  {
    if |t| == 0 {
      assert s + t == s;
    } else {
      CountAtConcat(s, t[..|t| - 1], x);
      assert (s + t)[..|s + t| - 1] == s + t[..|t| - 1];
    }
  }

  lemma {:induction false} CountAtMembers(s: seq<Bucket>, t: seq<Bucket>, x: Bound)
    requires multiset(s) == multiset(t)
    ensures SameAt(s, t, x)
  {
    HasBoundMembers(s, t, x);
    HasBoundMembers(t, s, x);
    SumMembers(s, t, x);
  }

  lemma {:induction false} HasBoundMembers(s: seq<Bucket>, t: seq<Bucket>, x: Bound)
    requires multiset(s) == multiset(t)
    ensures HasBound(s, x) ==> HasBound(t, x)
  {
    if HasBound(s, x) {
      var i :| 0 <= i < |s| && s[i].upper == x;
      assert s[i] in multiset(t);
    }
  }

  lemma {:induction false} TakeOut(s: seq<Bucket>, b: Bucket, t: seq<Bucket>) returns (k: int)
    requires multiset(s + [b]) == multiset(t)
    ensures 0 <= k < |t| && t[k] == b && multiset(t[..k] + t[k + 1..]) == multiset(s)
  {
    assert (s + [b])[|s|] == b;
    assert b in multiset(t);
    k :| 0 <= k < |t| && t[k] == b;
    assert t == t[..k] + [b] + t[k + 1..];
    assert multiset(t) == multiset(t[..k] + t[k + 1..]) + multiset{b};
    assert multiset(s) == multiset(s + [b]) - multiset{b};
  }

  lemma {:induction false} SumMembers(s: seq<Bucket>, t: seq<Bucket>, x: Bound)
    requires multiset(s) == multiset(t)
    ensures CountAt(s, x) == CountAt(t, x)
  {
    if |s| == 0 {
      assert |multiset(t)| == 0;
    } else {
      hide CountAt, HasBound;
      var b, s' := s[|s| - 1], s[..|s| - 1];
      assert s == s' + [b];
      var k := TakeOut(s', b, t);
      SumMembers(s', t[..k] + t[k + 1..], x);
      CountAtSplit(t, k, x);
      CountAtSnoc(s', b, x);
    }
  }

  lemma {:induction false} CountAtSplit(t: seq<Bucket>, k: int, x: Bound)
    requires 0 <= k < |t|
    ensures CountAt(t, x) == CountAt(t[..k] + t[k + 1..], x) + (if t[k].upper == x then t[k].count else 0.0)
  {
    hide CountAt, HasBound;
    assert t == t[..k] + [t[k]] + t[k + 1..];
    CountAtConcat(t[..k], t[k + 1..], x);
    CountAtConcat(t[..k] + [t[k]], t[k + 1..], x);
    CountAtSnoc(t[..k], t[k], x);
  }

  lemma {:induction false} SameMerged(m: seq<Bucket>, n: seq<Bucket>)
    requires Strict(m) && Strict(n) && forall x :: SameAt(n, m, x)
    ensures m == n
  {
    hide HasBound, CountAt, SameAt, AtMost;
    NoneEmpty(m, n);
    if |n| > 0 {
      var b, c, m', n' := m[|m| - 1], n[|n| - 1], m[..|m| - 1], n[..|n| - 1];
      assert m == m' + [b] && n == n' + [c];
      SameLast(m, n);
      forall x
        ensures SameAt(n', m', x)
      {
        SameTail(m', n', b, x);
      }
      SameMerged(m', n');
    }
  }

  lemma {:induction false} NoneEmpty(m: seq<Bucket>, n: seq<Bucket>)
    requires forall x :: SameAt(n, m, x)
    ensures |m| == 0 <==> |n| == 0
  {
    assert |m| > 0 ==> HasBound(m, m[0].upper) && SameAt(n, m, m[0].upper);
    assert |n| > 0 ==> HasBound(n, n[0].upper) && SameAt(n, m, n[0].upper);
  }

  /** The greatest bounds agree, and what they count. */
  lemma {:induction false} SameLast(m: seq<Bucket>, n: seq<Bucket>)
    requires |m| > 0 && |n| > 0 && Strict(m) && Strict(n)
    requires SameAt(n, m, m[|m| - 1].upper) && SameAt(n, m, n[|n| - 1].upper)
    ensures m[|m| - 1] == n[|n| - 1]
  {
    LastIsGreatest(m, n);
    LastIsGreatest(n, m);
    CountAtLast(m);
    CountAtLast(n);
  }

  lemma {:induction false} LastIsGreatest(m: seq<Bucket>, n: seq<Bucket>)
    requires |m| > 0 && |n| > 0 && Strict(m)
    requires HasBound(n, n[|n| - 1].upper) ==> HasBound(m, n[|n| - 1].upper)
    ensures AtMost(n[|n| - 1].upper, m[|m| - 1].upper)
  {
  }

  lemma {:induction false} CountAtLast(m: seq<Bucket>)
    requires |m| > 0 && Strict(m)
    ensures CountAt(m, m[|m| - 1].upper) == m[|m| - 1].count && !HasBound(m[..|m| - 1], m[|m| - 1].upper)
  {
    CountAtNone(m[..|m| - 1], m[|m| - 1].upper);
  }

  lemma {:induction false} CountAtNone(m: seq<Bucket>, x: Bound)
    requires forall i :: 0 <= i < |m| ==> m[i].upper != x
    ensures CountAt(m, x) == 0.0
  {
    if |m| > 0 {
      CountAtNone(m[..|m| - 1], x);
    }
  }

  lemma {:induction false} SameTail(m: seq<Bucket>, n: seq<Bucket>, b: Bucket, x: Bound)
    requires Strict(m + [b]) && Strict(n + [b]) && SameAt(n + [b], m + [b], x)
    ensures SameAt(n, m, x)
  {
    CountAtSnoc(m, b, x);
    CountAtSnoc(n, b, x);
    CountAtLast(m + [b]);
    CountAtLast(n + [b]);
    assert (m + [b])[..|m|] == m && (n + [b])[..|n|] == n;
  }

  // ---------------------------------------------------------------------------
  // The envelope

  /** x is the greatest count of the first i + 1 buckets. */
  ghost predicate IsMax(s: seq<Bucket>, i: int, x: real)
    requires 0 <= i < |s|
  {
    && (forall j :: 0 <= j <= i ==> s[j].count <= x)
    && (exists j :: 0 <= j <= i && s[j].count == x)
  }

  /** Same bounds, and each count raised to the greatest one up to it. */
  ghost predicate IsEnvelope(s: seq<Bucket>, e: seq<Bucket>) {
    && |e| == |s|
    && (forall i :: 0 <= i < |s| ==> e[i].upper == s[i].upper)
    && (forall i :: 0 <= i < |s| ==> IsMax(s, i, e[i].count))
  }

  lemma {:induction false} MaxNext(s: seq<Bucket>, i: int, x: real)
    requires 0 < i < |s| && IsMax(s, i - 1, x)
    ensures IsMax(s, i, if s[i].count > x then s[i].count else x)
  {
    var j :| 0 <= j <= i - 1 && s[j].count == x;
    assert s[i].count > x ==> s[i].count == s[i].count && 0 <= i <= i;
  }

  /** The first i counts are raised, the others are still as they were. */
  ghost predicate RaisedTo(s: seq<Bucket>, e: seq<Bucket>, i: int) {
    && |e| == |s|
    && (forall k :: 0 <= k < |s| ==> e[k].upper == s[k].upper)
    && (forall k :: 0 <= k < i <= |s| ==> IsMax(s, k, e[k].count))
    && (forall k :: i <= k < |s| && 0 <= k ==> e[k] == s[k])
  }

  lemma {:induction false} RaiseNext(s: seq<Bucket>, e: seq<Bucket>, i: int, max: real)
    requires 0 < i < |s| && RaisedTo(s, e, i) && IsMax(s, i - 1, max)
    ensures e[i] == s[i]
    ensures var x := if s[i].count > max then s[i].count else max;
      IsMax(s, i, x) && RaisedTo(s, e[i := Bucket(s[i].upper, x)], i + 1)
  {
    MaxNext(s, i, max);
    hide IsMax;
  }

  lemma {:induction false} RaisedStart(s: seq<Bucket>)
    requires |s| > 0
    ensures IsMax(s, 0, s[0].count) && RaisedTo(s, s, 1)
  {
    assert s[0].count == s[0].count;
  }

  method EnsureMonotonic(a: array<Bucket>, n: int)
    requires 0 < n <= a.Length
    modifies a
    ensures IsEnvelope(old(a[..n]), a[..n])
  {
    hide IsMax, RaisedTo, IsEnvelope;
    ghost var s := a[..n];
    var max := a[0].count;
    RaisedStart(s);
    for i := 1 to n
      invariant IsMax(s, i - 1, max) && RaisedTo(s, a[..n], i)
    {
      ghost var e := a[..n];
      RaiseNext(s, e, i, max);
      assert e[i] == a[i] == Bucket(s[i].upper, s[i].count);
      if a[i].count > max {
        max := a[i].count;
      } else if a[i].count < max {
        a[i] := Bucket(a[i].upper, max);
      }
      assert a[..n] == e[i := Bucket(s[i].upper, max)];
    }
    RaisedAll(s, a[..n]);
  }

  lemma {:induction false} RaisedAll(s: seq<Bucket>, e: seq<Bucket>)
    requires RaisedTo(s, e, |s|)
    ensures IsEnvelope(s, e)
  {
    hide IsMax;
  }

  ghost predicate Monotonic(e: seq<Bucket>) {
    forall i, j :: 0 <= i < j < |e| ==> e[i].count <= e[j].count
  }

  /** The envelope is monotone, keeps the bounds, and leaves a monotone list as it was. */
  lemma {:induction false} EnvelopeMonotonic(s: seq<Bucket>, e: seq<Bucket>)
    requires IsEnvelope(s, e)
    ensures Monotonic(e) && (Strict(s) ==> Strict(e)) && (Monotonic(s) ==> e == s)
  {
    forall i, j | 0 <= i < j < |e|
      ensures e[i].count <= e[j].count
    {
      var k :| 0 <= k <= i && s[k].count == e[i].count;
      assert IsMax(s, j, e[j].count);
    }
    if Monotonic(s) {
      forall i | 0 <= i < |e|
        ensures e[i] == s[i]
      {
        assert IsMax(s, i, e[i].count);
        var k :| 0 <= k <= i && s[k].count == e[i].count;
        assert k < i ==> s[k].count <= s[i].count;
      }
    }
  }

  // ---------------------------------------------------------------------------
  // The search

  /** What bucketQuantile works on once the list is prepared. */
  ghost predicate Prepared(e: seq<Bucket>) {
    |e| >= 2 && Strict(e) && Monotonic(e) && e[|e| - 1].upper.PlusInf?
  }

  /** The b-th bucket is the first to reach the rank; the last one counts as reaching any. */
  ghost predicate FirstReaching(e: seq<Bucket>, rank: real, b: int) {
    && (forall k :: 0 <= k < b <= |e| ==> e[k].count < rank)
    && (0 <= b < |e| - 1 ==> rank <= e[b].count)
  }

  function PrevCount(e: seq<Bucket>, b: int): real
    requires 0 <= b < |e|
  {
    if b == 0 then 0.0 else e[b - 1].count
  }

  function Start(e: seq<Bucket>, b: int): Bound
    requires 0 <= b < |e|
  {
    if b == 0 then Fin(0.0) else e[b - 1].upper
  }

  /** The observations up to v, which lies in a bucket from lo to hi whose counts go from c to d. */
  function Linear(lo: real, hi: real, c: real, d: real, v: real): real
    requires lo < hi
  {
    c + (d - c) * ((v - lo) / (hi - lo))
  }

  /** The quantile lies in the bucket and has the rank's observations below it. */
  ghost predicate AnswerIn(e: seq<Bucket>, rank: real, b: int, r: Result)
    requires 0 <= b < |e| && |e| >= 2
  {
    if b == |e| - 1 then r == Value(e[|e| - 2].upper)
    else if b == 0 && AtMost(e[0].upper, Fin(0.0)) then r == Value(e[0].upper)
    else if Start(e, b).MinusInf? || e[b].count == PrevCount(e, b) then r == NaN
    else
      && r.Value? && r.v.Fin? && Start(e, b).Fin? && e[b].upper.Fin?
      && Start(e, b).x < e[b].upper.x && Start(e, b).x <= r.v.x <= e[b].upper.x
      && Linear(Start(e, b).x, e[b].upper.x, PrevCount(e, b), e[b].count, r.v.x) == rank
  }

  ghost predicate IsQuantile(e: seq<Bucket>, q: real, r: Result) {
    if |e| < 2 || e[|e| - 1].count == 0.0 then r == NaN
    else AnswersRank(e, q * e[|e| - 1].count, r)
  }

  ghost predicate AnswersRank(e: seq<Bucket>, rank: real, r: Result)
    requires |e| >= 2
  {
    exists b :: 0 <= b < |e| && FirstReaching(e, rank, b) && AnswerIn(e, rank, b, r)
  }

  /** The rank lies between nothing and all observations. */
  lemma {:induction false} RankRange(q: real, n: real, rank: real)
    requires 0.0 <= q <= 1.0 && rank == q * n
    ensures 0.0 <= n ==> 0.0 <= rank <= n
    ensures n <= 0.0 ==> n <= rank <= 0.0
  {
  }

  /** Interpolation inverts Linear. */
  lemma {:induction false} Interpolate(lo: real, hi: real, c: real, d: real, rank: real, v: real)
    requires lo < hi && c != d && v == lo + (hi - lo) * ((rank - c) / (d - c))
    ensures Linear(lo, hi, c, d, v) == rank
    ensures c <= rank <= d || rank == d ==> lo <= v <= hi
  {
    var t := (rank - c) / (d - c);
    Ratio(rank - c, d - c);
    assert v - lo == (hi - lo) * t;
    Cancel(hi - lo, t);
    if c <= rank <= d || rank == d {
      Scale(hi - lo, 0.0, t);
      Scale(hi - lo, t, 1.0);
      assert (hi - lo) * 1.0 == hi - lo;
    }
  }

  lemma {:induction false} Ratio(a: real, d: real)
    requires d != 0.0
    ensures d * (a / d) == a && (0.0 <= a <= d ==> 0.0 <= a / d <= 1.0) && (a == d ==> a / d == 1.0)
  {
    if 0.0 <= a <= d {
      QuotientInUnit(a, d);
    }
  }

  lemma {:induction false} Cancel(w: real, t: real)
    requires 0.0 < w
    ensures (w * t) / w == t
  {
  }

  /** The part of bucketQuantile after the list is prepared. */
  method Locate(q: real, e: seq<Bucket>) returns (r: Result)
    requires 0.0 <= q <= 1.0 && |e| > 0
    requires Strict(e) && Monotonic(e) && e[|e| - 1].upper.PlusInf?
    ensures IsQuantile(e, q, r)
  {
    hide Strict, Monotonic, AnswerIn, Linear;
    if |e| < 2 {
      return NaN;
    }
    var observations := e[|e| - 1].count;
    if observations == 0.0 {
      return NaN;
    }
    var rank := q * observations;
    MonotonicReaches(e, rank);
    var reaches := i requires 0 <= i < |e| => e[i].count >= rank;
    var b := SeriesIterator.Search(|e| - 1, reaches);
    forall k | 0 <= k < b
      ensures e[k].count < rank
    {
      assert !reaches(k);
    }
    r := Answer(e, q, rank, b);
  }

  lemma {:induction false} MonotonicReaches(e: seq<Bucket>, rank: real)
    requires Monotonic(e)
    ensures forall j, k :: 0 <= j < k < |e| && e[j].count >= rank ==> e[k].count >= rank
  {
  }

  /** Interpolating in the bucket found. */
  method Answer(e: seq<Bucket>, q: real, rank: real, b: int) returns (r: Result)
    requires Prepared(e) && 0.0 <= q <= 1.0 && rank == q * e[|e| - 1].count && e[|e| - 1].count != 0.0
    requires 0 <= b < |e| && FirstReaching(e, rank, b)
    ensures AnswerIn(e, rank, b, r)
  {
    hide Strict, Monotonic, Linear, FirstReaching;
    if b == |e| - 1 {
      return Value(e[|e| - 2].upper);
    }
    if b == 0 && AtMost(e[0].upper, Fin(0.0)) {
      return Value(e[0].upper);
    }
    Reached(e, q, rank, b);
    var start, end, count, rest := Fin(0.0), e[b].upper, e[b].count, rank;
    if b > 0 {
      start := e[b - 1].upper;
      count := count - e[b - 1].count;
      rest := rest - e[b - 1].count;
    }
    if start.MinusInf? || count == 0.0 {
      return NaN;
    }
    var v := start.x + (end.x - start.x) * (rest / count);
    Interpolate(start.x, end.x, PrevCount(e, b), e[b].count, rank, v);
    return Value(Fin(v));
  }

  /** The bucket found is finite and proper, and the rank lies within its counts. */
  lemma {:induction false} Reached(e: seq<Bucket>, q: real, rank: real, b: int)
    requires Prepared(e) && 0.0 <= q <= 1.0 && rank == q * e[|e| - 1].count
    requires FirstReaching(e, rank, b) && 0 <= b < |e| - 1 && !(b == 0 && AtMost(e[0].upper, Fin(0.0)))
    ensures e[b].upper.Fin? && !Start(e, b).PlusInf?
    ensures Start(e, b).Fin? ==> Start(e, b).x < e[b].upper.x
    ensures PrevCount(e, b) <= rank <= e[b].count || rank == e[b].count
  {
    RankRange(q, e[|e| - 1].count, rank);
    assert e[b].upper != e[|e| - 1].upper && e[b].count <= e[|e| - 1].count;
    if b > 0 {
      assert AtMost(e[b - 1].upper, e[b].upper) && e[b - 1].upper != e[b].upper;
    }
  }

  /** m are the buckets of s merged, and e is their envelope, which ends at infinity. */
  ghost predicate Prepares(s: seq<Bucket>, m: seq<Bucket>, e: seq<Bucket>) {
    IsMerged(s, m) && IsEnvelope(m, e) && |e| > 0 && e[|e| - 1].upper.PlusInf?
  }

  /** r is an answer of bucketQuantile for q on the buckets s. */
  ghost predicate Gives(s: seq<Bucket>, q: real, r: Result) {
    if q < 0.0 then r == Value(MinusInf)
    else if q > 1.0 then r == Value(PlusInf)
    else if !HasBound(s, PlusInf) then r == NaN
    else exists m, e :: Prepares(s, m, e) && IsQuantile(e, q, r)
  }

  /** q between 0 and 1 is looked up in the envelope of the merged buckets. */
  method BucketQuantile(q: real, a: array<Bucket>) returns (r: Result, ghost m: seq<Bucket>, ghost e: seq<Bucket>)
    requires 0.0 <= q <= 1.0 ==> a.Length > 0
    modifies a
    ensures q < 0.0 ==> r == Value(MinusInf)
    ensures q > 1.0 ==> r == Value(PlusInf)
    ensures 0.0 <= q <= 1.0 && !HasBound(old(a[..]), PlusInf) ==> r == NaN
    ensures 0.0 <= q <= 1.0 && HasBound(old(a[..]), PlusInf) ==> Prepares(old(a[..]), m, e) && IsQuantile(e, q, r)
    ensures Gives(old(a[..]), q, r)
  {
    hide IsMerged, IsEnvelope, IsQuantile, HasBound, Sorted, Strict, Monotonic;
    m, e := [], [];
    if q < 0.0 {
      return Value(MinusInf), [], [];
    }
    if q > 1.0 {
      return Value(PlusInf), [], [];
    }
    ghost var s := a[..];
    Sort(a);
    ghost var t := a[..];
    LastBound(s, t);
    if !a[a.Length - 1].upper.PlusInf? {
      return NaN, [], [];
    }
    var n := CoalesceBuckets(a);
    m := a[..n];
    MergedMembers(s, t, m);
    assert m[n - 1].upper.PlusInf?;
    EnsureMonotonic(a, n);
    e := a[..n];
    EnvelopeParts(s, m, e);
    r := Locate(q, a[..n]);
  }

  lemma {:induction false} LastBound(s: seq<Bucket>, t: seq<Bucket>)
    requires multiset(s) == multiset(t) && Sorted(t) && |s| == |t| > 0
    ensures t[|t| - 1].upper.PlusInf? <==> HasBound(s, PlusInf)
  {
    HasBoundMembers(s, t, PlusInf);
    HasBoundMembers(t, s, PlusInf);
  }

  lemma {:induction false} MergedMembers(s: seq<Bucket>, t: seq<Bucket>, m: seq<Bucket>)
    requires multiset(s) == multiset(t) && IsMerged(t, m)
    ensures IsMerged(s, m)
  {
    hide HasBound, CountAt, Strict;
    forall x
      ensures SameAt(s, m, x)
    {
      assert SameAt(t, m, x);
      CountAtMembers(s, t, x);
    }
  }

  lemma {:induction false} EnvelopeParts(s: seq<Bucket>, m: seq<Bucket>, e: seq<Bucket>)
    requires IsMerged(s, m) && IsEnvelope(m, e) && |m| > 0 && m[|m| - 1].upper.PlusInf?
    ensures |e| > 0 && Strict(e) && Monotonic(e) && e[|e| - 1].upper.PlusInf?
  {
    EnvelopeMonotonic(m, e);
  }

  // ---------------------------------------------------------------------------
  // What follows about quantiles

  /** With observations, no bound at minus infinity and q > 0 there is a quantile, within the finite bounds. */
  lemma {:induction false} QuantileWithin(e: seq<Bucket>, q: real, r: Result)
    requires Prepared(e) && 0.0 <= e[0].count && 0.0 < e[|e| - 1].count && !e[0].upper.MinusInf?
    requires 0.0 < q <= 1.0 && IsQuantile(e, q, r)
    ensures r.Value? && r.v.Fin?
    ensures AtMost(r.v, e[|e| - 2].upper)
    ensures if AtMost(e[0].upper, Fin(0.0)) then AtMost(e[0].upper, r.v) else 0.0 <= r.v.x
  {
    hide Linear;
    var rank := q * e[|e| - 1].count;
    RankRange(q, e[|e| - 1].count, rank);
    assert 0.0 < rank;
    var b :| 0 <= b < |e| && FirstReaching(e, rank, b) && AnswerIn(e, rank, b, r);
    BoundsApart(e, b);
  }

  lemma {:induction false} BoundsApart(e: seq<Bucket>, b: int)
    requires Prepared(e) && 0 <= b < |e| && !e[0].upper.MinusInf?
    ensures b < |e| - 1 ==> e[b].upper.Fin? && AtMost(e[b].upper, e[|e| - 2].upper)
    ensures e[|e| - 2].upper.Fin? && AtMost(e[0].upper, e[|e| - 2].upper)
    ensures b > 0 ==> AtMost(e[0].upper, e[b - 1].upper) && !e[b - 1].upper.MinusInf?
    ensures b > 0 ==> PrevCount(e, b) <= e[b].count
  {
    assert b < |e| - 1 ==> e[b].upper != e[|e| - 1].upper && AtMost(e[0].upper, e[b].upper);
    assert e[|e| - 2].upper != e[|e| - 1].upper;
  }

  lemma {:induction false} RankOf(e: seq<Bucket>, q: real, r: Result) returns (rank: real)
    requires Prepared(e) && 0.0 < e[|e| - 1].count && 0.0 <= q <= 1.0 && IsQuantile(e, q, r)
    ensures rank == q * e[|e| - 1].count && 0.0 <= rank && AnswersRank(e, rank, r)
  {
    hide AnswersRank;
    rank := q * e[|e| - 1].count;
    RankRange(q, e[|e| - 1].count, rank);
  }

  lemma {:induction false} RankMonotone(n: real, q: real, q': real)
    requires 0.0 <= n && q <= q'
    ensures q * n <= q' * n
  {
  }

  /** A greater q never has a smaller quantile. */
  lemma {:induction false} QuantileMonotone(e: seq<Bucket>, q: real, r: Result, q': real, r': Result)
    requires Prepared(e) && 0.0 < e[|e| - 1].count && 0.0 <= q <= q' <= 1.0
    requires IsQuantile(e, q, r) && IsQuantile(e, q', r') && r.Value? && r'.Value?
    ensures AtMost(r.v, r'.v)
  {
    hide Linear, FirstReaching, AnswerIn, IsQuantile;
    var rank := RankOf(e, q, r);
    var rank' := RankOf(e, q', r');
    RankMonotone(e[|e| - 1].count, q, q');
    var b :| 0 <= b < |e| && FirstReaching(e, rank, b) && AnswerIn(e, rank, b, r);
    var b' :| 0 <= b' < |e| && FirstReaching(e, rank', b') && AnswerIn(e, rank', b', r');
    ReachingMonotone(e, rank, b, rank', b');
    if b < b' {
      AnswerBelow(e, rank, b, r);
      AnswerAbove(e, rank', b', r');
      assert AtMost(e[b].upper, e[b' - 1].upper);
    } else {
      SameBucket(e, rank, r, rank', r', b);
    }
  }

  lemma {:induction false} ReachingMonotone(e: seq<Bucket>, rank: real, b: int, rank': real, b': int)
    requires 0 <= b < |e| && FirstReaching(e, rank, b) && 0 <= b' < |e| && FirstReaching(e, rank', b') && rank <= rank'
    ensures b <= b'
  {
  }

  lemma {:induction false} AnswerBelow(e: seq<Bucket>, rank: real, b: int, r: Result)
    requires Prepared(e) && 0 <= b < |e| - 1 && AnswerIn(e, rank, b, r) && r.Value?
    ensures AtMost(r.v, e[b].upper)
  {
  }

  lemma {:induction false} AnswerAbove(e: seq<Bucket>, rank: real, b: int, r: Result)
    requires Prepared(e) && 0 < b < |e| && AnswerIn(e, rank, b, r) && r.Value?
    ensures AtMost(e[b - 1].upper, r.v)
  {
  }

  lemma {:induction false} SameBucket(e: seq<Bucket>, rank: real, r: Result, rank': real, r': Result, b: int)
    requires Prepared(e) && 0 <= b < |e| && FirstReaching(e, rank, b) && AnswerIn(e, rank, b, r)
    requires AnswerIn(e, rank', b, r') && rank <= rank' && r.Value? && r'.Value?
    requires b > 0 || 0.0 <= rank
    ensures AtMost(r.v, r'.v)
  {
  }

  // ---------------------------------------------------------------------------
  // From the bucket list itself

  lemma {:induction false} EnvelopeUnique(s: seq<Bucket>, e: seq<Bucket>, e': seq<Bucket>)
    requires IsEnvelope(s, e) && IsEnvelope(s, e')
    ensures e == e'
  {
    forall i | 0 <= i < |e|
      ensures e[i] == e'[i]
    {
      assert IsMax(s, i, e[i].count) && IsMax(s, i, e'[i].count);
    }
  }

  /** The search works on the same list however the buckets were given. */
  lemma {:induction false} PreparesUnique(s: seq<Bucket>, t: seq<Bucket>, m: seq<Bucket>, e: seq<Bucket>,
                                          m': seq<Bucket>, e': seq<Bucket>)
    requires multiset(s) == multiset(t) && Prepares(s, m, e) && Prepares(t, m', e')
    ensures e == e'
  {
    hide IsMerged, IsEnvelope;
    MergedUnique(s, t, m, m');
    EnvelopeUnique(m, e, e');
  }

  lemma {:induction false} AnswerUnique(e: seq<Bucket>, rank: real, b: int, r: Result, r': Result)
    requires 0 <= b < |e| && |e| >= 2 && AnswerIn(e, rank, b, r) && AnswerIn(e, rank, b, r')
    ensures r == r'
  {
    hide Linear;
    if r.Value? && r'.Value? && r != r' {
      var lo, hi, c, d := Start(e, b).x, e[b].upper.x, PrevCount(e, b), e[b].count;
      LinearInjective(lo, hi, c, d, r.v.x, r'.v.x);
    }
  }

  lemma {:induction false} LinearInjective(lo: real, hi: real, c: real, d: real, v: real, v': real)
    requires lo < hi && c != d && Linear(lo, hi, c, d, v) == Linear(lo, hi, c, d, v')
    ensures v == v'
  {
    var w := hi - lo;
    var x, y := (v - lo) / w, (v' - lo) / w;
    Times(d - c, x, y);
    assert x == y;
    assert v - lo == w * x && v' - lo == w * y;
  }

  lemma {:induction false} Times(a: real, x: real, y: real)
    requires a != 0.0 && a * x == a * y
    ensures x == y
  {
    assert a * (x - y) == 0.0;
  }

  lemma {:induction false} QuantileUnique(e: seq<Bucket>, q: real, r: Result, r': Result)
    requires IsQuantile(e, q, r) && IsQuantile(e, q, r')
    ensures r == r'
  {
    hide AnswerIn, FirstReaching;
    if |e| >= 2 && e[|e| - 1].count != 0.0 {
      var rank := q * e[|e| - 1].count;
      assert AnswersRank(e, rank, r) && AnswersRank(e, rank, r');
      var b :| 0 <= b < |e| && FirstReaching(e, rank, b) && AnswerIn(e, rank, b, r);
      var b' :| 0 <= b' < |e| && FirstReaching(e, rank, b') && AnswerIn(e, rank, b', r');
      ReachingMonotone(e, rank, b, rank, b');
      ReachingMonotone(e, rank, b', rank, b);
      AnswerUnique(e, rank, b, r, r');
    }
  }

  lemma {:induction false} PreparedFor(s: seq<Bucket>, q: real, r: Result) returns (m: seq<Bucket>, e: seq<Bucket>)
    requires 0.0 <= q <= 1.0 && HasBound(s, PlusInf) && Gives(s, q, r)
    ensures Prepares(s, m, e) && IsQuantile(e, q, r)
  {
    hide Prepares, IsQuantile, HasBound;
    m, e :| Prepares(s, m, e) && IsQuantile(e, q, r);
  }

  /** The answer depends on q and on which buckets there are, not on their order. */
  lemma {:induction false} OrderDoesNotMatter(s: seq<Bucket>, t: seq<Bucket>, q: real, r: Result, r': Result)
    requires multiset(s) == multiset(t) && Gives(s, q, r) && Gives(t, q, r')
    ensures r == r'
  {
    hide HasBound, Prepares, IsQuantile, CountAt;
    CountAtMembers(s, t, PlusInf);
    if 0.0 <= q <= 1.0 && HasBound(s, PlusInf) {
      var m, e := PreparedFor(s, q, r);
      var m', e' := PreparedFor(t, q, r');
      PreparesUnique(s, t, m, e, m', e');
      QuantileUnique(e, q, r, r');
    }
  }

  /** Counts of observations: none is negative, and no bucket ends at minus infinity. */
  ghost predicate Plain(s: seq<Bucket>) {
    forall b :: b in s ==> 0.0 <= b.count && !b.upper.MinusInf?
  }

  ghost predicate HasFinite(s: seq<Bucket>) {
    exists x :: HasBound(s, Fin(x))
  }

  ghost predicate Counts(s: seq<Bucket>) {
    exists b :: b in s && 0.0 < b.count
  }

  lemma {:induction false} CountAtPlain(s: seq<Bucket>, x: Bound)
    requires Plain(s)
    ensures 0.0 <= CountAt(s, x)
    ensures (exists b :: b in s && b.upper == x && 0.0 < b.count) <==> 0.0 < CountAt(s, x)
  {
    if |s| > 0 {
      var n := |s| - 1;
      CountAtPlain(s[..n], x);
      assert s == s[..n] + [s[n]];
      assert forall b :: b in s <==> b in s[..n] || b == s[n];
    }
  }

  lemma {:induction false} CountAtOwn(m: seq<Bucket>, i: int)
    requires Strict(m) && 0 <= i < |m|
    ensures CountAt(m, m[i].upper) == m[i].count
  {
    var n := |m| - 1;
    if i == n {
      CountAtLast(m);
    } else {
      CountAtOwn(m[..n], i);
    }
  }

  /** Each merged bucket has a bound of s and counts what s counts there. */
  lemma {:induction false} MergedAt(s: seq<Bucket>, m: seq<Bucket>, i: int)
    requires Plain(s) && IsMerged(s, m) && 0 <= i < |m|
    ensures HasBound(s, m[i].upper) && m[i].count == CountAt(s, m[i].upper) && 0.0 <= m[i].count && !m[i].upper.MinusInf?
  {
    hide CountAt;
    CountAtOwn(m, i);
    assert SameAt(s, m, m[i].upper) && HasBound(m, m[i].upper);
    CountAtPlain(s, m[i].upper);
  }

  lemma {:induction false} MergedHas(s: seq<Bucket>, m: seq<Bucket>, x: Bound) returns (i: int)
    requires IsMerged(s, m) && HasBound(s, x)
    ensures 0 <= i < |m| && m[i].upper == x
  {
    assert SameAt(s, m, x);
    i :| 0 <= i < |m| && m[i].upper == x;
  }

  lemma {:induction false} EnvelopeAbove(m: seq<Bucket>, e: seq<Bucket>, i: int)
    requires IsEnvelope(m, e) && 0 <= i < |m|
    ensures m[i].count <= e[|e| - 1].count && e[0].count == m[0].count && e[i].upper == m[i].upper
  {
    assert IsMax(m, |m| - 1, e[|e| - 1].count) && IsMax(m, 0, e[0].count);
  }

  lemma {:induction false} EnvelopeReached(m: seq<Bucket>, e: seq<Bucket>) returns (i: int)
    requires IsEnvelope(m, e) && |m| > 0
    ensures 0 <= i < |m| && m[i].count == e[|e| - 1].count
  {
    assert IsMax(m, |m| - 1, e[|e| - 1].count);
    i :| 0 <= i <= |m| - 1 && m[i].count == e[|e| - 1].count;
  }

  /** There are observations in the prepared list exactly if some bucket counts any. */
  lemma {:induction false} TotalIs(s: seq<Bucket>, m: seq<Bucket>, e: seq<Bucket>)
    requires Plain(s) && Prepares(s, m, e)
    ensures 0.0 <= e[0].count && 0.0 <= e[|e| - 1].count && (0.0 < e[|e| - 1].count <==> Counts(s))
  {
    hide CountAt, HasBound, Plain, IsMerged, Strict;
    EnvelopeAbove(m, e, 0);
    MergedAt(s, m, 0);
    if Counts(s) {
      var b :| b in s && 0.0 < b.count;
      CountAtPlain(s, b.upper);
      InHasBound(s, b);
      var i := MergedHas(s, m, b.upper);
      MergedAt(s, m, i);
      EnvelopeAbove(m, e, i);
    }
    if 0.0 < e[|e| - 1].count {
      var i := EnvelopeReached(m, e);
      MergedAt(s, m, i);
      CountAtPlain(s, m[i].upper);
    }
  }

  lemma {:induction false} InHasBound(s: seq<Bucket>, b: Bucket)
    requires b in s
    ensures HasBound(s, b.upper)
  {
    var i :| 0 <= i < |s| && s[i] == b;
    assert s[i].upper == b.upper;
  }

  /** It has a second bucket exactly if s has a finite bound. */
  lemma {:induction false} SecondIs(s: seq<Bucket>, m: seq<Bucket>, e: seq<Bucket>)
    requires Plain(s) && Prepares(s, m, e)
    ensures |e| >= 2 <==> HasFinite(s)
  {
    hide CountAt, HasBound, Plain, AtMost, IsMax;
    if HasFinite(s) {
      var x :| HasBound(s, Fin(x));
      var i := MergedHas(s, m, Fin(x));
      assert m[|m| - 1].upper.PlusInf?;
    }
    if |e| >= 2 {
      MergedAt(s, m, 0);
      assert m[0].upper != m[|m| - 1].upper;
      assert HasBound(s, Fin(m[0].upper.x));
    }
  }

  lemma {:induction false} PreparesPrepared(s: seq<Bucket>, m: seq<Bucket>, e: seq<Bucket>)
    requires Plain(s) && Prepares(s, m, e) && HasFinite(s)
    ensures Prepared(e) && !e[0].upper.MinusInf? && HasBound(s, e[0].upper) && HasBound(s, e[|e| - 2].upper)
  {
    hide CountAt, HasBound, Plain, IsEnvelope;
    SecondIs(s, m, e);
    EnvelopeMonotonic(m, e);
    assert |m| == |e| by { EnvelopeSize(m, e); }
    MergedAt(s, m, 0);
    MergedAt(s, m, |m| - 2);
    EnvelopeAbove(m, e, 0);
    EnvelopeAbove(m, e, |m| - 2);
  }

  lemma {:induction false} EnvelopeSize(m: seq<Bucket>, e: seq<Bucket>)
    requires IsEnvelope(m, e)
    ensures |m| == |e|
  {
  }

  /** At most some finite bound; at least some finite bound, or 0 if all finite bounds are positive. */
  ghost predicate InBounds(s: seq<Bucket>, v: real) {
    && (exists x :: HasBound(s, Fin(x)) && v <= x)
    && ((exists x :: HasBound(s, Fin(x)) && x <= v) || (0.0 <= v && forall x :: HasBound(s, Fin(x)) ==> 0.0 < x))
  }

  lemma {:induction false} FirstIsLeast(s: seq<Bucket>, m: seq<Bucket>, e: seq<Bucket>, x: real)
    requires Prepares(s, m, e) && HasBound(s, Fin(x))
    ensures AtMost(e[0].upper, Fin(x))
  {
    hide CountAt, IsMax;
    var i := MergedHas(s, m, Fin(x));
    EnvelopeAbove(m, e, 0);
  }

  /** With finite bounds and observations, a quantile is a finite value within the bounds. */
  lemma {:induction false} RawWithin(s: seq<Bucket>, m: seq<Bucket>, e: seq<Bucket>, q: real, r: Result)
    requires Plain(s) && Prepares(s, m, e) && HasFinite(s) && Counts(s)
    requires 0.0 < q <= 1.0 && IsQuantile(e, q, r)
    ensures r.Value? && r.v.Fin? && InBounds(s, r.v.x)
  {
    hide Prepares, IsQuantile, HasBound, Plain, Strict, Monotonic;
    PreparesPrepared(s, m, e);
    TotalIs(s, m, e);
    QuantileWithin(e, q, r);
    BoundsApart(e, 0);
    assert HasBound(s, Fin(e[|e| - 2].upper.x)) && r.v.x <= e[|e| - 2].upper.x;
    assert HasBound(s, Fin(e[0].upper.x));
    if !AtMost(e[0].upper, Fin(0.0)) {
      forall x | HasBound(s, Fin(x))
        ensures 0.0 < x
      {
        FirstIsLeast(s, m, e, x);
      }
    }
  }

  /**
    There is a quantile exactly if the buckets reach infinity, have a finite bound and count something;
    it is then finite and within the bounds.
   */
  lemma {:induction false} QuantileExists(s: seq<Bucket>, q: real, r: Result)
    requires Plain(s) && 0.0 < q <= 1.0 && Gives(s, q, r)
    ensures HasBound(s, PlusInf) && HasFinite(s) && Counts(s) ==> r.Value? && r.v.Fin? && InBounds(s, r.v.x)
    ensures !(HasBound(s, PlusInf) && HasFinite(s) && Counts(s)) ==> r == NaN
  {
    hide Prepares, Plain, HasFinite, Counts, HasBound, InBounds, AnswersRank;
    if HasBound(s, PlusInf) {
      var m, e := PreparedFor(s, q, r);
      if HasFinite(s) && Counts(s) {
        RawWithin(s, m, e, q, r);
      } else {
        SecondIs(s, m, e);
        TotalIs(s, m, e);
      }
    }
  }

  /** Two calls on the same buckets, in whatever order they are given: the greater q has no smaller quantile. */
  lemma {:induction false} QuantilesOrdered(s: seq<Bucket>, t: seq<Bucket>, q: real, r: Result, q': real, r': Result)
    requires multiset(s) == multiset(t) && Plain(s) && HasBound(s, PlusInf) && HasFinite(s) && Counts(s)
    requires 0.0 < q <= q' <= 1.0 && Gives(s, q, r) && Gives(t, q', r')
    ensures r.Value? && r.v.Fin? && InBounds(s, r.v.x)
    ensures r'.Value? && r'.v.Fin? && InBounds(s, r'.v.x)
    ensures r.v.x <= r'.v.x
  {
    hide Gives, Prepares, Plain, HasFinite, Counts, HasBound, InBounds, IsQuantile, CountAt, Strict, Monotonic;
    CountAtMembers(s, t, PlusInf);
    var m, e := PreparedFor(s, q, r);
    var m', e' := PreparedFor(t, q', r');
    PreparesUnique(s, t, m, e, m', e');
    RawWithin(s, m, e, q, r);
    RawWithin(s, m, e, q', r');
    PreparesPrepared(s, m, e);
    TotalIs(s, m, e);
    QuantileMonotone(e, q, r, q', r');
  }

  // ---------------------------------------------------------------------------
  // On a list that needs no preparation

  lemma {:induction false} AlreadyPrepared(s: seq<Bucket>, m: seq<Bucket>, e: seq<Bucket>)
    requires Strict(s) && Monotonic(s) && Prepares(s, m, e)
    ensures e == s
  {
    hide Strict, IsEnvelope, HasBound, CountAt, Monotonic;
    assert IsMerged(s, s) by {
      forall x
        ensures SameAt(s, s, x)
      {
      }
    }
    MergedUnique(s, s, m, s);
    EnvelopeMonotonic(s, e);
  }

  /** The b-th bucket is the first one with at least rank observations. */
  ghost predicate IsFirstWith(s: seq<Bucket>, rank: real, b: int) {
    0 <= b < |s| && s[b].count >= rank && forall k :: 0 <= k < b ==> s[k].count < rank
  }

  /**
    In a proper list, the quantile divides the bucket of its rank as the rank divides the bucket's observations.
    The first bucket starts at 0 if its bound is positive, and is its bound otherwise; the last one is the bound
    before it.
   */
  lemma {:induction false} QuantileDivides(s: seq<Bucket>, q: real, r: Result, b: int)
    requires Strict(s) && Monotonic(s) && |s| >= 2 && s[|s| - 1].upper.PlusInf? && 0.0 <= s[0].count && s[0].upper.Fin?
    requires 0.0 < q <= 1.0 && 0.0 < s[|s| - 1].count && Gives(s, q, r) && IsFirstWith(s, q * s[|s| - 1].count, b)
    ensures r.Value? && r.v.Fin?
    ensures b == |s| - 1 ==> r.v == s[b - 1].upper
    ensures b == 0 && s[0].upper.x <= 0.0 ==> r.v == s[0].upper
    ensures b == 0 && s[0].upper.x > 0.0 ==> r.v.x * s[0].count == q * s[|s| - 1].count * s[0].upper.x
    ensures 0 < b < |s| - 1 ==>
      && s[b - 1].upper.Fin? && s[b].upper.Fin?
      && (r.v.x - s[b - 1].upper.x) * (s[b].count - s[b - 1].count)
         == (q * s[|s| - 1].count - s[b - 1].count) * (s[b].upper.x - s[b - 1].upper.x)
  {
    hide Linear, Prepares, Gives, HasBound, Monotonic, Strict, AnswerIn, FirstReaching;
    var rank := q * s[|s| - 1].count;
    var b' := FoundFor(s, q, rank, r);
    SameFound(s, rank, b, b');
    BoundsApart(s, b);
    AnswerDivides(s, rank, r, b);
  }

  lemma {:induction false} FoundFor(s: seq<Bucket>, q: real, rank: real, r: Result) returns (b: int)
    requires Strict(s) && Monotonic(s) && |s| >= 2 && s[|s| - 1].upper.PlusInf? && 0.0 <= s[0].count && s[0].upper.Fin?
    requires 0.0 < q <= 1.0 && 0.0 < s[|s| - 1].count && Gives(s, q, r) && rank == q * s[|s| - 1].count
    ensures 0 <= b < |s| && FirstReaching(s, rank, b) && AnswerIn(s, rank, b, r) && r.Value? && r.v.Fin?
  {
    hide Linear, Prepares, Gives, HasBound, Monotonic, Strict, AnswerIn, FirstReaching;
    AtInfinity(s);
    var m, e := PreparedFor(s, q, r);
    AlreadyPrepared(s, m, e);
    QuantileWithin(s, q, r);
    assert AnswersRank(s, rank, r);
    b :| 0 <= b < |s| && FirstReaching(s, rank, b) && AnswerIn(s, rank, b, r);
  }

  lemma {:induction false} SameFound(s: seq<Bucket>, rank: real, b: int, b': int)
    requires IsFirstWith(s, rank, b) && 0 <= b' < |s| && FirstReaching(s, rank, b')
    ensures b == b'
  {
  }

  lemma {:induction false} AnswerDivides(s: seq<Bucket>, rank: real, r: Result, b: int)
    requires Strict(s) && |s| >= 2 && 0 <= b < |s| && AnswerIn(s, rank, b, r) && r.Value? && r.v.Fin? && s[0].upper.Fin?
    ensures b == |s| - 1 ==> r.v == s[b - 1].upper
    ensures b == 0 && s[0].upper.x <= 0.0 ==> r.v == s[0].upper
    ensures b == 0 && s[0].upper.x > 0.0 ==> r.v.x * s[0].count == rank * s[0].upper.x
    ensures 0 < b < |s| - 1 ==>
      && s[b - 1].upper.Fin? && s[b].upper.Fin?
      && (r.v.x - s[b - 1].upper.x) * (s[b].count - s[b - 1].count)
         == (rank - s[b - 1].count) * (s[b].upper.x - s[b - 1].upper.x)
  {
    hide Linear, Strict;
    if b < |s| - 1 && !(b == 0 && s[0].upper.x <= 0.0) {
      LinearTimes(Start(s, b).x, s[b].upper.x, PrevCount(s, b), s[b].count, r.v.x, rank);
    }
  }

  lemma {:induction false} AtInfinity(s: seq<Bucket>)
    requires |s| > 0 && s[|s| - 1].upper == PlusInf
    ensures HasBound(s, PlusInf)
  {
  }

  lemma {:induction false} LinearTimes(lo: real, hi: real, c: real, d: real, v: real, rank: real)
    requires lo < hi && Linear(lo, hi, c, d, v) == rank
    ensures (v - lo) * (d - c) == (rank - c) * (hi - lo)
  {
    var w := hi - lo;
    var x := (v - lo) / w;
    assert x * w == v - lo;
    assert (d - c) * x == rank - c;
    assert (v - lo) * (d - c) == x * w * (d - c) == ((d - c) * x) * w;
  }
}

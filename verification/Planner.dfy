/**
  tsdb/compact.go: the leveled compaction planner, and the loop of tsdb/db.go that
  plans and compacts until there is nothing left to do.
 */
module Planner {
  import opened Samples
  import opened GoInt

  /** What the planner reads of a block's meta file; dir stands for its directory. */
  datatype Meta = Meta(dir: int, minTime: int, maxTime: int, numSeries: nat, numTombstones: nat,
                       failed: bool, level: nat, sources: set<int>)

  ghost predicate ValidBlocks(ds: seq<Meta>) {
    forall i :: 0 <= i < |ds| ==> ds[i].minTime < ds[i].maxTime
  }

  ghost predicate SortedByMinTime(ds: seq<Meta>) {
    forall i, j :: 0 <= i < j < |ds| ==> ds[i].minTime <= ds[j].minTime
  }

  /** Two half-open time ranges share a point. */
  predicate Overlap(a: Meta, b: Meta) {
    a.minTime < b.maxTime && b.minTime < a.maxTime
  }

  ghost predicate PairwiseDisjoint(ds: seq<Meta>) {
    forall i, j :: 0 <= i < j < |ds| ==> !Overlap(ds[i], ds[j])
  }

  // ---------------------------------------------------------------------------
  // selectOverlappingDirs

  /** The k-th block overlaps one from the i-th on that is before it. */
  ghost predicate OverlapsEarlier(ds: seq<Meta>, i: int, k: int)
    requires 0 <= i && k < |ds|
  {
    exists a :: i <= a < k && Overlap(ds[a], ds[k])
  }

  /**
    The first maximal run of overlapping blocks is ds[i..j]: nothing before it overlaps
    anything, every block of it but the first overlaps an earlier one of it, and
    nothing after it overlaps it or what is before it.
   */
  ghost predicate IsFirstRun(ds: seq<Meta>, i: int, j: int) {
    && 0 <= i && i + 1 < j <= |ds|
    && (forall a, b :: 0 <= a < i && a < b < |ds| ==> !Overlap(ds[a], ds[b]))
    && (forall k :: i < k < j ==> OverlapsEarlier(ds, i, k))
    && (forall a, b :: 0 <= a < j <= b < |ds| ==> !Overlap(ds[a], ds[b]))
  }

  /** The block with the greatest end among the first n. */
  ghost predicate IsMax(ds: seq<Meta>, n: int, a: int, maxt: int) {
    && 0 <= a < n <= |ds| && ds[a].maxTime == maxt
    && forall k :: 0 <= k < n ==> ds[k].maxTime <= maxt
  }

  ghost predicate IsSlice(r: seq<Meta>, ds: seq<Meta>, i: int, k: int) {
    0 <= i <= k <= |ds| && r == ds[i..k]
  }

  /** Every one of the first i blocks ends before any later one of the first k begins. */
  ghost predicate Apart(ds: seq<Meta>, i: int, k: int) {
    forall a, b :: 0 <= a < i && a < b < k && b < |ds| ==> ds[a].maxTime <= ds[b].minTime
  }

  ghost predicate Chained(ds: seq<Meta>, i: int, k: int) {
    forall b :: 0 <= i < b < k && b < |ds| ==> OverlapsEarlier(ds, i, b)
  }

  method SelectOverlappingDirs(ds: seq<Meta>) returns (r: seq<Meta>, i: int, j: int)
    requires ValidBlocks(ds) && SortedByMinTime(ds)
    ensures |r| == 0 <==> PairwiseDisjoint(ds)
    ensures |r| > 0 ==> IsFirstRun(ds, i, j) && r == ds[i..j]
  {
    hide IsMax, IsSlice, Apart, Chained, SortedByMinTime, ValidBlocks, PairwiseDisjoint, IsFirstRun;
    r, i, j := [], 0, 0;
    if |ds| < 2 {
      NoOverlaps(ds, |ds|);
      return;
    }
    var globalMaxt := ds[0].maxTime;
    ghost var top := 0;
    var k := 1;
    FirstMax(ds);
    while k < |ds|
      invariant 1 <= k <= |ds| && IsMax(ds, k, top, globalMaxt)
      invariant |r| == 0 ==> top == k - 1 && Apart(ds, k, k)
      invariant |r| > 0 ==> 0 <= i < k - 1 && i <= top && IsSlice(r, ds, i, k) && Apart(ds, i, k) && Chained(ds, i, k)
    {
      MaxStep(ds, k, top, globalMaxt);
      if ds[k].minTime < globalMaxt {
        if |r| == 0 {
          i := k - 1;
          r := [ds[k - 1]];
          ChainStart(ds, i);
        }
        ChainStep(ds, i, k, top, globalMaxt, r);
        r := r + [ds[k]];
      } else if |r| > 0 {
        RunEnds(ds, i, k, top, globalMaxt, r);
        j := k;
        return;
      } else {
        ApartStep(ds, k, top, globalMaxt);
      }
      if ds[k].maxTime > globalMaxt {
        globalMaxt := ds[k].maxTime;
        top := k;
      }
      k := k + 1;
    }
    j := k;
    if |r| == 0 {
      NoOverlaps(ds, k);
    } else {
      RunEnds(ds, i, k, top, globalMaxt, r);
    }
  }

  lemma {:induction false} FirstMax(ds: seq<Meta>)
    requires |ds| > 0
    ensures IsMax(ds, 1, 0, ds[0].maxTime) && Apart(ds, 1, 1)
  {
  }

  lemma {:induction false} MaxStep(ds: seq<Meta>, k: int, top: int, maxt: int)
    requires IsMax(ds, k, top, maxt) && k < |ds|
    ensures if ds[k].maxTime > maxt then IsMax(ds, k + 1, k, ds[k].maxTime) else IsMax(ds, k + 1, top, maxt)
    ensures 0 <= top < k
  {
  }

  lemma {:induction false} ChainStart(ds: seq<Meta>, i: int)
    requires 0 <= i < |ds| && Apart(ds, i + 1, i + 1)
    ensures IsSlice([ds[i]], ds, i, i + 1) && Apart(ds, i, i + 1) && Chained(ds, i, i + 1)
  {
  }

  /** A block that starts before the greatest end so far belongs to the run. */
  lemma {:induction false} ChainStep(ds: seq<Meta>, i: int, k: int, top: int, maxt: int, r: seq<Meta>)
    requires ValidBlocks(ds) && SortedByMinTime(ds) && IsMax(ds, k, top, maxt) && k < |ds|
    requires 0 <= i <= top && i < k && ds[k].minTime < maxt
    requires IsSlice(r, ds, i, k) && Apart(ds, i, k) && Chained(ds, i, k)
    ensures IsSlice(r + [ds[k]], ds, i, k + 1) && Apart(ds, i, k + 1) && Chained(ds, i, k + 1)
  {
    hide Apart, Chained, SortedByMinTime, IsSlice;
    assert Overlap(ds[top], ds[k]) by { MaxOverlaps(ds, k, top, maxt); }
    SliceNext(ds, i, k, r);
    ApartNext(ds, i, k);
    ChainedNext(ds, i, k, top);
  }

  lemma {:induction false} MaxOverlaps(ds: seq<Meta>, k: int, top: int, maxt: int)
    requires ValidBlocks(ds) && SortedByMinTime(ds) && IsMax(ds, k, top, maxt) && k < |ds| && ds[k].minTime < maxt
    ensures Overlap(ds[top], ds[k])
  {
    assert ds[top].minTime <= ds[k].minTime < ds[k].maxTime;
  }

  lemma {:induction false} SliceNext(ds: seq<Meta>, i: int, k: int, r: seq<Meta>)
    requires IsSlice(r, ds, i, k) && k < |ds|
    ensures IsSlice(r + [ds[k]], ds, i, k + 1)
  {
    assert ds[i..k] + [ds[k]] == ds[i..k + 1];
  }

  lemma {:induction false} ApartNext(ds: seq<Meta>, i: int, k: int)
    requires SortedByMinTime(ds) && 0 <= i < k < |ds| && Apart(ds, i, k)
    ensures Apart(ds, i, k + 1)
  {
    forall a, b | 0 <= a < i && a < b < k + 1
      ensures ds[a].maxTime <= ds[b].minTime
    {
      if b == k {
        assert ds[a].maxTime <= ds[i].minTime <= ds[k].minTime;
      }
    }
  }

  lemma {:induction false} ChainedNext(ds: seq<Meta>, i: int, k: int, top: int)
    requires 0 <= i <= top < k < |ds| && Overlap(ds[top], ds[k]) && Chained(ds, i, k)
    ensures Chained(ds, i, k + 1)
  {
    assert OverlapsEarlier(ds, i, k) by {
      assert i <= top < k && Overlap(ds[top], ds[k]);
    }
    hide OverlapsEarlier;
  }

  lemma {:induction false} ApartStep(ds: seq<Meta>, k: int, top: int, maxt: int)
    requires ValidBlocks(ds) && IsMax(ds, k, top, maxt) && k < |ds| && maxt <= ds[k].minTime && Apart(ds, k, k)
    ensures ds[k].maxTime > maxt && Apart(ds, k + 1, k + 1)
  {
  }

  lemma {:induction false} NoOverlaps(ds: seq<Meta>, k: int)
    requires k == |ds| && (Apart(ds, k, k) || k < 2)
    ensures PairwiseDisjoint(ds)
  {
  }

  lemma {:induction false} RunEnds(ds: seq<Meta>, i: int, k: int, top: int, maxt: int, r: seq<Meta>)
    requires ValidBlocks(ds) && SortedByMinTime(ds) && IsMax(ds, k, top, maxt) && k <= |ds|
    requires k < |ds| ==> maxt <= ds[k].minTime
    requires 0 <= i < k - 1 && IsSlice(r, ds, i, k) && Apart(ds, i, k) && Chained(ds, i, k)
    ensures IsFirstRun(ds, i, k) && r == ds[i..k] && |r| > 0 && !PairwiseDisjoint(ds)
  {
    hide PairwiseDisjoint, Apart, Chained, SortedByMinTime, ValidBlocks, IsFirstRun;
    AfterRun(ds, k, maxt);
    ChainedRun(ds, i, k);
    BeforeRun(ds, i, k);
    MakesFirstRun(ds, i, k);
  }

  lemma {:induction false} MakesFirstRun(ds: seq<Meta>, i: int, k: int)
    requires 0 <= i && i + 1 < k <= |ds|
    requires forall a, b :: 0 <= a < k <= b < |ds| ==> !Overlap(ds[a], ds[b])
    requires forall a, b :: 0 <= a < i && a < b < |ds| ==> !Overlap(ds[a], ds[b])
    requires forall b :: i < b < k ==> OverlapsEarlier(ds, i, b)
    ensures IsFirstRun(ds, i, k)
  {
  }

  lemma {:induction false} AfterRun(ds: seq<Meta>, k: int, maxt: int)
    requires SortedByMinTime(ds) && 0 <= k <= |ds| && (k < |ds| ==> maxt <= ds[k].minTime)
    requires forall a :: 0 <= a < k ==> ds[a].maxTime <= maxt
    ensures forall a, b :: 0 <= a < k <= b < |ds| ==> ds[a].maxTime <= ds[b].minTime
    ensures forall a, b :: 0 <= a < k <= b < |ds| ==> !Overlap(ds[a], ds[b])
  {
  }

  lemma {:induction false} BeforeRun(ds: seq<Meta>, i: int, k: int)
    requires Apart(ds, i, k) && 0 <= i <= k <= |ds|
    requires forall a, b :: 0 <= a < k <= b < |ds| ==> ds[a].maxTime <= ds[b].minTime
    ensures forall a, b :: 0 <= a < i && a < b < |ds| ==> !Overlap(ds[a], ds[b])
  {
  }

  lemma {:induction false} ChainedRun(ds: seq<Meta>, i: int, k: int)
    requires Chained(ds, i, k) && 0 <= i && i + 1 < k <= |ds|
    ensures forall b :: i < b < k ==> OverlapsEarlier(ds, i, b)
    ensures !PairwiseDisjoint(ds)
  {
    assert OverlapsEarlier(ds, i, i + 1);
    var a :| i <= a < i + 1 && Overlap(ds[a], ds[i + 1]);
  }

  // ---------------------------------------------------------------------------
  // splitByRange

  /** The start of the aligned window of size tr that holds t, as the source computes it. */
  function WindowStart(t: int, tr: int): int
    requires 0 < tr
  {
    if t >= 0 then tr * Quo(t, tr) else tr * Quo(t - tr + 1, tr)
  }

  /** It is the greatest multiple of tr not above t, for negative times as well. */
  lemma {:induction false} WindowStartIsFloor(t: int, tr: int)
    requires 0 < tr
    ensures IsMultiple(WindowStart(t, tr), tr) && WindowStart(t, tr) <= t < WindowStart(t, tr) + tr
  {
    if t >= 0 {
      QuoBounds(t, tr);
    } else {
      QuoBounds(t - tr + 1, tr);
      MultiplesBelow(WindowStart(t, tr), t, tr);
    }
  }

  lemma {:induction false} MultiplesBelow(w: int, t: int, tr: int)
    requires 0 < tr && IsMultiple(w, tr) && t < 0 && w - tr < t - tr + 1 <= w
    ensures w <= t
  {
  }

  lemma {:induction false} SameWindow(t: int, w: int, tr: int)
    requires 0 < tr && IsMultiple(w, tr) && w <= t < w + tr
    ensures WindowStart(t, tr) == w
  {
    WindowStartIsFloor(t, tr);
    var v := WindowStart(t, tr);
    if v < w {
      MultiplesApart(v, w, tr);
      assert false;
    } else if w < v {
      MultiplesApart(w, v, tr);
      assert false;
    }
  }

  /** The block lies in the aligned window that starts at w. */
  ghost predicate FitsAt(m: Meta, w: int, tr: int)
    requires 0 < tr
  {
    WindowStart(m.minTime, tr) == w && m.maxTime <= w + tr
  }

  /** ds[lo..hi] are neighbours in one aligned window, and no further neighbour is in it. */
  ghost predicate IsGroup(ds: seq<Meta>, tr: int, lo: int, hi: int)
    requires 0 < tr
  {
    && 0 <= lo < hi <= |ds|
    && var w := WindowStart(ds[lo].minTime, tr);
    && (forall k :: lo <= k < hi ==> FitsAt(ds[k], w, tr))
    && (0 < lo ==> !FitsAt(ds[lo - 1], w, tr))
    && (hi < |ds| ==> !FitsAt(ds[hi], w, tr))
  }

  /** The groups are the slices at the given bounds. */
  ghost predicate AreSlices(parts: seq<seq<Meta>>, ds: seq<Meta>, bounds: seq<(int, int)>) {
    && |parts| == |bounds|
    && forall k :: 0 <= k < |parts| ==> 0 <= bounds[k].0 < bounds[k].1 <= |ds| && parts[k] == ds[bounds[k].0..bounds[k].1]
  }

  /** Exactly the groups that end by position i are listed, from left to right. */
  ghost predicate ListsGroups(bounds: seq<(int, int)>, ds: seq<Meta>, tr: int, i: int)
    requires 0 < tr
  {
    && (forall k :: 0 <= k < |bounds| ==> IsGroup(ds, tr, bounds[k].0, bounds[k].1) && bounds[k].1 <= i)
    && (forall j, k :: 0 <= j < k < |bounds| ==> bounds[j].1 <= bounds[k].0)
    && (forall lo, hi :: IsGroup(ds, tr, lo, hi) && lo < i ==> (lo, hi) in bounds)
  }

  method SplitByRange(ds: seq<Meta>, tr: int) returns (parts: seq<seq<Meta>>, bounds: seq<(int, int)>)
    requires 0 < tr && ValidBlocks(ds) && SortedByMinTime(ds)
    ensures AreSlices(parts, ds, bounds) && ListsGroups(bounds, ds, tr, |ds|)
  {
    hide IsGroup, FitsAt, WindowStart;
    parts, bounds := [], [];
    NoGroupYet(ds, tr);
    var i := 0;
    while i < |ds|
      invariant 0 <= i <= |ds|
      invariant AreSlices(parts, ds, bounds) && ListsGroups(bounds, ds, tr, i)
      invariant 0 < i < |ds| ==> Boundary(ds, tr, i)
    {
      var t0 := WindowStart(ds[i].minTime, tr);
      if ds[i].maxTime > t0 + tr {
        SkipBlock(bounds, ds, tr, i);
        i := i + 1;
        continue;
      }
      var lo := i;
      var group;
      group, i := TakeGroup(ds, i, t0, tr);
      GroupFound(ds, tr, lo, i);
      ListGroup(bounds, ds, tr, lo, i);
      parts := parts + [group];
      bounds := bounds + [(lo, i)];
    }
  }

  /** The block at i does not continue the window of the block before it. */
  ghost predicate Boundary(ds: seq<Meta>, tr: int, i: int)
    requires 0 < tr && 0 < i < |ds|
  {
    forall w :: !(FitsAt(ds[i - 1], w, tr) && FitsAt(ds[i], w, tr))
  }

  /** The inner loop: all blocks from i on that end in the window that starts at t0. */
  method TakeGroup(ds: seq<Meta>, i0: int, t0: int, tr: int) returns (group: seq<Meta>, i: int)
    requires 0 < tr && ValidBlocks(ds) && SortedByMinTime(ds)
    requires 0 <= i0 < |ds| && t0 == WindowStart(ds[i0].minTime, tr) && ds[i0].maxTime <= t0 + tr
    ensures i0 < i <= |ds| && group == ds[i0..i]
    ensures forall k :: i0 <= k < i ==> FitsAt(ds[k], t0, tr)
    ensures i < |ds| ==> !FitsAt(ds[i], t0, tr)
  {
    hide WindowStart, IsMultiple;
    group, i := [], i0;
    WindowStartIsFloor(ds[i0].minTime, tr);
    while i < |ds|
      invariant i0 <= i <= |ds| && group == ds[i0..i]
      invariant forall k :: i0 <= k < i ==> FitsAt(ds[k], t0, tr)
    {
      if ds[i].maxTime > t0 + tr {
        break;
      }
      SameWindow(ds[i].minTime, t0, tr);
      TakeOne(ds, i0, i);
      group := group + [ds[i]];
      i := i + 1;
    }
  }

  lemma {:induction false} TakeOne(ds: seq<Meta>, i: int, k: int)
    requires 0 <= i <= k < |ds|
    ensures ds[i..k] + [ds[k]] == ds[i..k + 1]
  {
  }

  lemma {:induction false} SkipBlock(bounds: seq<(int, int)>, ds: seq<Meta>, tr: int, i: int)
    requires 0 < tr && 0 <= i < |ds| && ListsGroups(bounds, ds, tr, i)
    requires ds[i].maxTime > WindowStart(ds[i].minTime, tr) + tr
    ensures ListsGroups(bounds, ds, tr, i + 1)
    ensures i + 1 < |ds| ==> Boundary(ds, tr, i + 1)
  {
    forall lo, hi | IsGroup(ds, tr, lo, hi) && lo < i + 1
      ensures (lo, hi) in bounds
    {
      assert FitsAt(ds[lo], WindowStart(ds[lo].minTime, tr), tr);
    }
  }

  lemma {:induction false} GroupFound(ds: seq<Meta>, tr: int, lo: int, hi: int)
    requires 0 < tr && 0 <= lo < hi <= |ds|
    requires forall k :: lo <= k < hi ==> FitsAt(ds[k], WindowStart(ds[lo].minTime, tr), tr)
    requires hi < |ds| ==> !FitsAt(ds[hi], WindowStart(ds[lo].minTime, tr), tr)
    requires 0 < lo ==> Boundary(ds, tr, lo)
    ensures IsGroup(ds, tr, lo, hi)
    ensures hi < |ds| ==> Boundary(ds, tr, hi)
  {
    hide WindowStart;
    var w := WindowStart(ds[lo].minTime, tr);
    assert FitsAt(ds[lo], w, tr) && FitsAt(ds[hi - 1], w, tr);
  }

  /** A group that starts inside another is that other. */
  lemma {:induction false} SameGroup(ds: seq<Meta>, tr: int, lo: int, hi: int, lo': int, hi': int)
    requires 0 < tr && IsGroup(ds, tr, lo, hi) && IsGroup(ds, tr, lo', hi') && lo <= lo' < hi
    ensures lo' == lo && hi' == hi
  {
    hide WindowStart;
    var w := WindowStart(ds[lo].minTime, tr);
    assert FitsAt(ds[lo'], w, tr) && FitsAt(ds[lo'], WindowStart(ds[lo'].minTime, tr), tr);
  }

  lemma {:induction false} ListGroup(bounds: seq<(int, int)>, ds: seq<Meta>, tr: int, lo: int, hi: int)
    requires 0 < tr && ListsGroups(bounds, ds, tr, lo) && IsGroup(ds, tr, lo, hi)
    ensures ListsGroups(bounds + [(lo, hi)], ds, tr, hi)
  {
    hide IsGroup;
    var r := bounds + [(lo, hi)];
    assert lo < hi by { GroupBounds(ds, tr, lo, hi); }
    forall a, b | IsGroup(ds, tr, a, b) && a < hi
      ensures (a, b) in r
    {
      if a < lo {
        assert (a, b) in bounds;
      } else {
        GroupBounds(ds, tr, a, b);
        SameGroup(ds, tr, lo, hi, a, b);
        assert r[|bounds|] == (a, b);
      }
    }
  }

  lemma {:induction false} NoGroupYet(ds: seq<Meta>, tr: int)
    requires 0 < tr
    ensures ListsGroups([], ds, tr, 0)
  {
  }

  lemma {:induction false} GroupBounds(ds: seq<Meta>, tr: int, lo: int, hi: int)
    requires 0 < tr && IsGroup(ds, tr, lo, hi)
    ensures 0 <= lo < hi <= |ds|
  {
  }

  // ---------------------------------------------------------------------------
  // selectDirs

  /** A group worth compacting: no failed block, more than one, and full or followed by a newer block. */
  ghost predicate Qualifies(ds: seq<Meta>, iv: int, lo: int, hi: int) {
    && 0 <= lo && lo + 1 < hi <= |ds|
    && (forall k :: lo <= k < hi ==> !ds[k].failed)
    && (ds[hi - 1].maxTime - ds[lo].minTime == iv || ds[hi - 1].maxTime <= ds[|ds| - 1].minTime)
  }

  /** No group of the first n ranges after the smallest qualifies. */
  ghost predicate NoneQualifies(ds: seq<Meta>, ranges: seq<int>, n: int) {
    forall v, lo, hi :: 1 <= v < n && v < |ranges| && 0 < ranges[v] && IsGroup(ds, ranges[v], lo, hi) ==>
      !Qualifies(ds, ranges[v], lo, hi)
  }

  /** No group that starts before position i qualifies. */
  ghost predicate NoneBefore(ds: seq<Meta>, iv: int, i: int)
    requires 0 < iv
  {
    forall lo, hi :: IsGroup(ds, iv, lo, hi) && lo < i ==> !Qualifies(ds, iv, lo, hi)
  }

  predicate AnyFailed(p: seq<Meta>) {
    exists k :: 0 <= k < |p| && p[k].failed
  }

  /** The first group of one range that qualifies. */
  method FirstOfRange(ds: seq<Meta>, iv: int) returns (r: seq<Meta>, lo: int, hi: int)
    requires 0 < iv && ValidBlocks(ds) && SortedByMinTime(ds) && |ds| > 0
    ensures |r| > 0 ==> IsGroup(ds, iv, lo, hi) && Qualifies(ds, iv, lo, hi) && r == ds[lo..hi] && NoneBefore(ds, iv, lo)
    ensures |r| == 0 ==> NoneBefore(ds, iv, |ds|)
  {
    hide IsGroup, Qualifies, NoneBefore, ListsGroups, ValidBlocks, SortedByMinTime;
    var highTime := ds[|ds| - 1].minTime;
    var parts;
    var bounds;
    parts, bounds := SplitByRange(ds, iv);
    for n := 0 to |parts|
      invariant forall k :: 0 <= k < n ==> !Qualifies(ds, iv, bounds[k].0, bounds[k].1)
    {
      var p := parts[n];
      lo, hi := bounds[n].0, bounds[n].1;
      QualifiesIs(ds, iv, lo, hi, p);
      var mint, maxt := p[0].minTime, p[|p| - 1].maxTime;
      if !AnyFailed(p) && (maxt - mint == iv || maxt <= highTime) && |p| > 1 {
        NoneOfFirst(bounds, ds, iv, n);
        return p, lo, hi;
      }
    }
    NoneOfFirst(bounds, ds, iv, |bounds|);
    return [], 0, 0;
  }

  lemma {:induction false} QualifiesIs(ds: seq<Meta>, iv: int, lo: int, hi: int, p: seq<Meta>)
    requires 0 <= lo < hi <= |ds| && p == ds[lo..hi]
    ensures Qualifies(ds, iv, lo, hi) <==>
      !AnyFailed(p) && (p[|p| - 1].maxTime - p[0].minTime == iv || p[|p| - 1].maxTime <= ds[|ds| - 1].minTime) && |p| > 1
  {
    if !AnyFailed(p) {
      assert forall k :: lo <= k < hi ==> ds[k] == p[k - lo];
    } else {
      var k :| 0 <= k < |p| && p[k].failed;
      assert ds[lo + k].failed;
    }
  }

  lemma {:induction false} NoneOfFirst(bounds: seq<(int, int)>, ds: seq<Meta>, iv: int, n: int)
    requires 0 < iv && ListsGroups(bounds, ds, iv, |ds|) && 0 <= n <= |bounds|
    requires forall k :: 0 <= k < n ==> !Qualifies(ds, iv, bounds[k].0, bounds[k].1)
    ensures NoneBefore(ds, iv, if n < |bounds| then bounds[n].0 else |ds|)
    ensures n < |bounds| ==> IsGroup(ds, iv, bounds[n].0, bounds[n].1)
  {
    hide IsGroup, Qualifies;
    forall lo, hi | IsGroup(ds, iv, lo, hi) && lo < (if n < |bounds| then bounds[n].0 else |ds|)
      ensures !Qualifies(ds, iv, lo, hi)
    {
      GroupBounds(ds, iv, lo, hi);
      var k :| 0 <= k < |bounds| && bounds[k] == (lo, hi);
      assert IsGroup(ds, iv, bounds[k].0, bounds[k].1);
      assert n < k ==> bounds[n].1 <= bounds[k].0;
      assert n < |bounds| ==> IsGroup(ds, iv, bounds[n].0, bounds[n].1);
      if n < |bounds| {
        GroupBounds(ds, iv, bounds[n].0, bounds[n].1);
      }
    }
  }

  method SelectDirs(ds: seq<Meta>, ranges: seq<int>) returns (r: seq<Meta>, ghost v: int, lo: int, hi: int)
    requires ValidBlocks(ds) && SortedByMinTime(ds) && forall k :: 0 <= k < |ranges| ==> 0 < ranges[k]
    ensures |r| == 0 <==> NoneQualifies(ds, ranges, |ranges|)
    ensures |r| > 0 ==> 1 <= v < |ranges| && NoneQualifies(ds, ranges, v) && NoneBefore(ds, ranges[v], lo)
    ensures |r| > 0 ==> IsGroup(ds, ranges[v], lo, hi) && Qualifies(ds, ranges[v], lo, hi) && r == ds[lo..hi]
  {
    hide IsGroup, Qualifies, NoneQualifies, NoneBefore, ValidBlocks, SortedByMinTime;
    r, v, lo, hi := [], 0, 0, 0;
    NoneYet(ds, ranges);
    if |ranges| < 2 || |ds| < 1 {
      return;
    }
    for n := 1 to |ranges|
      invariant NoneQualifies(ds, ranges, n)
    {
      r, lo, hi := FirstOfRange(ds, ranges[n]);
      if |r| > 0 {
        v := n;
        OneQualifies(ds, ranges, n, lo, hi);
        return;
      }
      NoneSnoc(ds, ranges, n);
    }
    r := [];
  }

  lemma {:induction false} NoneYet(ds: seq<Meta>, ranges: seq<int>)
    ensures NoneQualifies(ds, ranges, 1)
    ensures |ranges| < 2 || |ds| < 1 ==> NoneQualifies(ds, ranges, |ranges|)
  {
  }

  lemma {:induction false} NoneSnoc(ds: seq<Meta>, ranges: seq<int>, n: int)
    requires 1 <= n < |ranges| && 0 < ranges[n] && NoneQualifies(ds, ranges, n) && NoneBefore(ds, ranges[n], |ds|)
    ensures NoneQualifies(ds, ranges, n + 1)
  {
    hide Qualifies;
    forall lo, hi | IsGroup(ds, ranges[n], lo, hi)
      ensures !Qualifies(ds, ranges[n], lo, hi)
    {
      GroupBounds(ds, ranges[n], lo, hi);
    }
  }

  lemma {:induction false} OneQualifies(ds: seq<Meta>, ranges: seq<int>, n: int, lo: int, hi: int)
    requires 1 <= n < |ranges| && 0 < ranges[n] && IsGroup(ds, ranges[n], lo, hi) && Qualifies(ds, ranges[n], lo, hi)
    ensures !NoneQualifies(ds, ranges, |ranges|)
  {
    hide IsGroup, Qualifies;
  }

  // ---------------------------------------------------------------------------
  // plan

  /** sort.Slice by minimum time. */
  function Insert(m: Meta, ds: seq<Meta>): seq<Meta> {
    if |ds| == 0 || ds[|ds| - 1].minTime <= m.minTime then ds + [m]
    else Insert(m, ds[..|ds| - 1]) + [ds[|ds| - 1]]
  }

  function Sort(ds: seq<Meta>): seq<Meta> {
    if |ds| == 0 then [] else Insert(ds[|ds| - 1], Sort(ds[..|ds| - 1]))
  }

  lemma {:induction false} InsertKeeps(m: Meta, ds: seq<Meta>)
    ensures multiset(Insert(m, ds)) == multiset(ds) + multiset{m} && |Insert(m, ds)| == |ds| + 1
  {
    if |ds| > 0 && m.minTime < ds[|ds| - 1].minTime {
      InsertKeeps(m, ds[..|ds| - 1]);
      assert ds == ds[..|ds| - 1] + [ds[|ds| - 1]];
    }
  }

  lemma {:induction false} InsertBound(m: Meta, ds: seq<Meta>, t: int)
    requires m.minTime <= t && forall k :: 0 <= k < |ds| ==> ds[k].minTime <= t
    ensures forall k :: 0 <= k < |Insert(m, ds)| ==> Insert(m, ds)[k].minTime <= t
  {
    if |ds| > 0 && m.minTime < ds[|ds| - 1].minTime {
      InsertBound(m, ds[..|ds| - 1], t);
    }
  }

  lemma {:induction false} InsertSorted(m: Meta, ds: seq<Meta>)
    requires SortedByMinTime(ds)
    ensures SortedByMinTime(Insert(m, ds))
  {
    var n := |ds| - 1;
    if |ds| > 0 && m.minTime < ds[n].minTime {
      InsertSorted(m, ds[..n]);
      InsertBound(m, ds[..n], ds[n].minTime);
    }
  }

  lemma {:induction false} SortSorts(ds: seq<Meta>)
    ensures SortedByMinTime(Sort(ds)) && multiset(Sort(ds)) == multiset(ds) && |Sort(ds)| == |ds|
  {
    if |ds| > 0 {
      hide Insert, SortedByMinTime;
      var m, l := ds[|ds| - 1], ds[..|ds| - 1];
      SortSorts(l);
      InsertSorted(m, Sort(l));
      InsertKeeps(m, Sort(l));
      assert ds == l + [m];
      assert Sort(ds) == Insert(m, Sort(l));
    }
  }

  predicate Small(m: Meta, ranges: seq<int>)
    requires |ranges| > 0
  {
    m.maxTime - m.minTime < ranges[|ranges| / 2]
  }

  /** More than 5% tombstones. */
  predicate Heavy(m: Meta) {
    20 * m.numTombstones > m.numSeries + 1
  }

  predicate EntirelyDeleted(m: Meta) {
    m.numTombstones > 0 && m.numTombstones >= m.numSeries
  }

  /** The search for a block to rewrite, from the newest down, ends at k. */
  ghost predicate StopsAt(ds: seq<Meta>, ranges: seq<int>, k: int)
    requires |ranges| > 0
  {
    && 0 <= k < |ds| && (Small(ds[k], ranges) || Heavy(ds[k]))
    && forall i :: k < i < |ds| ==> !Small(ds[i], ranges) && !Heavy(ds[i])
  }

  /** The block at which the search ends is picked, unless it is small and not entirely deleted. */
  method PickTombstones(ds: seq<Meta>, ranges: seq<int>) returns (r: Option<int>)
    requires |ranges| > 0
    ensures r.Some? ==> StopsAt(ds, ranges, r.value) && ds[r.value].numTombstones > 0
    ensures forall k :: StopsAt(ds, ranges, k) ==>
      r == if Small(ds[k], ranges) && !EntirelyDeleted(ds[k]) then None else Some(k)
  {
    var i := |ds| - 1;
    while i >= 0
      invariant -1 <= i < |ds|
      invariant forall k :: i < k < |ds| ==> !Small(ds[k], ranges) && !Heavy(ds[k])
    {
      if Small(ds[i], ranges) {
        if EntirelyDeleted(ds[i]) {
          return Some(i);
        }
        break;
      }
      if Heavy(ds[i]) {
        return Some(i);
      }
      i := i - 1;
    }
    return None;
  }

  /** Why ds[i..j] is to be compacted. */
  datatype Reason = Overlapping | Level | Tombstones | Nothing

  ghost predicate IsPlan(ds: seq<Meta>, ranges: seq<int>, why: Reason, i: int, j: int)
    requires |ranges| > 0 && forall k :: 0 <= k < |ranges| ==> 0 < ranges[k]
  {
    match why
    case Overlapping => IsFirstRun(ds, i, j)
    case Level =>
      PairwiseDisjoint(ds) && |ds| > 0 && IsLevelPlan(ds[..|ds| - 1], ranges, i, j)
    case Tombstones =>
      && PairwiseDisjoint(ds) && |ds| > 0 && NoneQualifies(ds[..|ds| - 1], ranges, |ranges|)
      && StopsAt(ds[..|ds| - 1], ranges, i) && j == i + 1 && ds[i].numTombstones > 0
      && (Small(ds[i], ranges) ==> EntirelyDeleted(ds[i]))
    case Nothing =>
      && PairwiseDisjoint(ds) && |ds| > 0 && NoneQualifies(ds[..|ds| - 1], ranges, |ranges|)
      && NonePicked(ds[..|ds| - 1], ranges)
  }

  ghost predicate IsLevelPlan(ds: seq<Meta>, ranges: seq<int>, i: int, j: int)
    requires forall k :: 0 <= k < |ranges| ==> 0 < ranges[k]
  {
    exists v :: 1 <= v < |ranges| && IsFirstGroup(ds, ranges, v, i, j)
  }

  /** The first group that qualifies of the first range with one. */
  ghost predicate IsFirstGroup(ds: seq<Meta>, ranges: seq<int>, v: int, i: int, j: int)
    requires 1 <= v < |ranges| && forall k :: 0 <= k < |ranges| ==> 0 < ranges[k]
  {
    && IsGroup(ds, ranges[v], i, j) && Qualifies(ds, ranges[v], i, j)
    && NoneQualifies(ds, ranges, v) && NoneBefore(ds, ranges[v], i)
  }

  /** Where the search for a block to rewrite ends, if it does, is a small block with something left in it. */
  ghost predicate NonePicked(ds: seq<Meta>, ranges: seq<int>)
    requires |ranges| > 0
  {
    forall k :: StopsAt(ds, ranges, k) ==> Small(ds[k], ranges) && !EntirelyDeleted(ds[k])
  }

  method Plan(dms: seq<Meta>, ranges: seq<int>)
    returns (res: seq<Meta>, ds: seq<Meta>, ghost why: Reason, i: int, j: int)
    requires |dms| > 0 && ValidBlocks(dms)
    requires |ranges| > 0 && forall k :: 0 <= k < |ranges| ==> 0 < ranges[k]
    ensures ds == Sort(dms) && ValidBlocks(ds) && SortedByMinTime(ds)
    ensures IsPlan(ds, ranges, why, i, j)
    ensures |res| == 0 <==> why == Nothing
    ensures |res| > 0 ==> 0 <= i < j <= |ds| && res == ds[i..j]
  {
    hide IsFirstRun, IsGroup, Qualifies, NoneQualifies, NoneBefore, StopsAt;
    hide ValidBlocks, SortedByMinTime, PairwiseDisjoint, Sort;
    var sorted := Sort(dms);
    ds := sorted;
    SortValid(dms);
    res, i, j := SelectOverlappingDirs(sorted);
    if |res| > 0 {
      why := Overlapping;
      RunBounds(ds, i, j);
      return;
    }
    var older := sorted[..|sorted| - 1];
    PrefixValid(sorted);
    ghost var v;
    res, v, i, j := SelectDirs(older, ranges);
    if |res| > 0 {
      why := Level;
      assert IsFirstGroup(older, ranges, v, i, j);
      GroupBounds(older, ranges[v], i, j);
      PrefixSlice(sorted, i, j);
      return;
    }
    var pick := PickTombstones(older, ranges);
    if pick.Some? {
      why, i, j := Tombstones, pick.value, pick.value + 1;
      StopBounds(older, ranges, i);
      PrefixSlice(sorted, i, j);
      return [older[pick.value]], ds, why, i, j;
    }
    why := Nothing;
    return [], ds, why, 0, 0;
  }

  lemma {:induction false} SortValid(dms: seq<Meta>)
    requires ValidBlocks(dms)
    ensures ValidBlocks(Sort(dms)) && SortedByMinTime(Sort(dms)) && |Sort(dms)| == |dms|
  {
    hide Sort;
    SortSorts(dms);
    forall k | 0 <= k < |Sort(dms)|
      ensures Sort(dms)[k].minTime < Sort(dms)[k].maxTime
    {
      assert Sort(dms)[k] in multiset(Sort(dms));
      assert Sort(dms)[k] in dms;
    }
  }

  lemma {:induction false} RunBounds(ds: seq<Meta>, i: int, j: int)
    requires IsFirstRun(ds, i, j)
    ensures 0 <= i < j <= |ds|
  {
  }

  lemma {:induction false} StopBounds(ds: seq<Meta>, ranges: seq<int>, k: int)
    requires |ranges| > 0 && StopsAt(ds, ranges, k)
    ensures 0 <= k < |ds|
  {
  }

  lemma {:induction false} PrefixValid(ds: seq<Meta>)
    requires ValidBlocks(ds) && SortedByMinTime(ds) && |ds| > 0
    ensures ValidBlocks(ds[..|ds| - 1]) && SortedByMinTime(ds[..|ds| - 1])
  {
  }

  lemma {:induction false} PrefixSlice(ds: seq<Meta>, i: int, j: int)
    requires 0 <= i < j < |ds|
    ensures ds[..|ds| - 1][i..j] == ds[i..j]
    ensures j == i + 1 ==> [ds[..|ds| - 1][i]] == ds[i..j] && ds[..|ds| - 1][i] == ds[i]
  {
  }

  // ---------------------------------------------------------------------------
  // CompactBlockMetas

  /** m spans exactly the blocks, is one level up, and carries their sources. */
  ghost predicate IsHull(blocks: seq<Meta>, m: Meta) {
    && (forall k :: 0 <= k < |blocks| ==> m.minTime <= blocks[k].minTime && blocks[k].maxTime <= m.maxTime)
    && (exists k :: 0 <= k < |blocks| && blocks[k].minTime == m.minTime)
    && (exists k :: 0 <= k < |blocks| && blocks[k].maxTime == m.maxTime)
    && (forall k :: 0 <= k < |blocks| ==> blocks[k].level < m.level)
    && (m.level == 1 || exists k :: 0 <= k < |blocks| && blocks[k].level + 1 == m.level)
    && (forall x :: x in m.sources <==> exists k :: 0 <= k < |blocks| && x in blocks[k].sources)
  }

  method CompactBlockMetas(dir: int, blocks: seq<Meta>) returns (res: Meta)
    requires |blocks| > 0
    ensures IsHull(blocks, res) && res.dir == dir
    ensures res.numTombstones == 0 && !res.failed
  {
    var mint, maxt, level, sources := blocks[0].minTime, blocks[0].maxTime, 0, {};
    ghost var lo, hi := 0, 0;
    for i := 0 to |blocks|
      invariant 0 <= lo < |blocks| && blocks[lo].minTime == mint
      invariant 0 <= hi < |blocks| && blocks[hi].maxTime == maxt
      invariant forall k :: 0 <= k < i ==> mint <= blocks[k].minTime && blocks[k].maxTime <= maxt && blocks[k].level <= level
      invariant level == 0 || exists k :: 0 <= k < i && blocks[k].level == level
      invariant forall x :: x in sources <==> exists k :: 0 <= k < i && x in blocks[k].sources
    {
      var b := blocks[i];
      if b.minTime < mint {
        mint := b.minTime;
        lo := i;
      }
      if b.maxTime > maxt {
        maxt := b.maxTime;
        hi := i;
      }
      if b.level > level {
        level := b.level;
      }
      sources := sources + b.sources;
    }
    res := Meta(dir, mint, maxt, 0, 0, false, level + 1, sources);
  }

  /** Replacing a slice of sorted disjoint blocks by its hull keeps the blocks disjoint. */
  lemma {:induction false} MergeKeepsDisjoint(ds: seq<Meta>, i: int, j: int, m: Meta)
    requires ValidBlocks(ds) && SortedByMinTime(ds) && PairwiseDisjoint(ds)
    requires 0 <= i < j <= |ds| && IsHull(ds[i..j], m)
    ensures PairwiseDisjoint(ds[..i] + [m] + ds[j..])
  {
    forall k | 0 <= k < |ds| && !(i <= k < j)
      ensures !Overlap(ds[k], m)
    {
      HullApart(ds, i, j, m, k);
    }
    var r := ds[..i] + [m] + ds[j..];
    forall a, b | 0 <= a < b < |r|
      ensures !Overlap(r[a], r[b])
    {
      assert r[a] == if a < i then ds[a] else if a == i then m else ds[a - i - 1 + j];
      assert r[b] == if b < i then ds[b] else if b == i then m else ds[b - i - 1 + j];
    }
  }

  lemma {:induction false} HullApart(ds: seq<Meta>, i: int, j: int, m: Meta, k: int)
    requires ValidBlocks(ds) && SortedByMinTime(ds) && 0 <= i < j <= |ds| && IsHull(ds[i..j], m)
    requires 0 <= k < |ds| && !(i <= k < j)
    requires forall a :: i <= a < j ==> !Overlap(ds[a], ds[k])
    ensures !Overlap(ds[k], m) && m.minTime < m.maxTime
  {
    var p := ds[i..j];
    var lo :| 0 <= lo < |p| && p[lo].minTime == m.minTime;
    var hi :| 0 <= hi < |p| && p[hi].maxTime == m.maxTime;
    assert p[lo] == ds[i + lo] && p[hi] == ds[i + hi];
    assert !Overlap(ds[i + lo], ds[k]) && !Overlap(ds[i + hi], ds[k]);
    assert p[0] == ds[i] && p[|p| - 1] == ds[j - 1];
  }

  /** The hull of the first overlapping run overlaps nothing else. */
  lemma {:induction false} RunMergesApart(ds: seq<Meta>, i: int, j: int, m: Meta, k: int)
    requires ValidBlocks(ds) && SortedByMinTime(ds) && IsFirstRun(ds, i, j) && IsHull(ds[i..j], m)
    requires 0 <= k < |ds| && !(i <= k < j)
    ensures !Overlap(ds[k], m)
  {
    hide IsHull;
    forall a | i <= a < j
      ensures !Overlap(ds[a], ds[k])
    {
      assert k < i ==> !Overlap(ds[k], ds[a]);
    }
    HullApart(ds, i, j, m, k);
  }

  // ---------------------------------------------------------------------------
  // Plan and compact until nothing is left

  function Tombed(ds: seq<Meta>): nat {
    if |ds| == 0 then 0 else Tombed(ds[..|ds| - 1]) + if ds[|ds| - 1].numTombstones > 0 then 1 else 0
  }

  lemma {:induction false} TombedConcat(a: seq<Meta>, b: seq<Meta>)
    ensures Tombed(a + b) == Tombed(a) + Tombed(b)
  {
    if |b| == 0 {
      assert a + b == a;
    } else {
      TombedConcat(a, b[..|b| - 1]);
      assert (a + b)[..|a + b| - 1] == a + b[..|b| - 1];
    }
  }

  lemma {:induction false} TombedInsert(m: Meta, ds: seq<Meta>)
    ensures Tombed(Insert(m, ds)) == Tombed(ds + [m])
  {
    var n := |ds| - 1;
    if |ds| > 0 && m.minTime < ds[n].minTime {
      TombedInsert(m, ds[..n]);
      TombedConcat(Insert(m, ds[..n]), [ds[n]]);
      TombedConcat(ds[..n], [m]);
      TombedConcat(ds, [m]);
      TombedConcat(ds[..n], [ds[n]]);
      assert ds == ds[..n] + [ds[n]];
    }
  }

  lemma {:induction false} TombedSort(ds: seq<Meta>)
    ensures Tombed(Sort(ds)) == Tombed(ds)
  {
    hide Tombed, Insert;
    if |ds| == 0 {
      assert Sort(ds) == ds;
    } else {
      var n := |ds| - 1;
      var rest := Sort(ds[..n]);
      assert Sort(ds) == Insert(ds[n], rest);
      hide Sort;
      TombedSort(ds[..n]);
      TombedInsert(ds[n], rest);
      TombedConcat(rest, [ds[n]]);
      TombedConcat(ds[..n], [ds[n]]);
      assert ds == ds[..n] + [ds[n]];
    }
  }

  ghost predicate Covered(b: Meta, fs: seq<Meta>) {
    exists k :: 0 <= k < |fs| && fs[k].minTime <= b.minTime && b.maxTime <= fs[k].maxTime
  }

  /** The blocks after a compaction; m is None when no sample was left and no block was written. */
  function Replace(ds: seq<Meta>, i: int, j: int, m: Option<Meta>): seq<Meta>
    requires 0 <= i <= j <= |ds|
  {
    ds[..i] + (if m.Some? then [m.value] else []) + ds[j..]
  }

  lemma {:induction false} ReplaceSmaller(ds: seq<Meta>, ranges: seq<int>, why: Reason, i: int, j: int, m: Option<Meta>)
    requires |ranges| > 0 && forall k :: 0 <= k < |ranges| ==> 0 < ranges[k]
    requires IsPlan(ds, ranges, why, i, j) && why != Nothing && 0 <= i < j <= |ds|
    requires m.Some? ==> m.value.numTombstones == 0
    ensures var r := Replace(ds, i, j, m);
      |r| < |ds| || (|r| == |ds| && Tombed(r) < Tombed(ds))
  {
    hide IsGroup, NoneQualifies, StopsAt, PairwiseDisjoint;
    if why == Tombstones && m.Some? {
      assert ds == ds[..i] + [ds[i]] + ds[j..];
      TombedConcat(ds[..i] + [ds[i]], ds[j..]);
      TombedConcat(ds[..i], [ds[i]]);
      TombedConcat(ds[..i] + [m.value], ds[j..]);
      TombedConcat(ds[..i], [m.value]);
      TombedOne(ds[i]);
      TombedOne(m.value);
    }
  }

  lemma {:induction false} TombedOne(m: Meta)
    ensures Tombed([m]) == if m.numTombstones > 0 then 1 else 0
  {
    assert [m][..0] == [];
  }

  lemma {:induction false} ReplaceCovers(ds: seq<Meta>, i: int, j: int, m: Meta, written: bool, b: Meta)
    requires 0 <= i < j <= |ds| && IsHull(ds[i..j], m) && b in ds
    ensures Covered(b, Replace(ds, i, j, if written then Some(m) else None)) || Covered(b, [m])
  {
    var r := Replace(ds, i, j, if written then Some(m) else None);
    var k :| 0 <= k < |ds| && ds[k] == b;
    var skip := if written then 1 else 0;
    if k < i {
      assert r[k] == b;
    } else if k < j {
      assert ds[i..j][k - i] == b;
      assert [m][0] == m;
    } else {
      assert r[i + skip + (k - j)] == b;
    }
  }

  lemma {:induction false} CoveredTransitive(b: Meta, c: Meta, fs: seq<Meta>)
    requires c.minTime <= b.minTime && b.maxTime <= c.maxTime && Covered(c, fs)
    ensures Covered(b, fs)
  {
  }

  ghost predicate AllCovered(blocks0: seq<Meta>, blocks: seq<Meta>, dropped: seq<Meta>) {
    forall b :: b in blocks0 ==> Covered(b, blocks) || Covered(b, dropped)
  }

  /** The planner asks for nothing more. */
  ghost predicate NothingToDo(ds: seq<Meta>, ranges: seq<int>)
    requires |ranges| > 0 && forall k :: 0 <= k < |ranges| ==> 0 < ranges[k]
  {
    exists i, j :: IsPlan(ds, ranges, Nothing, i, j)
  }

  lemma {:induction false} PlanIsDone(ds: seq<Meta>, ranges: seq<int>, i: int, j: int)
    requires |ranges| > 0 && forall k :: 0 <= k < |ranges| ==> 0 < ranges[k]
    requires IsPlan(ds, ranges, Nothing, i, j)
    ensures NothingToDo(ds, ranges)
  {
  }

  /** Each of these is the hull of blocks in which no sample was left. */
  ghost predicate AllEmpty(dropped: seq<Meta>, populate: seq<Meta> -> Option<nat>) {
    forall k :: 0 <= k < |dropped| ==> CameOutEmpty(dropped[k], populate)
  }

  ghost predicate CameOutEmpty(m: Meta, populate: seq<Meta> -> Option<nat>) {
    exists plan :: |plan| > 0 && IsHull(plan, m) && populate(plan) == None
  }

  lemma {:induction false} NoneDropped(populate: seq<Meta> -> Option<nat>)
    ensures AllEmpty([], populate)
  {
  }

  lemma {:induction false} EmptySnoc(dropped: seq<Meta>, plan: seq<Meta>, m: Meta, populate: seq<Meta> -> Option<nat>)
    requires AllEmpty(dropped, populate) && |plan| > 0 && IsHull(plan, m)
    ensures populate(plan) == None ==> AllEmpty(dropped + [m], populate)
  {
    hide IsHull;
    assert populate(plan) == None ==> CameOutEmpty(m, populate);
  }

  /** One compaction; populate gives the number of series of the written block, None if no sample is left. */
  method Compact(plan: seq<Meta>, dir: int, populate: seq<Meta> -> Option<nat>) returns (m: Meta, written: bool)
    requires |plan| > 0
    ensures IsHull(plan, m) && m.numTombstones == 0 && m.dir == dir
    ensures written <==> populate(plan).Some?
    ensures m.numSeries == if written then populate(plan).value else 0
  {
    var res := CompactBlockMetas(dir, plan);
    var series := populate(plan);
    written := series.Some?;
    m := res.(numSeries := if written then series.value else 0);
  }

  /**
    The database's compaction loop ends, with disjoint blocks, and every block it began
    with lies within a block that is left or within one that came out empty.
   */
  method CompactBlocks(blocks0: seq<Meta>, ranges: seq<int>, populate: seq<Meta> -> Option<nat>, newDir: seq<Meta> -> int)
    returns (blocks: seq<Meta>, ghost dropped: seq<Meta>)
    requires ValidBlocks(blocks0)
    requires |ranges| > 0 && forall k :: 0 <= k < |ranges| ==> 0 < ranges[k]
    ensures PairwiseDisjoint(blocks) && ValidBlocks(blocks)
    ensures |blocks| > 0 ==> NothingToDo(blocks, ranges)
    ensures AllCovered(blocks0, blocks, dropped) && AllEmpty(dropped, populate)
  {
    hide NothingToDo, AllEmpty, IsPlan, AllCovered, IsHull, Tombed, Replace;
    hide ValidBlocks, SortedByMinTime, PairwiseDisjoint, Sort;
    blocks, dropped := blocks0, [];
    CoveredFirst(blocks0);
    NoneDropped(populate);
    while |blocks| > 0
      invariant ValidBlocks(blocks) && AllCovered(blocks0, blocks, dropped) && AllEmpty(dropped, populate)
      decreases |blocks|, Tombed(blocks)
    {
      ghost var why;
      var plan, ds, i, j;
      plan, ds, why, i, j := Plan(blocks, ranges);
      TombedSort(blocks);
      SortCovers(blocks0, blocks, dropped);
      if |plan| == 0 {
        PlanDone(ds, ranges, why, i, j);
        PlanIsDone(ds, ranges, i, j);
        blocks := ds;
        return;
      }
      var m, written := Compact(plan, newDir(plan), populate);
      var out := if written then Some(m) else None;
      ReplaceSmaller(ds, ranges, why, i, j, out);
      StepCovers(blocks0, ds, i, j, m, written, dropped);
      ReplaceValid(ds, i, j, m, written);
      EmptySnoc(dropped, plan, m, populate);
      blocks := Replace(ds, i, j, out);
      dropped := if written then dropped else dropped + [m];
    }
    NothingOverlaps(blocks);
  }

  lemma {:induction false} NothingOverlaps(ds: seq<Meta>)
    requires |ds| == 0
    ensures PairwiseDisjoint(ds)
  {
  }

  lemma {:induction false} PlanDone(ds: seq<Meta>, ranges: seq<int>, why: Reason, i: int, j: int)
    requires |ranges| > 0 && forall k :: 0 <= k < |ranges| ==> 0 < ranges[k]
    requires IsPlan(ds, ranges, why, i, j) && why == Nothing
    ensures PairwiseDisjoint(ds)
  {
  }

  lemma {:induction false} CoveredFirst(ds: seq<Meta>)
    ensures AllCovered(ds, ds, [])
  {
    forall b | b in ds
      ensures Covered(b, ds)
    {
      var k :| 0 <= k < |ds| && ds[k] == b;
    }
  }

  lemma {:induction false} SortCovers(blocks0: seq<Meta>, blocks: seq<Meta>, dropped: seq<Meta>)
    requires AllCovered(blocks0, blocks, dropped)
    ensures AllCovered(blocks0, Sort(blocks), dropped) && |Sort(blocks)| == |blocks|
  {
    hide Sort;
    SortSorts(blocks);
    var r := Sort(blocks);
    forall b | b in blocks0 && Covered(b, blocks)
      ensures Covered(b, r)
    {
      var k :| 0 <= k < |blocks| && blocks[k].minTime <= b.minTime && b.maxTime <= blocks[k].maxTime;
      assert blocks[k] in multiset(blocks);
      assert blocks[k] in multiset(r);
      assert blocks[k] in r;
      var n :| 0 <= n < |r| && r[n] == blocks[k];
    }
  }

  lemma {:induction false} StepCovers(blocks0: seq<Meta>, ds: seq<Meta>, i: int, j: int, m: Meta, written: bool,
                                      dropped: seq<Meta>)
    requires AllCovered(blocks0, ds, dropped) && 0 <= i < j <= |ds| && IsHull(ds[i..j], m)
    ensures AllCovered(blocks0, Replace(ds, i, j, if written then Some(m) else None),
                       if written then dropped else dropped + [m])
  {
    hide IsHull, Replace;
    var r := Replace(ds, i, j, if written then Some(m) else None);
    var gone := if written then dropped else dropped + [m];
    forall b | b in blocks0
      ensures Covered(b, r) || Covered(b, gone)
    {
      if Covered(b, dropped) {
        CoveredMore(b, dropped, m);
      } else {
        var k :| 0 <= k < |ds| && ds[k].minTime <= b.minTime && b.maxTime <= ds[k].maxTime;
        assert ds[k] in ds;
        ReplaceCovers(ds, i, j, m, written, ds[k]);
        WrittenIn(ds, i, j, m, written, dropped, ds[k]);
        if Covered(ds[k], r) {
          CoveredTransitive(b, ds[k], r);
        } else {
          CoveredTransitive(b, ds[k], gone);
        }
      }
    }
  }

  lemma {:induction false} CoveredMore(b: Meta, fs: seq<Meta>, m: Meta)
    requires Covered(b, fs)
    ensures Covered(b, fs + [m])
  {
    var k :| 0 <= k < |fs| && fs[k].minTime <= b.minTime && b.maxTime <= fs[k].maxTime;
    assert (fs + [m])[k] == fs[k];
  }

  /** What the new block covers is covered by what is left or, if it was not written, by what was dropped. */
  lemma {:induction false} WrittenIn(ds: seq<Meta>, i: int, j: int, m: Meta, written: bool, dropped: seq<Meta>, b: Meta)
    requires 0 <= i < j <= |ds|
    requires Covered(b, [m]) || Covered(b, Replace(ds, i, j, if written then Some(m) else None))
    ensures Covered(b, Replace(ds, i, j, if written then Some(m) else None))
         || (!written && Covered(b, dropped + [m]))
  {
    if Covered(b, [m]) {
      if written {
        assert Replace(ds, i, j, Some(m))[i] == m;
      } else {
        assert (dropped + [m])[|dropped|] == m;
      }
    }
  }

  lemma {:induction false} ReplaceValid(ds: seq<Meta>, i: int, j: int, m: Meta, written: bool)
    requires ValidBlocks(ds) && 0 <= i < j <= |ds| && IsHull(ds[i..j], m)
    ensures ValidBlocks(Replace(ds, i, j, if written then Some(m) else None))
  {
    assert ds[i..j][0] == ds[i];
    assert m.minTime < m.maxTime;
  }

  // ---------------------------------------------------------------------------
  // Plans in terms of times and counts

  /** Blocks hold the times from the first up to before the second; overlap is a time in both. */
  lemma {:induction false} OverlapIs(a: Meta, b: Meta)
    requires a.minTime < a.maxTime && b.minTime < b.maxTime
    ensures Overlap(a, b) <==> exists t :: Spans(a, t) && Spans(b, t)
  {
    if Overlap(a, b) {
      var t := if a.minTime < b.minTime then b.minTime else a.minTime;
      assert Spans(a, t) && Spans(b, t);
    }
  }

  predicate Spans(m: Meta, t: int) {
    m.minTime <= t < m.maxTime
  }

  /** The block lies in the window from w to w + tr, and w is a multiple of tr. */
  ghost predicate InWindow(m: Meta, w: int, tr: int)
    requires 0 < tr
  {
    w % tr == 0 && w <= m.minTime < w + tr && m.maxTime <= w + tr
  }

  lemma {:induction false} FitsIs(m: Meta, w: int, tr: int)
    requires 0 < tr
    ensures FitsAt(m, w, tr) <==> InWindow(m, w, tr)
  {
    hide WindowStart;
    WindowStartIsFloor(m.minTime, tr);
    if InWindow(m, w, tr) {
      SameWindow(m.minTime, w, tr);
    }
  }

  /** All blocks from the i-th to before the j-th are in the window, and neither neighbour is. */
  ghost predicate FillWindow(ds: seq<Meta>, tr: int, w: int, i: int, j: int)
    requires 0 < tr
  {
    && 0 <= i < j <= |ds|
    && (forall k :: i <= k < j ==> InWindow(ds[k], w, tr))
    && (0 < i ==> !InWindow(ds[i - 1], w, tr)) && (j < |ds| ==> !InWindow(ds[j], w, tr))
  }

  ghost predicate FillSome(ds: seq<Meta>, tr: int, i: int, j: int)
    requires 0 < tr
  {
    exists w :: FillWindow(ds, tr, w, i, j)
  }

  lemma {:induction false} GroupIs(ds: seq<Meta>, tr: int, i: int, j: int)
    requires 0 < tr
    ensures IsGroup(ds, tr, i, j) <==> FillSome(ds, tr, i, j)
  {
    hide WindowStart, InWindow, FitsAt;
    forall m, w
      ensures FitsAt(m, w, tr) <==> InWindow(m, w, tr)
    {
      FitsIs(m, w, tr);
    }
    if IsGroup(ds, tr, i, j) {
      assert FillWindow(ds, tr, WindowStart(ds[i].minTime, tr), i, j);
    }
    if FillSome(ds, tr, i, j) {
      var w :| FillWindow(ds, tr, w, i, j);
      StartIs(ds[i], w, tr);
    }
  }

  lemma {:induction false} StartIs(m: Meta, w: int, tr: int)
    requires 0 < tr && FitsAt(m, w, tr)
    ensures WindowStart(m.minTime, tr) == w
  {
  }

  /**
    Blocks that a level plan for the range tr may take: two or more, none failed, that fill an aligned window, and
    either span the whole range or end before the newest block but one begins; the newest block is not looked at.
   */
  ghost predicate Mergeable(ds: seq<Meta>, tr: int, i: int, j: int)
    requires 0 < tr && |ds| > 0
  {
    && 0 <= i && i + 2 <= j < |ds|
    && FillSome(ds[..|ds| - 1], tr, i, j)
    && (forall k :: i <= k < j ==> !ds[k].failed)
    && (ds[j - 1].maxTime - ds[i].minTime == tr || ds[j - 1].maxTime <= ds[|ds| - 2].minTime)
  }

  lemma {:induction false} MergeableIs(ds: seq<Meta>, tr: int, i: int, j: int)
    requires 0 < tr && |ds| > 0
    ensures IsGroup(ds[..|ds| - 1], tr, i, j) && Qualifies(ds[..|ds| - 1], tr, i, j) <==> Mergeable(ds, tr, i, j)
  {
    hide IsGroup, FillSome;
    GroupIs(ds[..|ds| - 1], tr, i, j);
  }

  /** A level plan is the first mergeable run of blocks for the smallest range, after the first, that has one. */
  lemma {:induction false} LevelPlanIs(ds: seq<Meta>, ranges: seq<int>, i: int, j: int) returns (v: int)
    requires |ranges| > 0 && forall k :: 0 <= k < |ranges| ==> 0 < ranges[k]
    requires IsPlan(ds, ranges, Level, i, j)
    ensures 1 <= v < |ranges| && |ds| > 0 && Mergeable(ds, ranges[v], i, j)
    ensures forall u, a, b :: 1 <= u < v ==> !Mergeable(ds, ranges[u], a, b)
    ensures forall a, b :: a < i ==> !Mergeable(ds, ranges[v], a, b)
  {
    hide IsGroup, Qualifies, Mergeable;
    var older := ds[..|ds| - 1];
    v :| 1 <= v < |ranges| && IsFirstGroup(older, ranges, v, i, j);
    MergeableIs(ds, ranges[v], i, j);
    forall u, a, b | 1 <= u < v
      ensures !Mergeable(ds, ranges[u], a, b)
    {
      MergeableIs(ds, ranges[u], a, b);
    }
    forall a, b | a < i
      ensures !Mergeable(ds, ranges[v], a, b)
    {
      MergeableIs(ds, ranges[v], a, b);
    }
  }

  /** When nothing is planned, no blocks overlap and no run of blocks is mergeable for any range after the first. */
  lemma {:induction false} NothingToMerge(ds: seq<Meta>, ranges: seq<int>)
    requires |ranges| > 0 && forall k :: 0 <= k < |ranges| ==> 0 < ranges[k]
    requires NothingToDo(ds, ranges)
    ensures |ds| > 0 && PairwiseDisjoint(ds)
    ensures forall u, a, b :: 1 <= u < |ranges| ==> !Mergeable(ds, ranges[u], a, b)
  {
    hide IsGroup, Qualifies, Mergeable, PairwiseDisjoint;
    var i, j :| IsPlan(ds, ranges, Nothing, i, j);
    forall u, a, b | 1 <= u < |ranges|
      ensures !Mergeable(ds, ranges[u], a, b)
    {
      MergeableIs(ds, ranges[u], a, b);
    }
  }

  /** The share of tombstones, one a series, is more than 5%; one series is added so that there is always one. */
  lemma {:induction false} HeavyIs(m: Meta)
    ensures Heavy(m) <==> m.numTombstones as real / (m.numSeries + 1) as real > 0.05
  {
    ShareIs(m.numTombstones as real, (m.numSeries + 1) as real);
    assert Heavy(m) <==> 20.0 * m.numTombstones as real > (m.numSeries + 1) as real;
  }

  lemma {:induction false} ShareIs(t: real, n: real)
    requires n > 0.0
    ensures t / n > 0.05 <==> 20.0 * t > n
  {
    var x := t / n;
    assert x * n == t;
    if x > 0.05 {
      Positive(x - 0.05, n);
    } else if x < 0.05 {
      Positive(0.05 - x, n);
    }
  }

  lemma {:induction false} Positive(a: real, b: real)
    requires 0.0 < a && 0.0 < b
    ensures 0.0 < a * b
  {
  }

  /** The block spans at least the middle range, and at most 5% of its series have tombstones. */
  ghost predicate LeftAlone(m: Meta, ranges: seq<int>)
    requires |ranges| > 0
  {
    m.maxTime - m.minTime >= ranges[|ranges| / 2] && m.numTombstones as real / (m.numSeries + 1) as real <= 0.05
  }

  /** What is rewritten for its tombstones, given that all newer blocks are left alone. */
  ghost predicate Rewrites(m: Meta, ranges: seq<int>)
    requires |ranges| > 0
  {
    if m.maxTime - m.minTime < ranges[|ranges| / 2] then m.numTombstones > 0 && m.numTombstones >= m.numSeries
    else m.numTombstones as real / (m.numSeries + 1) as real > 0.05
  }

  lemma {:induction false} StopsIs(ds: seq<Meta>, ranges: seq<int>, k: int)
    requires |ranges| > 0
    ensures StopsAt(ds, ranges, k) <==>
      0 <= k < |ds| && !LeftAlone(ds[k], ranges) && forall i :: k < i < |ds| ==> LeftAlone(ds[i], ranges)
    ensures 0 <= k < |ds| && StopsAt(ds, ranges, k) ==>
      (Rewrites(ds[k], ranges) <==> !(Small(ds[k], ranges) && !EntirelyDeleted(ds[k])))
  {
    hide Heavy;
    forall i | 0 <= i < |ds|
      ensures Heavy(ds[i]) <==> ds[i].numTombstones as real / (ds[i].numSeries + 1) as real > 0.05
    {
      HeavyIs(ds[i]);
    }
  }

  /** A rewrite plan is the newest block that is not left alone, newest of all aside, and it is one to rewrite. */
  lemma {:induction false} RewritePlanIs(ds: seq<Meta>, ranges: seq<int>, i: int, j: int)
    requires |ranges| > 0 && forall k :: 0 <= k < |ranges| ==> 0 < ranges[k]
    requires IsPlan(ds, ranges, Tombstones, i, j)
    ensures j == i + 1 && 0 <= i < |ds| - 1 && Rewrites(ds[i], ranges)
    ensures forall k :: i < k < |ds| - 1 ==> LeftAlone(ds[k], ranges)
  {
    hide StopsAt, Small, EntirelyDeleted, Rewrites, LeftAlone, NoneQualifies, PairwiseDisjoint;
    var older := ds[..|ds| - 1];
    StopsIs(older, ranges, i);
    assert older[i] == ds[i];
    forall k | i < k < |ds| - 1
      ensures LeftAlone(ds[k], ranges)
    {
      assert older[k] == ds[k];
    }
  }

  /** When nothing is planned, the newest block that is not left alone is none to rewrite. */
  lemma {:induction false} NothingToRewrite(ds: seq<Meta>, ranges: seq<int>, k: int)
    requires |ranges| > 0 && forall k :: 0 <= k < |ranges| ==> 0 < ranges[k]
    requires NothingToDo(ds, ranges) && 0 <= k < |ds| - 1 && !LeftAlone(ds[k], ranges)
    requires forall i :: k < i < |ds| - 1 ==> LeftAlone(ds[i], ranges)
    ensures !Rewrites(ds[k], ranges)
  {
    hide StopsAt, Small, EntirelyDeleted, Rewrites, LeftAlone, NoneQualifies, PairwiseDisjoint;
    var older := ds[..|ds| - 1];
    var i, j :| IsPlan(ds, ranges, Nothing, i, j);
    assert forall i :: 0 <= i < |older| ==> older[i] == ds[i];
    StopsIs(older, ranges, k);
  }
}

/**
  storage/memoized_iterator.go and vectorSelectorSingle of promql/engine.go: an
  iterator that remembers one sample, and the instant selector built on it.
 */
module MemoizedIterator {
  import GoInt
  import opened Samples
  import opened SeriesIterator

  /** A sample value: float bits, or a histogram seen through the bits of its sum. */
  datatype Value = Float(bits: int) | Histogram(sum: int) | FloatHistogram(sum: int)

  datatype ValueType = ValNone | ValFloat | ValHistogram | ValFloatHistogram

  function TypeOf(v: Value): ValueType {
    match v
    case Float(_) => ValFloat
    case Histogram(_) => ValHistogram
    case FloatHistogram(_) => ValFloatHistogram
  }

  /** AtFloatHistogram turns integer histograms into float histograms. */
  function ToFloat(v: Value): Value {
    match v case Histogram(sum) => FloatHistogram(sum) case _ => v
  }

  predicate IsStale(v: Value) {
    match v
    case Float(bits) => IsStaleNaN(bits)
    case Histogram(sum) => IsStaleNaN(sum)
    case FloatHistogram(sum) => IsStaleNaN(sum)
  }

  function BaseType(it: Base<Value>): ValueType {
    if it.Ok() then TypeOf(it.At().v) else ValNone
  }

  class MemoizedSeriesIterator {
    var it: Base<Value>
    const delta: int
    var lastTime: int
    var valueType: ValueType
    var prevTime: int
    var prevValue: Value

    ghost var floor: int  // with nothing remembered, every passed sample is older than this

    ghost predicate Valid()
      reads this
    {
      && it.Valid() && 0 <= it.pos && 0 <= delta
      && (valueType == ValNone <==> !it.Ok())
      && (it.Ok() ==> Fresh() || (lastTime == it.At().t && valueType == TypeOf(ToFloat(it.At().v))))
      && (if prevTime == MIN_INT64 then forall k :: 0 <= k < it.pos ==> it.samples[k].t < floor
          else 0 < it.pos && prevTime == it.samples[it.pos - 1].t && prevValue == ToFloat(it.samples[it.pos - 1].v))
    }

    /** No sample has been passed or sought since the last Reset. */
    ghost predicate Fresh()
      reads this
    {
      lastTime == MIN_INT64 && it.pos == 0
    }

    constructor (it: Base<Value>, delta: int)
      requires it.Valid() && it.pos == -1 && 0 <= delta
      ensures Valid() && this.it == it.Next() && this.delta == delta && floor == MIN_INT64
    {
      this.delta := delta;
      this.it := it.Next();
      valueType := BaseType(it.Next());
      lastTime, prevTime, floor := MIN_INT64, MIN_INT64, MIN_INT64;
      prevValue := Float(0);
    }

    method Reset(newIt: Base<Value>)
      requires Valid() && newIt.Valid() && newIt.pos == -1
      modifies this
      ensures Valid() && it == newIt.Next() && floor == MIN_INT64
    {
      it := newIt.Next();
      lastTime, prevTime, floor := MIN_INT64, MIN_INT64, MIN_INT64;
      valueType := BaseType(it);
    }

    method PeekPrev() returns (r: Option<Sample<Value>>)
      requires Valid()
      ensures r.Some? <==> prevTime != MIN_INT64
      ensures r.Some? ==> r.value.t == it.samples[it.pos - 1].t && r.value.v == ToFloat(it.samples[it.pos - 1].v)
    {
      if prevTime == MIN_INT64 {
        return None;
      }
      return Some(Sample(prevTime, prevValue));
    }

    method Next() returns (vt: ValueType)
      requires Valid()
      modifies this
      ensures Valid() && it == old(it.Next()) && floor == old(floor)
      ensures vt == valueType && vt != ValHistogram
      ensures it.Ok() ==> lastTime == it.At().t
    {
      if valueType == ValNone {
        return ValNone;
      }
      prevTime, prevValue := it.At().t, ToFloat(it.At().v);
      it := it.Next();
      valueType := BaseType(it);
      if valueType != ValNone {
        lastTime := it.At().t;
      }
      if valueType == ValHistogram {
        valueType := ValFloatHistogram;
      }
      return valueType;
    }

    /** The jump of Seek: what is remembered is out of the look-back and is forgotten. */
    method Jump(t0: int)
      requires Valid() && valueType != ValNone && lastTime < t0
      modifies this
      ensures Valid() && it == old(it.Seek(t0)) && floor == t0
      ensures it.Ok() ==> lastTime == it.At().t && valueType != ValHistogram
    {
      prevTime := MIN_INT64;
      floor := t0;
      it := it.Seek(t0);
      valueType := BaseType(it);
      if valueType == ValNone {
        return;
      }
      if valueType == ValHistogram {
        valueType := ValFloatHistogram;
      }
      lastTime := it.At().t;
    }

    /** Stops at the first sample that is not before t, and never reports an integer histogram. */
    method Seek(t: int) returns (vt: ValueType)
      requires Valid()
      modifies this
      ensures Valid() && it == old(SeekEnd(t))
      ensures MIN_INT64 < t - delta ==> it == old(it.Seek(t))
      ensures floor == old(floor) || floor == Minus64(t, delta)
      ensures MIN_INT64 < t - delta ==> vt != ValHistogram
      ensures vt == valueType
    {
      hide SeekPos;
      var t0 := Minus64(t, delta);
      if valueType != ValNone && t0 > lastTime {
        if t0 <= t {
          SeekSeek(it, t0, t);
        }
        Jump(t0);
        if valueType == ValNone {
          SeekStays(it, t);
          return ValNone;
        }
      }
      if lastTime >= t {
        SeekStays(it, t);
        return valueType;
      }
      vt := NextUntil(t);
    }

    /** Where Seek ends: as for the buffered iterator, with its two exceptions at the lower end of int64. */
    ghost function SeekEnd(t: int): Base<Value>
      requires it.Valid() && 0 <= it.pos
      reads this
    {
      var t0 := Minus64(t, delta);
      if it.Ok() && lastTime < t0 && t < t0 then it.Seek(t0)
      else if it.Ok() && Fresh() && t0 <= MIN_INT64 < t then it.Next().Seek(t)
      else it.Seek(t)
    }

    /** The loop of Seek: it always takes a step before it looks. */
    method NextUntil(t: int) returns (vt: ValueType)
      requires Valid()
      modifies this
      ensures Valid() && it == old(it.Next().Seek(t)) && floor == old(floor)
      ensures old(it.Ok() ==> it.At().t < t) ==> it == old(it.Seek(t))
      ensures vt == valueType && vt != ValHistogram
    {
      hide SeekPos;
      if it.Ok() && it.At().t < t {
        NextSeek(it, t);
      }
      while true
        invariant Valid() && floor == old(floor)
        invariant it.Next().Seek(t) == old(it.Next().Seek(t))
        decreases |it.samples| - it.pos, it.Ok()
      {
        vt := Next();
        if vt == ValNone || lastTime >= t {
          SeekStays(it, t);
          return;
        }
        NextSeek(it, t);
      }
    }
  }

  /** The position of the latest sample at or before t; -1 if there is none. */
  function LatestIndex(s: seq<Sample<Value>>, t: int): (j: int)
    ensures -1 <= j < |s|
    ensures 0 <= j ==> s[j].t <= t
    ensures forall k :: j < k < |s| ==> t < s[k].t
  {
    if s == [] then -1
    else if s[|s| - 1].t <= t then |s| - 1
    else LatestIndex(s[..|s| - 1], t)
  }

  lemma {:induction false} LatestIs(s: seq<Sample<Value>>, t: int, j: int)
    requires Increasing(s) && -1 <= j < |s| && (0 <= j ==> s[j].t <= t) && (j + 1 < |s| ==> t < s[j + 1].t)
    ensures LatestIndex(s, t) == j
  {
    hide LatestIndex;
  }

  /** The reference: the latest sample at or before ref, if it is within the look-back and not stale. */
  function SelectInstant(s: seq<Sample<Value>>, ref: int, lookback: int): Option<Sample<Value>> {
    var j := LatestIndex(s, ref);
    if 0 <= j && ref - lookback <= s[j].t && !IsStale(s[j].v) then Some(Sample(s[j].t, ToFloat(s[j].v))) else None
  }

  lemma {:induction false} SelectIs(s: seq<Sample<Value>>, ref: int, lookback: int, j: int)
    requires Increasing(s) && -1 <= j < |s| && (0 <= j ==> s[j].t <= ref) && (j + 1 < |s| ==> ref < s[j + 1].t)
    ensures SelectInstant(s, ref, lookback) ==
      if 0 <= j && ref - lookback <= s[j].t && !IsStale(s[j].v) then Some(Sample(s[j].t, ToFloat(s[j].v))) else None
  {
    LatestIs(s, ref, j);
  }

  /** The iterator has passed nothing at or after ref and forgotten nothing within its look-back. */
  ghost predicate ReadyFor(it: MemoizedSeriesIterator, ref: int)
    reads it
  {
    && it.Valid()
    && PassedBefore(it.it, ref)
    && it.floor <= ref - it.delta
  }

  method VectorSelectorSingle(it: MemoizedSeriesIterator, refTime: int) returns (r: Option<Sample<Value>>)
    requires ReadyFor(it, refTime) && MIN_INT64 < refTime - it.delta
    modifies it
    ensures ReadyFor(it, refTime) && it.it.samples == old(it.it.samples)
    ensures r == SelectInstant(it.it.samples, refTime, it.delta)
  {
    hide SelectInstant, SeekPos;
    SeekPassed(it.it, refTime);
    var vt := it.Seek(refTime);
    ghost var p, s := it.it.pos, it.it.samples;
    var found := None;
    if vt != ValNone {
      found := Some(Sample(it.it.At().t, ToFloat(it.it.At().v)));
    }
    if found == None || found.value.t > refTime {
      SelectIs(s, refTime, it.delta, p - 1);
      found := it.PeekPrev();
      if found == None || found.value.t < refTime - it.delta {
        return None;
      }
    } else {
      SelectIs(s, refTime, it.delta, p);
    }
    if IsStale(found.value.v) {
      return None;
    }
    return found;
  }

  /** n points can be added: the limit is only looked at when there is one to add. */
  predicate Fits(current: int, n: int, maxSamples: int) {
    n == 0 || current + n <= maxSamples
  }

  lemma {:induction false} FitsBoth(current: int, m: nat, n: nat, maxSamples: int)
    ensures Fits(current, m, maxSamples) && Fits(current + m, n, maxSamples) <==> Fits(current, m + n, maxSamples)
  {
  }

  /** The steps of a query and the shift and look-back of a selector. */
  datatype Selection = Selection(start: int, end: int, interval: int, offset: int, lookback: int) {
    ghost predicate Valid() {
      0 < interval && 0 <= lookback && MIN_INT64 < start - offset - lookback
    }
  }

  function StepPoint(s: seq<Sample<Value>>, q: Selection, ts: int): seq<Sample<Value>> {
    match SelectInstant(s, ts - q.offset, q.lookback)
    case Some(x) => [Sample(ts, x.v)]
    case None => []
  }

  /** The reference: every step from ts on selects afresh from the whole series. */
  function Points(s: seq<Sample<Value>>, q: Selection, ts: int): seq<Sample<Value>>
    requires 0 < q.interval
    decreases q.end - ts
  {
    if ts > q.end then [] else StepPoint(s, q, ts) + Points(s, q, ts + q.interval)
  }

  lemma {:induction false} PointsStep(s: seq<Sample<Value>>, q: Selection, ts: int, before: seq<Sample<Value>>)
    requires 0 < q.interval
    ensures ts > q.end ==> before + Points(s, q, ts) == before
    ensures ts <= q.end ==> before + Points(s, q, ts) == (before + StepPoint(s, q, ts)) + Points(s, q, ts + q.interval)
  {
    hide StepPoint;
  }

  lemma {:induction false} StepPointIs(s: seq<Sample<Value>>, q: Selection, ts: int, r: Option<Sample<Value>>)
    requires r == SelectInstant(s, ts - q.offset, q.lookback)
    ensures StepPoint(s, q, ts) == if r.Some? then [Sample(ts, r.value.v)] else []
  {
    hide SelectInstant;
  }

  /** The step loop over one series.  It fails iff its points do not fit under the limit on samples. */
  method SelectSteps(it: MemoizedSeriesIterator, q: Selection, current: int, maxSamples: int)
    returns (ok: bool, points: seq<Sample<Value>>)
    requires q.Valid() && it.Valid() && it.it.pos == 0 && it.floor == MIN_INT64 && it.delta == q.lookback
    modifies it
    ensures it.Valid() && it.it.samples == old(it.it.samples)
    ensures ok <==> Fits(current, |Points(it.it.samples, q, q.start)|, maxSamples)
    ensures ok ==> points == Points(it.it.samples, q, q.start)
  {
    hide SelectInstant, StepPoint, Points, MemoizedSeriesIterator.Valid;
    points := [];
    ghost var s := it.it.samples;
    assert points + Points(s, q, q.start) == Points(s, q, q.start);
    var ts := q.start;
    StartReady(it, q);
    while ts <= q.end
      invariant q.start <= ts && ReadyFor(it, ts - q.offset) && it.it.samples == s
      invariant points + Points(s, q, ts) == Points(s, q, q.start) && Fits(current, |points|, maxSamples)
      decreases q.end - ts
    {
      PointsStep(s, q, ts, points);
      var r := VectorSelectorSingle(it, ts - q.offset);
      StepPointIs(s, q, ts, r);
      if r.Some? {
        if current + |points| < maxSamples {
          points := points + [Sample(ts, r.value.v)];
        } else {
          MorePoints(points, Sample(ts, r.value.v), Points(s, q, ts + q.interval));
          return false, points;
        }
      }
      LaterReady(it, ts - q.offset, ts + q.interval - q.offset);
      ts := ts + q.interval;
    }
    PointsStep(s, q, ts, points);
    ok := true;
  }

  lemma {:induction false} StartReady(it: MemoizedSeriesIterator, q: Selection)
    requires q.Valid() && it.Valid() && it.it.pos == 0 && it.floor == MIN_INT64 && it.delta == q.lookback
    ensures ReadyFor(it, q.start - q.offset)
  {
  }

  lemma {:induction false} LaterReady(it: MemoizedSeriesIterator, t: int, u: int)
    requires ReadyFor(it, t) && t <= u
    ensures ReadyFor(it, u)
  {
  }

  lemma {:induction false} MorePoints(points: seq<Sample<Value>>, x: Sample<Value>, rest: seq<Sample<Value>>)
    ensures |points + [x] + rest| > |points|
  {
  }

  datatype Row = Row(metric: int, points: seq<Sample<Value>>)

  /** The reference: every step of every series selects afresh; series without a point are left out. */
  function Rows(series: seq<Row>, q: Selection): seq<Row>
    requires 0 < q.interval
  {
    if series == [] then []
    else
      var n := |series| - 1;
      var points := Points(series[n].points, q, q.start);
      Rows(series[..n], q) + if points == [] then [] else [Row(series[n].metric, points)]
  }

  function Count(rows: seq<Row>): nat {
    if rows == [] then 0 else Count(rows[..|rows| - 1]) + |rows[|rows| - 1].points|
  }

  lemma {:induction false} CountSnoc(rows: seq<Row>, r: Row)
    ensures Count(rows + [r]) == Count(rows) + |r.points|
  {
    assert (rows + [r])[..|rows|] == rows;
  }

  lemma {:induction false} RowsSnoc(series: seq<Row>, i: int, q: Selection)
    requires 0 < q.interval && 0 <= i < |series|
    ensures var points := Points(series[i].points, q, q.start);
      && Rows(series[..i + 1], q) == Rows(series[..i], q) + (if points == [] then [] else [Row(series[i].metric, points)])
      && Count(Rows(series[..i + 1], q)) == Count(Rows(series[..i], q)) + |points|
  {
    hide Points;
    assert series[..i + 1][..i] == series[..i];
    var points := Points(series[i].points, q, q.start);
    var rows := Rows(series[..i], q);
    assert rows + [] == rows;
    if points != [] {
      CountSnoc(rows, Row(series[i].metric, points));
    }
  }

  lemma {:induction false} CountGrows(series: seq<Row>, i: int, q: Selection)
    requires 0 < q.interval && 0 <= i <= |series|
    ensures Count(Rows(series[..i], q)) <= Count(Rows(series, q))
    decreases |series| - i
  {
    hide Rows, Count, Points;
    if i < |series| {
      RowsSnoc(series, i, q);
      CountGrows(series, i + 1, q);
    } else {
      assert series[..i] == series;
    }
  }

  // ---------------------------------------------------------------------------
  // What an instant selector gives, on the samples

  /** x is the latest sample of s at or before t. */
  ghost predicate IsLatest(s: seq<Sample<Value>>, t: int, x: Sample<Value>) {
    x in s && x.t <= t && forall y :: y in s && y.t <= t ==> y.t <= x.t
  }

  /** v is the value x is read as: not a staleness marker, and a histogram as a float histogram. */
  ghost predicate IsReading(x: Value, v: Value) {
    match x
    case Float(bits) => bits != 0x7ff0_0000_0000_0002 && v == Float(bits)
    case Histogram(sum) => sum != 0x7ff0_0000_0000_0002 && v == FloatHistogram(sum)
    case FloatHistogram(sum) => sum != 0x7ff0_0000_0000_0002 && v == FloatHistogram(sum)
  }

  ghost predicate IsSelected(s: seq<Sample<Value>>, q: Selection, t: int, v: Value) {
    exists x :: IsLatest(s, t - q.offset, x) && t - q.offset - q.lookback <= x.t && IsReading(x.v, v)
  }

  /** p are the values selected at the steps of the query from ts on, each under the time of its step. */
  ghost predicate IsSelection(p: seq<Sample<Value>>, s: seq<Sample<Value>>, q: Selection, ts: int)
    requires 0 < q.interval
  {
    Increasing(p) && forall x :: x in p <==> InSelection(x, s, q, ts)
  }

  ghost predicate InSelection(x: Sample<Value>, s: seq<Sample<Value>>, q: Selection, ts: int)
    requires 0 < q.interval
  {
    ts <= x.t <= q.end && (x.t - ts) % q.interval == 0 && IsSelected(s, q, x.t, x.v)
  }

  /** The rows are the selections of the series of which at[..] are the places; the others have none. */
  ghost predicate AreSelections(rows: seq<Row>, at: seq<int>, series: seq<Row>, q: Selection)
    requires 0 < q.interval
  {
    && |at| == |rows| && (forall j, k :: 0 <= j < k < |at| ==> at[j] < at[k])
    && (forall j :: 0 <= j < |at| ==>
          && 0 <= at[j] < |series| && rows[j].metric == series[at[j]].metric
          && rows[j].points != [] && IsSelection(rows[j].points, series[at[j]].points, q, q.start))
    && (forall i :: 0 <= i < |series| && i !in at ==> IsSelection([], series[i].points, q, q.start))
  }

  lemma {:induction false} StepPointMembers(s: seq<Sample<Value>>, q: Selection, ts: int, x: Sample<Value>)
    requires Increasing(s)
    ensures x in StepPoint(s, q, ts) <==> x.t == ts && IsSelected(s, q, ts, x.v)
  {
    hide LatestIndex, IsLatest, IsReading, IsStale, ToFloat;
    var ref := ts - q.offset;
    var j := LatestIndex(s, ref);
    LatestOnly(s, ref, j);
    if 0 <= j {
      ReadingIs(s[j].v, x.v);
    }
    if IsSelected(s, q, ts, x.v) {
      var y :| IsLatest(s, ref, y) && ref - q.lookback <= y.t && IsReading(y.v, x.v);
    }
  }

  lemma {:induction false} ReadingIs(x: Value, v: Value)
    ensures IsReading(x, v) <==> !IsStale(x) && v == ToFloat(x)
  {
  }

  lemma {:induction false} LatestOnly(s: seq<Sample<Value>>, t: int, j: int)
    requires Increasing(s) && -1 <= j < |s| && (0 <= j ==> s[j].t <= t) && forall k :: j < k < |s| ==> t < s[k].t
    ensures forall y :: IsLatest(s, t, y) <==> 0 <= j && y == s[j]
  {
    if 0 <= j {
      assert s[j] in s;
    }
    forall y | IsLatest(s, t, y)
      ensures 0 <= j && y == s[j]
    {
      var i :| 0 <= i < |s| && s[i] == y;
    }
  }

  lemma {:induction false} PointsAre(s: seq<Sample<Value>>, q: Selection, ts: int)
    requires Increasing(s) && 0 < q.interval
    ensures IsSelection(Points(s, q, ts), s, q, ts)
    decreases q.end - ts
  {
    hide StepPoint, IsSelected;
    if ts <= q.end {
      var step, rest := StepPoint(s, q, ts), Points(s, q, ts + q.interval);
      PointsAre(s, q, ts + q.interval);
      forall x
        ensures x in step + rest <==> InSelection(x, s, q, ts)
      {
        StepPointMembers(s, q, ts, x);
        GoInt.LaterStep(x.t, ts, q.interval);
      }
      StepPointOnce(s, q, ts);
      assert forall i :: 0 <= i < |rest| ==> rest[i] in rest;
      if |step| == 1 {
        StepPointMembers(s, q, ts, step[0]);
      }
    }
  }

  lemma {:induction false} StepPointOnce(s: seq<Sample<Value>>, q: Selection, ts: int)
    ensures |StepPoint(s, q, ts)| <= 1
  {
  }

  /** The reference is exactly that. */
  lemma {:induction false} RowsAre(series: seq<Row>, q: Selection) returns (at: seq<int>)
    requires 0 < q.interval && forall i :: 0 <= i < |series| ==> Increasing(series[i].points)
    ensures AreSelections(Rows(series, q), at, series, q)
  {
    hide Points, IsSelection;
    if series == [] {
      at := [];
    } else {
      var n := |series| - 1;
      at := RowsAre(series[..n], q);
      PointsAre(series[n].points, q, q.start);
      if Points(series[n].points, q, q.start) != [] {
        at := at + [n];
      }
    }
  }

  /**
    An instant selector over all its series, through one memoized iterator that is reset for each.  It fails iff
    the points of all series together do not fit under the limit on samples.
   */
  method EvalSelector(series: seq<Row>, q: Selection, current: int, maxSamples: int)
    returns (ok: bool, mat: seq<Row>, currentSamples: int)
    requires q.Valid() && forall i :: 0 <= i < |series| ==> IsSeries(series[i].points)
    ensures ok <==> Count(Rows(series, q)) == 0 || current + Count(Rows(series, q)) <= maxSamples
    ensures ok ==> mat == Rows(series, q) && currentSamples == current + Count(mat)
    ensures ok ==> exists at :: AreSelections(mat, at, series, q)
  {
    hide SelectInstant, Points, Rows, Count, AreSelections;
    var it := new MemoizedSeriesIterator(Base([], -1), q.lookback);
    mat, currentSamples := [], current;
    assert series[..0] == [];
    RowsOfNone(q);
    for i := 0 to |series|
      invariant it.Valid() && it.delta == q.lookback && fresh(it)
      invariant mat == Rows(series[..i], q) && currentSamples == current + Count(mat)
      invariant Fits(current, Count(mat), maxSamples)
    {
      RowsSnoc(series, i, q);
      FitsBoth(current, Count(mat), |Points(series[i].points, q, q.start)|, maxSamples);
      it.Reset(Base(series[i].points, -1));
      var points;
      ok, points := SelectSteps(it, q, currentSamples, maxSamples);
      if !ok {
        CountGrows(series, i + 1, q);
        return;
      }
      currentSamples := currentSamples + |points|;
      if points != [] {
        mat := mat + [Row(series[i].metric, points)];
      }
    }
    assert series[..|series|] == series;
    ok := true;
    ghost var at := RowsAre(series, q);
  }

  lemma {:induction false} RowsOfNone(q: Selection)
    requires 0 < q.interval
    ensures Rows([], q) == [] && Count([]) == 0
  {
  }
}

/**
  promql/engine.go: evaluating a range selector step by step.  The points of the
  previous step are kept and only new ones are read, from a buffer that is cut to
  min(range, step) after the first step; every step still sees the whole window.
 */
module RangeWindow {
  import GoInt
  import opened Samples
  import opened SampleRing
  import opened SeriesIterator
  import opened BufferedIterator

  class Evaluator {
    var currentSamples: int
    const maxSamples: int

    /** Keeps the points of the previous step that are still in range; only later ones are read anew. */
    method Retain(mint: int, floats: seq<FSample>) returns (kept: seq<FSample>, from: int)
      requires Increasing(floats)
      modifies this
      ensures kept == DropBefore(floats, mint)
      ensures from == if kept == [] then mint else kept[|kept| - 1].t + 1
      ensures currentSamples == old(currentSamples) - |floats| + |kept|
    {
      if |floats| > 0 && floats[|floats| - 1].t >= mint {
        var drop := 0;
        while floats[drop].t < mint
          invariant 0 <= drop < |floats|
          invariant forall k :: 0 <= k < drop ==> floats[k].t < mint
        {
          drop := drop + 1;
        }
        currentSamples := currentSamples - drop;
        kept := floats[drop..];
        from := kept[|kept| - 1].t + 1;
      } else {
        currentSamples := currentSamples - |floats|;
        kept := [];
        from := mint;
      }
    }

    /** One append under the sample limit; the source raises an error when the limit is reached. */
    method Append(points: seq<FSample>, s: FSample) returns (ok: bool, r: seq<FSample>)
      modifies this
      ensures ok <==> old(currentSamples) < maxSamples
      ensures ok ==> r == points + [s] && currentSamples == old(currentSamples) + 1
      ensures !ok ==> currentSamples == old(currentSamples)
    {
      if currentSamples >= maxSamples {
        return false, points;
      }
      currentSamples := currentSamples + 1;
      return true, points + [s];
    }

    /** The loop over the buffered samples. */
    method AppendBuffered(buf: Ring, from: int, maxt: int, kept: seq<FSample>) returns (ok: bool, r: seq<FSample>)
      requires buf.Valid()
      requires forall s :: s in buf.Contents ==> s.t < maxt
      modifies this
      ensures ok <==> Fits(old(currentSamples), |Window(buf.Contents, from, maxt)|)
      ensures ok ==> r == kept + Window(buf.Contents, from, maxt)
      ensures ok ==> currentSamples == old(currentSamples) + |r| - |kept|
    {
      hide Window;
      ok, r := true, kept;
      WindowEmpty(buf.Contents, from, maxt);
      var k := 0;
      while k < buf.l
        invariant 0 <= k <= buf.l == |buf.Contents|
        invariant r == kept + Window(buf.Contents[..k], from, maxt)
        invariant currentSamples == old(currentSamples) + |r| - |kept|
        invariant Fits(old(currentSamples), |Window(buf.Contents[..k], from, maxt)|)
      {
        var s := buf.AtF(k);
        WindowSnoc(buf.Contents, k, from, maxt);
        assert s in buf.Contents;
        if !IsStaleNaN(s.v) && s.t >= from {
          ok, r := Append(r, s);
          if !ok {
            WindowPrefix(buf.Contents, k + 1, from, maxt);
            return;
          }
        }
        k := k + 1;
      }
      assert buf.Contents[..k] == buf.Contents;
    }

    /** n points can be added: the limit is only looked at when there is one to add. */
    ghost predicate Fits(current: int, n: int)
    {
      n == 0 || current + n <= maxSamples
    }

    /**
      matrixIterSlice.  The points handed in are those of an earlier window lo..hi;
      the points handed out are those of mint..maxt.  It fails exactly when the
      points that are new do not fit under the limit.
     */
    method MatrixIterSlice(it: BufferedSeriesIterator, mint: int, maxt: int, floats: seq<FSample>,
                           ghost lo: int, ghost hi: int)
      returns (ok: bool, points: seq<FSample>)
      requires it.Valid() && MIN_INT64 < maxt - it.buf.delta
      requires floats == Window(it.it.samples, lo, hi)
      requires lo <= mint <= maxt && hi < maxt
      requires maxt - it.buf.delta <= mint || maxt - it.buf.delta <= hi + 1
      requires Behind(it, maxt)
      modifies this, it, it.buf, it.buf.buf
      ensures it.Valid() && it.it.samples == old(it.it.samples) && it.buf.delta == old(it.buf.delta)
      ensures it.buf.buf == old(it.buf.buf) || fresh(it.buf.buf)
      ensures Behind(it, maxt)
      ensures var s := it.it.samples;
        ok <==> Fits(old(currentSamples) - |floats| + |Window(s, mint, hi)|,
                     |Window(s, mint, maxt)| - |Window(s, mint, hi)|)
      ensures ok ==> points == Window(it.it.samples, mint, maxt)
      ensures ok ==> currentSamples - |points| == old(currentSamples) - |floats|
    {
      hide Window, DropBefore, SoughtPoint, BufferedSeriesIterator.Valid, Ring.Valid;
      ghost var s := it.it.samples;
      OverSeries(it);
      WindowIncreasing(s, lo, hi);
      var kept, from := Retain(mint, floats);
      KeptIsWindow(s, lo, hi, mint);
      var sought := SeekWindow(it, mint, hi, maxt, from);
      ghost var added, last := Window(it.buf.Contents, from, maxt), SoughtPoint(it.it, maxt);
      FitsBoth(currentSamples, |added|, |last|);
      hide Evaluator.Fits;
      ok, points := AppendBuffered(it.buf, from, maxt, kept);
      if ok {
        ok, points := AppendSought(it.it, sought, maxt, points);
      }
    }

    /** After the seek, the window is what was kept, what the buffer has from there on, and the sample sought. */
    static method SeekWindow(it: BufferedSeriesIterator, ghost mint: int, ghost hi: int, maxt: int, ghost from: int)
      returns (sought: bool)
      requires it.Valid() && MIN_INT64 < maxt - it.buf.delta && Behind(it, maxt)
      requires mint <= maxt && hi < maxt && (maxt - it.buf.delta <= mint || maxt - it.buf.delta <= hi + 1)
      requires var kept := Window(it.it.samples, mint, hi);
               from == if kept == [] then mint else kept[|kept| - 1].t + 1
      modifies it, it.buf, it.buf.buf
      ensures it.Valid() && it.it.samples == old(it.it.samples) && it.buf.delta == old(it.buf.delta)
      ensures it.buf.buf == old(it.buf.buf) || fresh(it.buf.buf)
      ensures Behind(it, maxt) && it.buf.Valid() && it.it.Valid() && sought == it.it.Ok()
      ensures forall x :: x in it.buf.Contents ==> x.t < maxt
      ensures Window(it.it.samples, mint, maxt) ==
              Window(it.it.samples, mint, hi) + Window(it.buf.Contents, from, maxt) + SoughtPoint(it.it, maxt)
    {
      hide Window, DropBefore, Reduced, Covers, SoughtPoint;
      SeekPassed(it.it, maxt);
      sought := it.Seek(maxt);
      BufferMembers(it.it, it.start, it.floor, it.buf.delta, it.buf.Contents, maxt);
      SlideWindow(it.it, it.buf.delta, it.buf.Contents, mint, hi, maxt, from);
      CoversBefore(it.it.samples, it.buf.Contents, it.buf.delta, maxt);
    }

    /** The sample at the end of the window, which is not in the buffer. */
    method AppendSought(it: Base<int>, sought: bool, maxt: int, points: seq<FSample>) returns (ok: bool, r: seq<FSample>)
      requires it.Valid() && sought == it.Ok()
      modifies this
      ensures ok <==> Fits(old(currentSamples), |SoughtPoint(it, maxt)|)
      ensures ok ==> r == points + SoughtPoint(it, maxt)
      ensures ok ==> currentSamples == old(currentSamples) + |r| - |points|
    {
      ok, r := true, points;
      if sought {
        var x := it.At();
        if x.t == maxt && !IsStaleNaN(x.v) {
          ok, r := Append(points, x);
        }
      }
    }

    lemma {:induction false} FitsBoth(current: int, m: nat, n: nat)
      ensures Fits(current, m) && Fits(current + m, n) <==> Fits(current, m + n)
    {
    }

    /** One step: slide the window, call the function on it if it is not empty, then cut the buffer. */
    method EvalStep(it: BufferedSeriesIterator, q: RangeQuery, call: (seq<FSample>, int) -> Option<int>, ts: int,
                    floats: seq<FSample>, ghost lo: int, ghost hi: int)
      returns (ok: bool, points: seq<FSample>, out: seq<FSample>)
      requires q.Valid() && q.start <= ts
      requires it.Valid() && Behind(it, ts - q.offset)
      requires floats == Window(it.it.samples, lo, hi) && lo <= ts - q.offset - q.range && hi < ts - q.offset
      requires it.buf.delta == q.range || (it.buf.delta == q.StepRange() && hi == ts - q.interval - q.offset)
      modifies this, it, it.buf, it.buf.buf
      ensures it.Valid() && it.it.samples == old(it.it.samples)
      ensures it.buf.buf == old(it.buf.buf) || fresh(it.buf.buf)
      ensures ok <==> StepFits(it.it.samples, q, old(currentSamples) - |floats|, hi, ts)
      ensures ok ==> Behind(it, ts + q.interval - q.offset)
      ensures it.buf.delta == if ok && |points| > 0 then q.StepRange() else old(it.buf.delta)
      ensures ok ==> points == Window(it.it.samples, ts - q.offset - q.range, ts - q.offset)
      ensures ok ==> out == StepResult(it.it.samples, q, call, ts)
      ensures ok ==> currentSamples - |points| == old(currentSamples) - |floats|
    {
      hide Window, Cut, DropBefore, Reduced;
      var maxt := ts - q.offset;
      var mint := maxt - q.range;
      ok, points := MatrixIterSlice(it, mint, maxt, floats, lo, hi);
      out := [];
      if !ok {
        return;
      }
      if |points| == 0 {
        return;
      }
      var v := call(points, ts);
      if v.Some? {
        out := [Sample(ts, v.value)];
      }
      var _ := it.ReduceDelta(q.StepRange());
    }

    /** The points that a step adds to those kept from a window that ended at hi fit beside base other samples. */
    ghost predicate StepFits(s: seq<FSample>, q: RangeQuery, base: int, hi: int, ts: int) {
      var lo, maxt := ts - q.offset - q.range, ts - q.offset;
      Fits(base + |Window(s, lo, hi)|, |Window(s, lo, maxt)| - |Window(s, lo, hi)|)
    }

    ghost predicate StepsFit(s: seq<FSample>, q: RangeQuery, base: int, hi: int, ts: int)
      requires 0 < q.interval
      decreases q.end - ts
    {
      ts > q.end || (StepFits(s, q, base, hi, ts) && StepsFit(s, q, base, ts - q.offset, ts + q.interval))
    }

    /** The step loop over one series; call is the range function applied to the window of each step. */
    method EvalSteps(it: BufferedSeriesIterator, q: RangeQuery, call: (seq<FSample>, int) -> Option<int>)
      returns (ok: bool, floats: seq<FSample>, ss: seq<FSample>)
      requires it.Valid() && it.it.pos == 0 && it.floor == MIN_INT64 && it.buf.delta == q.range
      requires q.Valid()
      modifies this, it, it.buf, it.buf.buf
      ensures it.Valid() && (it.buf.buf == old(it.buf.buf) || fresh(it.buf.buf))
      ensures it.it.samples == old(it.it.samples)
      ensures ok <==> StepsFit(it.it.samples, q, old(currentSamples), MIN_INT64, q.start)
      ensures ok ==> ss == Results(it.it.samples, q, call, q.start)
      ensures ok ==> floats == LastWindow(it.it.samples, q, q.start, [])
      ensures ok ==> currentSamples == old(currentSamples) + |floats|
    {
      hide Window, StepResult, Results, Reduced, IsSeries, StepFits, LastWindow, StepsFit;
      hide BufferedSeriesIterator.Valid, Ring.Valid, Behind;
      ghost var s := it.it.samples;
      ghost var lo, hi := MIN_INT64, MIN_INT64;
      ghost var base := currentSamples;
      OverSeries(it);
      StartBehind(it, q.start - q.offset);
      NothingAtSentinel(s);
      floats, ss := [], [];
      var ts := q.start;
      while ts <= q.end
        invariant q.start <= ts
        invariant it.Valid() && it.it.samples == s && Behind(it, ts - q.offset)
        invariant it.buf.buf == old(it.buf.buf) || fresh(it.buf.buf)
        invariant floats == Window(s, lo, hi) && lo <= ts - q.offset - q.range && hi < ts - q.offset
        invariant it.buf.delta == q.range || (it.buf.delta == q.StepRange() && hi == ts - q.interval - q.offset)
        invariant ss + Results(s, q, call, ts) == Results(s, q, call, q.start)
        invariant StepsFit(s, q, base, hi, ts) == StepsFit(s, q, base, MIN_INT64, q.start)
        invariant LastWindow(s, q, ts, floats) == LastWindow(s, q, q.start, [])
        invariant currentSamples == base + |floats|
        decreases q.end - ts
      {
        ResultsStep(s, q, call, ts, ss);
        FitStep(s, q, base, hi, ts, floats);
        var out;
        ok, floats, out := EvalStep(it, q, call, ts, floats, lo, hi);
        if !ok {
          return;
        }
        lo, hi := ts - q.offset - q.range, ts - q.offset;
        ss := ss + out;
        ts := ts + q.interval;
      }
      ResultsStep(s, q, call, ts, ss);
      FitStep(s, q, base, hi, ts, floats);
      ok := true;
    }

    lemma {:induction false} FitStep(s: seq<FSample>, q: RangeQuery, base: int, hi: int, ts: int, w: seq<FSample>)
      requires 0 < q.interval
      ensures StepsFit(s, q, base, hi, ts) <==>
        (ts > q.end || (StepFits(s, q, base, hi, ts) && StepsFit(s, q, base, ts - q.offset, ts + q.interval)))
      ensures LastWindow(s, q, ts, w) == if ts > q.end then w
        else LastWindow(s, q, ts + q.interval, Window(s, ts - q.offset - q.range, ts - q.offset))
    {
      hide StepFits, Window;
    }
  
    /** One series fits: at every step, and its results beside its last window. */
    ghost predicate OneFits(s: seq<FSample>, q: RangeQuery, call: (seq<FSample>, int) -> Option<int>, base: int)
      requires 0 < q.interval
    {
      && StepsFit(s, q, base, MIN_INT64, q.start)
      && Fits(base + |LastWindow(s, q, q.start, [])|, |Results(s, q, call, q.start)|)
    }

    ghost predicate AllFit(series: seq<Series>, q: RangeQuery, call: (seq<FSample>, int) -> Option<int>, base: int)
      requires 0 < q.interval
    {
      if |series| == 0 then true
      else
        var n := |series| - 1;
        AllFit(series[..n], q, call, base) && OneFits(series[n].floats, q, call, base + Points(Matrix(series[..n], q, call)))
    }

    /** n samples beside base others are within the limit, or there are none. */
    ghost predicate Within(base: int, n: int) {
      n == 0 || base + n <= maxSamples
    }

    /** t is a step of the query, not before ts, at which the window is too large. */
    ghost predicate TooLarge(s: seq<FSample>, q: RangeQuery, base: int, ts: int, t: int)
      requires 0 < q.interval
    {
      && ts <= t <= q.end && (t - ts) % q.interval == 0
      && exists w :: IsWindow(w, s, t - q.offset - q.range, t - q.offset) && !Within(base, |w|)
    }

    lemma {:induction false} TooLargeNow(s: seq<FSample>, q: RangeQuery, base: int, ts: int)
      requires 0 < q.interval && Increasing(s) && ts <= q.end
      ensures TooLarge(s, q, base, ts, ts) <==> !Within(base, |Window(s, ts - q.offset - q.range, ts - q.offset)|)
    {
      var lo, hi := ts - q.offset - q.range, ts - q.offset;
      WindowIs(s, lo, hi);
      hide Window;
      if TooLarge(s, q, base, ts, ts) {
        var w :| IsWindow(w, s, lo, hi) && !Within(base, |w|);
        IncreasingUnique(w, Window(s, lo, hi));
      }
    }

    /** While the samples kept are within the limit, a step fits iff its whole window is within it. */
    lemma {:induction false} StepFitsIs(s: seq<FSample>, q: RangeQuery, base: int, lo: int, hi: int, ts: int)
      requires lo <= ts - q.offset - q.range && hi <= ts - q.offset && Within(base, |Window(s, lo, hi)|)
      ensures StepFits(s, q, base, hi, ts) <==> Within(base, |Window(s, ts - q.offset - q.range, ts - q.offset)|)
    {
      WindowSmaller(s, ts - q.offset - q.range, hi, lo, hi);
      WindowSmaller(s, ts - q.offset - q.range, hi, ts - q.offset - q.range, ts - q.offset);
      hide Window;
    }

    lemma {:induction false} StepsFitIs(s: seq<FSample>, q: RangeQuery, base: int, lo: int, hi: int, ts: int)
      requires 0 < q.interval && Increasing(s) && lo <= ts - q.offset - q.range && hi <= ts - q.offset
      requires Within(base, |Window(s, lo, hi)|)
      ensures StepsFit(s, q, base, hi, ts) <==> !exists t :: TooLarge(s, q, base, ts, t)
      decreases q.end - ts
    {
      hide Window, StepFits, TooLarge, Within;
      if ts > q.end {
        NoneTooLarge(s, q, base, ts);
      } else {
        var next := ts + q.interval;
        StepFitsIs(s, q, base, lo, hi, ts);
        TooLargeNow(s, q, base, ts);
        forall t
          ensures TooLarge(s, q, base, ts, t) <==> TooLarge(s, q, base, next, t) || (t == ts && TooLarge(s, q, base, ts, ts))
        {
          TooLargeLater(s, q, base, ts, t);
        }
        if !TooLarge(s, q, base, ts, ts) {
          StepsFitIs(s, q, base, ts - q.offset - q.range, ts - q.offset, next);
        }
      }
    }

    lemma {:induction false} NoneTooLarge(s: seq<FSample>, q: RangeQuery, base: int, ts: int)
      requires 0 < q.interval && ts > q.end
      ensures forall t :: !TooLarge(s, q, base, ts, t)
    {
    }

    lemma {:induction false} TooLargeLater(s: seq<FSample>, q: RangeQuery, base: int, ts: int, t: int)
      requires 0 < q.interval && ts <= q.end
      ensures TooLarge(s, q, base, ts, t) <==>
        TooLarge(s, q, base, ts + q.interval, t) || (t == ts && TooLarge(s, q, base, ts, ts))
    {
      GoInt.LaterStep(t, ts, q.interval);
    }

    /**
      When one series is within the limit: the window of each step is, beside the samples counted before, and so are
      all its results beside the window of its last step.
     */
    ghost predicate SeriesWithin(s: seq<FSample>, q: RangeQuery, call: (seq<FSample>, int) -> Option<int>, base: int)
      requires 0 < q.interval
    {
      && (forall t :: !TooLarge(s, q, base, q.start, t))
      && (forall p, w :: IsResult(p, s, q, call) && p != [] && IsLastWindow(w, s, q) ==> base + |w| + |p| <= maxSamples)
    }

    lemma {:induction false} OneFitsIs(s: seq<FSample>, q: RangeQuery, call: (seq<FSample>, int) -> Option<int>, base: int)
      requires q.Valid() && IsSeries(s)
      ensures OneFits(s, q, call, base) <==> SeriesWithin(s, q, call, base)
    {
      hide Window, Results, LastWindow, IsResult, TooLarge, StepsFit, IsLastWindow;
      NothingAtSentinel(s);
      StepsFitIs(s, q, base, MIN_INT64, MIN_INT64, q.start);
      var p := Results(s, q, call, q.start);
      ResultIs(s, q, call);
      if q.start > q.end {
        NothingAfterEnd(s, q, call);
      } else {
        var w := LastWindow(s, q, q.start, []);
        LastStepIs(s, q, q.start, []);
        forall p', w' | IsResult(p', s, q, call) && IsLastWindow(w', s, q)
          ensures p' == p && w' == w
        {
          OneResult(p', p, s, q, call);
          OneWindow(w', w, s, q);
        }
      }
    }

    /** It fails iff, for some series, a window or the results do not fit beside the results of the series before it. */
    lemma {:induction false} LimitIs(series: seq<Series>, q: RangeQuery, call: (seq<FSample>, int) -> Option<int>, base: int)
      requires q.Valid() && forall i :: 0 <= i < |series| ==> IsSeries(series[i].floats)
      ensures AllFit(series, q, call, base) <==>
        forall i :: 0 <= i < |series| ==>
          SeriesWithin(series[i].floats, q, call, base + Points(Matrix(series[..i], q, call)))
    {
      hide SeriesWithin, OneFits, Points, Matrix, IsSeries;
      if series != [] {
        var n := |series| - 1;
        var l := series[..n];
        LimitIs(l, q, call, base);
        OneFitsIs(series[n].floats, q, call, base + Points(Matrix(l, q, call)));
        assert forall i :: 0 <= i < n ==> l[..i] == series[..i] && l[i] == series[i];
      }
    }

    lemma {:induction false} FitNone(series: seq<Series>, q: RangeQuery, call: (seq<FSample>, int) -> Option<int>, base: int)
      requires 0 < q.interval
      ensures AllFit(series[..0], q, call, base)
    {
    }

    lemma {:induction false} FitNext(series: seq<Series>, i: int, q: RangeQuery, call: (seq<FSample>, int) -> Option<int>,
                                     base: int)
      requires 0 < q.interval && 0 <= i < |series|
      ensures AllFit(series[..i + 1], q, call, base) <==>
        (AllFit(series[..i], q, call, base)
         && OneFits(series[i].floats, q, call, base + Points(Matrix(series[..i], q, call))))
    {
      hide OneFits, Points, Matrix;
      assert series[..i + 1][..i] == series[..i];
    }

    lemma {:induction false} FitPrefix(series: seq<Series>, i: int, q: RangeQuery, call: (seq<FSample>, int) -> Option<int>,
                                       base: int)
      requires 0 < q.interval && 0 <= i <= |series|
      ensures AllFit(series, q, call, base) ==> AllFit(series[..i], q, call, base)
      decreases |series| - i
    {
      hide OneFits, Points, Matrix, AllFit;
      if i < |series| {
        FitPrefix(series, i + 1, q, call, base);
        FitNext(series, i, q, call, base);
      } else {
        assert series[..i] == series;
      }
    }

    /** One series of the matrix-argument branch: its results are counted beside its last window. */
    method EvalSeries(it: BufferedSeriesIterator, s: seq<FSample>, q: RangeQuery, call: (seq<FSample>, int) -> Option<int>)
      returns (ok: bool, floats: seq<FSample>, ss: seq<FSample>)
      requires it.Valid() && it.delta == q.range && q.Valid() && IsSeries(s)
      modifies this, it, it.buf, it.buf.buf
      ensures it.Valid() && (it.buf.buf == old(it.buf.buf) || fresh(it.buf.buf))
      ensures ok <==> OneFits(s, q, call, old(currentSamples))
      ensures ok ==> ss == Results(s, q, call, q.start)
      ensures ok ==> currentSamples == old(currentSamples) + |floats| + |ss|
    {
      hide Window, StepResult, Results, Reduced, StepsFit, LastWindow, IsSeries;
      it.Reset(Base(s, -1));
      ok, floats, ss := EvalSteps(it, q, call);
      if ok && ss != [] {
        if currentSamples + |ss| > maxSamples {
          ok := false;
          return;
        }
        currentSamples := currentSamples + |ss|;
      }
    }

    /** The matrix-argument branch of eval: all series in turn, through one reused buffered iterator. */
    method EvalRangeCall(series: seq<Series>, q: RangeQuery, call: (seq<FSample>, int) -> Option<int>)
      returns (ok: bool, mat: seq<Series>)
      requires q.Valid() && forall i :: 0 <= i < |series| ==> IsSeries(series[i].floats)
      modifies this
      ensures ok <==> AllFit(series, q, call, old(currentSamples))
      ensures ok ==> mat == Matrix(series, q, call) && exists at :: IsOutput(mat, at, series, q, call)
      ensures ok ==> currentSamples == old(currentSamples) + Points(mat)
    {
      hide Window, StepResult, Results, Reduced, Matrix, Points, AllFit, OneFits, Ring.Valid, IsOutput;
      ghost var base := currentSamples;
      MatrixEmpty(series, q, call);
      FitNone(series, q, call, base);
      var it := new BufferedSeriesIterator(Base([], -1), q.range);
      var floats := [];
      mat := [];
      for i := 0 to |series|
        invariant it.Valid() && it.delta == q.range && fresh(it) && fresh(it.buf) && fresh(it.buf.buf)
        invariant mat == Matrix(series[..i], q, call) && AllFit(series[..i], q, call, base)
        invariant currentSamples == base + |floats| + Points(mat)
      {
        FitNext(series, i, q, call, base);
        FitPrefix(series, i + 1, q, call, base);
        currentSamples := currentSamples - |floats|;
        var ss;
        ok, floats, ss := EvalSeries(it, series[i].floats, q, call);
        if !ok {
          return;
        }
        MatrixSnoc(series, i, q, call);
        if ss != [] {
          PointsSnoc(mat, Series(series[i].metric, ss));
          mat := mat + [Series(series[i].metric, ss)];
        }
      }
      assert series[..|series|] == series;
      currentSamples := currentSamples - |floats|;
      ok := true;
      assert exists at :: IsOutput(mat, at, series, q, call) by {
        hide IsOutput;
        var at := MatrixIs(series, q, call);
      }
    }
  }

  /** The window of the last step from ts on; w if there is none. */
  function LastWindow(s: seq<FSample>, q: RangeQuery, ts: int, w: seq<FSample>): seq<FSample>
    requires 0 < q.interval
    decreases q.end - ts
  {
    if ts > q.end then w
    else LastWindow(s, q, ts + q.interval, Window(s, ts - q.offset - q.range, ts - q.offset))
  }

  /** A series of points under its metric. */
  datatype Series = Series(metric: int, floats: seq<FSample>)

  /** The reference: one output series per input series that has a result at some step. */
  function Matrix(series: seq<Series>, q: RangeQuery, call: (seq<FSample>, int) -> Option<int>): seq<Series>
    requires 0 < q.interval
  {
    if series == [] then []
    else
      var n := |series| - 1;
      var ss := Results(series[n].floats, q, call, q.start);
      Matrix(series[..n], q, call) + if ss == [] then [] else [Series(series[n].metric, ss)]
  }

  lemma {:induction false} MatrixEmpty(series: seq<Series>, q: RangeQuery, call: (seq<FSample>, int) -> Option<int>)
    requires 0 < q.interval
    ensures Matrix(series[..0], q, call) == [] && Points([]) == 0
  {
  }

  lemma {:induction false} MatrixSnoc(series: seq<Series>, i: int, q: RangeQuery, call: (seq<FSample>, int) -> Option<int>)
    requires 0 < q.interval && 0 <= i < |series|
    ensures var ss := Results(series[i].floats, q, call, q.start);
            Matrix(series[..i + 1], q, call) ==
            Matrix(series[..i], q, call) + if ss == [] then [] else [Series(series[i].metric, ss)]
  {
    assert series[..i + 1][..i] == series[..i];
  }

  lemma {:induction false} PointsSnoc(mat: seq<Series>, s: Series)
    ensures Points(mat + [s]) == Points(mat) + |s.floats|
  {
    assert (mat + [s])[..|mat|] == mat;
  }

  function Points(mat: seq<Series>): nat {
    if mat == [] then 0 else Points(mat[..|mat| - 1]) + |mat[|mat| - 1].floats|
  }

  /** A range query: the steps, and the offset and range of its selector, in milliseconds. */
  datatype RangeQuery = RangeQuery(start: int, end: int, interval: int, offset: int, range: int) {
    /** The look-back kept from the second step on. */
    function StepRange(): int {
      if range > interval then interval else range
    }

    /** Positive step, non-negative range, and no window that starts below the sentinel. */
    ghost predicate Valid() {
      0 < interval && 0 <= range && MIN_INT64 < start - offset - range
    }
  }

  /** The reference: every step from ts on reads its whole window from the series. */
  function Results(s: seq<FSample>, q: RangeQuery, call: (seq<FSample>, int) -> Option<int>, ts: int): seq<FSample>
    requires 0 < q.interval
    decreases q.end - ts
  {
    if ts > q.end then [] else StepResult(s, q, call, ts) + Results(s, q, call, ts + q.interval)
  }

  lemma {:induction false} ResultsStep(s: seq<FSample>, q: RangeQuery, call: (seq<FSample>, int) -> Option<int>, ts: int,
                                       before: seq<FSample>)
    requires 0 < q.interval
    ensures before + Results(s, q, call, ts) ==
            if ts > q.end then before else before + StepResult(s, q, call, ts) + Results(s, q, call, ts + q.interval)
  {
    hide StepResult;
  }

  function StepResult(s: seq<FSample>, q: RangeQuery, call: (seq<FSample>, int) -> Option<int>, ts: int): seq<FSample> {
    var w := Window(s, ts - q.offset - q.range, ts - q.offset);
    if w == [] then [] else match call(w, ts) case Some(v) => [Sample(ts, v)] case None => []
  }

  // ---------------------------------------------------------------------------
  // What a range call gives, on the samples

  /** w are the samples of s with lo <= T <= hi that are not staleness markers, in order. */
  ghost predicate IsWindow(w: seq<FSample>, s: seq<FSample>, lo: int, hi: int) {
    Increasing(w) && forall x :: x in w <==> x in s && lo <= x.t <= hi && x.v != 0x7ff0_0000_0000_0002
  }

  /** The call has value v at time t: there are samples in the window there, and it gives v for them at t. */
  ghost predicate HasValue(s: seq<FSample>, q: RangeQuery, call: (seq<FSample>, int) -> Option<int>, t: int, v: int) {
    exists w :: IsWindow(w, s, t - q.offset - q.range, t - q.offset) && w != [] && call(w, t) == Some(v)
  }

  /** p are the values of the call at the steps of the query, each under the time of its step. */
  ghost predicate IsResult(p: seq<FSample>, s: seq<FSample>, q: RangeQuery, call: (seq<FSample>, int) -> Option<int>)
    requires 0 < q.interval
  {
    Increasing(p) && forall x :: x in p <==> InResult(x, s, q, call, q.start)
  }

  /** x is a value at one of the steps from ts on. */
  ghost predicate InResult(x: FSample, s: seq<FSample>, q: RangeQuery, call: (seq<FSample>, int) -> Option<int>, ts: int)
    requires 0 < q.interval
  {
    ts <= x.t <= q.end && (x.t - ts) % q.interval == 0 && HasValue(s, q, call, x.t, x.v)
  }

  /** The output series are the results, in the order of their inputs, of the inputs of which at[..] are the places. */
  ghost predicate IsOutput(mat: seq<Series>, at: seq<int>, series: seq<Series>, q: RangeQuery,
                           call: (seq<FSample>, int) -> Option<int>)
    requires 0 < q.interval
  {
    && |at| == |mat| && (forall j, k :: 0 <= j < k < |at| ==> at[j] < at[k])
    && (forall j :: 0 <= j < |at| ==>
          && 0 <= at[j] < |series| && mat[j].metric == series[at[j]].metric
          && mat[j].floats != [] && IsResult(mat[j].floats, series[at[j]].floats, q, call))
    && (forall i :: 0 <= i < |series| && i !in at ==> IsResult([], series[i].floats, q, call))
  }

  lemma {:induction false} WindowIs(s: seq<FSample>, lo: int, hi: int)
    requires Increasing(s)
    ensures IsWindow(Window(s, lo, hi), s, lo, hi)
  {
    hide Window;
    WindowMembers(s, lo, hi);
    WindowIncreasing(s, lo, hi);
  }

  lemma {:induction false} WindowSmaller(s: seq<FSample>, lo: int, hi: int, lo': int, hi': int)
    requires lo' <= lo && hi <= hi'
    ensures |Window(s, lo, hi)| <= |Window(s, lo', hi')|
  {
    if s != [] {
      WindowSmaller(s[..|s| - 1], lo, hi, lo', hi');
    }
  }

  /** t is the last step of the query. */
  ghost predicate IsLastStep(q: RangeQuery, t: int)
    requires 0 < q.interval
  {
    q.start <= t <= q.end < t + q.interval && (t - q.start) % q.interval == 0
  }

  ghost predicate IsLastWindow(w: seq<FSample>, s: seq<FSample>, q: RangeQuery)
    requires 0 < q.interval
  {
    exists t :: IsLastStep(q, t) && IsWindow(w, s, t - q.offset - q.range, t - q.offset)
  }

  lemma {:induction false} LastStepIs(s: seq<FSample>, q: RangeQuery, ts: int, w: seq<FSample>)
    requires 0 < q.interval && q.start <= ts <= q.end && (ts - q.start) % q.interval == 0 && Increasing(s)
    ensures IsLastWindow(LastWindow(s, q, ts, w), s, q)
    decreases q.end - ts
  {
    hide Window, IsWindow;
    var next := ts + q.interval;
    var w' := Window(s, ts - q.offset - q.range, ts - q.offset);
    if next > q.end {
      assert LastWindow(s, q, next, w') == w' && IsLastStep(q, ts);
      WindowIs(s, ts - q.offset - q.range, ts - q.offset);
    } else {
      GoInt.SubtractOnce(next - q.start, q.interval);
      LastStepIs(s, q, next, w');
    }
  }

  lemma {:induction false} OneLastStep(q: RangeQuery, t: int, u: int)
    requires 0 < q.interval && IsLastStep(q, t) && IsLastStep(q, u)
    ensures t == u
  {
    var a, b := t - q.start, u - q.start;
    if a < b {
      GoInt.MultiplesApart(a, b, q.interval);
    } else if b < a {
      GoInt.MultiplesApart(b, a, q.interval);
    }
  }

  lemma {:induction false} OneWindow(w: seq<FSample>, u: seq<FSample>, s: seq<FSample>, q: RangeQuery)
    requires 0 < q.interval && IsLastWindow(w, s, q) && IsLastWindow(u, s, q)
    ensures w == u
  {
    var t :| IsLastStep(q, t) && IsWindow(w, s, t - q.offset - q.range, t - q.offset);
    var t' :| IsLastStep(q, t') && IsWindow(u, s, t' - q.offset - q.range, t' - q.offset);
    OneLastStep(q, t, t');
    IncreasingUnique(w, u);
  }

  lemma {:induction false} OneResult(p: seq<FSample>, p': seq<FSample>, s: seq<FSample>, q: RangeQuery,
                                     call: (seq<FSample>, int) -> Option<int>)
    requires 0 < q.interval && IsResult(p, s, q, call) && IsResult(p', s, q, call)
    ensures p == p'
  {
    hide InResult;
    IncreasingUnique(p, p');
  }

  lemma {:induction false} NothingAfterEnd(s: seq<FSample>, q: RangeQuery, call: (seq<FSample>, int) -> Option<int>)
    requires 0 < q.interval && q.start > q.end
    ensures Results(s, q, call, q.start) == [] && forall w :: !IsLastWindow(w, s, q)
  {
  }

  lemma {:induction false} StepResultIs(s: seq<FSample>, q: RangeQuery, call: (seq<FSample>, int) -> Option<int>, ts: int,
                                        x: FSample)
    requires Increasing(s)
    ensures x in StepResult(s, q, call, ts) <==> x.t == ts && HasValue(s, q, call, ts, x.v)
  {
    hide Window;
    var lo, hi := ts - q.offset - q.range, ts - q.offset;
    var w := Window(s, lo, hi);
    WindowIs(s, lo, hi);
    if x.t == ts && HasValue(s, q, call, ts, x.v) {
      var u :| IsWindow(u, s, lo, hi) && u != [] && call(u, ts) == Some(x.v);
      IncreasingUnique(u, w);
    }
  }

  lemma {:induction false} ResultsAre(s: seq<FSample>, q: RangeQuery, call: (seq<FSample>, int) -> Option<int>, ts: int)
    requires Increasing(s) && 0 < q.interval
    ensures Increasing(Results(s, q, call, ts))
    ensures forall x :: x in Results(s, q, call, ts) <==> InResult(x, s, q, call, ts)
    decreases q.end - ts
  {
    hide StepResult, HasValue;
    if ts <= q.end {
      var step, rest := StepResult(s, q, call, ts), Results(s, q, call, ts + q.interval);
      ResultsAre(s, q, call, ts + q.interval);
      forall x
        ensures x in step + rest <==> InResult(x, s, q, call, ts)
      {
        StepResultIs(s, q, call, ts, x);
        GoInt.LaterStep(x.t, ts, q.interval);
      }
      StepOnce(s, q, call, ts);
      assert forall i :: 0 <= i < |rest| ==> rest[i] in rest;
      assert forall i :: 0 <= i < |step| ==> step[i] in step && step[i].t == ts by {
        forall i | 0 <= i < |step|
          ensures step[i].t == ts
        {
          StepResultIs(s, q, call, ts, step[i]);
        }
      }
    }
  }

  lemma {:induction false} StepOnce(s: seq<FSample>, q: RangeQuery, call: (seq<FSample>, int) -> Option<int>, ts: int)
    ensures |StepResult(s, q, call, ts)| <= 1
  {
  }

  /** The reference is exactly that. */
  lemma {:induction false} MatrixIs(series: seq<Series>, q: RangeQuery, call: (seq<FSample>, int) -> Option<int>)
    returns (at: seq<int>)
    requires 0 < q.interval && forall i :: 0 <= i < |series| ==> Increasing(series[i].floats)
    ensures IsOutput(Matrix(series, q, call), at, series, q, call)
  {
    hide Results, IsResult;
    if series == [] {
      at := [];
    } else {
      var n := |series| - 1;
      at := MatrixIs(series[..n], q, call);
      var ss := Results(series[n].floats, q, call, q.start);
      assert IsResult(ss, series[n].floats, q, call) by { ResultIs(series[n].floats, q, call); }
      if ss != [] {
        at := at + [n];
      }
    }
  }

  lemma {:induction false} ResultIs(s: seq<FSample>, q: RangeQuery, call: (seq<FSample>, int) -> Option<int>)
    requires 0 < q.interval && Increasing(s)
    ensures IsResult(Results(s, q, call, q.start), s, q, call)
  {
    hide Results, InResult;
    ResultsAre(s, q, call, q.start);
  }

  lemma {:induction false} NothingAtSentinel(s: seq<FSample>)
    requires IsSeries(s)
    ensures Window(s, MIN_INT64, MIN_INT64) == []
  {
    WindowMembers(s, MIN_INT64, MIN_INT64);
    FirstIsMember(Window(s, MIN_INT64, MIN_INT64));
  }

  /** The iterator has not passed maxt, and its buffer starts early enough for a look-back from there. */
  ghost predicate Behind(it: BufferedSeriesIterator, maxt: int)
    reads it, it.buf
  {
    PassedBefore(it.it, maxt) && it.floor <= maxt - it.buf.delta
  }

  lemma {:induction false} KeptIsWindow(s: seq<FSample>, lo: int, hi: int, mint: int)
    requires Increasing(s) && lo <= mint
    ensures DropBefore(Window(s, lo, hi), mint) == Window(s, mint, hi)
  {
    var w := Window(s, lo, hi);
    WindowIncreasing(s, lo, hi);
    WindowIncreasing(s, mint, hi);
    WindowMembers(s, lo, hi);
    WindowMembers(s, mint, hi);
    DropMembers(w, mint);
    IncreasingUnique(DropBefore(w, mint), Window(s, mint, hi));
  }

  /** The buffer holds only passed samples, and all of those that are within delta of maxt. */
  ghost predicate Covers(s: seq<FSample>, contents: seq<FSample>, delta: int, maxt: int) {
    && Increasing(contents)
    && (forall x :: x in contents ==> x in s && x.t < maxt)
    && (forall x :: x in s && maxt - delta <= x.t < maxt ==> x in contents)
  }

  lemma {:induction false} BufferMembers(it: Base<int>, start: int, floor: int, delta: int, contents: seq<FSample>,
                                         maxt: int)
    requires it.Valid() && PassedBefore(it, maxt) && (it.Ok() ==> maxt <= it.At().t)
    requires 0 <= start <= it.pos && floor <= maxt - delta && 0 <= delta
    requires forall k :: 0 <= k < start ==> it.samples[k].t < floor
    requires contents == Reduced(it.samples[start..it.pos], delta)
    ensures Covers(it.samples, contents, delta, maxt)
  {
    hide Reduced;
    var passed := it.samples[start..it.pos];
    assert Increasing(passed);
    ReducedMembers(passed, delta, maxt);
    forall x | x in it.samples && maxt - delta <= x.t < maxt
      ensures x in passed
    {
      InSlice(it.samples, start, it.pos, floor, maxt, x);
    }
    assert forall x :: x in passed ==> x in it.samples;
  }

  lemma {:induction false} ReducedMembers(s: seq<FSample>, delta: int, maxt: int)
    requires Increasing(s) && 0 <= delta && forall i :: 0 <= i < |s| ==> s[i].t < maxt
    ensures Increasing(Reduced(s, delta))
    ensures forall x :: x in Reduced(s, delta) ==> x in s && x.t < maxt
    ensures forall x :: x in s && maxt - delta <= x.t ==> x in Reduced(s, delta)
  {
    hide DropBefore;
    if s != [] {
      DropMembers(s, s[|s| - 1].t - delta);
    }
  }

  lemma {:induction false} InSlice(s: seq<FSample>, start: int, pos: int, floor: int, maxt: int, x: FSample)
    requires Increasing(s) && 0 <= start <= pos <= |s|
    requires forall k :: 0 <= k < start ==> s[k].t < floor
    requires pos < |s| ==> maxt <= s[pos].t
    requires x in s && floor <= x.t < maxt
    ensures x in s[start..pos]
  {
    var i :| 0 <= i < |s| && s[i] == x;
    assert s[start..pos][i - start] == x;
  }

  /** What is kept, what the buffer adds and the sample at maxt are together the new window. */
  lemma {:induction false} SlideWindow(it: Base<int>, delta: int, contents: seq<FSample>, mint: int, hi: int, maxt: int,
                                       from: int)
    requires it.Valid() && PassedBefore(it, maxt) && (it.Ok() ==> maxt <= it.At().t)
    requires Covers(it.samples, contents, delta, maxt)
    requires mint <= maxt && hi < maxt
    requires maxt - delta <= mint || maxt - delta <= hi + 1
    requires var kept := Window(it.samples, mint, hi);
             from == if kept == [] then mint else kept[|kept| - 1].t + 1
    ensures Window(it.samples, mint, maxt) ==
            Window(it.samples, mint, hi) + Window(contents, from, maxt) + SoughtPoint(it, maxt)
  {
    hide Window;
    var s := it.samples;
    var kept, added, last := Window(s, mint, hi), Window(contents, from, maxt), SoughtPoint(it, maxt);
    WindowIncreasing(s, mint, hi);
    WindowIncreasing(s, mint, maxt);
    WindowIncreasing(contents, from, maxt);
    WindowMembers(s, mint, hi);
    WindowMembers(s, mint, maxt);
    WindowMembers(contents, from, maxt);
    assert mint <= from <= hi + 1 || from == mint by { FirstIsMember(kept); assert kept != [] ==> kept[|kept| - 1] in kept; }
    forall x
      ensures x in kept + added + last <==> x in Window(s, mint, maxt)
    {
      SoughtMember(it, maxt, x);
      SlideMember(s, contents, delta, mint, hi, maxt, from, x);
    }
    ThreeParts(kept, added, last, from, maxt);
    IncreasingUnique(kept + added + last, Window(s, mint, maxt));
  }

  /** A sample is in the new window iff it was in the old one, is new and buffered, or lies at the end. */
  lemma {:induction false} SlideMember(s: seq<FSample>, contents: seq<FSample>, delta: int,
                                        mint: int, hi: int, maxt: int, from: int, x: FSample)
    requires Covers(s, contents, delta, maxt) && hi < maxt
    requires maxt - delta <= mint || maxt - delta <= hi + 1
    requires mint <= from <= hi + 1 || from == mint
    ensures x in s && InWindow(x, mint, maxt) <==>
            || (x in s && InWindow(x, mint, hi))
            || (x in contents && InWindow(x, from, maxt))
            || (x in s && x.t == maxt && !IsStaleNaN(x.v) && mint <= maxt)
  {
  }

  lemma {:induction false} ThreeParts(a: seq<FSample>, b: seq<FSample>, c: seq<FSample>, from: int, maxt: int)
    requires Increasing(a) && Increasing(b) && |c| <= 1
    requires a != [] ==> a[|a| - 1].t < from
    requires forall x :: x in b ==> from <= x.t < maxt
    requires c != [] ==> c[0].t == maxt
    requires a != [] ==> a[|a| - 1].t < maxt
    ensures Increasing(a + b + c)
  {
    assert forall i :: 0 <= i < |b| ==> b[i] in b;
  }

  /** The sample the iterator stopped at, when it lies at the end of the window. */
  function SoughtPoint(it: Base<int>, maxt: int): seq<FSample> {
    if it.Ok() && it.At().t == maxt && !IsStaleNaN(it.At().v) then [it.At()] else []
  }

  lemma {:induction false} StartBehind(it: BufferedSeriesIterator, maxt: int)
    requires it.Valid() && it.it.pos == 0 && it.floor == MIN_INT64 <= maxt - it.buf.delta
    ensures Behind(it, maxt)
  {
  }

  lemma {:induction false} OverSeries(it: BufferedSeriesIterator)
    requires it.Valid()
    ensures it.it.Valid() && Increasing(it.it.samples)
  {
  }

  lemma {:induction false} CoversBefore(s: seq<FSample>, contents: seq<FSample>, delta: int, maxt: int)
    requires Covers(s, contents, delta, maxt)
    ensures forall x :: x in contents ==> x.t < maxt
  {
  }

  lemma {:induction false} SoughtMember(it: Base<int>, maxt: int, x: FSample)
    requires it.Valid() && PassedBefore(it, maxt) && (it.Ok() ==> maxt <= it.At().t)
    ensures x in SoughtPoint(it, maxt) <==> x in it.samples && x.t == maxt && !IsStaleNaN(x.v)
  {
    if x in it.samples && x.t == maxt {
      var i :| 0 <= i < |it.samples| && it.samples[i] == x;
      assert i == it.pos;
    }
  }

  lemma {:induction false} WindowEmpty(s: seq<FSample>, lo: int, hi: int)
    ensures Window(s[..0], lo, hi) == []
  {
  }

  lemma {:induction false} WindowSnoc(s: seq<FSample>, k: int, lo: int, hi: int)
    requires 0 <= k < |s|
    ensures Window(s[..k + 1], lo, hi) == Window(s[..k], lo, hi) +
              if InWindow(s[k], lo, hi) then [s[k]] else []
  {
    assert s[..k + 1][..k] == s[..k];
  }

  lemma {:induction false} WindowPrefix(s: seq<FSample>, k: int, lo: int, hi: int)
    requires 0 <= k <= |s|
    ensures |Window(s[..k], lo, hi)| <= |Window(s, lo, hi)|
    decreases |s| - k
  {
    if k < |s| {
      WindowSnoc(s, k, lo, hi);
      WindowPrefix(s, k + 1, lo, hi);
    } else {
      assert s[..k] == s;
    }
  }
}

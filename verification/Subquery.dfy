/**
  promql/engine.go: subqueries.  The inner expression is evaluated once, on a grid of
  multiples of the subquery step that covers all outer steps, and each outer step
  reads its own window of the result.
 */
module Subquery {
  import opened Samples
  import opened GoInt
  import opened RangeWindow

  /** The start of the inner evaluation: the first grid point not before the bound. */
  function AlignedStart(bound: int, interval: int): int
    requires 0 < interval
  {
    var s := interval * Quo(bound, interval);
    if s < bound then s + interval else s
  }

  /** It is the least multiple of the interval that is not below the bound, for negative times as well. */
  lemma {:induction false} AlignedStartIsLeast(bound: int, interval: int, x: int)
    requires 0 < interval
    ensures IsMultiple(AlignedStart(bound, interval), interval)
    ensures bound <= AlignedStart(bound, interval)
    ensures IsMultiple(x, interval) && bound <= x ==> AlignedStart(bound, interval) <= x
  {
    var s := interval * Quo(bound, interval);
    QuoBounds(bound, interval);
    NextMultiple(s, interval);
    var a := AlignedStart(bound, interval);
    assert bound <= a < bound + interval;
    if IsMultiple(x, interval) && bound <= x < a {
      MultiplesApart(x, a, interval);
      assert false;
    }
  }

  /** The points of one series when the inner expression, with value f(t) at time t, is evaluated step by step. */
  function EvalPoints(f: int -> Option<int>, ts: int, end: int, interval: int): seq<FSample>
    requires 0 < interval
    decreases end - ts
  {
    if ts > end then []
    else (match f(ts) case Some(v) => [Sample(ts, v)] case None => []) + EvalPoints(f, ts + interval, end, interval)
  }

  ghost predicate OnGrid(f: int -> Option<int>, x: FSample, start: int, end: int, interval: int)
    requires 0 < interval
  {
    start <= x.t <= end && IsMultiple(x.t, interval) && f(x.t) == Some(x.v)
  }

  lemma {:induction false} EvalPointsMembers(f: int -> Option<int>, ts: int, end: int, interval: int)
    requires 0 < interval && IsMultiple(ts, interval)
    ensures Increasing(EvalPoints(f, ts, end, interval))
    ensures forall x :: x in EvalPoints(f, ts, end, interval) <==> OnGrid(f, x, ts, end, interval)
    decreases end - ts
  {
    if ts <= end {
      var rest := EvalPoints(f, ts + interval, end, interval);
      NextMultiple(ts, interval);
      EvalPointsMembers(f, ts + interval, end, interval);
      assert forall i :: 0 <= i < |rest| ==> rest[i] in rest;
      forall x
        ensures x in EvalPoints(f, ts, end, interval) <==> OnGrid(f, x, ts, end, interval)
      {
        if ts < x.t && IsMultiple(x.t, interval) {
          MultiplesApart(ts, x.t, interval);
        }
        assert x in EvalPoints(f, ts, end, interval) <==> (x.t == ts && f(ts) == Some(x.v)) || x in rest;
      }
    }
  }

  datatype SubqueryExpr = SubqueryExpr(range: int, offset: int, step: int)

  /** What evaluating the subquery over the outer steps start..end leaves for the range function to read. */
  function InnerPoints(f: int -> Option<int>, sq: SubqueryExpr, start: int, end: int): seq<FSample>
    requires 0 < sq.step
  {
    EvalPoints(f, AlignedStart(start - sq.offset - sq.range, sq.step), end - sq.offset, sq.step)
  }

  /** The window of an outer step holds exactly the non-stale points of an instant evaluation at that step. */
  lemma {:induction false} WindowIsInstant(f: int -> Option<int>, sq: SubqueryExpr, start: int, end: int, ts: int)
    requires 0 < sq.step && 0 <= sq.range && start <= ts <= end
    ensures var lo, hi := ts - sq.offset - sq.range, ts - sq.offset;
            Window(InnerPoints(f, sq, start, end), lo, hi) == Window(InnerPoints(f, sq, ts, ts), lo, hi)
    ensures forall x :: x in InnerPoints(f, sq, ts, ts) ==> ts - sq.offset - sq.range <= x.t <= ts - sq.offset
  {
    hide Window, EvalPoints;
    var lo, hi := ts - sq.offset - sq.range, ts - sq.offset;
    var first := AlignedStart(start - sq.offset - sq.range, sq.step);
    var own := AlignedStart(lo, sq.step);
    AlignedStartIsLeast(start - sq.offset - sq.range, sq.step, own);
    AlignedStartIsLeast(lo, sq.step, own);
    EvalPointsMembers(f, first, end - sq.offset, sq.step);
    EvalPointsMembers(f, own, hi, sq.step);
    var all, inst := InnerPoints(f, sq, start, end), InnerPoints(f, sq, ts, ts);
    WindowMembers(all, lo, hi);
    WindowMembers(inst, lo, hi);
    WindowIncreasing(all, lo, hi);
    WindowIncreasing(inst, lo, hi);
    forall x
      ensures x in Window(all, lo, hi) <==> x in Window(inst, lo, hi)
    {
      AlignedStartIsLeast(lo, sq.step, x.t);
    }
    IncreasingUnique(Window(all, lo, hi), Window(inst, lo, hi));
  }

  /**
    A range function over the subquery gives at every outer step what the same query,
    run as an instant query at that step, gives.
   */
  lemma {:induction false} RangeIsInstantAtEachStep(f: int -> Option<int>, sq: SubqueryExpr, q: RangeQuery,
                                                     call: (seq<FSample>, int) -> Option<int>, ts: int)
    requires 0 < sq.step && 0 <= sq.range && q.offset == sq.offset && q.range == sq.range && 0 < q.interval
    requires q.start <= ts <= q.end
    ensures StepResult(InnerPoints(f, sq, q.start, q.end), q, call, ts)
         == Results(InnerPoints(f, sq, ts, ts), q.(start := ts, end := ts), call, ts)
  {
    hide Window, InnerPoints;
    WindowIsInstant(f, sq, q.start, q.end, ts);
    var inst := q.(start := ts, end := ts);
    assert Results(InnerPoints(f, sq, ts, ts), inst, call, ts + q.interval) == [];
  }

  /** The one evaluation has a point at every multiple of the step at which some outer step can read a value. */
  lemma {:induction false} InnerPointsAre(f: int -> Option<int>, sq: SubqueryExpr, start: int, end: int)
    requires 0 < sq.step
    ensures Increasing(InnerPoints(f, sq, start, end))
    ensures forall x :: x in InnerPoints(f, sq, start, end) <==>
      start - sq.offset - sq.range <= x.t <= end - sq.offset && x.t % sq.step == 0 && f(x.t) == Some(x.v)
  {
    hide EvalPoints, AlignedStart;
    var lo := start - sq.offset - sq.range;
    var first := AlignedStart(lo, sq.step);
    AlignedStartIsLeast(lo, sq.step, first);
    EvalPointsMembers(f, first, end - sq.offset, sq.step);
    forall x
      ensures OnGrid(f, x, first, end - sq.offset, sq.step) <==>
        lo <= x.t <= end - sq.offset && x.t % sq.step == 0 && f(x.t) == Some(x.v)
    {
      AlignedStartIsLeast(lo, sq.step, x.t);
    }
  }

  /** w are the values, at multiples of the step in the window of ts, that are not staleness markers. */
  ghost predicate IsInnerWindow(w: seq<FSample>, f: int -> Option<int>, sq: SubqueryExpr, ts: int)
    requires 0 < sq.step
  {
    Increasing(w) && forall x :: x in w <==>
      && ts - sq.offset - sq.range <= x.t <= ts - sq.offset && x.t % sq.step == 0
      && f(x.t) == Some(x.v) && x.v != 0x7ff0_0000_0000_0002
  }

  /**
    What a range function over a subquery gives, on the values of the inner expression: v at a step ts iff it
    gives v there for the values at the multiples of the step in the window of ts, and there are any.
   */
  lemma {:induction false} SubqueryValue(f: int -> Option<int>, sq: SubqueryExpr, q: RangeQuery,
                                         call: (seq<FSample>, int) -> Option<int>, ts: int, v: int)
    requires 0 < sq.step && q.offset == sq.offset && q.range == sq.range && q.start <= ts <= q.end
    ensures HasValue(InnerPoints(f, sq, q.start, q.end), q, call, ts, v) <==>
      exists w :: IsInnerWindow(w, f, sq, ts) && w != [] && call(w, ts) == Some(v)
  {
    hide InnerPoints;
    var all := InnerPoints(f, sq, q.start, q.end);
    InnerPointsAre(f, sq, q.start, q.end);
    forall w
      ensures IsWindow(w, all, ts - q.offset - q.range, ts - q.offset) <==> IsInnerWindow(w, f, sq, ts)
    {
      assert forall x :: x in all && ts - q.offset - q.range <= x.t <= ts - q.offset <==>
        ts - sq.offset - sq.range <= x.t <= ts - sq.offset && x.t % sq.step == 0 && f(x.t) == Some(x.v);
    }
  }
}

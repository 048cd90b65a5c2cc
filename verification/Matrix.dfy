/**
  promql/engine.go: matrices, and the loop of rangeEval that applies a function at every step.
  The order of series carries no meaning here: a vector or a matrix is a map from label sets.
 */
module Matrix {

  import GoInt
  import opened Samples

  /** The value of each series at one time. */
  type Vector = map<int, int>

  /** The points of each series. */
  type Matrix = map<int, seq<FSample>>

  function StepTime(start: int, interval: int, k: int): int {
    start + interval * k
  }

  lemma {:induction false} StepTimeIncreases(start: int, interval: int, j: int, k: int)
    requires 0 < interval && j < k
    ensures StepTime(start, interval, j) < StepTime(start, interval, k)
  {
    GoInt.MulAtLeast(interval, k - j);
    assert interval * k == interval * j + interval * (k - j);
  }

  lemma {:induction false} FirstStep(start: int, interval: int)
    ensures StepTime(start, interval, 0) == start
  {
  }

  // ---------------------------------------------------------------------------
  // Reading a matrix at a time

  function PointAt(p: seq<FSample>, t: int): Option<int> {
    if |p| == 0 then None
    else if p[|p| - 1].t == t then Some(p[|p| - 1].v)
    else PointAt(p[..|p| - 1], t)
  }

  function At(mat: Matrix, t: int): Vector {
    map m | m in mat && PointAt(mat[m], t).Some? :: PointAt(mat[m], t).value
  }

  /** Every series has points, in order, at steps of the evaluation. */
  ghost predicate Shaped(mat: Matrix, start: int, interval: int, n: int) {
    forall m :: m in mat ==> |mat[m]| > 0 && OnSteps(mat[m], start, interval, n)
  }

  ghost predicate OnSteps(p: seq<FSample>, start: int, interval: int, n: int) {
    Increasing(p) && forall i :: 0 <= i < |p| ==> IsStep(p[i].t, start, interval, n)
  }

  ghost predicate IsStep(t: int, start: int, interval: int, n: int) {
    exists k :: 0 <= k < n && t == StepTime(start, interval, k)
  }

  lemma {:induction false} PointAtBefore(p: seq<FSample>, t: int)
    requires forall i :: 0 <= i < |p| ==> p[i].t < t
    ensures PointAt(p, t) == None
  {
    if |p| > 0 {
      PointAtBefore(p[..|p| - 1], t);
    }
  }

  lemma {:induction false} PointAtIndex(p: seq<FSample>, i: int)
    requires Increasing(p) && 0 <= i < |p|
    ensures PointAt(p, p[i].t) == Some(p[i].v)
  {
    if i < |p| - 1 {
      PointAtIndex(p[..|p| - 1], i);
    }
  }

  // ---------------------------------------------------------------------------
  // Building a matrix step by step

  /** The samples of one step go to the end of their series. */
  function Extend(mat: Matrix, v: Vector, t: int): Matrix {
    map m | m in mat.Keys + v.Keys ::
      (if m in mat then mat[m] else []) + (if m in v then [Sample(t, v[m])] else [])
  }

  lemma {:induction false} ExtendShaped(mat: Matrix, v: Vector, start: int, interval: int, n: int)
    requires 0 < interval && 0 <= n && Shaped(mat, start, interval, n)
    ensures Shaped(Extend(mat, v, StepTime(start, interval, n)), start, interval, n + 1)
  {
    var t := StepTime(start, interval, n);
    forall m | m in Extend(mat, v, t)
      ensures |Extend(mat, v, t)[m]| > 0 && OnSteps(Extend(mat, v, t)[m], start, interval, n + 1)
    {
      ExtendSeries(if m in mat then mat[m] else [], if m in v then [Sample(t, v[m])] else [], start, interval, n);
    }
  }

  lemma {:induction false} ExtendSeries(p: seq<FSample>, q: seq<FSample>, start: int, interval: int, n: int)
    requires 0 < interval && 0 <= n && OnSteps(p, start, interval, n)
    requires |q| == 0 || (|q| == 1 && q[0].t == StepTime(start, interval, n))
    ensures OnSteps(p + q, start, interval, n + 1)
  {
    hide StepTime;
    forall i | 0 <= i < |p|
      ensures p[i].t < StepTime(start, interval, n) && IsStep(p[i].t, start, interval, n + 1)
    {
      StepBefore(p[i].t, start, interval, n);
    }
    assert IsStep(StepTime(start, interval, n), start, interval, n + 1);
  }

  lemma {:induction false} StepBefore(t: int, start: int, interval: int, n: int)
    requires 0 < interval && IsStep(t, start, interval, n)
    ensures t < StepTime(start, interval, n) && IsStep(t, start, interval, n + 1)
  {
    hide StepTime;
    var k :| 0 <= k < n && t == StepTime(start, interval, k);
    StepTimeIncreases(start, interval, k, n);
  }

  lemma {:induction false} ExtendAt(mat: Matrix, v: Vector, start: int, interval: int, n: int)
    requires 0 < interval && 0 <= n && Shaped(mat, start, interval, n)
    ensures At(Extend(mat, v, StepTime(start, interval, n)), StepTime(start, interval, n)) == v
  {
    hide StepTime;
    var t := StepTime(start, interval, n);
    forall m | m in Extend(mat, v, t)
      ensures PointAt(Extend(mat, v, t)[m], t) == if m in v then Some(v[m]) else None
    {
      var p := if m in mat then mat[m] else [];
      forall i | 0 <= i < |p|
        ensures p[i].t < t
      {
        StepBefore(p[i].t, start, interval, n);
      }
      PointAtBefore(p, t);
      PointAtSnoc(p, if m in v then [Sample(t, v[m])] else [], t);
    }
  }

  lemma {:induction false} PointAtSnoc(p: seq<FSample>, q: seq<FSample>, t: int)
    requires |q| <= 1
    ensures PointAt(p + q, t) == if |q| == 1 && q[0].t == t then Some(q[0].v) else PointAt(p, t)
  {
    if |q| == 1 {
      assert (p + q)[..|p|] == p;
    } else {
      assert p + q == p;
    }
  }

  lemma {:induction false} ExtendBefore(mat: Matrix, v: Vector, t: int, u: int)
    requires u != t
    ensures At(Extend(mat, v, t), u) == At(mat, u)
  {
    forall m | m in Extend(mat, v, t)
      ensures PointAt(Extend(mat, v, t)[m], u) == if m in mat then PointAt(mat[m], u) else None
    {
      PointAtSnoc(if m in mat then mat[m] else [], if m in v then [Sample(t, v[m])] else [], u);
    }
  }

  // ---------------------------------------------------------------------------
  // rangeEval

  function AtAll(ms: seq<Matrix>, t: int): seq<Vector> {
    seq(|ms|, i requires 0 <= i < |ms| => At(ms[i], t))
  }

  /** A function of the vectors at each step, collected into series; its first error is the result's. */
  function Lift(f: (seq<Vector>, int) -> Option<Vector>, ms: seq<Matrix>, start: int, interval: int, n: int)
    : Option<Matrix>
    decreases n
  {
    if n <= 0 then Some(map[])
    else
      match Lift(f, ms, start, interval, n - 1)
      case None => None
      case Some(mat) =>
        var t := StepTime(start, interval, n - 1);
        match f(AtAll(ms, t), t)
        case None => None
        case Some(v) => Some(Extend(mat, v, t))
  }

  lemma {:induction false} LiftShaped(f: (seq<Vector>, int) -> Option<Vector>, ms: seq<Matrix>,
                                      start: int, interval: int, n: int)
    requires 0 < interval && Lift(f, ms, start, interval, n).Some?
    ensures Shaped(Lift(f, ms, start, interval, n).value, start, interval, n)
    decreases n
  {
    hide Shaped, Extend, AtAll;
    if n <= 0 {
      NothingShaped(start, interval, n);
    } else {
      LiftShaped(f, ms, start, interval, n - 1);
      var t := StepTime(start, interval, n - 1);
      ExtendShaped(Lift(f, ms, start, interval, n - 1).value, f(AtAll(ms, t), t).value, start, interval, n - 1);
    }
  }

  lemma {:induction false} NothingShaped(start: int, interval: int, n: int)
    ensures Shaped(map[], start, interval, n)
  {
  }

  /** At every step the result is what the function gives for that step. */
  lemma {:induction false} LiftAt(f: (seq<Vector>, int) -> Option<Vector>, ms: seq<Matrix>,
                                  start: int, interval: int, n: int, k: int)
    requires 0 < interval && 0 <= k < n && Lift(f, ms, start, interval, n).Some?
    ensures var t := StepTime(start, interval, k);
      f(AtAll(ms, t), t) == Some(At(Lift(f, ms, start, interval, n).value, t))
    decreases n
  {
    hide Shaped, Extend, AtAll, StepTime, At;
    var mat := Lift(f, ms, start, interval, n - 1).value;
    var u := StepTime(start, interval, n - 1);
    var v := f(AtAll(ms, u), u).value;
    LiftShaped(f, ms, start, interval, n - 1);
    if k == n - 1 {
      ExtendAt(mat, v, start, interval, k);
    } else {
      LiftAt(f, ms, start, interval, n - 1, k);
      StepTimeIncreases(start, interval, k, n - 1);
      ExtendBefore(mat, v, u, StepTime(start, interval, k));
    }
  }

  lemma {:induction false} LiftSucceeds(f: (seq<Vector>, int) -> Option<Vector>, ms: seq<Matrix>,
                                        start: int, interval: int, n: int)
    requires forall k :: 0 <= k < n ==>
      f(AtAll(ms, StepTime(start, interval, k)), StepTime(start, interval, k)).Some?
    ensures Lift(f, ms, start, interval, n).Some?
    decreases n
  {
    if n > 0 {
      LiftSucceeds(f, ms, start, interval, n - 1);
    }
  }

  /** The samples at the front of each series that are for this step. */
  function Heads(rest: Matrix, t: int): Vector {
    map m | m in rest && |rest[m]| > 0 && rest[m][0].t == t :: rest[m][0].v
  }

  /** The series moved forward past this step. */
  function Advance(rest: Matrix, t: int): Matrix {
    map m | m in rest :: if |rest[m]| > 0 && rest[m][0].t == t then rest[m][1..] else rest[m]
  }

  /** q is what is left of p from time t on. */
  ghost predicate IsRest(p: seq<FSample>, q: seq<FSample>, t: int) {
    && |q| <= |p| && q == p[|p| - |q|..]
    && (forall i :: 0 <= i < |p| - |q| ==> p[i].t < t)
    && (forall i :: 0 <= i < |q| ==> t <= q[i].t)
  }

  ghost predicate AllRest(mat: Matrix, rest: Matrix, t: int) {
    rest.Keys == mat.Keys && forall m :: m in mat ==> IsRest(mat[m], rest[m], t)
  }

  lemma {:induction false} HeadIsPoint(p: seq<FSample>, q: seq<FSample>, t: int)
    requires Increasing(p) && IsRest(p, q, t)
    ensures PointAt(p, t) == if |q| > 0 && q[0].t == t then Some(q[0].v) else None
  {
    if |q| > 0 && q[0].t == t {
      PointAtIndex(p, |p| - |q|);
    } else {
      forall i | 0 <= i < |p|
        ensures p[i].t != t
      {
        assert i >= |p| - |q| ==> p[i] == q[i - (|p| - |q|)];
        assert |q| > 0 ==> q[0] == p[|p| - |q|];
      }
      PointAtNone(p, t);
    }
  }

  lemma {:induction false} PointAtNone(p: seq<FSample>, t: int)
    requires forall i :: 0 <= i < |p| ==> p[i].t != t
    ensures PointAt(p, t) == None
  {
    if |p| > 0 {
      PointAtNone(p[..|p| - 1], t);
    }
  }

  lemma {:induction false} RestNext(p: seq<FSample>, q: seq<FSample>, start: int, interval: int, n: int, k: int)
    requires 0 < interval && OnSteps(p, start, interval, n) && IsRest(p, q, StepTime(start, interval, k))
    ensures var t := StepTime(start, interval, k);
      IsRest(p, if |q| > 0 && q[0].t == t then q[1..] else q, StepTime(start, interval, k + 1))
  {
    hide StepTime;
    var t, u := StepTime(start, interval, k), StepTime(start, interval, k + 1);
    StepTimeIncreases(start, interval, k, k + 1);
    forall i | 0 <= i < |q|
      ensures q[i].t == t || u <= q[i].t
      ensures i > 0 ==> t < q[i].t
    {
      assert q[i] == p[|p| - |q| + i];
      NoStepBetween(q[i].t, start, interval, n, k);
      assert i > 0 ==> q[0] == p[|p| - |q|];
    }
  }

  lemma {:induction false} NoStepBetween(t: int, start: int, interval: int, n: int, k: int)
    requires 0 < interval && IsStep(t, start, interval, n)
    ensures t <= StepTime(start, interval, k) || StepTime(start, interval, k + 1) <= t
  {
    hide StepTime;
    var j :| 0 <= j < n && t == StepTime(start, interval, j);
    if j < k {
      StepTimeIncreases(start, interval, j, k);
    } else if j > k + 1 {
      StepTimeIncreases(start, interval, k + 1, j);
    }
  }

  lemma {:induction false} HeadsAreAt(mat: Matrix, rest: Matrix, start: int, interval: int, n: int, k: int)
    requires 0 < interval && Shaped(mat, start, interval, n) && AllRest(mat, rest, StepTime(start, interval, k))
    ensures var t := StepTime(start, interval, k);
      Heads(rest, t) == At(mat, t) && AllRest(mat, Advance(rest, t), StepTime(start, interval, k + 1))
  {
    hide StepTime, OnSteps, IsRest, PointAt;
    var t := StepTime(start, interval, k);
    forall m | m in mat
      ensures PointAt(mat[m], t) == if |rest[m]| > 0 && rest[m][0].t == t then Some(rest[m][0].v) else None
      ensures IsRest(mat[m], Advance(rest, t)[m], StepTime(start, interval, k + 1))
    {
      StepsIncrease(mat[m], start, interval, n);
      HeadIsPoint(mat[m], rest[m], t);
      RestNext(mat[m], rest[m], start, interval, n, k);
    }
  }

  lemma {:induction false} StepsIncrease(p: seq<FSample>, start: int, interval: int, n: int)
    requires OnSteps(p, start, interval, n)
    ensures Increasing(p)
  {
  }

  lemma {:induction false} RestAtStart(mat: Matrix, start: int, interval: int, n: int)
    requires 0 < interval && Shaped(mat, start, interval, n)
    ensures AllRest(mat, mat, start)
  {
    hide StepTime;
    forall m, i | m in mat && 0 <= i < |mat[m]|
      ensures start <= mat[m][i].t
    {
      NotBeforeStart(mat[m][i].t, start, interval, n);
    }
  }

  lemma {:induction false} NotBeforeStart(t: int, start: int, interval: int, n: int)
    requires 0 < interval && IsStep(t, start, interval, n)
    ensures start <= t
  {
    hide StepTime;
    var j :| 0 <= j < n && t == StepTime(start, interval, j);
    FirstStep(start, interval);
    if j > 0 {
      StepTimeIncreases(start, interval, 0, j);
    }
  }

  /** rangeEval, with the input series consumed from the front as the steps pass. */
  method RangeEval(f: (seq<Vector>, int) -> Option<Vector>, ms: seq<Matrix>, start: int, interval: int, n: int)
    returns (r: Option<Matrix>)
    requires 0 < interval && 0 <= n && forall i :: 0 <= i < |ms| ==> Shaped(ms[i], start, interval, n)
    ensures r == Lift(f, ms, start, interval, n)
  {
    hide Shaped, AllRest, StepTime, Extend;
    var rest, mat, k, ts := ms, map[], 0, start;
    FirstStep(start, interval);
    forall i | 0 <= i < |ms|
      ensures AllRest(ms[i], rest[i], ts)
    {
      RestAtStart(ms[i], start, interval, n);
    }
    while k < n
      invariant 0 <= k <= n && ts == StepTime(start, interval, k) && |rest| == |ms|
      invariant forall i :: 0 <= i < |ms| ==> AllRest(ms[i], rest[i], ts)
      invariant Lift(f, ms, start, interval, k) == Some(mat)
    {
      var vectors := seq(|ms|, i requires 0 <= i < |ms| => Heads(rest[i], ts));
      var moved := seq(|ms|, i requires 0 <= i < |ms| => Advance(rest[i], ts));
      forall i | 0 <= i < |ms|
        ensures vectors[i] == At(ms[i], ts) && AllRest(ms[i], moved[i], StepTime(start, interval, k + 1))
      {
        HeadsAreAt(ms[i], rest[i], start, interval, n, k);
      }
      assert vectors == AtAll(ms, ts);
      var v := f(vectors, ts);
      LiftNext(f, ms, start, interval, k);
      NextStep(start, interval, k);
      if v.None? {
        LiftFails(f, ms, start, interval, k + 1, n);
        return None;
      }
      mat, rest, k, ts := Extend(mat, v.value, ts), moved, k + 1, ts + interval;
    }
    return Some(mat);
  }

  lemma {:induction false} NextStep(start: int, interval: int, k: int)
    ensures StepTime(start, interval, k + 1) == StepTime(start, interval, k) + interval
  {
  }

  lemma {:induction false} LiftNext(f: (seq<Vector>, int) -> Option<Vector>, ms: seq<Matrix>,
                                    start: int, interval: int, k: int)
    requires 0 <= k && Lift(f, ms, start, interval, k).Some?
    ensures var t := StepTime(start, interval, k); var v := f(AtAll(ms, t), t);
      Lift(f, ms, start, interval, k + 1)
        == if v.None? then None else Some(Extend(Lift(f, ms, start, interval, k).value, v.value, t))
  {
  }

  lemma {:induction false} LiftFails(f: (seq<Vector>, int) -> Option<Vector>, ms: seq<Matrix>,
                                     start: int, interval: int, k: int, n: int)
    requires k <= n && Lift(f, ms, start, interval, k) == None
    ensures Lift(f, ms, start, interval, n) == None
    decreases n
  {
    if k < n {
      LiftFails(f, ms, start, interval, k, n - 1);
    }
  }
}

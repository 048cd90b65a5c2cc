/**
  promql/engine.go: eval over the steps of a range query. Whatever the tree, the matrix it gives holds at
  every step what a single evaluation at that step gives, and there is a matrix exactly when every step
  has a value and no two label sets, of any two steps, become one where names are dropped.
 */
module AtModifierSteps {

  import opened Samples
  import opened Matrix
  import opened AtModifier

  // ---------------------------------------------------------------------------
  // One step of a tree as it stands

  /** The value at time t; what is wrapped is evaluated at the start. */
  ghost function Sem(env: Env, e: Expr, start: int, t: int): Option<Vector>
    decreases e, 0
  {
    match e
    case Number(v) => Some(map[NO_LABELS := v])
    case Instant(s) => Some(env.select(s.id, t - s.offset))
    case Paren(x) => Sem(env, x, start, t)
    case Unary(minus, x) =>
      var r := Sem(env, x, start, t);
      if minus && r.Some? then Rename(NegateVector(r.value, env), env.dropName) else r
    case Binary(op, l, r) =>
      var a, b := Sem(env, l, start, t), Sem(env, r, start, t);
      if a.None? || b.None? then None else env.binop(op, a.value, b.value)
    case Call(fn, args) =>
      var vs := SemArgs(env, args, start, t);
      if vs.None? then None else env.call(fn, vs.value, t)
    case RangeCall(fn, s, range, args) =>
      var r := SemRange(env, fn, s, range, args, start, t);
      if r.None? then None else Rename(r.value, Strip(env, fn))
    case TimestampOf(s) => Some(env.stamp(s.id, StampTime(s, t)))
    case Aggregate(op, None, x) =>
      var a := Sem(env, x, start, t);
      if a.None? then None else env.aggregate(op, None, a.value)
    case Aggregate(op, Some(param), x) =>
      var p, a := Sem(env, param, start, t), Sem(env, x, start, t);
      if p.None? || a.None? then None else env.aggregate(op, p, a.value)
    case StepInvariant(x) => Sem(env, x, start, start)
  }

  ghost function SemArgs(env: Env, args: Exprs, start: int, t: int): Option<seq<Vector>>
    decreases args, 0
  {
    match args
    case Nil => Some([])
    case Cons(x, rest) =>
      var a, vs := Sem(env, x, start, t), SemArgs(env, rest, start, t);
      if a.None? || vs.None? then None else Some([a.value] + vs.value)
  }

  /** The results of a range function, by input series. */
  ghost function SemRange(env: Env, fn: Function, s: Selector, range: int, args: Exprs, start: int, t: int)
    : Option<Vector>
    decreases args, 1
  {
    var vs := SemArgs(env, args, start, t);
    if vs.None? then None else env.callRange(fn, Window(s.id, range, t - s.offset), vs.value, t)
  }

  function StampTime(s: Selector, t: int): int {
    t - (if s.timestamp.Some? then t - s.timestamp.value else s.offset)
  }

  ghost function SemSteps(env: Env, e: Expr, start: int, interval: int, n: nat): seq<Option<Vector>> {
    seq(n, k requires 0 <= k < n => Sem(env, e, start, StepTime(start, interval, k)))
  }

  ghost function RangeSteps(env: Env, fn: Function, s: Selector, range: int, args: Exprs,
                            start: int, interval: int, n: nat): seq<Option<Vector>>
  {
    seq(n, k requires 0 <= k < n => SemRange(env, fn, s, range, args, start, StepTime(start, interval, k)))
  }

  // ---------------------------------------------------------------------------
  // Label sets over all steps

  ghost predicate Seen(vs: seq<Option<Vector>>, a: int) {
    exists k :: 0 <= k < |vs| && vs[k].Some? && a in vs[k].value
  }

  /** No two label sets, of any two steps, become one. */
  ghost predicate Apart(vs: seq<Option<Vector>>, strip: int -> int) {
    forall a, b :: Seen(vs, a) && Seen(vs, b) && a != b ==> strip(a) != strip(b)
  }

  ghost predicate AllSome(vs: seq<Option<Vector>>) {
    forall k :: 0 <= k < |vs| ==> vs[k].Some?
  }

  /** The label sets are apart wherever the engine drops names from a whole matrix. */
  ghost predicate ClashFree(env: Env, e: Expr, start: int, interval: int, n: nat)
    decreases e
  {
    match e
    case Number(_) => true
    case Instant(_) => true
    case Paren(x) => ClashFree(env, x, start, interval, n)
    case Unary(minus, x) =>
      ClashFree(env, x, start, interval, n) && (minus ==> Apart(SemSteps(env, x, start, interval, n), env.dropName))
    case Binary(_, l, r) => ClashFree(env, l, start, interval, n) && ClashFree(env, r, start, interval, n)
    case Call(_, args) => ArgsClashFree(env, args, start, interval, n)
    case RangeCall(fn, s, range, args) =>
      && ArgsClashFree(env, args, start, interval, n)
      && Apart(RangeSteps(env, fn, s, range, args, start, interval, n), Strip(env, fn))
    case TimestampOf(_) => true
    case Aggregate(_, param, x) =>
      && (param.Some? ==> ClashFree(env, param.value, start, interval, n))
      && ClashFree(env, x, start, interval, n)
    case StepInvariant(x) => ClashFree(env, x, start, interval, 1)
  }

  ghost predicate ArgsClashFree(env: Env, args: Exprs, start: int, interval: int, n: nat)
    decreases args
  {
    match args
    case Nil => true
    case Cons(x, rest) => ClashFree(env, x, start, interval, n) && ArgsClashFree(env, rest, start, interval, n)
  }

  ghost function MatSteps(mat: Matrix, start: int, interval: int, n: nat): seq<Option<Vector>> {
    seq(n, k requires 0 <= k < n => Some(At(mat, StepTime(start, interval, k))))
  }

  /** The series of a matrix are the label sets of its steps. */
  lemma {:induction false} MatrixLabels(mat: Matrix, start: int, interval: int, n: nat, a: int)
    requires Shaped(mat, start, interval, n)
    ensures a in mat <==> Seen(MatSteps(mat, start, interval, n), a)
  {
    hide StepTime, PointAt;
    if a in mat {
      var p := mat[a];
      assert IsStep(p[0].t, start, interval, n);
      var k :| 0 <= k < n && p[0].t == StepTime(start, interval, k);
      PointAtIndex(p, 0);
      assert MatSteps(mat, start, interval, n)[k] == Some(At(mat, p[0].t));
    }
  }

  lemma {:induction false} CollidesIff(mat: Matrix, strip: int -> int, start: int, interval: int, n: nat)
    requires Shaped(mat, start, interval, n)
    ensures Collides(mat, strip) <==> !Apart(MatSteps(mat, start, interval, n), strip)
  {
    hide Seen, Shaped, MatSteps;
    forall a
      ensures a in mat <==> Seen(MatSteps(mat, start, interval, n), a)
    {
      MatrixLabels(mat, start, interval, n, a);
    }
  }

  // ---------------------------------------------------------------------------
  // Renaming, negating and copying a matrix

  lemma {:induction false} StrippedIs<T>(m: map<int, T>, strip: int -> int, a: int)
    requires !Collides(m, strip) && a in m
    ensures strip(a) in Stripped(m, strip) && Stripped(m, strip)[strip(a)] == m[a]
  {
  }

  lemma {:induction false} StrippedFrom<T>(m: map<int, T>, strip: int -> int, s: int) returns (a: int)
    requires s in Stripped(m, strip)
    ensures a in m && strip(a) == s
  {
    a :| a in m && strip(a) == s;
  }

  /** Without a collision in the whole matrix there is none at any step, and renaming commutes with reading. */
  lemma {:induction false} RenameAt(mat: Matrix, strip: int -> int, t: int)
    requires !Collides(mat, strip)
    ensures !Collides(At(mat, t), strip)
    ensures At(Stripped(mat, strip), t) == Stripped(At(mat, t), strip)
  {
    hide PointAt, Stripped;
    var l, r := At(Stripped(mat, strip), t), Stripped(At(mat, t), strip);
    assert !Collides(At(mat, t), strip);
    forall s | s in l
      ensures s in r && r[s] == l[s]
    {
      var a := StrippedFrom(mat, strip, s);
      StrippedIs(mat, strip, a);
      StrippedIs(At(mat, t), strip, a);
    }
    forall s | s in r
      ensures s in l
    {
      var a := StrippedFrom(At(mat, t), strip, s);
      StrippedIs(mat, strip, a);
    }
  }

  lemma {:induction false} RenameShaped(mat: Matrix, strip: int -> int, start: int, interval: int, n: int)
    requires Shaped(mat, start, interval, n) && !Collides(mat, strip)
    ensures Shaped(Stripped(mat, strip), start, interval, n)
  {
    hide OnSteps, Stripped, Collides;
    forall s | s in Stripped(mat, strip)
      ensures |Stripped(mat, strip)[s]| > 0 && OnSteps(Stripped(mat, strip)[s], start, interval, n)
    {
      var a := StrippedFrom(mat, strip, s);
      StrippedIs(mat, strip, a);
    }
  }

  lemma {:induction false} NegatePoint(p: seq<FSample>, env: Env, t: int)
    ensures PointAt(NegatePoints(p, env), t)
         == if PointAt(p, t).None? then None else Some(env.negate(PointAt(p, t).value))
  {
    if |p| > 0 {
      NegatePoint(p[..|p| - 1], env, t);
      assert NegatePoints(p, env)[..|p| - 1] == NegatePoints(p[..|p| - 1], env);
    }
  }

  lemma {:induction false} NegateAt(mat: Matrix, env: Env, t: int)
    ensures At(NegateMatrix(mat, env), t) == NegateVector(At(mat, t), env)
  {
    hide PointAt, NegatePoints;
    forall m | m in mat
      ensures PointAt(NegateMatrix(mat, env)[m], t)
           == if PointAt(mat[m], t).None? then None else Some(env.negate(PointAt(mat[m], t).value))
    {
      NegatePoint(mat[m], env, t);
    }
  }

  lemma {:induction false} NegateShaped(mat: Matrix, env: Env, start: int, interval: int, n: int)
    requires Shaped(mat, start, interval, n)
    ensures Shaped(NegateMatrix(mat, env), start, interval, n)
  {
    hide IsStep;
  }

  /** A series evaluated at one step has one point, at the start. */
  lemma {:induction false} OnePoint(p: seq<FSample>, start: int, interval: int)
    requires OnSteps(p, start, interval, 1) && |p| > 0
    ensures |p| == 1 && p[0].t == start
  {
    FirstStep(start, interval);
    assert IsStep(p[0].t, start, interval, 1);
    assert |p| > 1 ==> IsStep(p[1].t, start, interval, 1);
  }

  /** So the copying never panics, and each step holds what the one evaluation gave. */
  lemma {:induction false} CopiedAgrees(mat: Matrix, start: int, interval: int, n: int)
    requires 0 < interval && Shaped(mat, start, interval, 1)
    ensures Copied(mat, start, interval, n).Some?
    ensures 0 < n ==> Shaped(Copied(mat, start, interval, n).value, start, interval, n)
    ensures forall k :: 0 <= k < n ==>
      At(Copied(mat, start, interval, n).value, StepTime(start, interval, k)) == At(mat, start)
  {
    hide StepTime, OnSteps, Repeated;
    forall m | m in mat
      ensures |mat[m]| == 1 && mat[m][0].t == start
      ensures 0 < n ==> |Repeated(mat[m], start, interval, n)| > 0
      ensures OnSteps(Repeated(mat[m], start, interval, n), start, interval, n)
    {
      OnePoint(mat[m], start, interval);
      RepeatedShaped(mat[m], start, interval, n);
    }
    forall k | 0 <= k < n
      ensures At(Copied(mat, start, interval, n).value, StepTime(start, interval, k)) == At(mat, start)
    {
      CopiedAt(mat, start, interval, n, k);
    }
  }

  lemma {:induction false} RepeatedShaped(p: seq<FSample>, start: int, interval: int, n: int)
    requires 0 < interval && |p| > 0
    ensures |Repeated(p, start, interval, n)| == if n < 0 then 0 else n
    ensures OnSteps(Repeated(p, start, interval, n), start, interval, n)
  {
    hide StepTime;
    var r := Repeated(p, start, interval, n);
    forall i, j | 0 <= i < j < |r|
      ensures r[i].t < r[j].t
    {
      StepTimeIncreases(start, interval, i, j);
    }
  }

  lemma {:induction false} CopiedAt(mat: Matrix, start: int, interval: int, n: int, k: int)
    requires 0 < interval && 0 <= k < n
    requires forall m :: m in mat ==> |mat[m]| == 1 && mat[m][0].t == start
    ensures At(Copied(mat, start, interval, n).value, StepTime(start, interval, k)) == At(mat, start)
  {
    hide StepTime, OnSteps;
    forall m | m in mat
      ensures PointAt(Repeated(mat[m], start, interval, n), StepTime(start, interval, k)) == Some(mat[m][0].v)
      ensures PointAt(mat[m], start) == Some(mat[m][0].v)
    {
      RepeatedShaped(mat[m], start, interval, n);
      StepsIncrease(Repeated(mat[m], start, interval, n), start, interval, n);
      PointAtIndex(Repeated(mat[m], start, interval, n), k);
    }
  }

  // ---------------------------------------------------------------------------
  // The evaluation of each kind of node

  /** The matrix holds the values of the steps; there is one iff all steps have one and nothing clashes. */
  ghost predicate Right(env: Env, r: Option<Matrix>, e: Expr, start: int, interval: int, n: nat) {
    && (r.Some? ==> Holds(r.value, SemSteps(env, e, start, interval, n), start, interval))
    && (r.Some? <==> AllSome(SemSteps(env, e, start, interval, n)) && ClashFree(env, e, start, interval, n))
  }

  ghost predicate Holds(mat: Matrix, vs: seq<Option<Vector>>, start: int, interval: int) {
    Shaped(mat, start, interval, |vs|) && MatSteps(mat, start, interval, |vs|) == vs
  }

  ghost predicate StepsAgree(f: (seq<Vector>, int) -> Option<Vector>, ms: seq<Matrix>, vs: seq<Option<Vector>>,
                             start: int, interval: int)
  {
    forall k :: 0 <= k < |vs| ==>
      f(AtAll(ms, StepTime(start, interval, k)), StepTime(start, interval, k)) == vs[k]
  }

  lemma {:induction false} LiftHolds(f: (seq<Vector>, int) -> Option<Vector>, ms: seq<Matrix>, vs: seq<Option<Vector>>,
                                     start: int, interval: int)
    requires 0 < interval && StepsAgree(f, ms, vs, start, interval)
    ensures var r := Lift(f, ms, start, interval, |vs|);
      (r.Some? ==> Holds(r.value, vs, start, interval)) && (r.Some? <==> AllSome(vs))
  {
    hide StepTime, AtAll, At, Shaped, Lift;
    var r := Lift(f, ms, start, interval, |vs|);
    if r.Some? {
      LiftShaped(f, ms, start, interval, |vs|);
      forall k | 0 <= k < |vs|
        ensures MatSteps(r.value, start, interval, |vs|)[k] == vs[k]
      {
        LiftAt(f, ms, start, interval, |vs|, k);
      }
    }
    if AllSome(vs) {
      LiftSucceeds(f, ms, start, interval, |vs|);
    }
  }

  /** A leaf: a function of the time alone. */
  lemma {:induction false} LeafRight(env: Env, f: (seq<Vector>, int) -> Option<Vector>, e: Expr,
                                     start: int, interval: int, n: nat)
    requires 0 < interval && (e.Number? || e.Instant? || e.TimestampOf?)
    requires forall vs, t :: f(vs, t) == Sem(env, e, start, t)
    ensures Right(env, Lift(f, [], start, interval, n), e, start, interval, n)
  {
    hide StepTime, Lift, Sem, AtAll, Holds;
    var vs := SemSteps(env, e, start, interval, n);
    assert StepsAgree(f, [], vs, start, interval);
    LiftHolds(f, [], vs, start, interval);
  }

  lemma {:induction false} SemAt(env: Env, e: Expr, start: int, interval: int, n: nat, k: int, mat: Matrix)
    requires Holds(mat, SemSteps(env, e, start, interval, n), start, interval) && 0 <= k < n
    ensures Sem(env, e, start, StepTime(start, interval, k)) == Some(At(mat, StepTime(start, interval, k)))
  {
    hide Sem, At, Shaped, StepTime;
    assert SemSteps(env, e, start, interval, n)[k] == MatSteps(mat, start, interval, n)[k];
  }

  lemma {:induction false} UnaryRight(env: Env, minus: bool, r: Option<Matrix>, x: Expr,
                                      start: int, interval: int, n: nat)
    requires 0 < interval && Right(env, r, x, start, interval, n)
    ensures Right(env, if minus && r.Some? then Rename(NegateMatrix(r.value, env), env.dropName) else r,
                  Unary(minus, x), start, interval, n)
  {
    hide StepTime, At, Shaped, Stripped, Collides, NegateMatrix, NegateVector, Apart, Holds;
    var vs, ws := SemSteps(env, x, start, interval, n), SemSteps(env, Unary(minus, x), start, interval, n);
    assert forall k :: 0 <= k < n ==> (ws[k].Some? ==> vs[k].Some?);
    if !minus {
      assert vs == ws;
    } else if r.Some? {
      var mat := NegateMatrix(r.value, env);
      HoldsParts(r.value, vs, start, interval);
      NegateLabels(r.value, env, start, interval, n);
      CollidesIff(mat, env.dropName, start, interval, n);
      if !Collides(mat, env.dropName) {
        UnaryHolds(env, r.value, x, start, interval, n);
      }
    }
  }

  lemma {:induction false} NegateLabels(mat: Matrix, env: Env, start: int, interval: int, n: nat)
    requires Shaped(mat, start, interval, n)
    ensures Shaped(NegateMatrix(mat, env), start, interval, n)
    ensures Apart(MatSteps(NegateMatrix(mat, env), start, interval, n), env.dropName)
       <==> Apart(MatSteps(mat, start, interval, n), env.dropName)
  {
    NegateShaped(mat, env, start, interval, n);
    hide Shaped, MatSteps, Seen, NegatePoints;
    forall a
      ensures Seen(MatSteps(NegateMatrix(mat, env), start, interval, n), a) <==> Seen(MatSteps(mat, start, interval, n), a)
    {
      MatrixLabels(mat, start, interval, n, a);
      MatrixLabels(NegateMatrix(mat, env), start, interval, n, a);
    }
  }

  lemma {:induction false} UnaryHolds(env: Env, mat: Matrix, x: Expr, start: int, interval: int, n: nat)
    requires Holds(mat, SemSteps(env, x, start, interval, n), start, interval)
    requires !Collides(NegateMatrix(mat, env), env.dropName)
    ensures var ws := SemSteps(env, Unary(true, x), start, interval, n);
      AllSome(ws) && Holds(Stripped(NegateMatrix(mat, env), env.dropName), ws, start, interval)
  {
    hide StepTime, At, Shaped, Stripped, Collides, NegateMatrix, NegateVector, Holds;
    HoldsParts(mat, SemSteps(env, x, start, interval, n), start, interval);
    var neg, ws := NegateMatrix(mat, env), SemSteps(env, Unary(true, x), start, interval, n);
    NegateShaped(mat, env, start, interval, n);
    RenameShaped(neg, env.dropName, start, interval, n);
    forall k | 0 <= k < n
      ensures ws[k] == Some(At(Stripped(neg, env.dropName), StepTime(start, interval, k)))
    {
      SemAt(env, x, start, interval, n, k, mat);
      NegateAt(mat, env, StepTime(start, interval, k));
      RenameAt(neg, env.dropName, StepTime(start, interval, k));
    }
    HoldsWhole(Stripped(neg, env.dropName), ws, start, interval);
  }

  lemma {:induction false} HoldsParts(mat: Matrix, vs: seq<Option<Vector>>, start: int, interval: int)
    requires Holds(mat, vs, start, interval)
    ensures Shaped(mat, start, interval, |vs|) && MatSteps(mat, start, interval, |vs|) == vs
  {
  }

  lemma {:induction false} HoldsWhole(mat: Matrix, vs: seq<Option<Vector>>, start: int, interval: int)
    requires Shaped(mat, start, interval, |vs|)
    requires forall k :: 0 <= k < |vs| ==> vs[k] == Some(At(mat, StepTime(start, interval, k)))
    ensures Holds(mat, vs, start, interval)
  {
    hide Shaped, At, StepTime;
  }

  lemma {:induction false} AtBoth(a: Matrix, b: Matrix, t: int)
    ensures AtAll([a, b], t) == [At(a, t), At(b, t)] && AtAll([a], t) == [At(a, t)]
  {
  }

  /** A node over two others: a function of their values at each step. */
  ghost function Joined(f: (seq<Vector>, int) -> Option<Vector>, v: Option<Vector>, w: Option<Vector>, t: int)
    : Option<Vector>
  {
    if v.None? || w.None? then None else f([v.value, w.value], t)
  }

  ghost predicate IsJoin(env: Env, f: (seq<Vector>, int) -> Option<Vector>, e: Expr, l: Expr, r: Expr, start: int) {
    forall t :: Sem(env, e, start, t) == Joined(f, Sem(env, l, start, t), Sem(env, r, start, t), t)
  }

  lemma {:induction false} JoinSucceeds(env: Env, f: (seq<Vector>, int) -> Option<Vector>, e: Expr, l: Expr, r: Expr,
                                        start: int, interval: int, n: nat)
    requires IsJoin(env, f, e, l, r, start) && AllSome(SemSteps(env, e, start, interval, n))
    ensures AllSome(SemSteps(env, l, start, interval, n)) && AllSome(SemSteps(env, r, start, interval, n))
  {
    hide Sem, StepTime;
    forall k | 0 <= k < n
      ensures SemSteps(env, l, start, interval, n)[k].Some? && SemSteps(env, r, start, interval, n)[k].Some?
    {
      assert SemSteps(env, e, start, interval, n)[k] == Sem(env, e, start, StepTime(start, interval, k));
    }
  }

  lemma {:induction false} JoinAgrees(env: Env, f: (seq<Vector>, int) -> Option<Vector>, e: Expr,
                                      a: Matrix, l: Expr, b: Matrix, r: Expr, start: int, interval: int, n: nat)
    requires IsJoin(env, f, e, l, r, start)
    requires Holds(a, SemSteps(env, l, start, interval, n), start, interval)
    requires Holds(b, SemSteps(env, r, start, interval, n), start, interval)
    ensures StepsAgree(f, [a, b], SemSteps(env, e, start, interval, n), start, interval)
  {
    hide StepTime, At, Sem, Holds, AtAll;
    forall k | 0 <= k < n
      ensures f(AtAll([a, b], StepTime(start, interval, k)), StepTime(start, interval, k))
           == SemSteps(env, e, start, interval, n)[k]
    {
      AtBoth(a, b, StepTime(start, interval, k));
      SemAt(env, l, start, interval, n, k, a);
      SemAt(env, r, start, interval, n, k, b);
    }
  }

  lemma {:induction false} TwoRight(env: Env, f: (seq<Vector>, int) -> Option<Vector>, e: Expr,
                                    a: Option<Matrix>, l: Expr, b: Option<Matrix>, r: Expr,
                                    start: int, interval: int, n: nat)
    requires 0 < interval && Right(env, a, l, start, interval, n) && Right(env, b, r, start, interval, n)
    requires IsJoin(env, f, e, l, r, start)
    requires ClashFree(env, e, start, interval, n)
        <==> (ClashFree(env, l, start, interval, n) && ClashFree(env, r, start, interval, n))
    ensures Right(env, if a.None? || b.None? then None else Lift(f, [a.value, b.value], start, interval, n),
                  e, start, interval, n)
  {
    hide Lift, Sem, ClashFree, Holds, SemSteps, AllSome, IsJoin, StepsAgree;
    var vs := SemSteps(env, e, start, interval, n);
    StepCount(env, e, start, interval, n);
    if AllSome(vs) {
      JoinSucceeds(env, f, e, l, r, start, interval, n);
    }
    if a.Some? && b.Some? {
      JoinAgrees(env, f, e, a.value, l, b.value, r, start, interval, n);
      LiftHolds(f, [a.value, b.value], vs, start, interval);
    }
  }

  lemma {:induction false} StepCount(env: Env, e: Expr, start: int, interval: int, n: nat)
    ensures |SemSteps(env, e, start, interval, n)| == n
  {
  }

  lemma {:induction false} OneRight(env: Env, f: (seq<Vector>, int) -> Option<Vector>, e: Expr,
                                    a: Option<Matrix>, x: Expr, start: int, interval: int, n: nat)
    requires 0 < interval && Right(env, a, x, start, interval, n)
    requires ClashFree(env, e, start, interval, n) <==> ClashFree(env, x, start, interval, n)
    requires forall t :: Sem(env, e, start, t)
                      == if Sem(env, x, start, t).None? then None else f([Sem(env, x, start, t).value], t)
    ensures Right(env, if a.None? then None else Lift(f, [a.value], start, interval, n), e, start, interval, n)
  {
    hide StepTime, At, Shaped, Lift, Sem, ClashFree, Holds, AtAll;
    var vs := SemSteps(env, e, start, interval, n);
    assert forall k :: 0 <= k < n ==> (vs[k].Some? ==> SemSteps(env, x, start, interval, n)[k].Some?);
    if a.Some? {
      forall k | 0 <= k < n
        ensures f(AtAll([a.value], StepTime(start, interval, k)), StepTime(start, interval, k)) == vs[k]
      {
        AtBoth(a.value, a.value, StepTime(start, interval, k));
        SemAt(env, x, start, interval, n, k, a.value);
      }
      LiftHolds(f, [a.value], vs, start, interval);
    }
  }

  /** The same for a list of arguments. */
  ghost predicate RightArgs(env: Env, r: Option<seq<Matrix>>, args: Exprs, start: int, interval: int, n: nat) {
    && (r.Some? ==> forall k :: 0 <= k < n ==>
          SemArgs(env, args, start, StepTime(start, interval, k)) == Some(AtAll(r.value, StepTime(start, interval, k))))
    && (r.Some? <==> ArgsSucceed(env, args, start, interval, n) && ArgsClashFree(env, args, start, interval, n))
  }

  ghost predicate ArgsSucceed(env: Env, args: Exprs, start: int, interval: int, n: nat) {
    forall k :: 0 <= k < n ==> SemArgs(env, args, start, StepTime(start, interval, k)).Some?
  }

  lemma {:induction false} NilRight(env: Env, start: int, interval: int, n: nat)
    ensures RightArgs(env, Some([]), Nil, start, interval, n)
  {
    assert forall t :: AtAll([], t) == [];
  }

  lemma {:induction false} ConsRight(env: Env, a: Option<Matrix>, x: Expr, ms: Option<seq<Matrix>>, rest: Exprs,
                                     start: int, interval: int, n: nat)
    requires Right(env, a, x, start, interval, n) && RightArgs(env, ms, rest, start, interval, n)
    ensures RightArgs(env, if a.None? || ms.None? then None else Some([a.value] + ms.value),
                      Cons(x, rest), start, interval, n)
  {
    hide StepTime, At, Shaped, Sem, ClashFree, Holds, AtAll;
    ConsSucceeds(env, x, rest, start, interval, n);
    if a.Some? && ms.Some? {
      forall k | 0 <= k < n
        ensures SemArgs(env, Cons(x, rest), start, StepTime(start, interval, k))
             == Some(AtAll([a.value] + ms.value, StepTime(start, interval, k)))
      {
        SemAt(env, x, start, interval, n, k, a.value);
        AtCons(a.value, ms.value, StepTime(start, interval, k));
      }
    }
  }

  lemma {:induction false} AtCons(a: Matrix, ms: seq<Matrix>, t: int)
    ensures AtAll([a] + ms, t) == [At(a, t)] + AtAll(ms, t)
  {
  }

  lemma {:induction false} ConsSucceeds(env: Env, x: Expr, rest: Exprs, start: int, interval: int, n: nat)
    ensures ArgsSucceed(env, Cons(x, rest), start, interval, n)
       <==> (AllSome(SemSteps(env, x, start, interval, n)) && ArgsSucceed(env, rest, start, interval, n))
  {
    hide StepTime, Sem;
    var vs := SemSteps(env, x, start, interval, n);
    assert forall k :: 0 <= k < n ==> vs[k] == Sem(env, x, start, StepTime(start, interval, k));
    assert forall t ::
        SemArgs(env, Cons(x, rest), start, t).Some?
        <==> (Sem(env, x, start, t).Some? && SemArgs(env, rest, start, t).Some?);
  }

  lemma {:induction false} CallRight(env: Env, fn: Function, ms: Option<seq<Matrix>>, args: Exprs,
                                     start: int, interval: int, n: nat)
    requires 0 < interval && RightArgs(env, ms, args, start, interval, n)
    ensures Right(env, if ms.None? then None else Lift(CallStep(env, fn), ms.value, start, interval, n),
                  Call(fn, args), start, interval, n)
  {
    hide StepTime, AtAll, Lift, Holds, SemArgs;
    var vs := SemSteps(env, Call(fn, args), start, interval, n);
    assert forall k :: 0 <= k < n ==>
      (vs[k].Some? ==> SemArgs(env, args, start, StepTime(start, interval, k)).Some?);
    if ms.Some? {
      assert StepsAgree(CallStep(env, fn), ms.value, vs, start, interval);
      LiftHolds(CallStep(env, fn), ms.value, vs, start, interval);
    }
  }

  ghost function RangeResult(env: Env, fn: Function, s: Selector, range: int, ms: Option<seq<Matrix>>,
                             start: int, interval: int, n: int): Option<Matrix>
  {
    if ms.None? then None
    else
      var r := Lift(RangeStep(env, fn, s, range), ms.value, start, interval, n);
      if r.None? then None else Rename(r.value, Strip(env, fn))
  }

  lemma {:induction false} RangeStepIs(env: Env, fn: Function, s: Selector, range: int, vs: seq<Vector>, t: int)
    ensures RangeStep(env, fn, s, range)(vs, t) == env.callRange(fn, Window(s.id, range, t - s.offset), vs, t)
  {
  }

  /** Before names are dropped the matrix of a range call holds the results by input series. */
  lemma {:induction false} RangeHolds(env: Env, fn: Function, s: Selector, range: int, ms: seq<Matrix>, args: Exprs,
                                      start: int, interval: int, n: nat)
    requires 0 < interval && RightArgs(env, Some(ms), args, start, interval, n)
    ensures var r, ws := Lift(RangeStep(env, fn, s, range), ms, start, interval, n),
                         RangeSteps(env, fn, s, range, args, start, interval, n);
      (r.Some? ==> Holds(r.value, ws, start, interval)) && (r.Some? <==> AllSome(ws))
  {
    hide StepTime, AtAll, Lift, Holds, SemArgs, RangeStep;
    var ws := RangeSteps(env, fn, s, range, args, start, interval, n);
    forall k | 0 <= k < n
      ensures RangeStep(env, fn, s, range)(AtAll(ms, StepTime(start, interval, k)), StepTime(start, interval, k)) == ws[k]
    {
      RangeStepIs(env, fn, s, range, AtAll(ms, StepTime(start, interval, k)), StepTime(start, interval, k));
    }
    LiftHolds(RangeStep(env, fn, s, range), ms, ws, start, interval);
  }

  lemma {:induction false} RangeRight(env: Env, fn: Function, s: Selector, range: int, ms: Option<seq<Matrix>>,
                                      args: Exprs, start: int, interval: int, n: nat)
    requires 0 < interval && RightArgs(env, ms, args, start, interval, n)
    ensures Right(env, RangeResult(env, fn, s, range, ms, start, interval, n),
                  RangeCall(fn, s, range, args), start, interval, n)
  {
    hide StepTime, Lift, Holds, SemArgs, SemRange, Stripped, Collides, Apart, Strip, RangeStep, RightArgs;
    var ws := RangeSteps(env, fn, s, range, args, start, interval, n);
    var vs := SemSteps(env, RangeCall(fn, s, range, args), start, interval, n);
    assert forall k :: 0 <= k < n ==> (vs[k].Some? ==> ws[k].Some?);
    RangeNeedsArgs(env, fn, s, range, ms, args, start, interval, n);
    if ms.Some? {
      RangeHolds(env, fn, s, range, ms.value, args, start, interval, n);
      var r := Lift(RangeStep(env, fn, s, range), ms.value, start, interval, n);
      if r.Some? {
        HoldsParts(r.value, ws, start, interval);
        CollidesIff(r.value, Strip(env, fn), start, interval, n);
        if !Collides(r.value, Strip(env, fn)) {
          RangeRenamed(env, fn, s, range, args, r.value, start, interval, n);
        }
      }
    }
  }

  lemma {:induction false} RangeNeedsArgs(env: Env, fn: Function, s: Selector, range: int, ms: Option<seq<Matrix>>,
                                          args: Exprs, start: int, interval: int, n: nat)
    requires RightArgs(env, ms, args, start, interval, n)
    ensures ms.Some? ==> ArgsClashFree(env, args, start, interval, n)
    ensures AllSome(RangeSteps(env, fn, s, range, args, start, interval, n)) ==>
      ArgsClashFree(env, args, start, interval, n) ==> ms.Some?
  {
    hide StepTime, SemArgs, AtAll;
    var ws := RangeSteps(env, fn, s, range, args, start, interval, n);
    assert forall k :: 0 <= k < n ==>
      (ws[k].Some? ==> SemArgs(env, args, start, StepTime(start, interval, k)).Some?);
  }

  lemma {:induction false} RangeRenamed(env: Env, fn: Function, s: Selector, range: int, args: Exprs, mat: Matrix,
                                        start: int, interval: int, n: nat)
    requires Holds(mat, RangeSteps(env, fn, s, range, args, start, interval, n), start, interval)
    requires !Collides(mat, Strip(env, fn))
    ensures var vs := SemSteps(env, RangeCall(fn, s, range, args), start, interval, n);
      AllSome(vs) && Holds(Stripped(mat, Strip(env, fn)), vs, start, interval)
  {
    hide StepTime, Holds, SemArgs, SemRange, Stripped, Collides, Strip, At, Shaped;
    var ws := RangeSteps(env, fn, s, range, args, start, interval, n);
    var vs := SemSteps(env, RangeCall(fn, s, range, args), start, interval, n);
    HoldsParts(mat, ws, start, interval);
    RenameShaped(mat, Strip(env, fn), start, interval, n);
    forall k | 0 <= k < n
      ensures vs[k] == Some(At(Stripped(mat, Strip(env, fn)), StepTime(start, interval, k)))
    {
      assert ws[k] == MatSteps(mat, start, interval, n)[k];
      RenameAt(mat, Strip(env, fn), StepTime(start, interval, k));
    }
    HoldsWhole(Stripped(mat, Strip(env, fn)), vs, start, interval);
  }

  /** One evaluation at the start, copied to every step. */
  lemma {:induction false} CopyRight(env: Env, r: Option<Matrix>, x: Expr, start: int, interval: int, n: nat)
    requires 0 < interval && 0 < n && Right(env, r, x, start, interval, 1)
    ensures Right(env, if r.None? then None else Copied(r.value, start, interval, n),
                  StepInvariant(x), start, interval, n)
  {
    hide StepTime, At, Shaped, Copied, Holds;
    var v, vs := SemSteps(env, x, start, interval, 1), SemSteps(env, StepInvariant(x), start, interval, n);
    FirstStep(start, interval);
    assert v[0] == Sem(env, x, start, start);
    assert forall k :: 0 <= k < n ==> vs[k] == v[0];
    assert vs[0] == v[0];
    if r.Some? {
      HoldsParts(r.value, v, start, interval);
      assert v[0] == MatSteps(r.value, start, interval, 1)[0] == Some(At(r.value, start));
      CopiedAgrees(r.value, start, interval, n);
      HoldsWhole(Copied(r.value, start, interval, n).value, vs, start, interval);
    }
  }

  /** Every tree, over every number of steps. */
  lemma {:induction false} EvalIsSem(env: Env, e: Expr, start: int, interval: int, n: nat)
    requires 0 < interval && 0 < n
    ensures Right(env, Eval(env, e, start, interval, n), e, start, interval, n)
    decreases e
  {
    hide Right, RightArgs, Lift, Rename, NegateMatrix, SemArgs, SemRange, Strip, Copied, RangeStep, CallStep;
    match e
    case Number(v) => LeafRight(env, NumberStep(v), e, start, interval, n);
    case Instant(s) => LeafRight(env, InstantStep(env, s), e, start, interval, n);
    case TimestampOf(s) => LeafRight(env, TimestampStep(env, s), e, start, interval, n);
    case Paren(x) =>
      EvalIsSem(env, x, start, interval, n);
      ParenRight(env, Eval(env, x, start, interval, n), x, start, interval, n);
    case Unary(minus, x) =>
      EvalIsSem(env, x, start, interval, n);
      UnaryRight(env, minus, Eval(env, x, start, interval, n), x, start, interval, n);
    case Binary(op, l, r) =>
      EvalIsSem(env, l, start, interval, n);
      EvalIsSem(env, r, start, interval, n);
      TwoRight(env, BinaryStep(env, op), e, Eval(env, l, start, interval, n), l,
               Eval(env, r, start, interval, n), r, start, interval, n);
    case Call(fn, args) =>
      ArgsAreSem(env, args, start, interval, n);
      CallRight(env, fn, EvalArgs(env, args, start, interval, n), args, start, interval, n);
    case RangeCall(fn, s, range, args) =>
      ArgsAreSem(env, args, start, interval, n);
      RangeRight(env, fn, s, range, EvalArgs(env, args, start, interval, n), args, start, interval, n);
    case Aggregate(op, None, x) =>
      EvalIsSem(env, x, start, interval, n);
      OneRight(env, AggregateStep(env, op), e, Eval(env, x, start, interval, n), x, start, interval, n);
    case Aggregate(op, Some(p), x) =>
      EvalIsSem(env, p, start, interval, n);
      EvalIsSem(env, x, start, interval, n);
      TwoRight(env, AggregateStep(env, op), e, Eval(env, p, start, interval, n), p,
               Eval(env, x, start, interval, n), x, start, interval, n);
    case StepInvariant(x) =>
      if x.Number? {
        EvalIsSem(env, x, start, interval, n);
        WrappedNumber(env, Eval(env, x, start, interval, n), x, start, interval, n);
      } else {
        EvalIsSem(env, x, start, interval, 1);
        CopyRight(env, Eval(env, x, start, interval, 1), x, start, interval, n);
      }
  }

  lemma {:induction false} ArgsAreSem(env: Env, args: Exprs, start: int, interval: int, n: nat)
    requires 0 < interval && 0 < n
    ensures RightArgs(env, EvalArgs(env, args, start, interval, n), args, start, interval, n)
    decreases args
  {
    hide Right, RightArgs, Eval;
    match args
    case Nil => NilRight(env, start, interval, n);
    case Cons(x, rest) =>
      EvalIsSem(env, x, start, interval, n);
      ArgsAreSem(env, rest, start, interval, n);
      ConsRight(env, Eval(env, x, start, interval, n), x, EvalArgs(env, rest, start, interval, n), rest,
                start, interval, n);
  }

  lemma {:induction false} ParenRight(env: Env, r: Option<Matrix>, x: Expr, start: int, interval: int, n: nat)
    requires Right(env, r, x, start, interval, n)
    ensures Right(env, r, Paren(x), start, interval, n)
  {
    hide StepTime, Holds;
    assert SemSteps(env, Paren(x), start, interval, n) == SemSteps(env, x, start, interval, n);
  }

  lemma {:induction false} WrappedNumber(env: Env, r: Option<Matrix>, x: Expr, start: int, interval: int, n: nat)
    requires x.Number? && Right(env, r, x, start, interval, n)
    ensures Right(env, r, StepInvariant(x), start, interval, n)
  {
    hide StepTime, Holds;
    forall t
      ensures Sem(env, StepInvariant(x), start, t) == Sem(env, x, start, t)
    {
      assert Sem(env, x, start, t) == Some(map[NO_LABELS := x.v]) == Sem(env, x, start, start);
    }
    assert ClashFree(env, x, start, interval, n) && ClashFree(env, x, start, interval, 1);
    assert SemSteps(env, StepInvariant(x), start, interval, n) == SemSteps(env, x, start, interval, n);
  }
}

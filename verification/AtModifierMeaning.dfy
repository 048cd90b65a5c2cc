/**
  The @ modifier: one step of the preprocessed tree has the meaning of the reference at that step, for
  every expression that is covered. With what is known of steps, the whole query has it too.
 */
module AtModifierMeaning {

  import opened Samples
  import opened Matrix
  import opened AtModifier
  import opened AtModifierSteps

  // ---------------------------------------------------------------------------
  // Where selectors are read

  /** The step at which something evaluated once, or at every step, is evaluated. */
  function EvalTime(once: bool, q: Query, interval: int, k: int): int {
    if once then q.start else StepTime(q.start, interval, k)
  }

  function Prepared(s: Selector, visited: bool, q: Query): Selector {
    Shift(if visited then Resolve(s, q) else s, q.start)
  }

  lemma {:induction false} PreparedIs(s: Selector, visited: bool, q: Query)
    ensures Prepared(s, visited, q).id == s.id
    ensures Prepared(s, visited, q).timestamp == (if visited then Resolve(s, q) else s).timestamp
  {
  }

  /** At the first step, what is unresolved has to be the start. */
  lemma {:induction false} ReadsAtStart(s: Selector, visited: bool, q: Query)
    ensures q.start - Prepared(s, visited, q).offset == When(s, q, q.start) - s.originalOffset
       <==> (visited || AtStartOf(s, q) == When(s, q, q.start))
  {
  }

  /** At a later step, the selector has to move with the step iff it has no @. */
  lemma {:induction false} ReadsLater(s: Selector, visited: bool, once: bool, q: Query, t: int)
    requires visited || AtStartOf(s, q) == When(s, q, q.start)
    ensures (if once then q.start else t) - Prepared(s, visited, q).offset == When(s, q, t) - s.originalOffset
       <==> (t == q.start || Pinned(s) == once)
  {
  }

  /** ReadsRight is exactly being read right at every step. */
  lemma {:induction false} ReadsRightIff(s: Selector, visited: bool, once: bool, q: Query, interval: int, n: int)
    requires 0 < interval && 0 < n
    ensures ReadsRight(s, visited, once, q, n) <==>
      forall k :: 0 <= k < n ==> ReadAt(s, visited, once, q, interval, k)
  {
    hide StepTime, Prepared, When;
    FirstStep(q.start, interval);
    ReadsAtStart(s, visited, q);
    assert ReadAt(s, visited, once, q, interval, 0) <==> (visited || AtStartOf(s, q) == When(s, q, q.start));
    if visited || AtStartOf(s, q) == When(s, q, q.start) {
      forall k | 0 < k < n
        ensures ReadAt(s, visited, once, q, interval, k) <==> Pinned(s) == once
      {
        StepTimeIncreases(q.start, interval, 0, k);
        ReadsLater(s, visited, once, q, StepTime(q.start, interval, k));
      }
      assert n > 1 ==> (ReadAt(s, visited, once, q, interval, 1) <==> Pinned(s) == once);
    }
  }

  ghost predicate ReadAt(s: Selector, visited: bool, once: bool, q: Query, interval: int, k: int) {
    EvalTime(once, q, interval, k) - Prepared(s, visited, q).offset
    == When(s, q, StepTime(q.start, interval, k)) - s.originalOffset
  }

  /** The same for timestamp(). */
  ghost predicate StampAt(s: Selector, visited: bool, once: bool, q: Query, interval: int, k: int) {
    StampTime(Prepared(s, visited, q), EvalTime(once, q, interval, k))
    == When(s, q, StepTime(q.start, interval, k)) - s.originalOffset
  }

  lemma {:induction false} StampRightIff(s: Selector, visited: bool, once: bool, q: Query, interval: int, n: int)
    requires 0 < interval && 0 < n
    ensures StampRight(s, visited, once, q, n) <==>
      forall k :: 0 <= k < n ==> StampAt(s, visited, once, q, interval, k)
  {
    var s' := if visited then Resolve(s, q) else s;
    PreparedIs(s, visited, q);
    if s'.timestamp.Some? {
      hide StepTime;
      var right := s'.timestamp.value == When(s, q, q.start) - s.originalOffset;
      assert forall k :: StampAt(s, visited, once, q, interval, k) <==> right;
      assert StampAt(s, visited, once, q, interval, 0) <==> right;
    } else {
      hide StepTime, EvalTime, Prepared, When, ReadsRight, Resolve;
      ReadsRightIff(s, visited, once, q, interval, n);
      assert forall k :: StampAt(s, visited, once, q, interval, k) <==> ReadAt(s, visited, once, q, interval, k);
    }
  }

  // ---------------------------------------------------------------------------
  // One step of what is not preprocessed

  lemma {:induction false} SafeCall(env: Env, fn: Function, vs: seq<Vector>, t: int, u: int)
    requires SafeEnv(env) && !Unsafe(fn)
    ensures env.call(fn, vs, t) == env.call(fn, vs, u)
  {
    assert fn == Other(fn.name);
  }

  lemma {:induction false} SafeRange(env: Env, fn: Function, w: Window, vs: seq<Vector>, t: int, u: int)
    requires SafeEnv(env) && !Unsafe(fn)
    ensures env.callRange(fn, w, vs, t) == env.callRange(fn, w, vs, u)
  {
    assert fn == Other(fn.name);
  }

  /** The results of a range function in the reference, by input series. */
  ghost function RefRange(env: Env, fn: Function, s: Selector, range: int, args: Exprs, q: Query, t: int): Option<Vector> {
    var vs := RefArgs(env, args, q, t);
    if vs.None? then None
    else env.callRange(fn, Window(s.id, range, When(s, q, t) - s.originalOffset), vs.value, t)
  }

  /** A call, evaluated once or at every step, on arguments that are right. */
  lemma {:induction false} CallSem(env: Env, fn: Function, args: Exprs, args': Exprs, once: bool,
                                   q: Query, interval: int, k: int)
    requires SafeEnv(env) && (once && Unsafe(fn) ==> k == 0)
    requires SemArgs(env, args', q.start, EvalTime(once, q, interval, k))
          == RefArgs(env, args, q, StepTime(q.start, interval, k))
    ensures Sem(env, Call(fn, args'), q.start, EvalTime(once, q, interval, k))
         == Ref(env, Call(fn, args), q, StepTime(q.start, interval, k))
  {
    hide SafeEnv, Unsafe, StepTime, SemArgs, RefArgs;
    FirstStep(q.start, interval);
    var t, u := StepTime(q.start, interval, k), EvalTime(once, q, interval, k);
    var vs := RefArgs(env, args, q, t);
    if vs.Some? && t != u {
      SafeCall(env, fn, vs.value, u, t);
    }
  }

  lemma {:induction false} RangeSem(env: Env, fn: Function, s: Selector, range: int, args: Exprs, args': Exprs,
                                    visited: bool, once: bool, q: Query, interval: int, k: int)
    requires SafeEnv(env) && (once && Unsafe(fn) ==> k == 0) && ReadAt(s, visited, once, q, interval, k)
    requires SemArgs(env, args', q.start, EvalTime(once, q, interval, k))
          == RefArgs(env, args, q, StepTime(q.start, interval, k))
    ensures SemRange(env, fn, Prepared(s, visited, q), range, args', q.start, EvalTime(once, q, interval, k))
         == RefRange(env, fn, s, range, args, q, StepTime(q.start, interval, k))
    ensures Sem(env, RangeCall(fn, Prepared(s, visited, q), range, args'), q.start, EvalTime(once, q, interval, k))
         == Ref(env, RangeCall(fn, s, range, args), q, StepTime(q.start, interval, k))
  {
    hide SafeEnv, Unsafe, StepTime, SemArgs, RefArgs, Prepared, When, Rename;
    FirstStep(q.start, interval);
    PreparedIs(s, visited, q);
    var t, u := StepTime(q.start, interval, k), EvalTime(once, q, interval, k);
    var vs := RefArgs(env, args, q, t);
    if vs.Some? && t != u {
      SafeRange(env, fn, Window(s.id, range, When(s, q, t) - s.originalOffset), vs.value, u, t);
    }
  }

  /** What is bare, at one step. */
  lemma {:induction false} BareSem(env: Env, e: Expr, once: bool, q: Query, interval: int, n: int, k: int)
    requires SafeEnv(env) && 0 < interval && 0 <= k < n && Bare(e, once, q, n)
    ensures Sem(env, SetOffset(e, q.start), q.start, EvalTime(once, q, interval, k))
         == Ref(env, e, q, StepTime(q.start, interval, k))
    decreases e
  {
    hide SafeEnv, Unsafe, StepTime, EvalTime, ReadsRight, StampRight, When, Shift, Rename, SemArgs, RefArgs, SemRange;
    match e
    case Number(_) =>
    case Instant(s) =>
      ReadsRightIff(s, false, once, q, interval, n);
      PreparedIs(s, false, q);
      assert ReadAt(s, false, once, q, interval, k);
    case Paren(x) => BareSem(env, x, once, q, interval, n, k);
    case Unary(_, x) => BareSem(env, x, once, q, interval, n, k);
    case Binary(_, l, r) =>
      BareSem(env, l, once, q, interval, n, k);
      BareSem(env, r, once, q, interval, n, k);
    case Call(fn, args) =>
      BareArgsSem(env, args, once, q, interval, n, k);
      CallSem(env, fn, args, SetOffsets(args, q.start), once, q, interval, k);
    case RangeCall(fn, s, range, args) =>
      BareArgsSem(env, args, once, q, interval, n, k);
      ReadsRightIff(s, false, once, q, interval, n);
      RangeSem(env, fn, s, range, args, SetOffsets(args, q.start), false, once, q, interval, k);
    case TimestampOf(s) =>
      StampRightIff(s, false, once, q, interval, n);
      PreparedIs(s, false, q);
      assert StampAt(s, false, once, q, interval, k);
    case Aggregate(_, param, x) =>
      BareSem(env, x, once, q, interval, n, k);
      if param.Some? {
        BareSem(env, param.value, once, q, interval, n, k);
      }
  }

  lemma {:induction false} BareArgsSem(env: Env, args: Exprs, once: bool, q: Query, interval: int, n: int, k: int)
    requires SafeEnv(env) && 0 < interval && 0 <= k < n && AllBare(args, once, q, n)
    ensures SemArgs(env, SetOffsets(args, q.start), q.start, EvalTime(once, q, interval, k))
         == RefArgs(env, args, q, StepTime(q.start, interval, k))
    decreases args
  {
    hide SafeEnv, StepTime, EvalTime;
    if args.Cons? {
      BareSem(env, args.head, once, q, interval, n, k);
      BareArgsSem(env, args.tail, once, q, interval, n, k);
    }
  }

  // ---------------------------------------------------------------------------
  // One step of what is preprocessed

  lemma {:induction false} PinnedInvariant(s: Selector, q: Query)
    ensures Resolve(s, q).timestamp.Some? <==> Pinned(s)
  {
  }

  /** A covered expression as the pass leaves it, evaluated once if it is invariant. */
  lemma {:induction false} CoveredSem(env: Env, e: Expr, q: Query, interval: int, n: int, k: int)
    requires SafeEnv(env) && 0 < interval && 0 <= k < n && Covered(e, q, n)
    ensures Sem(env, SetOffset(Helper(e, q).e, q.start), q.start, EvalTime(Helper(e, q).inv, q, interval, k))
         == Ref(env, e, q, StepTime(q.start, interval, k))
    decreases e, 0
  {
    hide SafeEnv, Unsafe, StepTime, EvalTime, ReadsRight, StampRight, When, Shift, Resolve, Rename;
    hide SemArgs, RefArgs, SemRange, Bare;
    match e
    case Number(_) =>
    case Instant(s) =>
      PinnedInvariant(s, q);
      InstantReads(s, q, interval, n, k);
      PreparedIs(s, true, q);
    case Paren(x) => CoveredSem(env, x, q, interval, n, k);
    case Unary(_, x) => CoveredSem(env, x, q, interval, n, k);
    case Binary(op, l, r) => CoveredBinary(env, op, l, r, q, interval, n, k);
    case Call(fn, args) =>
      CoveredArgs(env, args, q, interval, n, k, Helper(e, q).inv);
      CallSem(env, fn, args, TreeArgs(args, q, Helper(e, q).inv), Helper(e, q).inv, q, interval, k);
    case RangeCall(fn, s, range, args) =>
      CoveredArgs(env, args, q, interval, n, k, Helper(e, q).inv);
      ReadsRightIff(s, true, Helper(e, q).inv, q, interval, n);
      RangeSem(env, fn, s, range, args, TreeArgs(args, q, Helper(e, q).inv), true, Helper(e, q).inv, q, interval, k);
    case TimestampOf(s) =>
      StampRightIff(s, true, false, q, interval, n);
      PreparedIs(s, true, q);
      assert StampAt(s, true, false, q, interval, k);
    case Aggregate(_, param, x) =>
      CoveredSem(env, x, q, interval, n, k);
      if param.Some? {
        BareSem(env, param.value, Helper(x, q).inv, q, interval, n, k);
      }
  }

  lemma {:induction false} InstantReads(s: Selector, q: Query, interval: int, n: int, k: int)
    requires 0 < interval && 0 <= k < n
    ensures ReadAt(s, true, Pinned(s), q, interval, k)
  {
    hide StepTime, EvalTime, Prepared, When, ReadAt;
    ReadsRightIff(s, true, Pinned(s), q, interval, n);
  }

  lemma {:induction false} CoveredBinary(env: Env, op: int, l: Expr, r: Expr, q: Query, interval: int, n: int, k: int)
    requires SafeEnv(env) && 0 < interval && 0 <= k < n && Covered(l, q, n) && Covered(r, q, n)
    ensures var e := Binary(op, l, r);
      Sem(env, SetOffset(Helper(e, q).e, q.start), q.start, EvalTime(Helper(e, q).inv, q, interval, k))
      == Ref(env, e, q, StepTime(q.start, interval, k))
    decreases Binary(op, l, r), 0, 0
  {
    hide SafeEnv, Unsafe, StepTime, Covered;
    if Helper(l, q).inv && Helper(r, q).inv {
      CoveredSem(env, l, q, interval, n, k);
      CoveredSem(env, r, q, interval, n, k);
    } else {
      CoveredWrapped(env, l, q, interval, n, k);
      CoveredWrapped(env, r, q, interval, n, k);
    }
  }

  /** What the pass finds invariant has one value for all steps. */
  lemma {:induction false} InvariantHasOneValue(env: Env, e: Expr, q: Query, interval: int, n: int, j: int, k: int)
    requires SafeEnv(env) && 0 < interval && 0 <= j < n && 0 <= k < n && Covered(e, q, n) && Helper(e, q).inv
    ensures Ref(env, e, q, StepTime(q.start, interval, j)) == Ref(env, e, q, StepTime(q.start, interval, k))
  {
    hide SafeEnv, Covered, Helper, StepTime, Ref, Sem;
    CoveredSem(env, e, q, interval, n, j);
    CoveredSem(env, e, q, interval, n, k);
  }

  /** Where it may be wrapped it is right at every step. */
  lemma {:induction false} CoveredWrapped(env: Env, e: Expr, q: Query, interval: int, n: int, k: int)
    requires SafeEnv(env) && 0 < interval && 0 <= k < n && Covered(e, q, n)
    ensures Sem(env, SetOffset(Wrapped(Helper(e, q)), q.start), q.start, StepTime(q.start, interval, k))
         == Ref(env, e, q, StepTime(q.start, interval, k))
    decreases e, 1
  {
    hide SafeEnv, Covered, StepTime, Helper, Ref;
    CoveredSem(env, e, q, interval, n, k);
  }

  function TreeArgs(args: Exprs, q: Query, plain: bool): Exprs {
    SetOffsets(if plain then HelperArgs(args, q).plain else HelperArgs(args, q).wrapped, q.start)
  }

  lemma {:induction false} CoveredArgs(env: Env, args: Exprs, q: Query, interval: int, n: int, k: int, plain: bool)
    requires SafeEnv(env) && 0 < interval && 0 <= k < n && AllCovered(args, q, n)
    requires plain ==> HelperArgs(args, q).inv
    ensures SemArgs(env, TreeArgs(args, q, plain), q.start, EvalTime(plain, q, interval, k))
         == RefArgs(env, args, q, StepTime(q.start, interval, k))
    decreases args, 0
  {
    hide SafeEnv, StepTime, Covered, Sem, Ref, Helper, Wrapped;
    if args.Cons? {
      CoveredArgs(env, args.tail, q, interval, n, k, plain);
      if plain {
        CoveredSem(env, args.head, q, interval, n, k);
      } else {
        CoveredWrapped(env, args.head, q, interval, n, k);
      }
    }
  }

  // ---------------------------------------------------------------------------
  // Label sets of different steps

  ghost function RefSteps(env: Env, e: Expr, q: Query, interval: int, n: nat): seq<Option<Vector>> {
    seq(n, k requires 0 <= k < n => Ref(env, e, q, StepTime(q.start, interval, k)))
  }

  ghost function RefRangeSteps(env: Env, fn: Function, s: Selector, range: int, args: Exprs,
                               q: Query, interval: int, n: nat): seq<Option<Vector>>
  {
    seq(n, k requires 0 <= k < n => RefRange(env, fn, s, range, args, q, StepTime(q.start, interval, k)))
  }

  /** In the reference, no two label sets of any two steps become one under a negation or a range call. */
  ghost predicate NoClash(env: Env, e: Expr, q: Query, interval: int, n: nat)
    decreases e
  {
    match e
    case Number(_) => true
    case Instant(_) => true
    case Paren(x) => NoClash(env, x, q, interval, n)
    case Unary(minus, x) =>
      NoClash(env, x, q, interval, n) && (minus ==> Apart(RefSteps(env, x, q, interval, n), env.dropName))
    case Binary(_, l, r) => NoClash(env, l, q, interval, n) && NoClash(env, r, q, interval, n)
    case Call(_, args) => NoArgsClash(env, args, q, interval, n)
    case RangeCall(fn, s, range, args) =>
      && NoArgsClash(env, args, q, interval, n)
      && Apart(RefRangeSteps(env, fn, s, range, args, q, interval, n), Strip(env, fn))
    case TimestampOf(_) => true
    case Aggregate(_, param, x) =>
      && (param.Some? ==> NoClash(env, param.value, q, interval, n))
      && NoClash(env, x, q, interval, n)
    case StepInvariant(x) => NoClash(env, x, q, interval, n)
  }

  ghost predicate NoArgsClash(env: Env, args: Exprs, q: Query, interval: int, n: nat)
    decreases args
  {
    match args
    case Nil => true
    case Cons(x, rest) => NoClash(env, x, q, interval, n) && NoArgsClash(env, rest, q, interval, n)
  }

  /** How many steps something is evaluated at. */
  function Count(once: bool, n: nat): nat {
    if once then 1 else n
  }

  /** Evaluated once, the label sets are those of every step. */
  lemma {:induction false} ApartSame(vs: seq<Option<Vector>>, ws: seq<Option<Vector>>, once: bool, strip: int -> int)
    requires |ws| > 0 && |vs| == Count(once, |ws|)
    requires forall k :: 0 <= k < |ws| ==> ws[k] == vs[if once then 0 else k]
    ensures Apart(vs, strip) <==> Apart(ws, strip)
  {
    forall a
      ensures Seen(vs, a) <==> Seen(ws, a)
    {
      if Seen(vs, a) {
        var k :| 0 <= k < |vs| && vs[k].Some? && a in vs[k].value;
        assert ws[k] == vs[k];
      }
    }
  }

  lemma {:induction false} SameSteps(env: Env, x: Expr, x': Expr, once: bool, q: Query, interval: int, n: nat,
                                     strip: int -> int)
    requires 0 < n
    requires forall k :: 0 <= k < n ==>
      Sem(env, x', q.start, EvalTime(once, q, interval, k)) == Ref(env, x, q, StepTime(q.start, interval, k))
    ensures Apart(SemSteps(env, x', q.start, interval, Count(once, n)), strip)
       <==> Apart(RefSteps(env, x, q, interval, n), strip)
  {
    hide StepTime, Sem, Ref, Apart;
    FirstStep(q.start, interval);
    var vs, ws := SemSteps(env, x', q.start, interval, Count(once, n)), RefSteps(env, x, q, interval, n);
    forall k | 0 <= k < n
      ensures ws[k] == vs[if once then 0 else k]
    {
    }
    ApartSame(vs, ws, once, strip);
  }

  lemma {:induction false} SameRangeSteps(env: Env, fn: Function, s: Selector, s': Selector, range: int,
                                          args: Exprs, args': Exprs, once: bool, q: Query, interval: int, n: nat)
    requires 0 < n
    requires forall k :: 0 <= k < n ==>
      SemRange(env, fn, s', range, args', q.start, EvalTime(once, q, interval, k))
      == RefRange(env, fn, s, range, args, q, StepTime(q.start, interval, k))
    ensures Apart(RangeSteps(env, fn, s', range, args', q.start, interval, Count(once, n)), Strip(env, fn))
       <==> Apart(RefRangeSteps(env, fn, s, range, args, q, interval, n), Strip(env, fn))
  {
    hide StepTime, SemRange, RefRange, Apart;
    FirstStep(q.start, interval);
    var vs := RangeSteps(env, fn, s', range, args', q.start, interval, Count(once, n));
    var ws := RefRangeSteps(env, fn, s, range, args, q, interval, n);
    forall k | 0 <= k < n
      ensures ws[k] == vs[if once then 0 else k]
    {
    }
    ApartSame(vs, ws, once, Strip(env, fn));
  }

  lemma {:induction false} BareClash(env: Env, e: Expr, once: bool, q: Query, interval: int, n: nat)
    requires SafeEnv(env) && 0 < interval && 0 < n && Bare(e, once, q, n)
    ensures ClashFree(env, SetOffset(e, q.start), q.start, interval, Count(once, n)) <==> NoClash(env, e, q, interval, n)
    decreases e
  {
    hide SafeEnv, Unsafe, StepTime, EvalTime, ReadsRight, StampRight, When, Shift, Apart, SemSteps, RefSteps, Count;
    hide RangeSteps, RefRangeSteps, Strip;
    match e
    case Number(_) =>
    case Instant(_) =>
    case TimestampOf(_) =>
    case Paren(x) => BareClash(env, x, once, q, interval, n);
    case Unary(_, x) =>
      BareClash(env, x, once, q, interval, n);
      forall k | 0 <= k < n
        ensures Sem(env, SetOffset(x, q.start), q.start, EvalTime(once, q, interval, k))
             == Ref(env, x, q, StepTime(q.start, interval, k))
      {
        BareSem(env, x, once, q, interval, n, k);
      }
      SameSteps(env, x, SetOffset(x, q.start), once, q, interval, n, env.dropName);
    case Binary(_, l, r) =>
      BareClash(env, l, once, q, interval, n);
      BareClash(env, r, once, q, interval, n);
    case Call(_, args) => BareArgsClash(env, args, once, q, interval, n);
    case RangeCall(fn, s, range, args) =>
      BareArgsClash(env, args, once, q, interval, n);
      BareRangeClash(env, fn, s, range, args, once, q, interval, n);
    case Aggregate(_, param, x) =>
      BareClash(env, x, once, q, interval, n);
      if param.Some? {
        BareClash(env, param.value, once, q, interval, n);
      }
  }

  lemma {:induction false} BareRangeClash(env: Env, fn: Function, s: Selector, range: int, args: Exprs, once: bool,
                                          q: Query, interval: int, n: nat)
    requires SafeEnv(env) && 0 < interval && 0 < n && Bare(RangeCall(fn, s, range, args), once, q, n)
    ensures Apart(RangeSteps(env, fn, Shift(s, q.start), range, SetOffsets(args, q.start), q.start, interval,
                             Count(once, n)),
                  Strip(env, fn))
       <==> Apart(RefRangeSteps(env, fn, s, range, args, q, interval, n), Strip(env, fn))
  {
    hide SafeEnv, Unsafe, StepTime, EvalTime, ReadsRight, When, Apart, Strip, SemRange, RefRange, AllBare, Count;
    hide SemArgs, RefArgs, Shift;
    var s', args' := Prepared(s, false, q), SetOffsets(args, q.start);
    ReadsRightIff(s, false, once, q, interval, n);
    forall k | 0 <= k < n
      ensures SemRange(env, fn, s', range, args', q.start, EvalTime(once, q, interval, k))
           == RefRange(env, fn, s, range, args, q, StepTime(q.start, interval, k))
    {
      BareArgsSem(env, args, once, q, interval, n, k);
      RangeSem(env, fn, s, range, args, args', false, once, q, interval, k);
    }
    SameRangeSteps(env, fn, s, s', range, args, args', once, q, interval, n);
  }

  lemma {:induction false} BareArgsClash(env: Env, args: Exprs, once: bool, q: Query, interval: int, n: nat)
    requires SafeEnv(env) && 0 < interval && 0 < n && AllBare(args, once, q, n)
    ensures ArgsClashFree(env, SetOffsets(args, q.start), q.start, interval, Count(once, n))
       <==> NoArgsClash(env, args, q, interval, n)
    decreases args
  {
    hide SafeEnv, Bare, ClashFree, NoClash, SetOffset;
    if args.Cons? {
      BareClash(env, args.head, once, q, interval, n);
      BareArgsClash(env, args.tail, once, q, interval, n);
    }
  }

  lemma {:induction false} CoveredClash(env: Env, e: Expr, q: Query, interval: int, n: nat)
    requires SafeEnv(env) && 0 < interval && 0 < n && Covered(e, q, n)
    ensures ClashFree(env, SetOffset(Helper(e, q).e, q.start), q.start, interval, Count(Helper(e, q).inv, n))
       <==> NoClash(env, e, q, interval, n)
    decreases e, 0
  {
    hide SafeEnv, Unsafe, StepTime, EvalTime, ReadsRight, StampRight, When, Shift, Resolve, Apart, SemSteps, RefSteps;
    hide RangeSteps, RefRangeSteps, Strip, Bare, Count;
    match e
    case Number(_) =>
    case Instant(_) =>
    case TimestampOf(_) =>
    case Paren(x) => CoveredClash(env, x, q, interval, n);
    case Unary(_, x) =>
      CoveredClash(env, x, q, interval, n);
      var x', once := SetOffset(Helper(x, q).e, q.start), Helper(x, q).inv;
      forall k | 0 <= k < n
        ensures Sem(env, x', q.start, EvalTime(once, q, interval, k)) == Ref(env, x, q, StepTime(q.start, interval, k))
      {
        CoveredSem(env, x, q, interval, n, k);
      }
      SameSteps(env, x, x', once, q, interval, n, env.dropName);
    case Binary(op, l, r) => CoveredBinaryClash(env, op, l, r, q, interval, n);
    case Call(_, args) => CoveredArgsClash(env, args, q, interval, n, Helper(e, q).inv);
    case RangeCall(fn, s, range, args) =>
      CoveredArgsClash(env, args, q, interval, n, Helper(e, q).inv);
      CoveredRangeClash(env, fn, s, range, args, q, interval, n);
    case Aggregate(_, param, x) =>
      CoveredClash(env, x, q, interval, n);
      if param.Some? {
        BareClash(env, param.value, Helper(x, q).inv, q, interval, n);
      }
  }

  lemma {:induction false} CoveredBinaryClash(env: Env, op: int, l: Expr, r: Expr, q: Query, interval: int, n: nat)
    requires SafeEnv(env) && 0 < interval && 0 < n && Covered(l, q, n) && Covered(r, q, n)
    ensures var e := Binary(op, l, r);
      ClashFree(env, SetOffset(Helper(e, q).e, q.start), q.start, interval, Count(Helper(e, q).inv, n))
      <==> NoClash(env, e, q, interval, n)
    decreases Binary(op, l, r), 0, 0
  {
    hide SafeEnv, Covered;
    if Helper(l, q).inv && Helper(r, q).inv {
      CoveredClash(env, l, q, interval, n);
      CoveredClash(env, r, q, interval, n);
    } else {
      WrappedClash(env, l, q, interval, n);
      WrappedClash(env, r, q, interval, n);
    }
  }

  lemma {:induction false} CoveredRangeClash(env: Env, fn: Function, s: Selector, range: int, args: Exprs,
                                             q: Query, interval: int, n: nat)
    requires SafeEnv(env) && 0 < interval && 0 < n && Covered(RangeCall(fn, s, range, args), q, n)
    ensures var once := Helper(RangeCall(fn, s, range, args), q).inv;
      Apart(RangeSteps(env, fn, Prepared(s, true, q), range, TreeArgs(args, q, once), q.start, interval, Count(once, n)),
            Strip(env, fn))
      <==> Apart(RefRangeSteps(env, fn, s, range, args, q, interval, n), Strip(env, fn))
  {
    hide SafeEnv, Unsafe, StepTime, EvalTime, ReadsRight, When, Apart, Strip, SemRange, RefRange, AllCovered, Count;
    hide SemArgs, RefArgs, Prepared, TreeArgs;
    var once := Helper(RangeCall(fn, s, range, args), q).inv;
    var s', args' := Prepared(s, true, q), TreeArgs(args, q, once);
    ReadsRightIff(s, true, once, q, interval, n);
    forall k | 0 <= k < n
      ensures SemRange(env, fn, s', range, args', q.start, EvalTime(once, q, interval, k))
           == RefRange(env, fn, s, range, args, q, StepTime(q.start, interval, k))
    {
      CoveredArgs(env, args, q, interval, n, k, once);
      RangeSem(env, fn, s, range, args, args', true, once, q, interval, k);
    }
    SameRangeSteps(env, fn, s, s', range, args, args', once, q, interval, n);
  }

  lemma {:induction false} WrappedClash(env: Env, e: Expr, q: Query, interval: int, n: nat)
    requires SafeEnv(env) && 0 < interval && 0 < n && Covered(e, q, n)
    ensures ClashFree(env, SetOffset(Wrapped(Helper(e, q)), q.start), q.start, interval, n)
       <==> NoClash(env, e, q, interval, n)
    decreases e, 1
  {
    hide SafeEnv, Covered, Helper, NoClash;
    CoveredClash(env, e, q, interval, n);
  }

  lemma {:induction false} CoveredArgsClash(env: Env, args: Exprs, q: Query, interval: int, n: nat, plain: bool)
    requires SafeEnv(env) && 0 < interval && 0 < n && AllCovered(args, q, n) && (plain ==> HelperArgs(args, q).inv)
    ensures ArgsClashFree(env, TreeArgs(args, q, plain), q.start, interval, Count(plain, n))
       <==> NoArgsClash(env, args, q, interval, n)
    decreases args, 0
  {
    hide SafeEnv, Covered, ClashFree, NoClash, Helper, Wrapped;
    if args.Cons? {
      CoveredArgsClash(env, args.tail, q, interval, n, plain);
      if plain {
        CoveredClash(env, args.head, q, interval, n);
      } else {
        WrappedClash(env, args.head, q, interval, n);
      }
    }
  }

  // ---------------------------------------------------------------------------
  // The theorem

  ghost predicate RefSucceeds(env: Env, e: Expr, q: Query, interval: int, n: int) {
    forall k :: 0 <= k < n ==> Ref(env, e, q, StepTime(q.start, interval, k)).Some?
  }

  /** The engine's result: the preprocessed tree, with offsets set at the start, over n steps. */
  ghost function Engine(env: Env, e: Expr, q: Query, interval: int, n: int): Option<Matrix> {
    Eval(env, SetOffset(Preprocess(e, q), q.start), q.start, interval, n)
  }

  /** If there is a result, it holds the reference's vector at every step. */
  ghost predicate IsRight(env: Env, e: Expr, q: Query, interval: int, n: int) {
    var r := Engine(env, e, q, interval, n);
    r.Some? ==> forall k :: 0 <= k < n ==>
      Ref(env, e, q, StepTime(q.start, interval, k)) == Some(At(r.value, StepTime(q.start, interval, k)))
  }

  /**
    For every covered expression the engine's result is right, and there is one exactly when the reference has a
    value at every step and no label sets of different steps clash.
   */
  lemma {:induction false} PreprocessPreservesMeaning(env: Env, e: Expr, q: Query, interval: int, n: nat)
    requires 0 < interval && 0 < n && SafeEnv(env) && Covered(e, q, n)
    ensures IsRight(env, e, q, interval, n)
    ensures Engine(env, e, q, interval, n).Some?
       <==> (RefSucceeds(env, e, q, interval, n) && NoClash(env, e, q, interval, n))
  {
    hide SafeEnv, Covered, Eval, SetOffset, Ref, Sem, StepTime, At, Preprocess, ClashFree, NoClash;
    var p := SetOffset(Preprocess(e, q), q.start);
    EvalIsSem(env, p, q.start, interval, n);
    PreprocessedStep(env, e, q, interval, n);
    WholeClash(env, e, q, interval, n);
    var r := Eval(env, p, q.start, interval, n);
    assert forall k :: 0 <= k < n ==>
        SemSteps(env, p, q.start, interval, n)[k] == Ref(env, e, q, StepTime(q.start, interval, k));
    if r.Some? {
      forall k | 0 <= k < n
        ensures Ref(env, e, q, StepTime(q.start, interval, k)) == Some(At(r.value, StepTime(q.start, interval, k)))
      {
        SemAt(env, p, q.start, interval, n, k, r.value);
      }
    }
  }

  lemma {:induction false} PreprocessedStep(env: Env, e: Expr, q: Query, interval: int, n: nat)
    requires 0 < interval && 0 < n && SafeEnv(env) && Covered(e, q, n)
    ensures forall k :: 0 <= k < n ==>
      Sem(env, SetOffset(Preprocess(e, q), q.start), q.start, StepTime(q.start, interval, k))
      == Ref(env, e, q, StepTime(q.start, interval, k))
  {
    hide SafeEnv, Covered, SetOffset, Ref, Sem, StepTime, Helper;
    forall k | 0 <= k < n
      ensures Sem(env, SetOffset(Preprocess(e, q), q.start), q.start, StepTime(q.start, interval, k))
           == Ref(env, e, q, StepTime(q.start, interval, k))
    {
      CoveredWrapped(env, e, q, interval, n, k);
    }
  }

  lemma {:induction false} WholeClash(env: Env, e: Expr, q: Query, interval: int, n: nat)
    requires 0 < interval && 0 < n && SafeEnv(env) && Covered(e, q, n)
    ensures ClashFree(env, SetOffset(Preprocess(e, q), q.start), q.start, interval, n) <==> NoClash(env, e, q, interval, n)
  {
    hide SafeEnv, Covered, SetOffset, Helper, ClashFree, NoClash;
    WrappedClash(env, e, q, interval, n);
  }
}

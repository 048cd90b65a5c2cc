/**
  The @ modifier: the condition under which the pass is right is exact. For every expression that is not
  covered there is an environment in which the engine's result differs from the reference at some step:
  one whose values record the times everything was read at.
 */
module AtModifierLimits {

  import opened Samples
  import opened Matrix
  import opened AtModifier
  import opened AtModifierSteps
  import opened AtModifierMeaning

  // ---------------------------------------------------------------------------
  // Pairs of numbers as numbers

  function Triangle(n: nat): nat {
    if n == 0 then 0 else Triangle(n - 1) + n
  }

  function Pair(a: nat, b: nat): nat {
    Triangle(a + b) + b
  }

  lemma {:induction false} TriangleGrows(m: nat, n: nat)
    requires m < n
    ensures Triangle(m) + m < Triangle(n)
  {
    if m + 1 < n {
      TriangleGrows(m, n - 1);
    }
  }

  lemma {:induction false} PairInjective(a: nat, b: nat, c: nat, d: nat)
    requires Pair(a, b) == Pair(c, d)
    ensures a == c && b == d
  {
    if a + b < c + d {
      TriangleGrows(a + b, c + d);
    } else if c + d < a + b {
      TriangleGrows(c + d, a + b);
    }
  }

  function Natural(x: int): nat {
    if x >= 0 then 2 * x else -2 * x - 1
  }

  // ---------------------------------------------------------------------------
  // The environment

  function One(x: nat): Vector {
    map[NO_LABELS := x]
  }

  function Value(v: Vector): nat {
    if NO_LABELS in v then Natural(v[NO_LABELS]) else 0
  }

  function Values(vs: seq<Vector>): nat {
    if |vs| == 0 then 0 else Pair(Value(vs[0]), Values(vs[1..]))
  }

  /** The evaluation time, where a function may depend on it. */
  function Clock(fn: Function, t: int): nat {
    if fn.Other? then 0 else Natural(t)
  }

  function Probe(): Env {
    Env((id, t) => One(Natural(t)),
        (id, t) => One(Natural(t)),
        (fn, vs, t) => Some(One(Pair(Clock(fn, t), Values(vs)))),
        (fn, w: Window, vs, t) => Some(One(Pair(Pair(Clock(fn, t), Natural(w.maxt)), Values(vs)))),
        (op, l, r) => Some(One(Pair(Value(l), Value(r)))),
        (op, p: Option<Vector>, v) => Some(One(Pair(if p.None? then 0 else Value(p.value), Value(v)))),
        v => v,
        m => m,
        (fn, m) => m)
  }

  lemma {:induction false} ProbeIsSafe()
    ensures SafeEnv(Probe())
  {
  }

  /** Renaming by the identity. */
  lemma {:induction false} SameNames<T>(m: map<int, T>, strip: int -> int)
    requires forall a :: strip(a) == a
    ensures Rename(m, strip) == Some(m)
  {
    forall s | s in m
      ensures s in Stripped(m, strip) && Stripped(m, strip)[s] == m[s]
    {
      StrippedIs(m, strip, s);
    }
    forall s | s in Stripped(m, strip)
      ensures s in m
    {
      var a := StrippedFrom(m, strip, s);
    }
    assert Stripped(m, strip) == m;
  }

  lemma {:induction false} NegationKeeps(v: Vector)
    ensures Rename(NegateVector(v, Probe()), Probe().dropName) == Some(v)
  {
    SameNames(NegateVector(v, Probe()), Probe().dropName);
    assert NegateVector(v, Probe()) == v;
  }

  lemma {:induction false} StripKeeps(v: Vector, fn: Function)
    ensures Rename(v, Strip(Probe(), fn)) == Some(v)
  {
    SameNames(v, Strip(Probe(), fn));
  }

  /** Everything has a value. */
  lemma {:induction false} ProbeSem(e: Expr, start: int, t: int)
    ensures Sem(Probe(), e, start, t).Some?
    decreases e
  {
    hide Rename, Strip, SemArgs;
    match e
    case Number(_) =>
    case Instant(_) =>
    case TimestampOf(_) =>
    case Paren(x) => ProbeSem(x, start, t);
    case Unary(_, x) =>
      ProbeSem(x, start, t);
      NegationKeeps(Sem(Probe(), x, start, t).value);
    case Binary(_, l, r) =>
      ProbeSem(l, start, t);
      ProbeSem(r, start, t);
    case Call(_, args) => ProbeSemArgs(args, start, t);
    case RangeCall(fn, s, range, args) =>
      ProbeSemArgs(args, start, t);
      StripKeeps(SemRange(Probe(), fn, s, range, args, start, t).value, fn);
    case Aggregate(_, param, x) =>
      ProbeSem(x, start, t);
      if param.Some? {
        ProbeSem(param.value, start, t);
      }
    case StepInvariant(x) => ProbeSem(x, start, start);
  }

  lemma {:induction false} ProbeSemArgs(args: Exprs, start: int, t: int)
    ensures SemArgs(Probe(), args, start, t).Some?
    decreases args
  {
    hide Sem;
    if args.Cons? {
      ProbeSem(args.head, start, t);
      ProbeSemArgs(args.tail, start, t);
    }
  }

  lemma {:induction false} ProbeRef(e: Expr, q: Query, t: int)
    ensures Ref(Probe(), e, q, t).Some?
    decreases e
  {
    hide Rename, Strip, RefArgs, When;
    match e
    case Number(_) =>
    case Instant(_) =>
    case TimestampOf(_) =>
    case Paren(x) => ProbeRef(x, q, t);
    case Unary(_, x) =>
      ProbeRef(x, q, t);
      NegationKeeps(Ref(Probe(), x, q, t).value);
    case Binary(_, l, r) =>
      ProbeRef(l, q, t);
      ProbeRef(r, q, t);
    case Call(_, args) => ProbeRefArgs(args, q, t);
    case RangeCall(fn, s, range, args) =>
      ProbeRefArgs(args, q, t);
      StripKeeps(RefRange(Probe(), fn, s, range, args, q, t).value, fn);
    case Aggregate(_, param, x) =>
      ProbeRef(x, q, t);
      if param.Some? {
        ProbeRef(param.value, q, t);
      }
    case StepInvariant(x) => ProbeRef(x, q, t);
  }

  lemma {:induction false} ProbeRefArgs(args: Exprs, q: Query, t: int)
    ensures RefArgs(Probe(), args, q, t).Some?
    decreases args
  {
    hide Ref;
    if args.Cons? {
      ProbeRef(args.head, q, t);
      ProbeRefArgs(args.tail, q, t);
    }
  }

  /** Nothing clashes, so there is always a result. */
  lemma {:induction false} ProbeClashFree(e: Expr, start: int, interval: int, n: nat)
    ensures ClashFree(Probe(), e, start, interval, n)
    decreases e
  {
    match e
    case Number(_) =>
    case Instant(_) =>
    case TimestampOf(_) =>
    case Paren(x) => ProbeClashFree(x, start, interval, n);
    case Unary(_, x) => ProbeClashFree(x, start, interval, n);
    case Binary(_, l, r) =>
      ProbeClashFree(l, start, interval, n);
      ProbeClashFree(r, start, interval, n);
    case Call(_, args) => ProbeArgsClashFree(args, start, interval, n);
    case RangeCall(_, _, _, args) => ProbeArgsClashFree(args, start, interval, n);
    case Aggregate(_, param, x) =>
      ProbeClashFree(x, start, interval, n);
      if param.Some? {
        ProbeClashFree(param.value, start, interval, n);
      }
    case StepInvariant(x) => ProbeClashFree(x, start, interval, 1);
  }

  lemma {:induction false} ProbeArgsClashFree(args: Exprs, start: int, interval: int, n: nat)
    ensures ArgsClashFree(Probe(), args, start, interval, n)
    decreases args
  {
    if args.Cons? {
      ProbeClashFree(args.head, start, interval, n);
      ProbeArgsClashFree(args.tail, start, interval, n);
    }
  }

  // ---------------------------------------------------------------------------
  // A difference anywhere in an expression is a difference of its value

  ghost function Code(v: Option<Vector>): int {
    if v.Some? then Value(v.value) else -1
  }

  ghost function Codes(vs: Option<seq<Vector>>): int {
    if vs.Some? then Values(vs.value) else -1
  }

  lemma {:induction false} PairDiffers(a: nat, b: nat, c: nat, d: nat)
    requires a != c || b != d
    ensures Value(One(Pair(a, b))) != Value(One(Pair(c, d)))
  {
    hide Pair;
    if Pair(a, b) == Pair(c, d) {
      PairInjective(a, b, c, d);
    }
  }

  lemma {:induction false} UnaryDiffers(minus: bool, x: Expr, x': Expr, q: Query, u: int, t: int)
    requires Code(Sem(Probe(), x', q.start, u)) != Code(Ref(Probe(), x, q, t))
    ensures Code(Sem(Probe(), Unary(minus, x'), q.start, u)) != Code(Ref(Probe(), Unary(minus, x), q, t))
  {
    hide Rename;
    ProbeSem(x', q.start, u);
    ProbeRef(x, q, t);
    NegationKeeps(Sem(Probe(), x', q.start, u).value);
    NegationKeeps(Ref(Probe(), x, q, t).value);
  }

  lemma {:induction false} BinaryDiffers(op: int, l: Expr, r: Expr, l': Expr, r': Expr, q: Query, u: int, t: int)
    requires Code(Sem(Probe(), l', q.start, u)) != Code(Ref(Probe(), l, q, t))
          || Code(Sem(Probe(), r', q.start, u)) != Code(Ref(Probe(), r, q, t))
    ensures Code(Sem(Probe(), Binary(op, l', r'), q.start, u)) != Code(Ref(Probe(), Binary(op, l, r), q, t))
  {
    hide Value, Pair, One;
    ProbeSem(l', q.start, u);
    ProbeSem(r', q.start, u);
    ProbeRef(l, q, t);
    ProbeRef(r, q, t);
    PairDiffers(Code(Sem(Probe(), l', q.start, u)), Code(Sem(Probe(), r', q.start, u)),
                Code(Ref(Probe(), l, q, t)), Code(Ref(Probe(), r, q, t)));
  }

  lemma {:induction false} AggregateDiffers(op: int, p: Option<Expr>, x: Expr, p': Option<Expr>, x': Expr,
                                            q: Query, u: int, t: int)
    requires p.Some? == p'.Some?
    requires Code(Sem(Probe(), x', q.start, u)) != Code(Ref(Probe(), x, q, t))
          || (p.Some? && Code(Sem(Probe(), p'.value, q.start, u)) != Code(Ref(Probe(), p.value, q, t)))
    ensures Code(Sem(Probe(), Aggregate(op, p', x'), q.start, u)) != Code(Ref(Probe(), Aggregate(op, p, x), q, t))
  {
    hide Value, Pair, One;
    ProbeSem(x', q.start, u);
    ProbeRef(x, q, t);
    var v, w := Code(Sem(Probe(), x', q.start, u)), Code(Ref(Probe(), x, q, t));
    if p.Some? {
      ProbeSem(p'.value, q.start, u);
      ProbeRef(p.value, q, t);
      PairDiffers(Code(Sem(Probe(), p'.value, q.start, u)), v, Code(Ref(Probe(), p.value, q, t)), w);
    } else {
      PairDiffers(0, v, 0, w);
    }
  }

  lemma {:induction false} CallDiffers(fn: Function, args: Exprs, args': Exprs, q: Query, u: int, t: int)
    requires Codes(SemArgs(Probe(), args', q.start, u)) != Codes(RefArgs(Probe(), args, q, t))
          || (Unsafe(fn) && u != t)
    ensures Code(Sem(Probe(), Call(fn, args'), q.start, u)) != Code(Ref(Probe(), Call(fn, args), q, t))
  {
    hide Value, Pair, One, SemArgs, RefArgs;
    ProbeSemArgs(args', q.start, u);
    ProbeRefArgs(args, q, t);
    PairDiffers(Clock(fn, u), Codes(SemArgs(Probe(), args', q.start, u)),
                Clock(fn, t), Codes(RefArgs(Probe(), args, q, t)));
  }

  lemma {:induction false} RangeCode(fn: Function, s: Selector, range: int, args: Exprs, start: int, u: int)
    ensures SemArgs(Probe(), args, start, u).Some?
    ensures Code(Sem(Probe(), RangeCall(fn, s, range, args), start, u))
         == Value(One(Pair(Pair(Clock(fn, u), Natural(u - s.offset)), Codes(SemArgs(Probe(), args, start, u)))))
  {
    hide Value, Pair, One, SemArgs, Clock, Natural, Rename, Strip;
    ProbeSemArgs(args, start, u);
    StripKeeps(SemRange(Probe(), fn, s, range, args, start, u).value, fn);
  }

  lemma {:induction false} RefRangeCode(fn: Function, s: Selector, range: int, args: Exprs, q: Query, t: int)
    ensures RefArgs(Probe(), args, q, t).Some?
    ensures Code(Ref(Probe(), RangeCall(fn, s, range, args), q, t))
         == Value(One(Pair(Pair(Clock(fn, t), Natural(When(s, q, t) - s.originalOffset)),
                           Codes(RefArgs(Probe(), args, q, t)))))
  {
    hide Value, Pair, One, RefArgs, Clock, Natural, Rename, Strip, When;
    ProbeRefArgs(args, q, t);
    StripKeeps(RefRange(Probe(), fn, s, range, args, q, t).value, fn);
  }

  lemma {:induction false} RangeDiffers(fn: Function, s: Selector, s': Selector, range: int, args: Exprs, args': Exprs,
                                        q: Query, u: int, t: int)
    requires Codes(SemArgs(Probe(), args', q.start, u)) != Codes(RefArgs(Probe(), args, q, t))
          || (Unsafe(fn) && u != t) || u - s'.offset != When(s, q, t) - s.originalOffset
    ensures Code(Sem(Probe(), RangeCall(fn, s', range, args'), q.start, u))
         != Code(Ref(Probe(), RangeCall(fn, s, range, args), q, t))
  {
    hide Value, One, SemArgs, RefArgs, Sem, Ref, When, Pair;
    RangeCode(fn, s', range, args', q.start, u);
    RefRangeCode(fn, s, range, args, q, t);
    var a, b := Natural(u - s'.offset), Natural(When(s, q, t) - s.originalOffset);
    if Pair(Clock(fn, u), a) == Pair(Clock(fn, t), b) {
      PairInjective(Clock(fn, u), a, Clock(fn, t), b);
    }
    PairDiffers(Pair(Clock(fn, u), a), Codes(SemArgs(Probe(), args', q.start, u)),
                Pair(Clock(fn, t), b), Codes(RefArgs(Probe(), args, q, t)));
  }

  lemma {:induction false} ConsDiffers(x: Expr, x': Expr, rest: Exprs, rest': Exprs, q: Query, u: int, t: int)
    requires Code(Sem(Probe(), x', q.start, u)) != Code(Ref(Probe(), x, q, t))
          || Codes(SemArgs(Probe(), rest', q.start, u)) != Codes(RefArgs(Probe(), rest, q, t))
    ensures Codes(SemArgs(Probe(), Cons(x', rest'), q.start, u)) != Codes(RefArgs(Probe(), Cons(x, rest), q, t))
  {
    hide Value, Pair, Sem, Ref;
    ProbeSem(x', q.start, u);
    ProbeRef(x, q, t);
    ProbeSemArgs(rest', q.start, u);
    ProbeRefArgs(rest, q, t);
    var a, b := Sem(Probe(), x', q.start, u).value, Ref(Probe(), x, q, t).value;
    var vs, ws := SemArgs(Probe(), rest', q.start, u).value, RefArgs(Probe(), rest, q, t).value;
    assert ([a] + vs)[1..] == vs && ([b] + ws)[1..] == ws;
    if Pair(Value(a), Values(vs)) == Pair(Value(b), Values(ws)) {
      PairInjective(Value(a), Values(vs), Value(b), Values(ws));
    }
  }

  // ---------------------------------------------------------------------------
  // What is not covered fails

  ghost predicate DiffersAt(e: Expr, e': Expr, once: bool, q: Query, interval: int, k: int) {
    Code(Sem(Probe(), e', q.start, EvalTime(once, q, interval, k)))
    != Code(Ref(Probe(), e, q, StepTime(q.start, interval, k)))
  }

  ghost predicate ArgsDifferAt(args: Exprs, args': Exprs, once: bool, q: Query, interval: int, k: int) {
    Codes(SemArgs(Probe(), args', q.start, EvalTime(once, q, interval, k)))
    != Codes(RefArgs(Probe(), args, q, StepTime(q.start, interval, k)))
  }

  lemma {:induction false} InstantDiffers(s: Selector, visited: bool, once: bool, q: Query, interval: int, k: int)
    requires !ReadAt(s, visited, once, q, interval, k)
    ensures DiffersAt(Instant(s), Instant(Prepared(s, visited, q)), once, q, interval, k)
  {
    hide StepTime, EvalTime, When, Prepared;
  }

  lemma {:induction false} StampDiffers(s: Selector, visited: bool, once: bool, q: Query, interval: int, k: int)
    requires !StampAt(s, visited, once, q, interval, k)
    ensures DiffersAt(TimestampOf(s), TimestampOf(Prepared(s, visited, q)), once, q, interval, k)
  {
    hide StepTime, EvalTime, When, Prepared, StampTime;
  }

  lemma {:induction false} SecondStep(q: Query, interval: int)
    requires 0 < interval
    ensures EvalTime(true, q, interval, 1) != StepTime(q.start, interval, 1)
  {
    FirstStep(q.start, interval);
    StepTimeIncreases(q.start, interval, 0, 1);
  }

  lemma {:induction false} BareFails(e: Expr, once: bool, q: Query, interval: int, n: int) returns (k: int)
    requires Parsed(e) && 0 < interval && 0 < n && !Bare(e, once, q, n)
    ensures 0 <= k < n && DiffersAt(e, SetOffset(e, q.start), once, q, interval, k)
    decreases e
  {
    hide StepTime, EvalTime, ReadsRight, StampRight, When, Sem, Ref, SemArgs, RefArgs, Unsafe;
    match e
    case Instant(s) =>
      ReadsRightIff(s, false, once, q, interval, n);
      k :| 0 <= k < n && !ReadAt(s, false, once, q, interval, k);
      InstantDiffers(s, false, once, q, interval, k);
    case TimestampOf(s) =>
      StampRightIff(s, false, once, q, interval, n);
      k :| 0 <= k < n && !StampAt(s, false, once, q, interval, k);
      StampDiffers(s, false, once, q, interval, k);
    case Paren(x) =>
      k := BareFails(x, once, q, interval, n);
      ParenDiffers(x, SetOffset(x, q.start), once, q, interval, k);
    case Unary(minus, x) =>
      k := BareFails(x, once, q, interval, n);
      UnaryDiffers(minus, x, SetOffset(x, q.start), q, EvalTime(once, q, interval, k), StepTime(q.start, interval, k));
    case Binary(op, l, r) =>
      if !Bare(l, once, q, n) {
        k := BareFails(l, once, q, interval, n);
      } else {
        k := BareFails(r, once, q, interval, n);
      }
      BinaryDiffers(op, l, r, SetOffset(l, q.start), SetOffset(r, q.start), q, EvalTime(once, q, interval, k),
                    StepTime(q.start, interval, k));
    case Call(fn, args) =>
      if !AllBare(args, once, q, n) {
        k := BareArgsFail(args, once, q, interval, n);
      } else {
        k := 1;
        SecondStep(q, interval);
      }
      CallDiffers(fn, args, SetOffsets(args, q.start), q, EvalTime(once, q, interval, k), StepTime(q.start, interval, k));
    case RangeCall(fn, s, range, args) =>
      if !AllBare(args, once, q, n) {
        k := BareArgsFail(args, once, q, interval, n);
      } else if once && Unsafe(fn) && n != 1 {
        k := 1;
        SecondStep(q, interval);
      } else {
        ReadsRightIff(s, false, once, q, interval, n);
        k :| 0 <= k < n && !ReadAt(s, false, once, q, interval, k);
      }
      RangeDiffers(fn, s, Shift(s, q.start), range, args, SetOffsets(args, q.start), q, EvalTime(once, q, interval, k),
                   StepTime(q.start, interval, k));
    case Aggregate(op, param, x) =>
      if !Bare(x, once, q, n) {
        k := BareFails(x, once, q, interval, n);
      } else {
        k := BareFails(param.value, once, q, interval, n);
      }
      AggregateDiffers(op, param, x, if param.None? then None else Some(SetOffset(param.value, q.start)),
                       SetOffset(x, q.start), q, EvalTime(once, q, interval, k), StepTime(q.start, interval, k));
  }

  lemma {:induction false} ParenDiffers(x: Expr, x': Expr, once: bool, q: Query, interval: int, k: int)
    requires DiffersAt(x, x', once, q, interval, k)
    ensures DiffersAt(Paren(x), Paren(x'), once, q, interval, k)
  {
    hide StepTime, EvalTime;
  }

  lemma {:induction false} BareArgsFail(args: Exprs, once: bool, q: Query, interval: int, n: int) returns (k: int)
    requires AllParsed(args) && 0 < interval && 0 < n && !AllBare(args, once, q, n)
    ensures 0 <= k < n && ArgsDifferAt(args, SetOffsets(args, q.start), once, q, interval, k)
    decreases args
  {
    hide StepTime, EvalTime, Sem, Ref, Bare, Parsed, SetOffset;
    var x, rest := args.head, args.tail;
    if !Bare(x, once, q, n) {
      k := BareFails(x, once, q, interval, n);
    } else {
      k := BareArgsFail(rest, once, q, interval, n);
    }
    ConsDiffers(x, SetOffset(x, q.start), rest, SetOffsets(rest, q.start), q, EvalTime(once, q, interval, k),
                StepTime(q.start, interval, k));
  }

  /** Under a wrapper something is evaluated at the start, without one at the step. */
  lemma {:induction false} WrappedIs(e: Expr, q: Query, interval: int, k: int)
    ensures Sem(Probe(), SetOffset(Wrapped(Helper(e, q)), q.start), q.start, StepTime(q.start, interval, k))
         == Sem(Probe(), SetOffset(Helper(e, q).e, q.start), q.start, EvalTime(Helper(e, q).inv, q, interval, k))
  {
    hide Helper, StepTime;
  }

  ghost predicate CoveredDiffers(e: Expr, q: Query, interval: int, k: int) {
    DiffersAt(e, SetOffset(Helper(e, q).e, q.start), Helper(e, q).inv, q, interval, k)
  }

  lemma {:induction false} CoveredFails(e: Expr, q: Query, interval: int, n: int) returns (k: int)
    requires Parsed(e) && 0 < interval && 0 < n && !Covered(e, q, n)
    ensures 0 <= k < n && CoveredDiffers(e, q, interval, k)
    decreases e
  {
    hide StepTime, EvalTime, ReadsRight, StampRight, When, Sem, Ref, SemArgs, RefArgs, Unsafe, Shift, Resolve, Bare;
    match e
    case TimestampOf(s) =>
      StampRightIff(s, true, false, q, interval, n);
      k :| 0 <= k < n && !StampAt(s, true, false, q, interval, k);
      StampDiffers(s, true, false, q, interval, k);
    case Paren(x) =>
      k := CoveredFails(x, q, interval, n);
      ParenDiffers(x, SetOffset(Helper(x, q).e, q.start), Helper(x, q).inv, q, interval, k);
    case Unary(minus, x) =>
      k := CoveredFails(x, q, interval, n);
      UnaryDiffers(minus, x, SetOffset(Helper(x, q).e, q.start), q, EvalTime(Helper(x, q).inv, q, interval, k),
                   StepTime(q.start, interval, k));
    case Binary(op, l, r) =>
      if !Covered(l, q, n) {
        k := CoveredFails(l, q, interval, n);
      } else {
        k := CoveredFails(r, q, interval, n);
      }
      CoveredBinaryDiffers(op, l, r, q, interval, k);
    case Call(fn, args) =>
      k := CoveredArgsFail(args, q, interval, n, Helper(e, q).inv);
      CallDiffers(fn, args, TreeArgs(args, q, Helper(e, q).inv), q, EvalTime(Helper(e, q).inv, q, interval, k),
                  StepTime(q.start, interval, k));
    case RangeCall(fn, s, range, args) =>
      var once := Helper(e, q).inv;
      if !AllCovered(args, q, n) {
        k := CoveredArgsFail(args, q, interval, n, once);
      } else {
        ReadsRightIff(s, true, once, q, interval, n);
        k :| 0 <= k < n && !ReadAt(s, true, once, q, interval, k);
      }
      RangeDiffers(fn, s, Prepared(s, true, q), range, args, TreeArgs(args, q, once), q,
                   EvalTime(once, q, interval, k), StepTime(q.start, interval, k));
    case Aggregate(op, param, x) =>
      var once := Helper(x, q).inv;
      if !Covered(x, q, n) {
        k := CoveredFails(x, q, interval, n);
      } else {
        k := BareFails(param.value, once, q, interval, n);
      }
      AggregateDiffers(op, param, x, if param.None? then None else Some(SetOffset(param.value, q.start)),
                       SetOffset(Helper(x, q).e, q.start), q, EvalTime(once, q, interval, k),
                       StepTime(q.start, interval, k));
  }

  lemma {:induction false} CoveredBinaryDiffers(op: int, l: Expr, r: Expr, q: Query, interval: int, k: int)
    requires CoveredDiffers(l, q, interval, k) || CoveredDiffers(r, q, interval, k)
    ensures CoveredDiffers(Binary(op, l, r), q, interval, k)
  {
    hide StepTime, Sem, Ref;
    var p, p' := Helper(l, q), Helper(r, q);
    var t := StepTime(q.start, interval, k);
    if p.inv && p'.inv {
      BinaryDiffers(op, l, r, SetOffset(p.e, q.start), SetOffset(p'.e, q.start), q, q.start, t);
    } else {
      WrappedIs(l, q, interval, k);
      WrappedIs(r, q, interval, k);
      BinaryDiffers(op, l, r, SetOffset(Wrapped(p), q.start), SetOffset(Wrapped(p'), q.start), q, t, t);
    }
  }

  lemma {:induction false} CoveredArgsFail(args: Exprs, q: Query, interval: int, n: int, plain: bool) returns (k: int)
    requires AllParsed(args) && 0 < interval && 0 < n && !AllCovered(args, q, n) && (plain ==> HelperArgs(args, q).inv)
    ensures 0 <= k < n && ArgsDifferAt(args, TreeArgs(args, q, plain), plain, q, interval, k)
    decreases args
  {
    hide StepTime, Sem, Ref, Covered, Parsed, SetOffset, Helper, Wrapped;
    var x, rest := args.head, args.tail;
    if !Covered(x, q, n) {
      k := CoveredFails(x, q, interval, n);
      WrappedIs(x, q, interval, k);
    } else {
      k := CoveredArgsFail(rest, q, interval, n, plain);
    }
    var x' := SetOffset(if plain then Helper(x, q).e else Wrapped(Helper(x, q)), q.start);
    ConsDiffers(x, x', rest, TreeArgs(rest, q, plain), q, EvalTime(plain, q, interval, k), StepTime(q.start, interval, k));
  }

  // ---------------------------------------------------------------------------
  // The condition is exact

  /** Right in every environment that keeps the promise about safe functions. */
  ghost predicate AlwaysRight(e: Expr, q: Query, interval: int, n: int) {
    forall env :: SafeEnv(env) ==> IsRight(env, e, q, interval, n)
  }

  lemma {:induction false} NotCoveredFails(e: Expr, q: Query, interval: int, n: nat)
    requires Parsed(e) && 0 < interval && 0 < n && !Covered(e, q, n)
    ensures SafeEnv(Probe()) && !IsRight(Probe(), e, q, interval, n)
  {
    hide StepTime, Sem, Ref, Covered, Parsed, SetOffset, Helper, Eval, At, ClashFree;
    ProbeIsSafe();
    var k := CoveredFails(e, q, interval, n);
    WrappedIs(e, q, interval, k);
    var p := SetOffset(Preprocess(e, q), q.start);
    EvalIsSem(Probe(), p, q.start, interval, n);
    ProbeClashFree(p, q.start, interval, n);
    forall j | 0 <= j < n
      ensures SemSteps(Probe(), p, q.start, interval, n)[j].Some?
    {
      ProbeSem(p, q.start, StepTime(q.start, interval, j));
    }
    SemAt(Probe(), p, q.start, interval, n, k, Eval(Probe(), p, q.start, interval, n).value);
  }

  /** The pass is right for every environment exactly for the covered expressions. */
  lemma {:induction false} CoveredIsExact(e: Expr, q: Query, interval: int, n: nat)
    requires Parsed(e) && 0 < interval && 0 < n
    ensures AlwaysRight(e, q, interval, n) <==> Covered(e, q, n)
  {
    hide SafeEnv, IsRight, Covered, Parsed;
    if Covered(e, q, n) {
      forall env | SafeEnv(env)
        ensures IsRight(env, e, q, interval, n)
      {
        PreprocessPreservesMeaning(env, e, q, interval, n);
      }
    } else {
      NotCoveredFails(e, q, interval, n);
    }
  }

  // ---------------------------------------------------------------------------
  // The families that fail, as a user writes them

  lemma {:induction false} OneArgument(x: Expr, once: bool, q: Query, n: int)
    ensures AllParsed(Cons(x, Nil)) <==> Parsed(x)
    ensures AllCovered(Cons(x, Nil), q, n) <==> Covered(x, q, n)
    ensures AllBare(Cons(x, Nil), once, q, n) <==> Bare(x, once, q, n)
    ensures HelperArgs(Cons(x, Nil), q).inv <==> Helper(x, q).inv
  {
    hide Parsed, Covered, Bare, Helper;
    assert AllParsed(Nil) && AllCovered(Nil, q, n) && AllBare(Nil, once, q, n) && HelperArgs(Nil, q).inv;
  }

  /** scalar(y @ ..), for a safe function scalar. */
  function Scalar(scalar: int, y: Selector): Expr {
    Call(Other(scalar), Cons(Instant(y), Nil))
  }

  lemma {:induction false} ScalarIs(scalar: int, y: Selector, once: bool, q: Query, n: int)
    ensures Parsed(Scalar(scalar, y)) && Covered(Scalar(scalar, y), q, n)
    ensures Helper(Scalar(scalar, y), q).inv <==> Pinned(y)
    ensures Bare(Scalar(scalar, y), once, q, n) <==> ReadsRight(y, false, once, q, n)
  {
    hide ReadsRight;
    OneArgument(Instant(y), once, q, n);
    PinnedInvariant(y, q);
  }

  /** A range call on arguments that are right: an @ needs the whole call to be invariant, or a single step. */
  lemma {:induction false} RangeCallIsRight(fn: Function, s: Selector, range: int, args: Exprs,
                                            q: Query, interval: int, n: nat)
    requires 0 < interval && 0 < n && AllParsed(args) && AllCovered(args, q, n)
    ensures AlwaysRight(RangeCall(fn, s, range, args), q, interval, n)
       <==> (Pinned(s) && (!fn.Other? || !HelperArgs(args, q).inv) ==> n == 1)
  {
    hide AlwaysRight, AllParsed, AllCovered, HelperArgs;
    PinnedInvariant(s, q);
    CoveredIsExact(RangeCall(fn, s, range, args), q, interval, n);
  }

  /** predict_linear(x[range] @ .., c). */
  lemma {:induction false} PredictLinearIsRight(s: Selector, range: int, c: int, q: Query, interval: int, n: nat)
    requires 0 < interval && 0 < n
    ensures AlwaysRight(RangeCall(PredictLinear, s, range, Cons(Number(c), Nil)), q, interval, n)
       <==> (Pinned(s) ==> n == 1)
  {
    hide AlwaysRight, AllParsed, AllCovered, HelperArgs;
    OneArgument(Number(c), false, q, n);
    RangeCallIsRight(PredictLinear, s, range, Cons(Number(c), Nil), q, interval, n);
  }

  /** f(scalar(y @ ..), x[range] @ ..), for a safe function f of a range. */
  lemma {:induction false} RangeWithScalarIsRight(f: int, scalar: int, s: Selector, range: int, y: Selector,
                                                  q: Query, interval: int, n: nat)
    requires 0 < interval && 0 < n
    ensures AlwaysRight(RangeCall(Other(f), s, range, Cons(Scalar(scalar, y), Nil)), q, interval, n)
       <==> (Pinned(s) && !Pinned(y) ==> n == 1)
  {
    hide AlwaysRight, AllParsed, AllCovered, HelperArgs, Scalar;
    ScalarIs(scalar, y, false, q, n);
    OneArgument(Scalar(scalar, y), false, q, n);
    RangeCallIsRight(Other(f), s, range, Cons(Scalar(scalar, y), Nil), q, interval, n);
  }

  /** timestamp(x @ .. offset ..). */
  lemma {:induction false} TimestampIsRight(s: Selector, q: Query, interval: int, n: nat)
    requires 0 < interval && 0 < n
    ensures AlwaysRight(TimestampOf(s), q, interval, n) <==> (Pinned(s) ==> s.originalOffset == 0)
  {
    hide AlwaysRight;
    CoveredIsExact(TimestampOf(s), q, interval, n);
  }

  /** topk(scalar(p @ ..), x @ ..): the parameter needs no resolving, and has an @ iff the vector has. */
  lemma {:induction false} ParameterIsRight(op: int, scalar: int, p: Selector, x: Selector, q: Query, interval: int, n: nat)
    requires 0 < interval && 0 < n
    ensures AlwaysRight(Aggregate(op, Some(Scalar(scalar, p)), Instant(x)), q, interval, n)
       <==> ReadsRight(p, false, Pinned(x), q, n)
  {
    hide AlwaysRight, ReadsRight, Scalar, Bare;
    PinnedInvariant(x, q);
    ScalarIs(scalar, p, Pinned(x), q, n);
    CoveredIsExact(Aggregate(op, Some(Scalar(scalar, p)), Instant(x)), q, interval, n);
  }

  /** The same by the four ways to write the parameter's selector: no @, @ with a time, start() and end(). */
  lemma {:induction false} ParameterReads(p: Selector, pinned: bool, q: Query, n: nat)
    requires p.anchor == Free || p.timestamp.None?
    ensures p.anchor == Free && p.timestamp.None? ==> (ReadsRight(p, false, pinned, q, n) <==> (pinned ==> n == 1))
    ensures p.timestamp.Some? ==> (ReadsRight(p, false, pinned, q, n) <==> (!pinned ==> n == 1))
    ensures p.anchor == AtStart ==> (ReadsRight(p, false, pinned, q, n) <==> (!pinned ==> n == 1))
    ensures p.anchor == AtEnd ==>
      (ReadsRight(p, false, pinned, q, n) <==> q.end == q.start && (!pinned ==> n == 1))
  {
  }

  // ---------------------------------------------------------------------------
  // Label sets of different steps

  /** Two series that differ in name only, one at the start and one afterwards. */
  function Renamed(start: int): Env {
    Probe().(select := (id, t) => if t == start then map[1 := 0] else map[2 := 0], dropName := m => 0)
  }

  lemma {:induction false} RenamedIsSafe(start: int)
    ensures SafeEnv(Renamed(start))
  {
  }

  lemma {:induction false} OneLabel(env: Env, a: int)
    ensures Rename(NegateVector(map[a := 0], env), env.dropName).Some?
  {
    assert NegateVector(map[a := 0], env).Keys == {a};
  }

  /** -x has a value at each of two steps, and no result over both. */
  lemma {:induction false} NegationClashes(id: int, q: Query, interval: int)
    requires 0 < interval
    ensures var env, e := Renamed(q.start), Unary(true, Instant(Selector(id, 0, 0, None, Free)));
      && SafeEnv(env) && Covered(e, q, 2)
      && RefSucceeds(env, e, q, interval, 2) && Engine(env, e, q, interval, 2).None?
  {
    hide Engine, StepTime, Renamed, SafeEnv, IsRight;
    var env, x := Renamed(q.start), Instant(Selector(id, 0, 0, None, Free));
    RenamedIsSafe(q.start);
    RenamedSteps(id, q, interval);
    assert Covered(x, q, 2);
    PreprocessPreservesMeaning(env, Unary(true, x), q, interval, 2);
  }

  lemma {:induction false} RenamedSteps(id: int, q: Query, interval: int)
    requires 0 < interval
    ensures var env, x := Renamed(q.start), Instant(Selector(id, 0, 0, None, Free));
      RefSucceeds(env, Unary(true, x), q, interval, 2) && !NoClash(env, Unary(true, x), q, interval, 2)
  {
    hide StepTime, Rename;
    var env, x := Renamed(q.start), Instant(Selector(id, 0, 0, None, Free));
    FirstStep(q.start, interval);
    StepTimeIncreases(q.start, interval, 0, 1);
    var vs := RefSteps(env, x, q, interval, 2);
    assert vs[0] == Some(map[1 := 0]) && vs[1] == Some(map[2 := 0]);
    assert Seen(vs, 1) by { assert 1 in vs[0].value; }
    assert Seen(vs, 2) by { assert 2 in vs[1].value; }
    assert env.dropName(1) == env.dropName(2);
    OneLabel(env, 1);
    OneLabel(env, 2);
  }
}

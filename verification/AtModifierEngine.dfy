/**
  promql/engine.go: what the engine gives at a step, operator by operator, for expressions on which the
  passes are right. Every selector is read at the time it names, every operator is applied to what the engine
  gives for its operands at the same step, and a function is called with the time of that step.
 */
module AtModifierEngine {

  import opened Samples
  import opened Matrix
  import opened AtModifier
  import opened AtModifierMeaning

  /** The vector of the k-th of n steps. */
  ghost function EngineAt(env: Env, e: Expr, q: Query, interval: int, n: nat, k: int): Vector
    requires Engine(env, e, q, interval, n).Some?
  {
    At(Engine(env, e, q, interval, n).value, StepTime(q.start, interval, k))
  }

  ghost predicate AllGiven(env: Env, args: Exprs, q: Query, interval: int, n: nat) {
    args.Cons? ==> Engine(env, args.head, q, interval, n).Some? && AllGiven(env, args.tail, q, interval, n)
  }

  ghost function EngineArgs(env: Env, args: Exprs, q: Query, interval: int, n: nat, k: int): seq<Vector>
    requires AllGiven(env, args, q, interval, n)
  {
    match args
    case Nil => []
    case Cons(x, rest) => [EngineAt(env, x, q, interval, n, k)] + EngineArgs(env, rest, q, interval, n, k)
  }

  /** The k-th step of a query with n steps, for an expression that has a result. */
  ghost predicate Given(env: Env, e: Expr, q: Query, interval: int, n: nat, k: int) {
    SafeEnv(env) && 0 < interval && 0 <= k < n && Covered(e, q, n) && Engine(env, e, q, interval, n).Some?
  }

  lemma {:induction false} GivenIs(env: Env, e: Expr, q: Query, interval: int, n: nat, k: int)
    requires Given(env, e, q, interval, n, k)
    ensures Ref(env, e, q, StepTime(q.start, interval, k)) == Some(EngineAt(env, e, q, interval, n, k))
    ensures RefSucceeds(env, e, q, interval, n) && NoClash(env, e, q, interval, n)
  {
    hide Engine, Covered, SafeEnv, Ref, StepTime, NoClash, RefSucceeds;
    PreprocessPreservesMeaning(env, e, q, interval, n);
  }

  /** An operand has a result if the reference has one at every step and no label sets clash in it. */
  lemma {:induction false} OperandGiven(env: Env, e: Expr, q: Query, interval: int, n: nat, k: int)
    requires SafeEnv(env) && 0 < interval && 0 <= k < n && Covered(e, q, n)
    requires RefSucceeds(env, e, q, interval, n) && NoClash(env, e, q, interval, n)
    ensures Engine(env, e, q, interval, n).Some?
    ensures Ref(env, e, q, StepTime(q.start, interval, k)) == Some(EngineAt(env, e, q, interval, n, k))
  {
    hide Engine, Covered, SafeEnv, Ref, StepTime, NoClash, RefSucceeds;
    PreprocessPreservesMeaning(env, e, q, interval, n);
    GivenIs(env, e, q, interval, n, k);
  }

  // ---------------------------------------------------------------------------
  // Leaves

  /** A number has that value, without labels, at every step. */
  lemma {:induction false} NumberGives(env: Env, v: int, q: Query, interval: int, n: nat, k: int)
    requires SafeEnv(env) && 0 < interval && 0 <= k < n
    ensures Engine(env, Number(v), q, interval, n).Some? && EngineAt(env, Number(v), q, interval, n, k) == map[0 := v]
  {
    OperandGiven(env, Number(v), q, interval, n, k);
  }

  /** A selector is read at its @ time, or else at the step, less its offset. */
  lemma {:induction false} SelectorGives(env: Env, s: Selector, q: Query, interval: int, n: nat, k: int)
    requires SafeEnv(env) && 0 < interval && 0 <= k < n
    ensures Engine(env, Instant(s), q, interval, n).Some?
    ensures var v := EngineAt(env, Instant(s), q, interval, n, k);
      && (s.anchor == Free && s.timestamp == None ==>
            v == env.select(s.id, q.start + interval * k - s.originalOffset))
      && (s.anchor == Free && s.timestamp.Some? ==> v == env.select(s.id, s.timestamp.value - s.originalOffset))
      && (s.anchor == AtStart ==> v == env.select(s.id, q.start - s.originalOffset))
      && (s.anchor == AtEnd ==> v == env.select(s.id, q.end - s.originalOffset))
  {
    hide Engine;
    OperandGiven(env, Instant(s), q, interval, n, k);
  }

  /** So is the selector under timestamp(). */
  lemma {:induction false} TimestampGives(env: Env, s: Selector, q: Query, interval: int, n: nat, k: int)
    requires Given(env, TimestampOf(s), q, interval, n, k)
    ensures var v := EngineAt(env, TimestampOf(s), q, interval, n, k);
      && (s.anchor == Free && s.timestamp == None ==>
            v == env.stamp(s.id, q.start + interval * k - s.originalOffset))
      && (s.anchor == Free && s.timestamp.Some? ==> v == env.stamp(s.id, s.timestamp.value - s.originalOffset))
      && (s.anchor == AtStart ==> v == env.stamp(s.id, q.start - s.originalOffset))
      && (s.anchor == AtEnd ==> v == env.stamp(s.id, q.end - s.originalOffset))
  {
    hide Engine;
    GivenIs(env, TimestampOf(s), q, interval, n, k);
  }

  // ---------------------------------------------------------------------------
  // Operators

  lemma {:induction false} BinaryGives(env: Env, op: int, l: Expr, r: Expr, q: Query, interval: int, n: nat, k: int)
    requires Given(env, Binary(op, l, r), q, interval, n, k)
    ensures Engine(env, l, q, interval, n).Some? && Engine(env, r, q, interval, n).Some?
    ensures env.binop(op, EngineAt(env, l, q, interval, n, k), EngineAt(env, r, q, interval, n, k))
         == Some(EngineAt(env, Binary(op, l, r), q, interval, n, k))
  {
    hide Engine, SafeEnv, StepTime;
    var e := Binary(op, l, r);
    GivenIs(env, e, q, interval, n, k);
    forall j | 0 <= j < n
      ensures Ref(env, l, q, StepTime(q.start, interval, j)).Some? && Ref(env, r, q, StepTime(q.start, interval, j)).Some?
    {
      assert Ref(env, e, q, StepTime(q.start, interval, j)).Some?;
    }
    OperandGiven(env, l, q, interval, n, k);
    OperandGiven(env, r, q, interval, n, k);
  }

  /** A unary minus negates every value and drops the metric names; no two label sets become one. */
  lemma {:induction false} UnaryGives(env: Env, minus: bool, x: Expr, q: Query, interval: int, n: nat, k: int)
    requires Given(env, Unary(minus, x), q, interval, n, k)
    ensures Engine(env, x, q, interval, n).Some?
    ensures var v, r := EngineAt(env, x, q, interval, n, k), EngineAt(env, Unary(minus, x), q, interval, n, k);
      && (!minus ==> r == v)
      && (minus ==> IsRenamed(v, a => env.negate(a), env.dropName, r))
  {
    hide Engine, SafeEnv, StepTime;
    var e := Unary(minus, x);
    GivenIs(env, e, q, interval, n, k);
    forall j | 0 <= j < n
      ensures Ref(env, x, q, StepTime(q.start, interval, j)).Some?
    {
      assert Ref(env, e, q, StepTime(q.start, interval, j)).Some?;
    }
    OperandGiven(env, x, q, interval, n, k);
    var v := EngineAt(env, x, q, interval, n, k);
    if minus {
      RenamedIs(NegateVector(v, env), env.dropName);
      NegatedIs(v, env, env.dropName);
    }
  }

  /** r has the values of v, changed by f, under stripped label sets, which stay apart. */
  ghost predicate IsRenamed(v: Vector, f: int -> int, strip: int -> int, r: Vector) {
    && (forall a :: a in v ==> strip(a) in r && r[strip(a)] == f(v[a]))
    && (forall m :: m in r ==> exists a :: a in v && strip(a) == m)
    && (forall a, b :: a in v && b in v && strip(a) == strip(b) ==> a == b)
  }

  lemma {:induction false} RenamedIs(v: Vector, strip: int -> int)
    requires Rename(v, strip).Some?
    ensures IsRenamed(v, a => a, strip, Rename(v, strip).value)
  {
    var r := Rename(v, strip).value;
    forall m | m in r
      ensures exists a :: a in v && strip(a) == m
    {
      assert m in (set a | a in v :: strip(a));
    }
  }

  lemma {:induction false} NegatedIs(v: Vector, env: Env, strip: int -> int)
    requires Rename(NegateVector(v, env), strip).Some?
    requires IsRenamed(NegateVector(v, env), a => a, strip, Rename(NegateVector(v, env), strip).value)
    ensures IsRenamed(v, a => env.negate(a), strip, Rename(NegateVector(v, env), strip).value)
  {
    hide Rename;
    assert NegateVector(v, env).Keys == v.Keys;
  }

  lemma {:induction false} ArgsGiven(env: Env, args: Exprs, q: Query, interval: int, n: nat, k: int)
    requires SafeEnv(env) && 0 < interval && 0 <= k < n && AllCovered(args, q, n) && NoArgsClash(env, args, q, interval, n)
    requires forall j :: 0 <= j < n ==> RefArgs(env, args, q, StepTime(q.start, interval, j)).Some?
    ensures AllGiven(env, args, q, interval, n)
    ensures RefArgs(env, args, q, StepTime(q.start, interval, k)) == Some(EngineArgs(env, args, q, interval, n, k))
  {
    hide Engine, SafeEnv, StepTime, Ref, Covered, NoClash;
    if args.Cons? {
      forall j | 0 <= j < n
        ensures Ref(env, args.head, q, StepTime(q.start, interval, j)).Some?
        ensures RefArgs(env, args.tail, q, StepTime(q.start, interval, j)).Some?
      {
        assert RefArgs(env, args, q, StepTime(q.start, interval, j)).Some?;
      }
      OperandGiven(env, args.head, q, interval, n, k);
      ArgsGiven(env, args.tail, q, interval, n, k);
    }
  }

  /** A function is called with the values of its arguments at the step, and with the time of the step. */
  lemma {:induction false} CallGives(env: Env, fn: Function, args: Exprs, q: Query, interval: int, n: nat, k: int)
    requires Given(env, Call(fn, args), q, interval, n, k)
    ensures AllGiven(env, args, q, interval, n)
    ensures env.call(fn, EngineArgs(env, args, q, interval, n, k), q.start + interval * k)
         == Some(EngineAt(env, Call(fn, args), q, interval, n, k))
  {
    hide Engine, SafeEnv;
    var e := Call(fn, args);
    GivenIs(env, e, q, interval, n, k);
    forall j | 0 <= j < n
      ensures RefArgs(env, args, q, StepTime(q.start, interval, j)).Some?
    {
      assert Ref(env, e, q, StepTime(q.start, interval, j)).Some?;
    }
    ArgsGiven(env, args, q, interval, n, k);
  }

  /** In particular a function without arguments, like time(), is called anew at every step. */
  lemma {:induction false} TimeGives(env: Env, fn: Function, q: Query, interval: int, n: nat, k: int)
    requires SafeEnv(env) && 0 < interval && 0 <= k < n
    requires forall t :: env.call(fn, [], t) == Some(map[0 := t])
    ensures Engine(env, Call(fn, Nil), q, interval, n).Some?
    ensures EngineAt(env, Call(fn, Nil), q, interval, n, k) == map[0 := q.start + interval * k]
  {
    hide Engine, SafeEnv;
    var e := Call(fn, Nil);
    assert RefArgs(env, Nil, q, 0) == Some([]);
    assert NoArgsClash(env, Nil, q, interval, n) && AllCovered(Nil, q, n);
    forall j | 0 <= j < n
      ensures Ref(env, e, q, StepTime(q.start, interval, j)) == Some(map[0 := StepTime(q.start, interval, j)])
    {
      assert RefArgs(env, Nil, q, StepTime(q.start, interval, j)) == Some([]);
    }
    OperandGiven(env, e, q, interval, n, k);
  }

  /**
    A range function is called on the window that ends at the selector's time, less its offset, with the
    values of its other arguments and the time of the step; its results get their label sets.
   */
  lemma {:induction false} RangeGives(env: Env, fn: Function, s: Selector, range: int, args: Exprs,
                                      q: Query, interval: int, n: nat, k: int) returns (v: Vector)
    requires Given(env, RangeCall(fn, s, range, args), q, interval, n, k)
    ensures AllGiven(env, args, q, interval, n)
    ensures var t := q.start + interval * k;
      var at := if s.anchor == AtStart then q.start else if s.anchor == AtEnd then q.end
                else if s.timestamp.Some? then s.timestamp.value else t;
      env.callRange(fn, Window(s.id, range, at - s.originalOffset), EngineArgs(env, args, q, interval, n, k), t) == Some(v)
    ensures IsRenamed(v, a => a, a => env.strip(fn, a), EngineAt(env, RangeCall(fn, s, range, args), q, interval, n, k))
  {
    hide Engine, SafeEnv, IsRenamed, Rename;
    var e := RangeCall(fn, s, range, args);
    GivenIs(env, e, q, interval, n, k);
    forall j | 0 <= j < n
      ensures RefArgs(env, args, q, StepTime(q.start, interval, j)).Some?
    {
      assert Ref(env, e, q, StepTime(q.start, interval, j)).Some?;
    }
    ArgsGiven(env, args, q, interval, n, k);
    var t := StepTime(q.start, interval, k);
    v := env.callRange(fn, Window(s.id, range, When(s, q, t) - s.originalOffset),
                       EngineArgs(env, args, q, interval, n, k), t).value;
    RenamedIs(v, Strip(env, fn));
    SameStrip(env, fn, v, EngineAt(env, e, q, interval, n, k));
  }

  lemma {:induction false} SameStrip(env: Env, fn: Function, v: Vector, r: Vector)
    requires IsRenamed(v, a => a, Strip(env, fn), r)
    ensures IsRenamed(v, a => a, a => env.strip(fn, a), r)
  {
  }

  lemma {:induction false} AggregateGives(env: Env, op: int, param: Option<Expr>, x: Expr, q: Query, interval: int,
                                          n: nat, k: int)
    requires Given(env, Aggregate(op, param, x), q, interval, n, k) && (param.Some? ==> Covered(param.value, q, n))
    ensures Engine(env, x, q, interval, n).Some? && (param.Some? ==> Engine(env, param.value, q, interval, n).Some?)
    ensures env.aggregate(op, if param.Some? then Some(EngineAt(env, param.value, q, interval, n, k)) else None,
                          EngineAt(env, x, q, interval, n, k))
         == Some(EngineAt(env, Aggregate(op, param, x), q, interval, n, k))
  {
    hide Engine, SafeEnv, StepTime, Bare;
    var e := Aggregate(op, param, x);
    GivenIs(env, e, q, interval, n, k);
    forall j | 0 <= j < n
      ensures Ref(env, x, q, StepTime(q.start, interval, j)).Some?
      ensures param.Some? ==> Ref(env, param.value, q, StepTime(q.start, interval, j)).Some?
    {
      assert Ref(env, e, q, StepTime(q.start, interval, j)).Some?;
    }
    OperandGiven(env, x, q, interval, n, k);
    if param.Some? {
      OperandGiven(env, param.value, q, interval, n, k);
    }
  }
}

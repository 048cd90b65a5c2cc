/**
  promql/engine.go: the @ modifier. PreprocessExpr resolves start() and end() and wraps what does not
  depend on the step, setOffsetForAtModifier turns @ times into offsets from the start of the query,
  and eval runs a wrapped part once and copies it to every step. The reference reads every selector,
  at every step, at the time its @ names.
 */
module AtModifier {

  import opened Samples
  import opened Matrix

  datatype Anchor = Free | AtStart | AtEnd

  /** A selector: what it selects, its offset as written and as evaluated, and its @ modifier. */
  datatype Selector = Selector(id: int, originalOffset: int, offset: int, timestamp: Option<int>, anchor: Anchor)

  datatype Expr =
    | Number(v: int)
    | Instant(sel: Selector)
    | Paren(e: Expr)
    | Unary(minus: bool, e: Expr)
    | Binary(op: int, lhs: Expr, rhs: Expr)
    | Call(fn: Function, args: Exprs)
    | RangeCall(fn: Function, sel: Selector, range: int, args: Exprs)
    | TimestampOf(sel: Selector)
    | Aggregate(op: int, param: Option<Expr>, e: Expr)
    | StepInvariant(e: Expr)

  datatype Exprs = Nil | Cons(head: Expr, tail: Exprs)

  /** A function: one of those whose result may depend on the evaluation time, or any other. */
  datatype Function =
    | DaysInMonth | DayOfMonth | DayOfWeek | DayOfYear | Hour | Minute | Month | Year
    | PredictLinear | Time | Timestamp
    | Other(name: int)

  /** AtModifierUnsafeFunctions. */
  predicate Unsafe(fn: Function) {
    !fn.Other?
  }

  /** The samples of the selected series in [maxt - range, maxt]. */
  datatype Window = Window(id: int, range: int, maxt: int)

  /**
    The storage and the operators. A range function sees a window; its result is by input series.
    dropName and strip give the label sets under which negated values and results of range functions are reported.
   */
  datatype Env = Env(
    select: (int, int) -> Vector,
    stamp: (int, int) -> Vector,
    call: (Function, seq<Vector>, int) -> Option<Vector>,
    callRange: (Function, Window, seq<Vector>, int) -> Option<Vector>,
    binop: (int, Vector, Vector) -> Option<Vector>,
    aggregate: (int, Option<Vector>, Vector) -> Option<Vector>,
    negate: int -> int,
    dropName: int -> int,
    strip: (Function, int) -> int)

  /** All functions but those named above do not look at the evaluation time. */
  ghost predicate SafeEnv(env: Env) {
    && (forall name, vs, t :: env.call(Other(name), vs, t) == env.call(Other(name), vs, 0))
    && (forall name, w, vs, t :: env.callRange(Other(name), w, vs, t) == env.callRange(Other(name), w, vs, 0))
  }

  datatype Query = Query(start: int, end: int)

  // ---------------------------------------------------------------------------
  // The two passes

  /** Sets the timestamp of start() and end(). */
  function Resolve(s: Selector, q: Query): Selector {
    match s.anchor
    case AtStart => s.(timestamp := Some(q.start))
    case AtEnd => s.(timestamp := Some(q.end))
    case Free => s
  }

  datatype Prep = Prep(e: Expr, inv: bool)

  function Wrapped(p: Prep): Expr {
    if p.inv then StepInvariant(p.e) else p.e
  }

  /** The arguments as they are, the arguments with the invariant ones wrapped, and whether all are invariant. */
  datatype PrepArgs = PrepArgs(plain: Exprs, wrapped: Exprs, inv: bool)

  /** preprocessExprHelper: the parameter of an aggregation is not visited. */
  function Helper(e: Expr, q: Query): Prep {
    match e
    case Number(_) => Prep(e, true)
    case Instant(s) => Prep(Instant(Resolve(s, q)), Resolve(s, q).timestamp.Some?)
    case Paren(x) => var p := Helper(x, q); Prep(Paren(p.e), p.inv)
    case Unary(minus, x) => var p := Helper(x, q); Prep(Unary(minus, p.e), p.inv)
    case Binary(op, l, r) =>
      var p, p' := Helper(l, q), Helper(r, q);
      if p.inv && p'.inv then Prep(Binary(op, p.e, p'.e), true)
      else Prep(Binary(op, Wrapped(p), Wrapped(p')), false)
    case Call(fn, args) =>
      var p := HelperArgs(args, q);
      if !Unsafe(fn) && p.inv then Prep(Call(fn, p.plain), true) else Prep(Call(fn, p.wrapped), false)
    case RangeCall(fn, s, range, args) =>
      var p := HelperArgs(args, q);
      if !Unsafe(fn) && Resolve(s, q).timestamp.Some? && p.inv
      then Prep(RangeCall(fn, Resolve(s, q), range, p.plain), true)
      else Prep(RangeCall(fn, Resolve(s, q), range, p.wrapped), false)
    case TimestampOf(s) => Prep(TimestampOf(Resolve(s, q)), false)
    case Aggregate(op, param, x) => var p := Helper(x, q); Prep(Aggregate(op, param, p.e), p.inv)
    case StepInvariant(_) => Prep(e, true)
  }

  function HelperArgs(args: Exprs, q: Query): PrepArgs {
    match args
    case Nil => PrepArgs(Nil, Nil, true)
    case Cons(x, rest) =>
      var p, ps := Helper(x, q), HelperArgs(rest, q);
      PrepArgs(Cons(p.e, ps.plain), Cons(Wrapped(p), ps.wrapped), p.inv && ps.inv)
  }

  function Preprocess(e: Expr, q: Query): Expr {
    Wrapped(Helper(e, q))
  }

  /** getOffset outside of subqueries. */
  function Shift(s: Selector, evalTime: int): Selector {
    if s.timestamp.None? then s.(offset := s.originalOffset)
    else s.(offset := s.originalOffset + (evalTime - s.timestamp.value))
  }

  function SetOffset(e: Expr, evalTime: int): Expr {
    match e
    case Number(_) => e
    case Instant(s) => Instant(Shift(s, evalTime))
    case Paren(x) => Paren(SetOffset(x, evalTime))
    case Unary(minus, x) => Unary(minus, SetOffset(x, evalTime))
    case Binary(op, l, r) => Binary(op, SetOffset(l, evalTime), SetOffset(r, evalTime))
    case Call(fn, args) => Call(fn, SetOffsets(args, evalTime))
    case RangeCall(fn, s, range, args) => RangeCall(fn, Shift(s, evalTime), range, SetOffsets(args, evalTime))
    case TimestampOf(s) => TimestampOf(Shift(s, evalTime))
    case Aggregate(op, param, x) =>
      Aggregate(op, if param.None? then None else Some(SetOffset(param.value, evalTime)), SetOffset(x, evalTime))
    case StepInvariant(x) => StepInvariant(SetOffset(x, evalTime))
  }

  function SetOffsets(args: Exprs, evalTime: int): Exprs {
    match args
    case Nil => Nil
    case Cons(x, rest) => Cons(SetOffset(x, evalTime), SetOffsets(rest, evalTime))
  }

  // ---------------------------------------------------------------------------
  // Renaming series

  ghost predicate Collides<T>(m: map<int, T>, strip: int -> int) {
    exists a, b :: a in m && b in m && a != b && strip(a) == strip(b)
  }

  /** The same values under stripped label sets. */
  ghost function Stripped<T>(m: map<int, T>, strip: int -> int): map<int, T> {
    map s | s in (set a | a in m :: strip(a)) :: Under(m, strip, s)
  }

  ghost function Under<T>(m: map<int, T>, strip: int -> int, s: int): T
    requires s in (set a | a in m :: strip(a))
  {
    var a :| a in m && strip(a) == s;
    m[a]
  }

  /** Two results under the same label set are an error. */
  ghost function Rename<T>(m: map<int, T>, strip: int -> int): Option<map<int, T>> {
    if Collides(m, strip) then None else Some(Stripped(m, strip))
  }

  // ---------------------------------------------------------------------------
  // Evaluation

  const NO_LABELS := 0

  function NumberStep(v: int): (seq<Vector>, int) -> Option<Vector> {
    (vs, t) => Some(map[NO_LABELS := v])
  }

  function InstantStep(env: Env, s: Selector): (seq<Vector>, int) -> Option<Vector> {
    (vs, t) => Some(env.select(s.id, t - s.offset))
  }

  /** The offset of a selector under timestamp() is set at every step, without its own offset. */
  function TimestampStep(env: Env, s: Selector): (seq<Vector>, int) -> Option<Vector> {
    (vs, t) => Some(env.stamp(s.id, t - (if s.timestamp.Some? then t - s.timestamp.value else s.offset)))
  }

  function BinaryStep(env: Env, op: int): (seq<Vector>, int) -> Option<Vector> {
    (vs, t) => if |vs| == 2 then env.binop(op, vs[0], vs[1]) else None
  }

  function CallStep(env: Env, fn: Function): (seq<Vector>, int) -> Option<Vector> {
    (vs, t) => env.call(fn, vs, t)
  }

  function RangeStep(env: Env, fn: Function, s: Selector, range: int): (seq<Vector>, int) -> Option<Vector> {
    (vs, t) => env.callRange(fn, Window(s.id, range, t - s.offset), vs, t)
  }

  function AggregateStep(env: Env, op: int): (seq<Vector>, int) -> Option<Vector> {
    (vs, t) =>
      if |vs| == 1 then env.aggregate(op, None, vs[0])
      else if |vs| == 2 then env.aggregate(op, Some(vs[0]), vs[1])
      else None
  }

  function Strip(env: Env, fn: Function): int -> int {
    m => env.strip(fn, m)
  }

  function NegatePoints(p: seq<FSample>, env: Env): seq<FSample> {
    seq(|p|, i requires 0 <= i < |p| => p[i].(v := env.negate(p[i].v)))
  }

  function NegateMatrix(mat: Matrix, env: Env): Matrix {
    map m | m in mat :: NegatePoints(mat[m], env)
  }

  function NegateVector(v: Vector, env: Env): Vector {
    map m | m in v :: env.negate(v[m])
  }

  /** The first point of a series, at every step. */
  function Repeated(p: seq<FSample>, start: int, interval: int, n: int): seq<FSample>
    requires |p| > 0
  {
    seq(if n < 0 then 0 else n, k => Sample(StepTime(start, interval, k), p[0].v))
  }

  /** The copying of StepInvariantExpr; a series with more or fewer samples than one is a panic. */
  ghost function Copied(mat: Matrix, start: int, interval: int, n: int): Option<Matrix> {
    if forall m :: m in mat ==> |mat[m]| == 1
    then Some(map m | m in mat :: Repeated(mat[m], start, interval, n))
    else None
  }

  ghost function Eval(env: Env, e: Expr, start: int, interval: int, n: int): Option<Matrix>
    decreases e
  {
    match e
    case Number(v) => Lift(NumberStep(v), [], start, interval, n)
    case Instant(s) => Lift(InstantStep(env, s), [], start, interval, n)
    case Paren(x) => Eval(env, x, start, interval, n)
    case Unary(minus, x) =>
      var r := Eval(env, x, start, interval, n);
      if minus && r.Some? then Rename(NegateMatrix(r.value, env), env.dropName) else r
    case Binary(op, l, r) =>
      var a, b := Eval(env, l, start, interval, n), Eval(env, r, start, interval, n);
      if a.None? || b.None? then None else Lift(BinaryStep(env, op), [a.value, b.value], start, interval, n)
    case Call(fn, args) =>
      var ms := EvalArgs(env, args, start, interval, n);
      if ms.None? then None else Lift(CallStep(env, fn), ms.value, start, interval, n)
    case RangeCall(fn, s, range, args) =>
      var ms := EvalArgs(env, args, start, interval, n);
      if ms.None? then None
      else
        var r := Lift(RangeStep(env, fn, s, range), ms.value, start, interval, n);
        if r.None? then None else Rename(r.value, Strip(env, fn))
    case TimestampOf(s) => Lift(TimestampStep(env, s), [], start, interval, n)
    case Aggregate(op, None, x) =>
      var a := Eval(env, x, start, interval, n);
      if a.None? then None else Lift(AggregateStep(env, op), [a.value], start, interval, n)
    case Aggregate(op, Some(param), x) =>
      var p, a := Eval(env, param, start, interval, n), Eval(env, x, start, interval, n);
      if p.None? || a.None? then None else Lift(AggregateStep(env, op), [p.value, a.value], start, interval, n)
    case StepInvariant(x) =>
      if x.Number? then Eval(env, x, start, interval, n)
      else
        var r := Eval(env, x, start, interval, 1);
        if r.None? then None else Copied(r.value, start, interval, n)
  }

  ghost function EvalArgs(env: Env, args: Exprs, start: int, interval: int, n: int): Option<seq<Matrix>>
    decreases args
  {
    match args
    case Nil => Some([])
    case Cons(x, rest) =>
      var a, ms := Eval(env, x, start, interval, n), EvalArgs(env, rest, start, interval, n);
      if a.None? || ms.None? then None else Some([a.value] + ms.value)
  }

  // ---------------------------------------------------------------------------
  // The reference

  /** The time a selector is read at, before its offset. */
  function When(s: Selector, q: Query, t: int): int {
    match s.anchor
    case AtStart => q.start
    case AtEnd => q.end
    case Free => if s.timestamp.Some? then s.timestamp.value else t
  }

  ghost function Ref(env: Env, e: Expr, q: Query, t: int): Option<Vector>
    decreases e
  {
    match e
    case Number(v) => Some(map[NO_LABELS := v])
    case Instant(s) => Some(env.select(s.id, When(s, q, t) - s.originalOffset))
    case Paren(x) => Ref(env, x, q, t)
    case Unary(minus, x) =>
      var r := Ref(env, x, q, t);
      if minus && r.Some? then Rename(NegateVector(r.value, env), env.dropName) else r
    case Binary(op, l, r) =>
      var a, b := Ref(env, l, q, t), Ref(env, r, q, t);
      if a.None? || b.None? then None else env.binop(op, a.value, b.value)
    case Call(fn, args) =>
      var vs := RefArgs(env, args, q, t);
      if vs.None? then None else env.call(fn, vs.value, t)
    case RangeCall(fn, s, range, args) =>
      var vs := RefArgs(env, args, q, t);
      if vs.None? then None
      else
        var r := env.callRange(fn, Window(s.id, range, When(s, q, t) - s.originalOffset), vs.value, t);
        if r.None? then None else Rename(r.value, Strip(env, fn))
    case TimestampOf(s) => Some(env.stamp(s.id, When(s, q, t) - s.originalOffset))
    case Aggregate(op, None, x) =>
      var a := Ref(env, x, q, t);
      if a.None? then None else env.aggregate(op, None, a.value)
    case Aggregate(op, Some(param), x) =>
      var p, a := Ref(env, param, q, t), Ref(env, x, q, t);
      if p.None? || a.None? then None else env.aggregate(op, p, a.value)
    case StepInvariant(x) => Ref(env, x, q, t)
  }

  ghost function RefArgs(env: Env, args: Exprs, q: Query, t: int): Option<seq<Vector>>
    decreases args
  {
    match args
    case Nil => Some([])
    case Cons(x, rest) =>
      var a, vs := Ref(env, x, q, t), RefArgs(env, rest, q, t);
      if a.None? || vs.None? then None else Some([a.value] + vs.value)
  }

  // ---------------------------------------------------------------------------
  // For which expressions the pass is right

  predicate Pinned(s: Selector) {
    s.timestamp.Some? || s.anchor != Free
  }

  /** Where a selector as written is read at the start of the query; start() and end() count as no @. */
  function AtStartOf(s: Selector, q: Query): int {
    if s.timestamp.Some? then s.timestamp.value else q.start
  }

  /**
    A selector is read where it should be at each of n steps: a visited one has its @ resolved, another needs
    none to be resolved; and unless there is one step, what has an @ is evaluated once and what has none is not.
   */
  predicate ReadsRight(s: Selector, visited: bool, once: bool, q: Query, n: int) {
    (visited || AtStartOf(s, q) == When(s, q, q.start)) && (n == 1 || Pinned(s) == once)
  }

  /** The same under timestamp(), which reads a selector with @ without its offset. */
  predicate StampRight(s: Selector, visited: bool, once: bool, q: Query, n: int) {
    var s' := if visited then Resolve(s, q) else s;
    if s'.timestamp.Some? then s'.timestamp.value == When(s, q, q.start) - s.originalOffset
    else ReadsRight(s, visited, once, q, n)
  }

  /** As the parser gives it. */
  predicate Parsed(e: Expr)
    decreases e
  {
    match e
    case Number(_) => true
    case Instant(_) => true
    case Paren(x) => Parsed(x)
    case Unary(_, x) => Parsed(x)
    case Binary(_, l, r) => Parsed(l) && Parsed(r)
    case Call(_, args) => AllParsed(args)
    case RangeCall(_, _, _, args) => AllParsed(args)
    case TimestampOf(_) => true
    case Aggregate(_, param, x) => (param.Some? ==> Parsed(param.value)) && Parsed(x)
    case StepInvariant(_) => false
  }

  predicate AllParsed(args: Exprs)
    decreases args
  {
    match args
    case Nil => true
    case Cons(x, rest) => Parsed(x) && AllParsed(rest)
  }

  /** Right although it is not preprocessed, evaluated at the start only (once) or at every step. */
  predicate Bare(e: Expr, once: bool, q: Query, n: int)
    decreases e
  {
    match e
    case Number(_) => true
    case Instant(s) => ReadsRight(s, false, once, q, n)
    case Paren(x) => Bare(x, once, q, n)
    case Unary(_, x) => Bare(x, once, q, n)
    case Binary(_, l, r) => Bare(l, once, q, n) && Bare(r, once, q, n)
    case Call(fn, args) => AllBare(args, once, q, n) && (once && Unsafe(fn) ==> n == 1)
    case RangeCall(fn, s, _, args) =>
      AllBare(args, once, q, n) && (once && Unsafe(fn) ==> n == 1) && ReadsRight(s, false, once, q, n)
    case TimestampOf(s) => StampRight(s, false, once, q, n)
    case Aggregate(_, param, x) => (param.Some? ==> Bare(param.value, once, q, n)) && Bare(x, once, q, n)
    case StepInvariant(_) => false
  }

  predicate AllBare(args: Exprs, once: bool, q: Query, n: int)
    decreases args
  {
    match args
    case Nil => true
    case Cons(x, rest) => Bare(x, once, q, n) && AllBare(rest, once, q, n)
  }

  /**
    Right at n steps: what is invariant is evaluated once, so only three things can go wrong, a range selector
    with @ in a call that is not invariant, an offset beside the @ under timestamp(), and the parameter of an
    aggregation, which is not preprocessed.
   */
  predicate Covered(e: Expr, q: Query, n: int)
    decreases e
  {
    match e
    case Number(_) => true
    case Instant(_) => true
    case Paren(x) => Covered(x, q, n)
    case Unary(_, x) => Covered(x, q, n)
    case Binary(_, l, r) => Covered(l, q, n) && Covered(r, q, n)
    case Call(_, args) => AllCovered(args, q, n)
    case RangeCall(_, s, _, args) => AllCovered(args, q, n) && ReadsRight(s, true, Helper(e, q).inv, q, n)
    case TimestampOf(s) => StampRight(s, true, false, q, n)
    case Aggregate(_, param, x) =>
      Covered(x, q, n) && (param.Some? ==> Bare(param.value, Helper(x, q).inv, q, n))
    case StepInvariant(_) => false
  }

  predicate AllCovered(args: Exprs, q: Query, n: int)
    decreases args
  {
    match args
    case Nil => true
    case Cons(x, rest) => Covered(x, q, n) && AllCovered(rest, q, n)
  }
}

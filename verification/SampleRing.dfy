/**
  storage/buffer.go: the growable ring in which a buffered iterator keeps the
  samples it has passed, for float samples.
 */
module SampleRing {
  import opened Samples

  class Ring {
    ghost var Contents: seq<FSample>  // the samples held, oldest first
    var buf: array<FSample>
    var i: int      // position of the most recently added sample, -1 if none
    var f: int      // position of the oldest sample
    var l: int      // number of samples held
    var delta: int  // look-back kept behind the newest sample

    /** The slot of the k-th oldest sample. */
    ghost function Slot(k: int): int
      reads this
    {
      if f + k < buf.Length then f + k else f + k - buf.Length
    }

    ghost predicate Holds()
      reads this, buf
    {
      && 0 <= delta
      && |Contents| == l <= buf.Length
      && 0 <= f
      && (if buf.Length == 0 then f == 0 else f < buf.Length)
      && forall k :: 0 <= k < l ==> buf[Slot(k)] == Contents[k]
    }

    ghost predicate Valid()
      reads this, buf
    {
      && Holds()
      && (if l == 0 then f == 0 && i == -1 else i == Slot(l - 1))
    }

    ghost function Abs(): State
      reads this
    {
      State(Contents, delta)
    }

    constructor (delta: int)
      requires 0 <= delta
      ensures Valid() && Contents == [] && this.delta == delta && fresh(buf)
    {
      this.delta := delta;
      buf := new FSample[0];
      l, i, f := 0, -1, 0;
      Contents := [];
    }

    method Reset()
      requires Valid()
      modifies this
      ensures Valid() && Abs() == old(Abs().Step(ResetTo(delta))) && buf == old(buf)
    {
      l, i, f := 0, -1, 0;
      Contents := [];
    }

    /** atF: the modulo of the source is the wrap of Slot. */
    method AtF(k: int) returns (s: FSample)
      requires Valid() && 0 <= k < l
      ensures s == Contents[k]
    {
      WrapIsMod(f + k, buf.Length);
      var j := (f + k) % buf.Length;
      s := buf[j];
    }

    /** The first half of addF: grows the buffer if it is full and makes i the slot after the newest sample. */
    /** A full buffer is copied into one of twice the size, its older part to the end. */
    method Grow()
      requires Holds() && 0 < buf.Length == l
      modifies this
      ensures Holds() && l < buf.Length && i == Slot(l)
      ensures Contents == old(Contents) && delta == old(delta) && fresh(buf)
    {
      var n := buf.Length;
      var newBuf := new FSample[2 * n];
      forall k | f <= k < n { newBuf[n + k] := buf[k]; }
      forall k | 0 <= k < f { newBuf[k] := buf[k]; }
      buf := newBuf;
      i := f;
      f := f + n;
    }

    method MakeRoom()
      requires Valid()
      modifies this
      ensures Holds() && l < buf.Length && i == Slot(l)
      ensures Contents == old(Contents) && delta == old(delta)
      ensures buf == old(buf) || fresh(buf)
    {
      if buf.Length == 0 {
        buf := new FSample[16];
      }
      var n := buf.Length;
      if n == l {
        Grow();
      } else {
        i := i + 1;
        if i >= n {
          i := i - n;
        }
      }
    }

    /** One round of the eviction loop. */
    method DropOldest()
      requires Valid() && 1 < l
      modifies this
      ensures Valid() && buf == old(buf) && i == old(i) && delta == old(delta)
      ensures l == old(l) - 1 && Contents == old(Contents)[1..]
    {
      f := f + 1;
      if f >= buf.Length {
        f := f - buf.Length;
      }
      l := l - 1;
      Contents := Contents[1..];
    }

    /** The eviction loop of addF and genericReduceDelta; it stops at or before the newest sample. */
    method Evict(tmin: int)
      requires Valid() && 0 < l && tmin <= buf[i].t
      modifies this
      ensures Valid() && 0 < l && buf == old(buf) && i == old(i) && delta == old(delta)
      ensures Contents == DropBefore(old(Contents), tmin)
    {
      ghost var c := Cut(Contents, tmin);
      assert c < l by { assert buf[Slot(l - 1)] == Contents[l - 1]; }
      ghost var n := 0;
      while buf[f].t < tmin
        invariant Valid() && 0 < l && buf == old(buf) && i == old(i) && delta == old(delta)
        invariant 0 <= n <= c && l == |old(Contents)| - n && Contents == old(Contents)[n..]
        decreases l
      {
        assert buf[Slot(0)] == old(Contents)[n];
        DropOldest();
        n := n + 1;
      }
      assert buf[Slot(0)] == old(Contents)[n];
    }

    method AddF(s: FSample)
      requires Valid()
      modifies this, buf
      ensures Valid() && Abs() == old(Abs().Step(Add(s)))
      ensures buf == old(buf) || fresh(buf)
    {
      hide DropBefore;
      MakeRoom();
      buf[i] := s;
      l := l + 1;
      Contents := Contents + [s];
      Evict(s.t - delta);
    }

    method ReduceDelta(d: int) returns (ok: bool)
      requires Valid() && 0 <= d
      modifies this
      ensures Valid() && buf == old(buf)
      ensures ok <==> d <= old(delta)
      ensures Abs() == old(Abs().Step(Reduce(d)))
    {
      hide DropBefore;
      if d > delta {
        return false;
      }
      delta := d;
      if l == 0 {
        return true;
      }
      assert buf[Slot(l - 1)] == Contents[l - 1];
      Evict(buf[i].t - delta);
      return true;
    }
  }

  /** What is left once only d behind the newest sample is kept. */
  ghost function Reduced(s: seq<FSample>, d: int): seq<FSample> {
    if s == [] then [] else DropBefore(s, s[|s| - 1].t - d)
  }

  lemma {:induction false} WrapIsMod(x: int, n: int)
    requires 0 < n && 0 <= x < 2 * n
    ensures x % n == if x < n then x else x - n
  {
  }

  // ---------------------------------------------------------------------------
  // Whole runs

  datatype Op = Add(s: FSample) | Reduce(d: int) | ResetTo(delta: int)

  /** What the operations of Ring do to the contents and the look-back. */
  datatype State = State(contents: seq<FSample>, delta: int) {
    ghost function Step(op: Op): State {
      match op
      case Add(s) => State(DropBefore(contents + [s], s.t - delta), delta)
      case Reduce(d) => if d > delta then this else State(Reduced(contents, d), d)
      case ResetTo(d) => State([], d)
    }
  }

  ghost function Run(ops: seq<Op>, init: State): State {
    if ops == [] then init else Run(ops[..|ops| - 1], init).Step(ops[|ops| - 1])
  }

  /** The samples added since the last reset. */
  function Added(ops: seq<Op>): (a: seq<FSample>) {
    if ops == [] then []
    else
      var a := Added(ops[..|ops| - 1]);
      match ops[|ops| - 1]
      case Add(s) => a + [s]
      case Reduce(_) => a
      case ResetTo(_) => []
  }

  /** The run adds samples in time order since each reset; look-backs are not negative. */
  ghost predicate InOrder(ops: seq<Op>) {
    ops == [] ||
    var n := |ops| - 1;
    && InOrder(ops[..n])
    && match ops[n] {
      case Add(s) => Newer(s, Added(ops[..n]))
      case Reduce(d) => 0 <= d
      case ResetTo(d) => 0 <= d
    }
  }

  ghost predicate Newer(s: FSample, a: seq<FSample>) {
    a == [] || a[|a| - 1].t < s.t
  }

  /**
    After every in-order run the ring holds exactly those samples added since the
    last reset that lie within the current look-back of the newest one.
   */
  lemma {:induction false} RingIsLookback(ops: seq<Op>, delta: int)
    requires 0 <= delta && InOrder(ops)
    ensures var st := Run(ops, State([], delta)); 0 <= st.delta && st.contents == Reduced(Added(ops), st.delta)
  {
    if ops != [] {
      var n := |ops| - 1;
      RingIsLookback(ops[..n], delta);
      var st := Run(ops[..n], State([], delta));
      StepKeepsLookback(st, Added(ops[..n]), ops[n]);
    }
  }

  lemma {:induction false} StepKeepsLookback(st: State, a: seq<FSample>, op: Op)
    requires 0 <= st.delta && st.contents == Reduced(a, st.delta)
    requires match op case Add(s) => Newer(s, a) case Reduce(d) => 0 <= d case ResetTo(d) => 0 <= d
    ensures 0 <= st.Step(op).delta
    ensures st.Step(op).contents ==
      Reduced(match op case Add(s) => a + [s] case Reduce(_) => a case ResetTo(_) => [], st.Step(op).delta)
  {
    match op
    case Add(s) => AddReduced(a, st.delta, s);
    case Reduce(d) => if d <= st.delta { ReduceReduced(a, st.delta, d); }
    case ResetTo(_) =>
  }

  /** The newest sample is cut against the look-back of the older ones and then against its own. */
  lemma {:induction false} AddReduced(a: seq<FSample>, delta: int, s: FSample)
    requires 0 <= delta && Newer(s, a)
    ensures DropBefore(Reduced(a, delta) + [s], s.t - delta) == Reduced(a + [s], delta)
  {
    hide Cut, IsCut;
    var c := if a == [] then 0 else Cut(a, a[|a| - 1].t - delta);
    if a != [] {
      CutBelow(a, a[|a| - 1].t - delta, s.t - delta);
    }
    TailThenOne(a, c, s);
    CutTail(a + [s], c, s.t - delta);
  }

  lemma {:induction false} TailThenOne(a: seq<FSample>, c: int, s: FSample)
    requires 0 <= c <= |a|
    ensures a[c..] + [s] == (a + [s])[c..]
  {
  }

  /** Cutting what an earlier, lower cut left is cutting the whole. */
  lemma {:induction false} CutTail(s: seq<FSample>, c: nat, tmin: int)
    requires c <= |s|
    requires forall i :: 0 <= i < c ==> s[i].t < tmin
    ensures DropBefore(s[c..], tmin) == DropBefore(s, tmin)
  {
    var d := Cut(s[c..], tmin);
    assert forall i :: c <= i < c + d ==> s[i] == s[c..][i - c];
    assert Cut(s, tmin) == c + d;
  }

  lemma {:induction false} ReduceReduced(a: seq<FSample>, delta: int, d: int)
    requires 0 <= d <= delta
    ensures Reduced(Reduced(a, delta), d) == Reduced(a, d)
  {
    hide Cut, IsCut;
    if a != [] {
      var last := a[|a| - 1];
      var c := Cut(a, last.t - delta);
      CutBelow(a, last.t - delta, last.t - d);
      LastOfTail(a, c);
      CutTail(a, c, last.t - d);
    }
  }

  /** What a cut drops is also too old for a higher bound; a bound below the last sample keeps that one. */
  lemma {:induction false} CutBelow(s: seq<FSample>, lo: int, hi: int)
    requires lo <= hi
    ensures 0 <= Cut(s, lo) <= |s|
    ensures forall i :: 0 <= i < Cut(s, lo) ==> s[i].t < hi
    ensures s != [] && lo <= s[|s| - 1].t ==> Cut(s, lo) < |s|
  {
  }

  lemma {:induction false} LastOfTail(s: seq<FSample>, c: int)
    requires 0 <= c < |s|
    ensures s[c..] != [] && s[c..][|s[c..]| - 1] == s[|s| - 1]
  {
  }
}

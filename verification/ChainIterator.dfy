/**
  storage/merge.go: chainSampleIterator merges several iterators of one series.
  Whatever the interleaving of Next and Seek, it is one iterator over the sorted,
  de-duplicated union of the times of its inputs.
 */
module ChainIterator {
  import opened Samples
  import opened SeriesIterator

  // ---------------------------------------------------------------------------
  // The union of the input times, as a series without values

  type Times = seq<Sample<()>>

  ghost predicate HasTime<V>(s: seq<Sample<V>>, t: int) {
    exists k :: 0 <= k < |s| && s[k].t == t
  }

  ghost predicate InUnion<V>(ins: seq<seq<Sample<V>>>, t: int) {
    exists i :: 0 <= i < |ins| && HasTime(ins[i], t)
  }

  ghost predicate IsUnion<V>(u: Times, ins: seq<seq<Sample<V>>>) {
    IsSeries(u) && forall t :: HasTime(u, t) <==> InUnion(ins, t)
  }

  /** u with t put in its place. */
  function Insert(u: Times, t: int): Times {
    if u == [] || t > u[|u| - 1].t then u + [Sample(t, ())]
    else if t == u[|u| - 1].t then u
    else Insert(u[..|u| - 1], t) + [u[|u| - 1]]
  }

  lemma {:induction false} InsertAdds(u: Times, t: int)
    requires IsSeries(u) && MIN_INT64 < t
    ensures IsSeries(Insert(u, t))
    ensures forall x :: HasTime(Insert(u, t), x) <==> x == t || HasTime(u, x)
  {
    var n := |u| - 1;
    if u == [] || t > u[n].t {
      SnocTimes(u, Sample(t, ()));
    } else if t < u[n].t {
      assert u == u[..n] + [u[n]];
      InsertAdds(u[..n], t);
      var v := Insert(u[..n], t);
      SnocTimes(u[..n], u[n]);
      SnocTimes(v, u[n]);
      forall k | 0 <= k < |v|
        ensures v[k].t < u[n].t
      {
        assert HasTime(v, v[k].t);
      }
    }
  }

  lemma {:induction false} SnocTimes<V>(s: seq<Sample<V>>, x: Sample<V>)
    ensures forall t :: HasTime(s + [x], t) <==> HasTime(s, t) || t == x.t
  {
    forall t
      ensures HasTime(s + [x], t) <==> HasTime(s, t) || t == x.t
    {
      assert (s + [x])[|s|] == x;
      if HasTime(s, t) {
        var k :| 0 <= k < |s| && s[k].t == t;
        assert (s + [x])[k].t == t;
      }
    }
  }

  /** All times of s added to u. */
  function InsertAll<V>(u: Times, s: seq<Sample<V>>): Times {
    if s == [] then u else Insert(InsertAll(u, s[..|s| - 1]), s[|s| - 1].t)
  }

  lemma {:induction false} InsertAllAdds<V>(u: Times, s: seq<Sample<V>>)
    requires IsSeries(u) && IsSeries(s)
    ensures IsSeries(InsertAll(u, s))
    ensures forall x :: HasTime(InsertAll(u, s), x) <==> HasTime(u, x) || HasTime(s, x)
  {
    if s != [] {
      var n := |s| - 1;
      InsertAllAdds(u, s[..n]);
      InsertAdds(InsertAll(u, s[..n]), s[n].t);
      SnocTimes(s[..n], s[n]);
      assert s == s[..n] + [s[n]];
    }
  }

  /** The sorted union of the inputs' times. */
  function Union<V>(ins: seq<seq<Sample<V>>>): Times {
    if ins == [] then [] else InsertAll(Union(ins[..|ins| - 1]), ins[|ins| - 1])
  }

  lemma {:induction false} UnionIsUnion<V>(ins: seq<seq<Sample<V>>>)
    requires forall i :: 0 <= i < |ins| ==> IsSeries(ins[i])
    ensures IsUnion(Union(ins), ins)
  {
    if ins != [] {
      var n := |ins| - 1;
      UnionIsUnion(ins[..n]);
      InsertAllAdds(Union(ins[..n]), ins[n]);
      forall t
        ensures InUnion(ins, t) <==> InUnion(ins[..n], t) || HasTime(ins[n], t)
      {
        if InUnion(ins[..n], t) {
          var i :| 0 <= i < n && HasTime(ins[..n][i], t);
          assert HasTime(ins[i], t);
        }
        if InUnion(ins, t) && !HasTime(ins[n], t) {
          var i :| 0 <= i < |ins| && HasTime(ins[i], t);
          assert HasTime(ins[..n][i], t);
        }
      }
    } else {
      assert forall t :: !HasTime(Union(ins), t);
    }
  }

  // ---------------------------------------------------------------------------
  // The state between two emitted samples

  /** Every sample of s before position n has a time of at most t. */
  ghost predicate UpTo<V>(s: seq<Sample<V>>, n: int, t: int) {
    forall k :: 0 <= k < n && k < |s| ==> s[k].t <= t
  }

  /** its runs over the inputs, and what an iterator has passed was emitted by time t or dropped as a duplicate. */
  ghost predicate Running<V>(ins: seq<seq<Sample<V>>>, its: seq<Base<V>>, t: int) {
    && |its| == |ins|
    && forall i :: 0 <= i < |its| ==> its[i].samples == ins[i] && its[i].Valid() && UpTo(ins[i], its[i].pos, t)
  }

  /** The heap h holds iterators at or after t; all others but c are exhausted. */
  ghost predicate HeapOf<V>(its: seq<Base<V>>, h: seq<int>, c: int, t: int) {
    && c !in h
    && (forall j, k :: 0 <= j < k < |h| ==> h[j] != h[k])
    && (forall k :: 0 <= k < |h| ==> 0 <= h[k] < |its| && its[h[k]].Ok() && t <= its[h[k]].At().t)
    && (forall i :: 0 <= i < |its| && i !in h && i != c ==> its[i].pos == |its[i].samples|)
  }

  /** The sample of iterator c, at t, is the next to emit after t0. */
  lemma {:induction false} NextInUnion<V>(ins: seq<seq<Sample<V>>>, its: seq<Base<V>>, h: seq<int>, c: int, t0: int, t: int)
    requires Running(ins, its, t0) && HeapOf(its, h, c, t)
    requires 0 <= c < |its| && its[c].Ok() && its[c].At().t == t && t0 < t
    ensures InUnion(ins, t)
    ensures forall u :: InUnion(ins, u) && t0 < u ==> t <= u
  {
    assert HasTime(ins[c], t);
    forall u | InUnion(ins, u) && t0 < u
      ensures t <= u
    {
      var i :| 0 <= i < |ins| && HasTime(ins[i], u);
      var k :| 0 <= k < |ins[i]| && ins[i][k].t == u;
      assert its[i].pos <= k;
      if i == c || i in h {
        assert its[i].At().t <= ins[i][k].t;
      }
    }
  }

  lemma {:induction false} NoneInUnion<V>(ins: seq<seq<Sample<V>>>, its: seq<Base<V>>, t0: int)
    requires Running(ins, its, t0)
    requires forall i :: 0 <= i < |its| ==> its[i].pos == |its[i].samples|
    ensures forall u :: InUnion(ins, u) ==> u <= t0
  {
  }

  // Positions in the union

  lemma {:induction false} NextPosition<V>(u: Times, ins: seq<seq<Sample<V>>>, p: int, t0: int, t: int)
    requires IsUnion(u, ins) && -1 <= p < |u| && t0 == (if p < 0 then MIN_INT64 else u[p].t)
    requires InUnion(ins, t) && t0 < t && forall x :: InUnion(ins, x) && t0 < x ==> t <= x
    ensures p + 1 < |u| && u[p + 1].t == t
  {
    assert HasTime(u, t);
    var k :| 0 <= k < |u| && u[k].t == t;
    assert HasTime(u, u[p + 1].t);
  }

  lemma {:induction false} LastPosition<V>(u: Times, ins: seq<seq<Sample<V>>>, p: int, t0: int)
    requires IsUnion(u, ins) && -1 <= p < |u| && t0 == (if p < 0 then MIN_INT64 else u[p].t)
    requires forall x :: InUnion(ins, x) ==> x <= t0
    ensures p + 1 == |u|
  {
    assert p + 1 < |u| ==> HasTime(u, u[p + 1].t);
  }

  /** The samples the iterators have not reached; what every round of Next lowers. */
  ghost function Remaining<V>(its: seq<Base<V>>): nat
    requires forall i :: 0 <= i < |its| ==> its[i].Valid()
  {
    if its == [] then 0
    else
      var it := its[|its| - 1];
      assert it.Valid();
      Remaining(its[..|its| - 1]) + (|it.samples| - it.pos)
  }

  lemma {:induction false} RemainingAdvance<V>(its: seq<Base<V>>, c: int)
    requires forall i :: 0 <= i < |its| ==> its[i].Valid()
    requires 0 <= c < |its| && its[c].pos < |its[c].samples|
    ensures var next := its[c := its[c].Next()];
            (forall i :: 0 <= i < |its| ==> next[i].Valid()) && Remaining(next) == Remaining(its) - 1
  {
    var n := |its| - 1;
    var next := its[c := its[c].Next()];
    if c == n {
      assert next[..n] == its[..n];
    } else {
      RemainingAdvance(its[..n], c);
      assert next[..n] == its[..n][c := its[c].Next()];
    }
  }

  /** container/heap: the place in h of an iterator with the least time. */
  method MinOf<V>(its: seq<Base<V>>, h: seq<int>) returns (m: int)
    requires h != [] && forall k :: 0 <= k < |h| ==> 0 <= h[k] < |its| && its[h[k]].Ok()
    ensures 0 <= m < |h| && forall k :: 0 <= k < |h| ==> its[h[m]].At().t <= its[h[k]].At().t
  {
    m := 0;
    for k := 1 to |h|
      invariant 0 <= m < |h|
      invariant forall j :: 0 <= j < k ==> its[h[m]].At().t <= its[h[j]].At().t
    {
      if its[h[k]].At().t < its[h[m]].At().t {
        m := k;
      }
    }
  }

  /** What one round of the loop of Next leaves to do. */
  datatype Outcome = Emit | Again | Exhausted

  /** Iterator c has been read up to t0 and is the one to advance next. */
  ghost predicate Advancing<V>(ins: seq<seq<Sample<V>>>, its: seq<Base<V>>, h: seq<int>, c: int, t0: int) {
    && Running(ins, its, t0) && HeapOf(its, h, c, t0)
    && 0 <= c < |its| && its[c].pos < |its[c].samples|
    && UpTo(ins[c], its[c].pos + 1, t0)
    && forall k :: 0 <= k < |ins[c]| && its[c].pos < k ==> t0 <= ins[c][k].t
  }

  /** Iterator c holds the sample to emit after t0. */
  ghost predicate Emitting<V>(ins: seq<seq<Sample<V>>>, its: seq<Base<V>>, h: seq<int>, c: int, t0: int) {
    && Running(ins, its, t0)
    && 0 <= c < |its| && its[c].Ok() && t0 < its[c].At().t
    && HeapOf(its, h, c, its[c].At().t)
  }

  lemma {:induction false} PopKeeps<V>(its: seq<Base<V>>, h: seq<int>, m: int, h': seq<int>, t0: int)
    requires 0 <= m < |h| && h' == h[..m] + h[m + 1..] && HeapOf(its, h, -1, t0)
    requires forall k :: 0 <= k < |h| ==> its[h[m]].At().t <= its[h[k]].At().t
    ensures its[h[m]].Ok() && t0 <= its[h[m]].At().t
    ensures HeapOf(its, h', h[m], its[h[m]].At().t) && HeapOf(its, h', h[m], t0)
  {
    assert forall i :: i in h <==> i in h' || i == h[m];
  }

  lemma {:induction false} PopAdvances<V>(ins: seq<seq<Sample<V>>>, its: seq<Base<V>>, h: seq<int>, c: int, t0: int)
    requires Running(ins, its, t0) && 0 <= c < |its| && its[c].Ok() && its[c].At().t == t0 && HeapOf(its, h, c, t0)
    ensures Advancing(ins, its, h, c, t0)
  {
    hide HeapOf;
  }

  /** The round's change of iterator: the heap's minimum takes over. */
  method PopHeap<V>(ghost ins: seq<seq<Sample<V>>>, its: seq<Base<V>>, h: seq<int>, t0: int)
    returns (h': seq<int>, c: int, o: Outcome)
    requires Running(ins, its, t0) && h != [] && HeapOf(its, h, -1, t0)
    ensures o == Emit ==> Emitting(ins, its, h', c, t0)
    ensures o == Again ==> Advancing(ins, its, h', c, t0)
    ensures o != Exhausted
  {
    hide Running;
    var m := MinOf(its, h);
    c := h[m];
    h' := h[..m] + h[m + 1..];
    PopKeeps(its, h, m, h', t0);
    hide HeapOf;
    if its[c].At().t == t0 {
      PopAdvances(ins, its, h', c, t0);
    }
    o := if its[c].At().t != t0 then Emit else Again;
  }

  lemma {:induction false} RoundRuns<V>(ins: seq<seq<Sample<V>>>, its: seq<Base<V>>, h: seq<int>, c: int, t0: int)
    requires Advancing(ins, its, h, c, t0)
    ensures var its' := its[c := its[c].Next()];
      && Running(ins, its', t0) && HeapOf(its', h, c, t0)
      && its'[c].pos <= |its'[c].samples|
      && (!its'[c].Ok() ==> its'[c].pos == |its'[c].samples|)
      && (its'[c].Ok() ==> t0 <= its'[c].At().t)
      && (its'[c].Ok() && its'[c].At().t == t0 ==> Advancing(ins, its', h, c, t0))
  {
  }

  /** The next sample of iterator c is new and before that of every other iterator. */
  ghost predicate LeadsAlone<V>(its: seq<Base<V>>, h: seq<int>, c: int, t0: int)
    requires 0 <= c < |its| && forall k :: 0 <= k < |h| ==> 0 <= h[k] < |its| && its[h[k]].Ok()
  {
    && its[c].Next().Ok() && t0 < its[c].Next().At().t
    && forall k :: 0 <= k < |h| ==> its[c].Next().At().t < its[h[k]].At().t
  }

  /** One round: advance c and compare it with the heap. */
  method Round<V>(ghost ins: seq<seq<Sample<V>>>, its: seq<Base<V>>, h: seq<int>, c: int, t0: int)
    returns (its': seq<Base<V>>, h': seq<int>, c': int, o: Outcome, changed: bool)
    requires Advancing(ins, its, h, c, t0)
    ensures its' == its[c := its[c].Next()]
    ensures o == Emit ==> Emitting(ins, its', h', c', t0)
    ensures o == Again ==> Advancing(ins, its', h', c', t0)
    ensures o == Exhausted ==> Running(ins, its', t0) && forall i :: 0 <= i < |its'| ==> its'[i].pos == |its'[i].samples|
    ensures !changed ==> c' == c && (o == Again ==> its[c].Ok() ==> its[c].At().t < t0)
    ensures LeadsAlone(its, h, c, t0) ==> o == Emit && !changed
  {
    RoundRuns(ins, its, h, c, t0);
    hide Running, UpTo;
    its' := its[c := its[c].Next()];
    h', c', changed := h, c, false;
    if its'[c].Ok() {
      var currT := its'[c].At().t;
      if currT == t0 {
        return its', h, c, Again, false;
      }
      if h == [] {
        return its', h, c, Emit, false;
      }
      var top := MinOf(its', h);
      if currT < its'[h[top]].At().t {
        return its', h, c, Emit, false;
      }
      h' := h + [c];
    } else if h == [] {
      return its', h, c, Exhausted, false;
    }
    h', c', o := PopHeap(ins, its', h', t0);
    changed := true;
  }

  lemma {:induction false} SeekPosition<V>(u: Times, ins: seq<seq<Sample<V>>>, p: int, t: int, t': int)
    requires IsUnion(u, ins) && 0 <= p <= |u| && (0 < p < |u| ==> u[p].t < t) && (p == |u| ==> p == 0)
    requires InUnion(ins, t') && t <= t' && forall x :: InUnion(ins, x) && t <= x ==> t' <= x
    ensures SeekPos(u, p, t) < |u| && u[SeekPos(u, p, t)].t == t'
  {
    assert HasTime(u, t');
    var k :| 0 <= k < |u| && u[k].t == t';
    var j := SeekPos(u, p, t);
    assert p <= k;
    assert j < |u| ==> HasTime(u, u[j].t);
  }

  lemma {:induction false} SeekPastEnd<V>(u: Times, ins: seq<seq<Sample<V>>>, p: int, t: int)
    requires IsUnion(u, ins) && 0 <= p <= |u|
    requires forall x :: InUnion(ins, x) ==> x < t
    ensures SeekPos(u, p, t) == |u|
  {
    var j := SeekPos(u, p, t);
    assert j < |u| ==> HasTime(u, u[j].t);
  }

  class ChainSampleIterator<V> {
    const ins: seq<seq<Sample<V>>>
    var iterators: seq<Base<V>>
    var h: Option<seq<int>>  // None: not yet started
    var curr: Option<int>
    var lastT: int
    var consecutive: bool

    ghost const union: Times
    ghost var upos: int  // the position in union of the last emitted time

    ghost predicate Valid()
      reads this
    {
      && |iterators| == |ins|
      && (forall i :: 0 <= i < |iterators| ==> iterators[i].samples == ins[i] && iterators[i].Valid())
      && IsUnion(union, ins)
      && (if h.None? then
            curr.None? && lastT == MIN_INT64 && upos == -1 && forall i :: 0 <= i < |iterators| ==> iterators[i].pos == -1
          else if curr.None? then
            upos == |union| && forall i :: 0 <= i < |iterators| ==> iterators[i].pos == |ins[i]|
          else
            && 0 <= upos < |union| && union[upos].t == lastT
            && Running(ins, iterators, lastT) && HeapOf(iterators, h.value, curr.value, lastT)
            && 0 <= curr.value < |iterators| && iterators[curr.value].Ok() && iterators[curr.value].At().t == lastT)
    }

    /** The one iterator over the union that this is. */
    ghost function Abs(): Base<()>
      reads this
    {
      Base(union, upos)
    }

    constructor (ins: seq<seq<Sample<V>>>)
      requires forall i :: 0 <= i < |ins| ==> IsSeries(ins[i])
      ensures Valid() && this.ins == ins && Abs() == Base(Union(ins), -1) && h.None?
    {
      this.ins := ins;
      iterators := seq(|ins|, i requires 0 <= i < |ins| => Base(ins[i], -1));
      h, curr, lastT, consecutive := None, None, MIN_INT64, false;
      union, upos := Union(ins), -1;
      UnionIsUnion(ins);
    }

    /** The sample emitted last; it is one of an input, at the time the union has there. */
    method At() returns (s: Sample<V>)
      requires Valid() && h.Some? && curr.Some?
      ensures s.t == lastT == Abs().At().t
      ensures s in ins[curr.value]
    {
      s := iterators[curr.value].At();
    }

    /** The first call of Next: all iterators but the first take a step and enter the heap. */
    method Start() returns (hs: seq<int>)
      requires Valid() && h.None? && |ins| > 0
      modifies this
      ensures h == old(h) && lastT == old(lastT) && upos == old(upos)
      ensures curr == Some(0) && Advancing(ins, iterators, hs, 0, lastT)
    {
      hide Advancing;
      ghost var was := iterators;
      curr := Some(0);
      iterators, hs := AdvanceOthers(iterators);
      StartAdvances(ins, was, iterators, hs);
    }
  
    /** The end of Next: the sample of iterator c becomes the current one. */
    method Emit(hs: seq<int>, c: int)
      requires IsUnion(union, ins) && -1 <= upos < |union| && lastT == (if upos < 0 then MIN_INT64 else union[upos].t)
      requires Emitting(ins, iterators, hs, c, lastT)
      modifies this`h, this`curr, this`lastT, this`upos
      ensures Valid() && h == Some(hs) && curr == Some(c) && upos == old(upos) + 1
    {
      var t := iterators[c].At().t;
      NextInUnion(ins, iterators, hs, c, lastT, t);
      NextPosition(union, ins, upos, lastT, t);
      EmittedRuns(ins, iterators, lastT, t);
      h, curr, lastT, upos := Some(hs), Some(c), t, upos + 1;
    }

    method Finish(hs: seq<int>)
      requires IsUnion(union, ins) && -1 <= upos < |union| && lastT == (if upos < 0 then MIN_INT64 else union[upos].t)
      requires Running(ins, iterators, lastT)
      requires forall i :: 0 <= i < |iterators| ==> iterators[i].pos == |iterators[i].samples|
      modifies this`h, this`curr, this`upos
      ensures Valid() && h == Some(hs) && curr.None? && upos == |union| == old(upos) + 1
    {
      NoneInUnion(ins, iterators, lastT);
      LastPosition(union, ins, upos, lastT);
      h, curr, upos := Some(hs), None, upos + 1;
    }

    /** consecutive is set only when the new sample is the neighbour of the last one in the same input. */
    method Next() returns (ok: bool)
      requires Valid() && (h.None? ==> |ins| > 0)
      modifies this
      ensures Valid() && h.Some? && Abs() == old(Abs().Next()) && ok == Abs().Ok()
      ensures ok && consecutive ==> old(h).Some? && curr.Some? && curr == old(curr)
      ensures ok && consecutive ==> iterators == old(iterators)[curr.value := old(iterators)[curr.value].Next()]
      ensures old(h).Some? && old(curr).Some? ==> AllOk(old(iterators), old(h).value)
      ensures old(h).Some? && old(curr).Some? ==>
        LeadsAlone(old(iterators), old(h).value, old(curr).value, old(lastT)) ==> ok && consecutive
    {
      hide Advancing, Running, HeapOf, LeadsAlone;
      var changed, hs := false, [];
      if h.None? {
        changed := true;
        hs := Start();
      } else {
        hs := h.value;
        if curr.None? {
          return false;
        }
        CurrentAdvances(ins, iterators, hs, curr.value, lastT);
      }
      var c, o;
      iterators, hs, c, o, changed := FindNext(ins, iterators, hs, curr.value, lastT, changed);
      if o == Exhausted {
        Finish(hs);
        return false;
      }
      Emit(hs, c);
      consecutive := !changed;
      return true;
    }
  
    /** An iterator already at or after t stays; any other moves to the first time of the union not before t. */
    method Seek(t: int) returns (ok: bool)
      requires Valid()
      modifies this
      ensures Valid() && h.Some? && Abs() == old(Abs().Seek(t)) && ok == Abs().Ok()
      ensures consecutive ==> old(consecutive) && curr == old(curr) && iterators == old(iterators)
    {
      hide HeapOf, Sought;
      if curr.Some? && lastT >= t {
        return true;
      }
      consecutive := false;
      ghost var was := iterators;
      var hs;
      iterators, hs := SeekAll(iterators, t);
      if h.Some? && curr.None? {
        StayExhausted(ins, was, iterators, t);
        return false;
      }
      SeekIsSought(ins, was, iterators, if h.None? then t - 1 else lastT, t);
      if hs == [] {
        NoneSought(ins, iterators, t);
        SeekPastEnd(union, ins, if upos < 0 then 0 else upos, t);
        h, curr, upos := Some(hs), None, |union|;
        return false;
      }
      SoughtEnds(ins, iterators, t);
      var c;
      c, hs := TakeLeast(iterators, hs);
      Land(hs, c, t);
      return true;
    }

    /** The end of Seek: iterator c has the first sample not before t. */
    method Land(hs: seq<int>, c: int, t: int)
      requires IsUnion(union, ins) && -1 <= upos < |union| + 1 && (0 <= upos ==> upos < |union| && union[upos].t < t)
      requires Sought(ins, iterators, t) && 0 <= c < |iterators| && iterators[c].Ok()
      requires HeapOf(iterators, hs, c, iterators[c].At().t)
      modifies this`h, this`curr, this`lastT, this`upos
      ensures Valid() && h.Some? && upos == SeekPos(union, if old(upos) < 0 then 0 else old(upos), t) < |union|
    {
      lastT := iterators[c].At().t;
      FirstSought(ins, iterators, hs, c, t, lastT);
      SeekPosition(union, ins, if upos < 0 then 0 else upos, t, lastT);
      upos := SeekPos(union, if upos < 0 then 0 else upos, t);
      h, curr := Some(hs), Some(c);
    }
  }

  /** Every iterator but the first takes a step; those that have a sample then make up the heap. */
  method AdvanceOthers<V>(its: seq<Base<V>>) returns (r: seq<Base<V>>, hs: seq<int>)
    requires |its| > 0
    ensures |r| == |its| && forall j :: 0 <= j < |its| ==> r[j] == if j == 0 then its[j] else its[j].Next()
    ensures forall k :: 0 <= k < |hs| ==> 1 <= hs[k] < |its| && r[hs[k]].Ok()
    ensures forall j, k :: 0 <= j < k < |hs| ==> hs[j] != hs[k]
    ensures forall j :: 1 <= j < |its| && j !in hs ==> !r[j].Ok()
  {
    r, hs := [its[0]], [];
    for i := 1 to |its|
      invariant |r| == i && forall j :: 0 <= j < i ==> r[j] == if j == 0 then its[j] else its[j].Next()
      invariant forall k :: 0 <= k < |hs| ==> 1 <= hs[k] < i && r[hs[k]].Ok()
      invariant forall j, k :: 0 <= j < k < |hs| ==> hs[j] != hs[k]
      invariant forall j :: 1 <= j < i && j !in hs ==> !r[j].Ok()
    {
      r := r + [its[i].Next()];
      if r[i].Ok() {
        hs := hs + [i];
      }
    }
  }

  lemma {:induction false} StartAdvances<V>(ins: seq<seq<Sample<V>>>, its: seq<Base<V>>, r: seq<Base<V>>, hs: seq<int>)
    requires |its| == |ins| == |r| > 0
    requires forall i :: 0 <= i < |its| ==> its[i] == Base(ins[i], -1) && its[i].Valid()
    requires forall j :: 0 <= j < |its| ==> r[j] == if j == 0 then its[j] else its[j].Next()
    requires forall k :: 0 <= k < |hs| ==> 1 <= hs[k] < |its| && r[hs[k]].Ok()
    requires forall j, k :: 0 <= j < k < |hs| ==> hs[j] != hs[k]
    requires forall j :: 1 <= j < |its| && j !in hs ==> !r[j].Ok()
    ensures Advancing(ins, r, hs, 0, MIN_INT64)
  {
    assert HeapOf(r, hs, 0, MIN_INT64) by {
      forall i | 0 <= i < |r| && i !in hs && i != 0
        ensures r[i].pos == |r[i].samples|
      {
        assert !r[i].Ok();
      }
    }
  }

  lemma {:induction false} SoughtEnds<V>(ins: seq<seq<Sample<V>>>, its: seq<Base<V>>, t: int)
    requires Sought(ins, its, t)
    ensures forall i :: 0 <= i < |its| && !its[i].Ok() ==> its[i].pos == |its[i].samples|
  {
  }

  /** The iterator with the least time leaves the heap. */
  method TakeLeast<V>(its: seq<Base<V>>, hs: seq<int>) returns (c: int, h: seq<int>)
    requires hs != [] && AllOk(its, hs) && forall j, k :: 0 <= j < k < |hs| ==> hs[j] != hs[k]
    requires forall i :: 0 <= i < |its| && i !in hs ==> its[i].pos == |its[i].samples|
    ensures 0 <= c < |its| && its[c].Ok() && HeapOf(its, h, c, its[c].At().t)
  {
    var m := MinOf(its, hs);
    c := hs[m];
    h := hs[..m] + hs[m + 1..];
    assert forall i :: i in hs <==> i in h || i == c;
  }

  /** Every iterator stands at its first sample not before t. */
  ghost predicate Sought<V>(ins: seq<seq<Sample<V>>>, its: seq<Base<V>>, t: int) {
    && |its| == |ins|
    && forall i :: 0 <= i < |its| ==>
         its[i].samples == ins[i] && its[i].Valid() && PassedBefore(its[i], t) && (its[i].Ok() ==> t <= its[i].At().t)
  }

  method SeekAll<V>(its: seq<Base<V>>, t: int) returns (r: seq<Base<V>>, h: seq<int>)
    requires forall i :: 0 <= i < |its| ==> its[i].Valid()
    ensures |r| == |its| && forall i :: 0 <= i < |its| ==> r[i] == its[i].Seek(t)
    ensures forall k :: 0 <= k < |h| ==> 0 <= h[k] < |its| && r[h[k]].Ok()
    ensures forall j, k :: 0 <= j < k < |h| ==> h[j] != h[k]
    ensures forall i :: 0 <= i < |its| && i !in h ==> !r[i].Ok()
  {
    hide SeekPos, IsSeries;
    r, h := [], [];
    for i := 0 to |its|
      invariant |r| == i && forall j :: 0 <= j < i ==> r[j] == its[j].Seek(t)
      invariant forall k :: 0 <= k < |h| ==> 0 <= h[k] < i && r[h[k]].Ok()
      invariant forall j, k :: 0 <= j < k < |h| ==> h[j] != h[k]
      invariant forall j :: 0 <= j < i && j !in h ==> !r[j].Ok()
    {
      r := r + [its[i].Seek(t)];
      if r[i].Ok() {
        h := h + [i];
      }
    }
  }

  lemma {:induction false} SeekIsSought<V>(ins: seq<seq<Sample<V>>>, its: seq<Base<V>>, r: seq<Base<V>>, t0: int, t: int)
    requires |its| == |ins| == |r| && t0 < t
    requires forall i :: 0 <= i < |its| ==> its[i].samples == ins[i] && its[i].Valid() && UpTo(ins[i], its[i].pos, t0)
    requires forall i :: 0 <= i < |its| ==> r[i] == its[i].Seek(t)
    ensures Sought(ins, r, t)
  {
    hide SeekPos;
    forall i | 0 <= i < |r|
      ensures PassedBefore(r[i], t) && (r[i].Ok() ==> t <= r[i].At().t)
    {
      var from := if its[i].pos < 0 then Base(ins[i], 0) else its[i];
      assert r[i] == from.Seek(t);
      SeekPassed(from, t);
    }
  }

  lemma {:induction false} StayExhausted<V>(ins: seq<seq<Sample<V>>>, its: seq<Base<V>>, r: seq<Base<V>>, t: int)
    requires |its| == |ins| == |r|
    requires forall i :: 0 <= i < |its| ==> its[i].samples == ins[i] && its[i].Valid() && its[i].pos == |ins[i]|
    requires forall i :: 0 <= i < |its| ==> r[i] == its[i].Seek(t)
    ensures forall i :: 0 <= i < |its| ==> r[i] == its[i]
  {
  }

  lemma {:induction false} NoneSought<V>(ins: seq<seq<Sample<V>>>, its: seq<Base<V>>, t: int)
    requires Sought(ins, its, t) && forall i :: 0 <= i < |its| ==> !its[i].Ok()
    ensures forall u :: InUnion(ins, u) ==> u < t
    ensures forall i :: 0 <= i < |its| ==> its[i].pos == |ins[i]|
  {
    forall u | InUnion(ins, u)
      ensures u < t
    {
      var i :| 0 <= i < |ins| && HasTime(ins[i], u);
      var k :| 0 <= k < |ins[i]| && ins[i][k].t == u;
      assert its[i].samples[k].t < t;
    }
  }

  lemma {:induction false} FirstSought<V>(ins: seq<seq<Sample<V>>>, its: seq<Base<V>>, h: seq<int>, c: int, t: int, t': int)
    requires Sought(ins, its, t) && 0 <= c < |its| && its[c].Ok() && its[c].At().t == t'
    requires HeapOf(its, h, c, t')
    ensures Running(ins, its, t')
    ensures InUnion(ins, t') && t <= t'
    ensures forall u :: InUnion(ins, u) && t <= u ==> t' <= u
  {
    SoughtRuns(ins, its, t, t');
    hide Running, UpTo;
    assert HasTime(ins[c], t');
    forall u | InUnion(ins, u) && t <= u
      ensures t' <= u
    {
      var i :| 0 <= i < |ins| && HasTime(ins[i], u);
      NotBefore(its[i], t, t', u);
    }
  }

  /** An iterator that passed only what is before t, and is at or after t', holds no time from t up to t'. */
  lemma {:induction false} NotBefore<V>(it: Base<V>, t: int, t': int, u: int)
    requires it.Valid() && PassedBefore(it, t) && HasTime(it.samples, u) && t <= u
    requires it.pos == |it.samples| || (it.Ok() && t' <= it.At().t)
    ensures t' <= u
  {
    var k :| 0 <= k < |it.samples| && it.samples[k].t == u;
    assert it.pos <= k;
  }

  lemma {:induction false} SoughtRuns<V>(ins: seq<seq<Sample<V>>>, its: seq<Base<V>>, t: int, t': int)
    requires Sought(ins, its, t) && t <= t'
    ensures Running(ins, its, t')
  {
  }

  lemma {:induction false} EmittedRuns<V>(ins: seq<seq<Sample<V>>>, its: seq<Base<V>>, t0: int, t: int)
    requires Running(ins, its, t0) && t0 <= t
    ensures Running(ins, its, t)
  {
  }

  lemma {:induction false} CurrentAdvances<V>(ins: seq<seq<Sample<V>>>, its: seq<Base<V>>, h: seq<int>, c: int, t: int)
    requires Running(ins, its, t) && HeapOf(its, h, c, t) && 0 <= c < |its| && its[c].Ok() && its[c].At().t == t
    ensures Advancing(ins, its, h, c, t)
  {
  }

  ghost predicate AllOk<V>(its: seq<Base<V>>, h: seq<int>) {
    forall k :: 0 <= k < |h| ==> 0 <= h[k] < |its| && its[h[k]].Ok()
  }

  lemma {:induction false} HeapIsOk<V>(its: seq<Base<V>>, h: seq<int>, c: int, t: int)
    requires HeapOf(its, h, c, t)
    ensures AllOk(its, h)
  {
  }

  /** The loop of Next: rounds until there is a sample to emit or nothing is left. */
  method FindNext<V>(ghost ins: seq<seq<Sample<V>>>, its0: seq<Base<V>>, h0: seq<int>, c0: int, t0: int, changed0: bool)
    returns (its: seq<Base<V>>, h: seq<int>, c: int, o: Outcome, changed: bool)
    requires Advancing(ins, its0, h0, c0, t0)
    requires !changed0 ==> its0[c0].Ok() && its0[c0].At().t == t0
    ensures o != Again
    ensures o == Emit ==> Emitting(ins, its, h, c, t0)
    ensures o == Exhausted ==> Running(ins, its, t0) && forall i :: 0 <= i < |its| ==> its[i].pos == |its[i].samples|
    ensures !changed && o == Emit ==> !changed0 && c == c0 && its == its0[c0 := its0[c0].Next()]
    ensures AllOk(its0, h0) && (LeadsAlone(its0, h0, c0, t0) && !changed0 ==> o == Emit && !changed)
  {
    HeapIsOk(its0, h0, c0, t0);
    hide Emitting, HeapOf, UpTo, LeadsAlone;
    its, h, c, o, changed := its0, h0, c0, Again, changed0;
    while o == Again
      invariant o == Again ==> Advancing(ins, its, h, c, t0)
      invariant o == Emit ==> Emitting(ins, its, h, c, t0)
      invariant o == Exhausted ==> Running(ins, its, t0) && forall i :: 0 <= i < |its| ==> its[i].pos == |its[i].samples|
      invariant !changed ==> !changed0 && c == c0
      invariant !changed && o == Again ==> its == its0
      invariant !changed && o == Emit ==> its == its0[c0 := its0[c0].Next()]
      invariant LeadsAlone(its0, h0, c0, t0) ==>
        if o == Again then (its, h, c, changed) == (its0, h0, c0, changed0) else o == Emit && changed == changed0
      decreases o == Again, if o == Again then Remaining(its) else 0
    {
      RemainingAdvance(its, c);
      var other;
      its, h, c, o, other := Round(ins, its, h, c, t0);
      changed := changed || other;
    }
  }

  /** s has the times of u, and every sample of s is one of an input. */
  ghost predicate IsMerge<V>(s: seq<Sample<V>>, u: Times, ins: seq<seq<Sample<V>>>) {
    && |s| == |u|
    && (forall k :: 0 <= k < |s| ==> s[k].t == u[k].t)
    && (forall k :: 0 <= k < |s| ==> FromSome(s[k], ins))
  }

  ghost predicate FromSome<V>(x: Sample<V>, ins: seq<seq<Sample<V>>>) {
    exists i :: 0 <= i < |ins| && x in ins[i]
  }

  lemma {:induction false} MergedFrom<V>(s: seq<Sample<V>>, u: Times, ins: seq<seq<Sample<V>>>, k: int) returns (i: int)
    requires IsMerge(s, u, ins) && 0 <= k < |s|
    ensures 0 <= i < |ins| && s[k] in ins[i]
  {
    assert FromSome(s[k], ins);
    i :| 0 <= i < |ins| && s[k] in ins[i];
  }

  lemma {:induction false} MergeNothing<V>(u: Times, ins: seq<seq<Sample<V>>>)
    ensures IsMerge([], u[..0], ins)
  {
  }

  lemma {:induction false} MergeSnoc<V>(s: seq<Sample<V>>, u: Times, ins: seq<seq<Sample<V>>>, x: Sample<V>, i: int)
    requires |s| < |u| && IsMerge(s, u[..|s|], ins)
    requires 0 <= i < |ins| && x in ins[i] && x.t == u[|s|].t
    ensures IsMerge(s + [x], u[..|s| + 1], ins)
  {
    var r := s + [x];
    forall k | 0 <= k < |r|
      ensures r[k].t == u[k].t && exists i :: 0 <= i < |ins| && r[k] in ins[i]
    {
      if k < |s| {
        assert r[k] == s[k] && u[..|s|][k] == u[k];
      }
    }
  }

  /** A run of Next alone reads the whole union, in order. */
  method Drain<V>(ins: seq<seq<Sample<V>>>) returns (out: seq<Sample<V>>)
    requires ins != [] && forall i :: 0 <= i < |ins| ==> IsSeries(ins[i])
    ensures IsMerge(out, Union(ins), ins)
  {
    hide Union, IsMerge, IsUnion, IsSeries;
    MergeNothing(Union(ins), ins);
    var c := new ChainSampleIterator(ins);
    out := [];
    var ok := c.Next();
    ghost var u := Union(ins);
    while ok
      invariant fresh(c) && c.Valid() && c.ins == ins && c.h.Some? && c.union == u && ok == c.Abs().Ok()
      invariant c.upos == |out| <= |u| && IsMerge(out, u[..|out|], ins)
      decreases |u| - |out|, ok
    {
      var s := c.At();
      MergeSnoc(out, u, ins, s, c.curr.value);
      out := out + [s];
      ok := c.Next();
    }
    assert u[..|out|] == u;
  }
}

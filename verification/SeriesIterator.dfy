/**
  What every wrapper of the storage layer assumes of the iterator it wraps
  (chunkenc.Iterator), and listSeriesIterator of storage/series.go, which meets it.
 */
module SeriesIterator {
  import opened Samples

  /** j is the first position from p on that holds a sample at or after t; |s| if there is none. */
  ghost predicate IsSeekPos<V>(s: seq<Sample<V>>, p: int, t: int, j: int) {
    && 0 <= p <= j <= |s|
    && (forall k :: p <= k < j ==> s[k].t < t)
    && (j < |s| ==> t <= s[j].t)
  }

  function SeekPos<V>(s: seq<Sample<V>>, p: nat, t: int): (j: nat)
    requires p <= |s|
    ensures IsSeekPos(s, p, t, j)
    decreases |s| - p
  {
    if p == |s| || t <= s[p].t then p else SeekPos(s, p + 1, t)
  }

  /** A base iterator: pos is -1 before the first call and |samples| once it is exhausted. */
  datatype Base<V> = Base(samples: seq<Sample<V>>, pos: int) {
    ghost predicate Valid() {
      IsSeries(samples) && -1 <= pos <= |samples|
    }

    predicate Ok() {
      0 <= pos < |samples|
    }

    function At(): Sample<V>
      requires Ok()
    {
      samples[pos]
    }

    function Next(): Base<V> {
      if pos < |samples| then Base(samples, pos + 1) else this
    }

    /** Forward only: an iterator already at or after t stays. */
    function Seek(t: int): Base<V> {
      if pos >= |samples| then this else Base(samples, SeekPos(samples, if pos < 0 then 0 else pos, t))
    }
  }

  lemma {:induction false} SeekSeek<V>(it: Base<V>, t0: int, t: int)
    requires t0 <= t
    ensures it.Seek(t0).Seek(t) == it.Seek(t)
  {
  }

  lemma {:induction false} NextSeek<V>(it: Base<V>, t: int)
    requires it.Ok() && it.At().t < t
    ensures it.Next().Seek(t) == it.Seek(t)
  {
  }

  lemma {:induction false} SeekStays<V>(it: Base<V>, t: int)
    requires 0 <= it.pos <= |it.samples| && (it.Ok() ==> t <= it.At().t)
    ensures it.Seek(t) == it
  {
  }

  /** Every sample the base iterator has passed is before t. */
  ghost predicate PassedBefore<V>(it: Base<V>, t: int) {
    0 <= it.pos <= |it.samples| && forall k :: 0 <= k < it.pos ==> it.samples[k].t < t
  }

  lemma {:induction false} SeekPassed<V>(it: Base<V>, t: int)
    requires PassedBefore(it, t)
    ensures PassedBefore(it.Seek(t), t)
    ensures it.Seek(t).Ok() ==> t <= it.Seek(t).At().t
  {
  }

  /** sort.Search: the least index at which a condition holds that never goes from true back to false. */
  method Search(n: nat, f: int --> bool) returns (i: nat)
    requires forall k :: 0 <= k < n ==> f.requires(k)
    requires forall j, k :: 0 <= j < k < n && f(j) ==> f(k)
    ensures i <= n
    ensures forall k :: 0 <= k < i ==> !f(k)
    ensures i < n ==> f(i)
  {
    i := 0;
    var j := n;
    while i < j
      invariant i <= j <= n
      invariant forall k :: 0 <= k < i ==> !f(k)
      invariant j < n ==> f(j)
    {
      var h := (i + j) / 2;
      if !f(h) {
        i := h + 1;
      } else {
        j := h;
      }
    }
  }

  class ListSeriesIterator<V> {
    const samples: seq<Sample<V>>
    var idx: int

    /** The base iterator this is; positions past the end all mean exhausted. */
    ghost function Abs(): Base<V>
      reads this
    {
      Base(samples, if idx < |samples| then idx else |samples|)
    }

    constructor (samples: seq<Sample<V>>)
      ensures Abs() == Base(samples, -1)
    {
      this.samples := samples;
      idx := -1;
    }

    method At() returns (s: Sample<V>)
      requires Abs().Ok()
      ensures s == Abs().At()
    {
      s := samples[idx];
    }

    method Next() returns (ok: bool)
      requires Abs().Valid()
      modifies this
      ensures Abs() == old(Abs().Next()) && ok == Abs().Ok()
    {
      idx := idx + 1;
      ok := idx < |samples|;
    }

    method Seek(t: int) returns (ok: bool)
      requires Abs().Valid()
      modifies this
      ensures Abs() == old(Abs().Seek(t)) && ok == Abs().Ok()
    {
      if idx == -1 {
        idx := 0;
      }
      if idx >= |samples| {
        return false;
      }
      if samples[idx].t >= t {
        return true;
      }
      var from := idx;
      var reached := i requires 0 <= i < |samples| - from => samples[from + i].t >= t;
      var k := Search(|samples| - from, reached);
      idx := from + k;
      forall j | from <= j < idx
        ensures samples[j].t < t
      {
        assert !reached(j - from);
      }
      assert idx == SeekPos(samples, from, t);
      return idx < |samples|;
    }
  }
}

/** storage/buffer.go: an iterator that keeps the samples it has passed within a look-back, for float series. */
module BufferedIterator {
  import opened Samples
  import opened SampleRing
  import opened SeriesIterator

  class BufferedSeriesIterator {
    var it: Base<int>
    const buf: Ring
    const delta: int
    var lastTime: int
    var hasValue: bool  // the value type is not ValNone

    ghost var start: int  // the ring holds samples from this position on
    ghost var floor: int  // every sample before start is older than this

    ghost predicate Valid()
      reads this, buf, buf.buf
    {
      && buf.Valid() && it.Valid()
      && 0 <= buf.delta <= delta
      && Positions()
      && buf.Contents == Reduced(it.samples[start..it.pos], buf.delta)
    }

    ghost predicate Positions()
      reads this
    {
      && 0 <= start <= it.pos <= |it.samples|
      && hasValue == (it.pos < |it.samples|)
      && (forall k :: 0 <= k < start ==> it.samples[k].t < floor)
      && (hasValue ==> Fresh() || lastTime == it.samples[it.pos].t)
    }

    /** No sample has been passed or sought since the last Reset. */
    ghost predicate Fresh()
      reads this
    {
      lastTime == MIN_INT64 && it.pos == 0
    }

    constructor (it: Base<int>, delta: int)
      requires it.Valid() && it.pos == -1 && 0 <= delta
      ensures Valid() && this.it == it.Next() && this.delta == delta == buf.delta
      ensures lastTime == floor == MIN_INT64 && fresh(buf) && fresh(buf.buf)
    {
      this.it := it.Next();
      hasValue := it.Next().Ok();
      this.delta := delta;
      buf := new Ring(delta);
      lastTime, floor, start := MIN_INT64, MIN_INT64, 0;
    }

    method Reset(newIt: Base<int>)
      requires Valid() && newIt.Valid() && newIt.pos == -1
      modifies this, buf
      ensures Valid() && it == newIt.Next() && buf.delta == delta && buf.buf == old(buf.buf)
      ensures lastTime == floor == MIN_INT64
    {
      hide Reduced, IsSeries;
      ReducedNothing(newIt.samples, delta);
      lastTime, floor, start := MIN_INT64, MIN_INT64, 0;
      buf.Reset();
      buf.delta := delta;
      it := newIt.Next();
      hasValue := it.Ok();
    }

    method ReduceDelta(d: int) returns (ok: bool)
      requires Valid() && 0 <= d
      modifies buf
      ensures Valid() && buf.buf == old(buf.buf)
      ensures ok <==> d <= old(buf.delta)
      ensures buf.delta == if ok then d else old(buf.delta)
    {
      if d <= buf.delta {
        ReduceReduced(it.samples[start..it.pos], buf.delta, d);
      }
      ok := buf.ReduceDelta(d);
    }

    method Next() returns (ok: bool)
      requires Valid()
      modifies this, buf, buf.buf
      ensures Valid() && it == old(it.Next()) && buf.delta == old(buf.delta) && floor == old(floor)
      ensures buf.buf == old(buf.buf) || fresh(buf.buf)
      ensures ok == hasValue
      ensures ok ==> lastTime == it.At().t
    {
      hide Reduced, DropBefore;
      if !hasValue {
        return false;
      }
      AddPassed(it, start, buf.delta);
      buf.AddF(it.At());
      it := it.Next();
      hasValue := it.Ok();
      if hasValue {
        lastTime := it.At().t;
      }
      return hasValue;
    }
  
    /** The jump of Seek: the buffer is emptied and the base iterator moves straight to the look-back's start. */
    method Jump(t0: int)
      requires Valid() && hasValue && lastTime < t0
      modifies this, buf
      ensures Valid() && it == old(it.Seek(t0)) && buf.delta == old(buf.delta) && buf.buf == old(buf.buf)
      ensures floor == t0
      ensures hasValue ==> lastTime == it.At().t
    {
      hide Cut, DropBefore;
      buf.Reset();
      it := it.Seek(t0);
      hasValue := it.Ok();
      start, floor := it.pos, t0;
      if hasValue {
        lastTime := it.At().t;
      }
    }

    /** The base iterator ends at the first sample from its old position on that is not before t. */
    method Seek(t: int) returns (ok: bool)
      requires Valid()
      modifies this, buf, buf.buf
      ensures Valid() && it == old(SeekEnd(t)) && buf.delta == old(buf.delta)
      ensures MIN_INT64 < t - buf.delta ==> it == old(it.Seek(t))
      ensures floor == old(floor) || floor == Minus64(t, buf.delta)
      ensures buf.buf == old(buf.buf) || fresh(buf.buf)
      ensures ok == hasValue
    {
      hide Reduced, DropBefore, SeekPos, Ring.Valid;
      var t0 := Minus64(t, buf.delta);
      if hasValue && t0 > lastTime {
        if t0 <= t {
          SeekSeek(it, t0, t);
        }
        Jump(t0);
        if !hasValue {
          SeekStays(it, t);
          return false;
        }
      }
      if lastTime >= t {
        SeekStays(it, t);
        return hasValue;
      }
      ok := NextUntil(t);
    }

    /**
      Where Seek ends: at the first sample from the current one on that is not before t, with two exceptions
      at the lower end of int64.  If t minus the look-back wraps around, it goes to the time that results; and if it
      is the sentinel of an iterator just reset, the first sample is passed without being looked at.
     */
    ghost function SeekEnd(t: int): Base<int>
      requires it.Valid() && 0 <= it.pos
      reads this, buf
    {
      var t0 := Minus64(t, buf.delta);
      if hasValue && lastTime < t0 && t < t0 then it.Seek(t0)
      else if hasValue && Fresh() && t0 <= MIN_INT64 < t then it.Next().Seek(t)
      else it.Seek(t)
    }

    /** The loop of Seek: it always takes a step before it looks. */
    method NextUntil(t: int) returns (ok: bool)
      requires Valid()
      modifies this, buf, buf.buf
      ensures Valid() && it == old(it.Next().Seek(t)) && buf.delta == old(buf.delta) && floor == old(floor)
      ensures old(hasValue ==> it.At().t < t) ==> it == old(it.Seek(t))
      ensures buf.buf == old(buf.buf) || fresh(buf.buf)
      ensures ok == hasValue
    {
      hide Reduced, DropBefore, SeekPos, Ring.Valid;
      if hasValue && it.At().t < t {
        NextSeek(it, t);
      }
      while true
        invariant Valid() && buf.delta == old(buf.delta) && floor == old(floor)
        invariant buf.buf == old(buf.buf) || fresh(buf.buf)
        invariant it.Next().Seek(t) == old(it.Next().Seek(t))
        decreases |it.samples| - it.pos, hasValue
      {
        var more := Next();
        if !more || lastTime >= t {
          SeekStays(it, t);
          return hasValue;
        }
        NextSeek(it, t);
      }
    }
  }

  lemma {:induction false} ReducedNothing(s: seq<FSample>, delta: int)
    ensures Reduced(s[0..0], delta) == []
  {
  }

  lemma {:induction false} AddPassed(it: Base<int>, start: int, delta: int)
    requires it.Valid() && it.Ok() && 0 <= start <= it.pos && 0 <= delta
    ensures DropBefore(Reduced(it.samples[start..it.pos], delta) + [it.At()], it.At().t - delta)
         == Reduced(it.samples[start..it.pos + 1], delta)
  {
    var a := it.samples[start..it.pos];
    assert a + [it.At()] == it.samples[start..it.pos + 1];
    assert Newer(it.At(), a);
    AddReduced(a, delta, it.At());
  }
}

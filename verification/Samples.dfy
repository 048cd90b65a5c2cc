/**
  Samples of one series, as every iterator of the storage layer hands them out:
  strictly increasing times, all above the MinInt64 sentinel.  A float is its
  IEEE 754 bit pattern, because the staleness marker is one particular NaN.
 */
module Samples {

  const MIN_INT64: int := -0x8000_0000_0000_0000
  const TWO_TO_THE_64: int := 0x1_0000_0000_0000_0000

  /** a - b for an int64 a and a b that is not negative, as it wraps around. */
  function Minus64(a: int, b: int): int {
    if a - b < MIN_INT64 then a - b + TWO_TO_THE_64 else a - b
  }

  /** It is the int64 that differs from a - b by a multiple of two to the 64. */
  lemma {:induction false} Minus64Wraps(a: int, b: int, x: int)
    requires MIN_INT64 <= a < -MIN_INT64 && 0 <= b < -MIN_INT64
    ensures MIN_INT64 <= Minus64(a, b) < -MIN_INT64 && (Minus64(a, b) - (a - b)) % 0x1_0000_0000_0000_0000 == 0
    ensures MIN_INT64 <= x < -MIN_INT64 && (x - (a - b)) % 0x1_0000_0000_0000_0000 == 0 ==> x == Minus64(a, b)
  {
    assert a - b < MIN_INT64 ==> a - b + TWO_TO_THE_64 == Minus64(a, b);
  }

  const STALE_NAN: int := 0x7ff0_0000_0000_0002

  datatype Option<+T> = None | Some(value: T)

  datatype Sample<+V> = Sample(t: int, v: V)

  /** A float sample; its value is the bit pattern. */
  type FSample = Sample<int>

  predicate IsStaleNaN(f: int) {
    f == STALE_NAN
  }

  ghost predicate Increasing<V>(s: seq<Sample<V>>) {
    forall i, j :: 0 <= i < j < |s| ==> s[i].t < s[j].t
  }

  /** What a base iterator promises about the samples it runs over. */
  ghost predicate IsSeries<V>(s: seq<Sample<V>>) {
    && Increasing(s)
    && forall i :: 0 <= i < |s| ==> MIN_INT64 < s[i].t
  }

  /** The reference reading of a range selector: the non-stale samples with lo <= T <= hi. */
  function Window(s: seq<FSample>, lo: int, hi: int): seq<FSample> {
    if s == [] then []
    else
      var n := |s| - 1;
      Window(s[..n], lo, hi) + if InWindow(s[n], lo, hi) then [s[n]] else []
  }

  predicate InWindow(x: FSample, lo: int, hi: int) {
    lo <= x.t <= hi && !IsStaleNaN(x.v)
  }

  lemma {:induction false} WindowMembers(s: seq<FSample>, lo: int, hi: int)
    ensures forall x :: x in Window(s, lo, hi) <==> x in s && InWindow(x, lo, hi)
  {
    if s != [] {
      var n := |s| - 1;
      WindowMembers(s[..n], lo, hi);
      assert s == s[..n] + [s[n]];
    }
  }

  lemma {:induction false} WindowIncreasing(s: seq<FSample>, lo: int, hi: int)
    requires Increasing(s)
    ensures Increasing(Window(s, lo, hi))
  {
    if s != [] {
      var n := |s| - 1;
      WindowIncreasing(s[..n], lo, hi);
      WindowMembers(s[..n], lo, hi);
      assert forall x :: x in s[..n] ==> x.t < s[n].t;
    }
  }

  lemma {:induction false} FirstIsMember(s: seq<FSample>)
    ensures s != [] ==> s[0] in s
  {
  }

  /** An increasing sequence is determined by its members. */
  lemma {:induction false} IncreasingUnique(a: seq<FSample>, b: seq<FSample>)
    requires Increasing(a) && Increasing(b)
    requires forall x :: x in a <==> x in b
    ensures a == b
  {
    if b == [] {
      FirstIsMember(a);
    } else {
      assert b[0] in a;
      assert a[0] in b;
      assert a[0] == b[0];
      forall x
        ensures x in a[1..] <==> x in b[1..]
      {
        assert x in a[1..] <==> x in a && x != a[0];
        assert x in b[1..] <==> x in b && x != b[0];
      }
      IncreasingUnique(a[1..], b[1..]);
      assert a == [a[0]] + a[1..];
      assert b == [b[0]] + b[1..];
    }
  }

  /** c is the least position of s that holds a sample not older than tmin. */
  ghost predicate IsCut(s: seq<FSample>, tmin: int, c: int) {
    && 0 <= c <= |s|
    && (forall i :: 0 <= i < c ==> s[i].t < tmin)
    && (c < |s| ==> tmin <= s[c].t)
  }

  lemma {:induction false} CutExists(s: seq<FSample>, tmin: int)
    ensures exists c :: IsCut(s, tmin, c)
  {
    var c := 0;
    while c < |s| && s[c].t < tmin
      invariant 0 <= c <= |s|
      invariant forall i :: 0 <= i < c ==> s[i].t < tmin
    {
      c := c + 1;
    }
    assert IsCut(s, tmin, c);
  }

  ghost function Cut(s: seq<FSample>, tmin: int): (c: int)
    ensures IsCut(s, tmin, c)
  {
    CutExists(s, tmin);
    var c :| IsCut(s, tmin, c);
    c
  }

  /** The samples of s from the first one that is not older than tmin. */
  ghost function DropBefore(s: seq<FSample>, tmin: int): seq<FSample> {
    s[Cut(s, tmin)..]
  }

  /** On an increasing sequence the cut keeps exactly the members that are not too old. */
  lemma {:induction false} DropMembers(s: seq<FSample>, tmin: int)
    requires Increasing(s)
    ensures Increasing(DropBefore(s, tmin))
    ensures forall x :: x in DropBefore(s, tmin) <==> x in s && tmin <= x.t
  {
    var c := Cut(s, tmin);
    forall x
      ensures x in s[c..] <==> x in s && tmin <= x.t
    {
      if x in s && tmin <= x.t {
        var i :| 0 <= i < |s| && s[i] == x;
        assert s[c..][i - c] == x;
      }
    }
  }

  /** One round of a Go range over a map: any key that is left. */
  method AnyOf<T>(s: set<T>) returns (x: T)
    requires s != {}
    ensures x in s
  {
    x :| x in s;
  }
}

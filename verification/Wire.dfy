/**
  Fields on the wire: a tag and a payload, written backwards into a buffer and read forwards.
  A field whose number a message does not know is skipped and its bytes are kept.
 */
module Wire {

  import opened Varint
  import opened Samples

  // ---------------------------------------------------------------------------
  // Reading

  datatype Tag = NoTag | Tag(num: int, wireType: int, n: int)

  /** The key of a field; an end-group and a number that is not positive are errors. */
  function ReadTag(d: seq<int>): (r: Tag)
    ensures r.Tag? ==> 0 < r.n <= |d| && 0 < r.num
  {
    match ReadVarint(d, 0)
    case Fail => NoTag
    case Read(v, n) =>
      var wire := Uint64(v);
      if wire % 8 == 4 || Int32(wire / 8) <= 0 then NoTag else Tag(Int32(wire / 8), wire % 8, n)
  }

  datatype Chunk = NoChunk | Chunk(bytes: seq<int>, n: int)

  /** A length and that many bytes; a length that is negative as an int is an error. */
  function ReadChunk(d: seq<int>): (r: Chunk)
    ensures r.Chunk? ==> 0 < r.n <= |d| && |r.bytes| <= |d|
  {
    match ReadVarint(d, 0)
    case Fail => NoChunk
    case Read(v, n) =>
      var len := Int64(v);
      if len < 0 || n + len > |d| then NoChunk else Chunk(d[n..n + len], n + len)
  }

  /** Past the payload of a field of this wire type, possibly past the end of d. */
  function SkipPayload(d: seq<int>, i: int, wireType: int): (r: Option<int>)
    requires 0 <= i <= |d|
    ensures r.Some? ==> i <= r.value
  {
    match wireType
    case 0 => (match ReadVarint(d[i..], 0) case Fail => None case Read(v, n) => Some(i + n))
    case 1 => Some(i + 8)
    case 2 => (match ReadVarint(d[i..], 0) case Fail => None
               case Read(v, n) => if Int64(v) < 0 then None else Some(i + n + Int64(v)))
    case 3 => Some(i)
    case 4 => Some(i)
    case 5 => Some(i + 4)
    case _ => None
  }

  /** The depth of nested groups after a field of this wire type. */
  function Depth(depth: int, wireType: int): int {
    if wireType == 3 then depth + 1 else if wireType == 4 then depth - 1 else depth
  }

  /** skipTypes: past one field, with all it contains when it is a group. */
  function SkipFrom(d: seq<int>, i: int, depth: int): (r: Option<int>)
    requires 0 <= i
    ensures r.Some? ==> i < r.value
    decreases |d| - i
  {
    if i >= |d| then None
    else
      match ReadVarint(d[i..], 0)
      case Fail => None
      case Read(v, n) =>
        var wireType := Uint64(v) % 8;
        match SkipPayload(d, i + n, wireType)
        case None => None
        case Some(j) =>
          if Depth(depth, wireType) < 0 then None
          else if Depth(depth, wireType) == 0 then Some(j)
          else SkipFrom(d, j, Depth(depth, wireType))
  }

  method SkipTypes(d: seq<int>) returns (r: Option<int>)
    ensures r == SkipFrom(d, 0, 0)
  {
    hide ReadVarint;
    var i, depth := 0, 0;
    while i < |d|
      invariant 0 <= i && 0 <= depth && SkipFrom(d, 0, 0) == SkipFrom(d, i, depth)
      decreases |d| - i
    {
      var w := DecodeVarint(d, i, TWO_64);
      if w.Fail? {
        return None;
      }
      var j := SkipPayload(d, i + w.n, w.v % 8);
      if j.None? || (w.v % 8 == 4 && depth == 0) {
        return None;
      }
      i, depth := j.value, Depth(depth, w.v % 8);
      if depth == 0 {
        return Some(i);
      }
    }
    return None;
  }

  /** The bytes of d from i on, when they start inside the part of d that is kept. */
  lemma {:induction false} KeptSlice(d: seq<int>, i: int, n: int, j: int, e: seq<int>)
    requires 0 <= i && 0 <= n && i + n <= j <= |d|
    ensures (d[..j] + e)[i..] == d[i..][..n] + (d[i + n..j] + e)
  {
  }

  lemma {:induction false} ReadKept(d: seq<int>, i: int, j: int, e: seq<int>)
    requires 0 <= i <= j <= |d| && ReadVarint(d[i..], 0).Read? && i + ReadVarint(d[i..], 0).n <= j
    ensures ReadVarint((d[..j] + e)[i..], 0) == ReadVarint(d[i..], 0)
  {
    hide ReadVarint;
    var n := ReadVarint(d[i..], 0).n;
    ReadLocal(d[i..], 0, d[i + n..j] + e);
    KeptSlice(d, i, n, j, e);
  }

  lemma {:induction false} PayloadKept(d: seq<int>, i: int, wireType: int, j: int, e: seq<int>)
    requires 0 <= i <= j <= |d| && SkipPayload(d, i, wireType).Some? && SkipPayload(d, i, wireType).value <= j
    ensures SkipPayload(d[..j] + e, i, wireType) == SkipPayload(d, i, wireType)
  {
    hide ReadVarint;
    if wireType == 0 || wireType == 2 {
      ReadKept(d, i, j, e);
    }
  }

  /** Skipping looks only at what it skips. */
  lemma {:induction false} SkipKept(d: seq<int>, i: int, depth: int, e: seq<int>)
    requires 0 <= i && SkipFrom(d, i, depth).Some? && SkipFrom(d, i, depth).value <= |d|
    ensures SkipFrom(d[..SkipFrom(d, i, depth).value] + e, i, depth) == SkipFrom(d, i, depth)
    decreases |d| - i
  {
    hide ReadVarint, SkipPayload;
    var j := SkipFrom(d, i, depth).value;
    var w := ReadVarint(d[i..], 0);
    var wireType := Uint64(w.v) % 8;
    ReadKept(d, i, j, e);
    PayloadKept(d, i + w.n, wireType, j, e);
    var k := SkipPayload(d, i + w.n, wireType).value;
    if Depth(depth, wireType) != 0 {
      SkipKept(d, k, Depth(depth, wireType), e);
    }
  }

  /** A field with a number above the known ones, skipped whole. */
  function Unknown(d: seq<int>): (r: Option<int>)
    ensures r.Some? ==> 0 < r.value <= |d|
  {
    var r := SkipFrom(d, 0, 0);
    if r.Some? && r.value <= |d| then r else None
  }

  lemma {:induction false} UnknownKept(d: seq<int>, e: seq<int>)
    requires Unknown(d).Some? && ReadTag(d).Tag?
    ensures Unknown(d[..Unknown(d).value] + e) == Unknown(d) && ReadTag(d[..Unknown(d).value] + e) == ReadTag(d)
  {
    hide ReadVarint, SkipPayload;
    var j := Unknown(d).value;
    SkipKept(d, 0, 0, e);
    assert d[0..] == d && (d[..j] + e)[0..] == d[..j] + e;
    ReadKept(d, 0, j, e);
  }

  /** Nothing but fields with numbers above the known ones. */
  ghost predicate AllUnknown(known: int, u: seq<int>) {
    |u| == 0 || (IsUnknown(known, u) && AllUnknown(known, u[Unknown(u).value..]))
  }

  ghost predicate IsUnknown(known: int, u: seq<int>) {
    ReadTag(u).Tag? && ReadTag(u).num > known && Unknown(u).Some?
  }

  /** Unknown fields can be collected one after the other. */
  lemma {:induction false} AllUnknownSnoc(known: int, u: seq<int>, d: seq<int>)
    requires AllUnknown(known, u) && IsUnknown(known, d)
    ensures AllUnknown(known, u + d[..Unknown(d).value])
  {
    hide SkipFrom, ReadTag, Unknown;
    var x := d[..Unknown(d).value];
    if |u| == 0 {
      assert u + x == x + [] == x;
      UnknownKept(d, []);
      assert x[|x|..] == [];
    } else {
      var n := Unknown(u).value;
      AllUnknownSnoc(known, u[n..], d);
      assert u + x == u[..n] + (u[n..] + x);
      UnknownKept(u, u[n..] + x);
      assert (u + x)[n..] == u[n..] + x;
    }
  }

  // ---------------------------------------------------------------------------
  // Writing backwards

  /** The buffer now holds x in [lo, hi) and is otherwise as it was. */
  ghost predicate Wrote(before: seq<int>, after: seq<int>, lo: int, hi: int, x: seq<int>) {
    && 0 <= lo <= hi <= |before| == |after| && hi - lo == |x|
    && after[lo..hi] == x
    && after[..lo] == before[..lo]
    && after[hi..] == before[hi..]
  }

  lemma {:induction false} WroteBoth(s: seq<int>, t: seq<int>, u: seq<int>, lo: int, mid: int, hi: int,
                                     x: seq<int>, y: seq<int>)
    requires Wrote(s, t, mid, hi, y) && Wrote(t, u, lo, mid, x)
    ensures Wrote(s, u, lo, hi, x + y)
  {
    assert u[lo..hi] == u[lo..mid] + u[mid..][..hi - mid];
    assert t[mid..][..hi - mid] == t[mid..hi];
    assert u[..lo] == t[..lo] == t[..mid][..lo] == s[..mid][..lo] == s[..lo];
    assert u[hi..] == u[mid..][hi - mid..] == t[mid..][hi - mid..] == t[hi..];
  }

  /** copy(dAtA[i-len(x):], x). */
  method CopyBack(a: array<int>, i: int, x: seq<int>) returns (lo: int)
    requires |x| <= i <= a.Length
    modifies a
    ensures Wrote(old(a[..]), a[..], lo, i, x)
  {
    lo := i - |x|;
    ghost var before := a[..];
    forall k | 0 <= k < |x| {
      a[lo + k] := x[k];
    }
    assert a[lo..i] == x;
  }

  method PutByte(a: array<int>, i: int, b: int) returns (lo: int)
    requires 0 < i <= a.Length
    modifies a
    ensures Wrote(old(a[..]), a[..], lo, i, [b])
  {
    lo := i - 1;
    a[lo] := b;
  }

  method PutVarint(a: array<int>, i: int, v: int) returns (lo: int)
    requires 0 <= v && |Encoded(v)| <= i <= a.Length
    modifies a
    ensures Wrote(old(a[..]), a[..], lo, i, Encoded(v))
  {
    SizeIsLength(v);
    hide SizeOf, Encoded;
    ghost var before := a[..];
    lo := EncodeVarint(a, i, v);
    assert a[..][..lo] == a[..lo] == before[..lo] && a[..][i..] == a[i..] == before[i..];
  }

  method PutFixed64(a: array<int>, i: int, v: int) returns (lo: int)
    requires 8 <= i <= a.Length && 0 <= v < TWO_64
    modifies a
    ensures Wrote(old(a[..]), a[..], lo, i, LittleEndian(v, 8))
  {
    Fixed64(v);
    hide LittleEndian;
    ghost var before := a[..];
    lo := i - 8;
    PutFixed(a, lo, v);
    assert a[..][..lo] == a[..lo] == before[..lo] && a[..][i..] == a[i..] == before[i..];
  }

  // ---------------------------------------------------------------------------
  // Reading at an index

  method TagAt(d: seq<int>, i: int) returns (r: Tag)
    requires 0 <= i <= |d|
    ensures r == ReadTag(d[i..])
  {
    hide ReadVarint;
    var w := DecodeVarint(d, i, TWO_64);
    if w.Fail? {
      return NoTag;
    }
    var fieldNum, wireType := Int32(w.v / 8), w.v % 8;
    if wireType == 4 {
      return NoTag;
    }
    if fieldNum <= 0 {
      return NoTag;
    }
    return Tag(fieldNum, wireType, w.n);
  }

  method ChunkAt(d: seq<int>, i: int) returns (r: Chunk)
    requires 0 <= i <= |d|
    ensures r == ReadChunk(d[i..])
  {
    hide ReadVarint;
    var w := DecodeVarint(d, i, TWO_64);
    if w.Fail? {
      return NoChunk;
    }
    var len := Int64(w.v);
    if len < 0 {
      return NoChunk;
    }
    var start := i + w.n;
    if start + len > |d| {
      return NoChunk;
    }
    assert d[i..][w.n..w.n + len] == d[start..start + len];
    return Chunk(d[start..start + len], w.n + len);
  }

  method UnknownAt(d: seq<int>, i: int) returns (r: Option<int>)
    requires 0 <= i <= |d|
    ensures r == Unknown(d[i..])
  {
    hide SkipFrom;
    r := SkipTypes(d[i..]);
    if r.Some? && i + r.value > |d| {
      return None;
    }
  }
}

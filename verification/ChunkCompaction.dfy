/**
  storage/merge.go and storage/series.go: compactChunkIterator, which turns the
  overlapping chunks of one series into ordered chunks without overlap, and the
  re-encoding of merged samples into chunks.  Float samples.
 */
module ChunkCompaction {
  import opened Samples
  import opened ChainIterator

  const MAX_INT64: int := 0x7fff_ffff_ffff_ffff
  const SERIES_TO_CHUNK_ENCODER_SPLIT: int := 120

  datatype Chunk = Chunk(minTime: int, maxTime: int, samples: seq<FSample>)

  ghost predicate InInt64(s: seq<FSample>) {
    forall k :: 0 <= k < |s| ==> s[k].t <= MAX_INT64
  }

  /** A chunk that is not empty, is ordered, and whose meta times are those of its first and last sample. */
  ghost predicate GoodChunk(c: Chunk) {
    && c.samples != [] && IsSeries(c.samples) && InInt64(c.samples)
    && c.minTime == c.samples[0].t && c.maxTime == c.samples[|c.samples| - 1].t
  }

  // ---------------------------------------------------------------------------
  // seriesToChunkEncoder

  function Flatten(chks: seq<Chunk>): seq<FSample> {
    if chks == [] then [] else Flatten(chks[..|chks| - 1]) + chks[|chks| - 1].samples
  }

  /** appendChunk: nothing is appended while there is no chunk yet. */
  function AppendChunk(chks: seq<Chunk>, mint: int, maxt: int, chk: Option<seq<FSample>>): seq<Chunk> {
    if chk.Some? then chks + [Chunk(mint, maxt, chk.value)] else chks
  }

  /** Full chunks of at most 120 samples with exact times, which together are the series. */
  method Encode(s: seq<FSample>) returns (chks: seq<Chunk>)
    requires IsSeries(s) && InInt64(s)
    ensures Flatten(chks) == s
    ensures forall k :: 0 <= k < |chks| ==> GoodChunk(chks[k]) && |chks[k].samples| <= 120
    ensures forall k :: 0 <= k < |chks| - 1 ==> |chks[k].samples| == 120
  {
    hide Flatten, GoodChunk;
    var chk := None;
    var mint, maxt := MAX_INT64, MIN_INT64;
    var i := 0;
    chks := [];
    FlattenEmpty();
    for n := 0 to |s|
      invariant chk.None? <==> n == 0
      invariant chk.None? ==> chks == [] && mint == MAX_INT64
      invariant chk.Some? ==> 0 < i == |chk.value| <= SERIES_TO_CHUNK_ENCODER_SPLIT
      invariant chk.Some? ==> GoodChunk(Chunk(mint, maxt, chk.value)) && maxt == s[n - 1].t
      invariant Flatten(chks) + (if chk.Some? then chk.value else []) == s[..n]
      invariant forall k :: 0 <= k < |chks| ==> GoodChunk(chks[k]) && |chks[k].samples| == SERIES_TO_CHUNK_ENCODER_SPLIT
    {
      if chk.None? || i >= SERIES_TO_CHUNK_ENCODER_SPLIT {
        if chk.Some? {
          FlattenSnoc(chks, Chunk(mint, maxt, chk.value));
        }
        chks := AppendChunk(chks, mint, maxt, chk);
        chk := Some([]);
        mint := MAX_INT64;
        i := 0;
      }
      AddToChunk(chk.value, mint, maxt, s[n]);
      AddToPrefix(Flatten(chks), chk.value, s, n);
      chk := Some(chk.value + [s[n]]);
      maxt := s[n].t;
      if mint == MAX_INT64 {
        mint := s[n].t;
      }
      i := i + 1;
    }
    if chk.Some? {
      FlattenSnoc(chks, Chunk(mint, maxt, chk.value));
    }
    chks := AppendChunk(chks, mint, maxt, chk);
    assert s[..|s|] == s;
  }

  /** An empty chunk is told by its minimum time, which no later sample can exceed. */
  lemma {:induction false} AddToChunk(s: seq<FSample>, mint: int, maxt: int, x: FSample)
    requires if s == [] then mint == MAX_INT64 else GoodChunk(Chunk(mint, maxt, s)) && maxt < x.t
    requires MIN_INT64 < x.t <= MAX_INT64
    ensures GoodChunk(Chunk(if mint == MAX_INT64 then x.t else mint, x.t, s + [x]))
  {
    assert forall k :: 0 <= k < |s| ==> s[k].t <= maxt || s == [];
  }

  lemma {:induction false} AddToPrefix(done: seq<FSample>, part: seq<FSample>, s: seq<FSample>, n: int)
    requires 0 <= n < |s| && done + part == s[..n]
    ensures done + (part + [s[n]]) == s[..n + 1]
  {
  }

  lemma {:induction false} FlattenEmpty()
    ensures Flatten([]) == []
  {
  }

  lemma {:induction false} FlattenSnoc(chks: seq<Chunk>, c: Chunk)
    ensures Flatten(chks + [c]) == Flatten(chks) + c.samples
  {
    assert (chks + [c])[..|chks|] == chks;
  }

  // ---------------------------------------------------------------------------
  // The heap of chunk iterators: what each of them still has to deliver, its head being At()

  type ChunkHeap = seq<seq<Chunk>>

  ghost predicate HasChunk(h: ChunkHeap, c: Chunk) {
    exists i, j :: 0 <= i < |h| && 0 <= j < |h[i]| && h[i][j] == c
  }

  /** Every list is not empty, holds good chunks, and is sorted by minimum time. */
  ghost predicate GoodHeap(h: ChunkHeap) {
    forall i :: 0 <= i < |h| ==> GoodList(h[i]) && h[i] != []
  }

  ghost predicate GoodList(l: seq<Chunk>) {
    && (forall j :: 0 <= j < |l| ==> GoodChunk(l[j]))
    && (forall j, k :: 0 <= j < k < |l| ==> l[j].minTime <= l[k].minTime)
  }

  /** chunkIteratorHeap.Less */
  predicate Less(a: Chunk, b: Chunk) {
    if a.minTime == b.minTime then a.maxTime < b.maxTime else a.minTime < b.minTime
  }

  /** container/heap: the place of an iterator none is less than. */
  method TopOf(h: ChunkHeap) returns (m: int)
    requires h != [] && forall i :: 0 <= i < |h| ==> h[i] != []
    ensures 0 <= m < |h| && forall i :: 0 <= i < |h| ==> !Less(h[i][0], h[m][0])
  {
    m := 0;
    for i := 1 to |h|
      invariant 0 <= m < |h|
      invariant forall j :: 0 <= j < i ==> !Less(h[j][0], h[m][0])
    {
      if Less(h[i][0], h[m][0]) {
        m := i;
      }
    }
  }

  /** Pop the iterator at m, take its chunk, and push it back if it has another. */
  function Advance(h: ChunkHeap, m: int): ChunkHeap
    requires 0 <= m < |h| && h[m] != []
  {
    h[..m] + h[m + 1..] + if |h[m]| > 1 then [h[m][1..]] else []
  }

  lemma {:induction false} AdvanceTakes(h: ChunkHeap, m: int, c: Chunk)
    requires 0 <= m < |h| && h[m] != []
    ensures HasChunk(h, c) <==> c == h[m][0] || HasChunk(Advance(h, m), c)
  {
    var r := Advance(h, m);
    if HasChunk(h, c) && c != h[m][0] {
      var i, j :| 0 <= i < |h| && 0 <= j < |h[i]| && h[i][j] == c;
      if i < m {
        assert r[i][j] == c;
      } else if i > m {
        assert r[i - 1][j] == c;
      } else {
        assert r[|h| - 1] == h[m][1..] && h[m][1..][j - 1] == c;
      }
    }
    if HasChunk(r, c) {
      var i, j :| 0 <= i < |r| && 0 <= j < |r[i]| && r[i][j] == c;
      if i < m {
        assert h[i][j] == c;
      } else if i < |h| - 1 {
        assert h[i + 1][j] == c;
      } else {
        assert h[m][j + 1] == c;
      }
    }
    if c == h[m][0] {
      assert h[m][0] == c;
    }
  }

  lemma {:induction false} AdvanceGood(h: ChunkHeap, m: int)
    requires GoodHeap(h) && 0 <= m < |h|
    ensures GoodHeap(Advance(h, m))
  {
    var l := h[m][1..];
    assert GoodList(h[m]) && h[m] != [];
    assert GoodList(l);
  }

  /** No chunk starts before the top. */
  lemma {:induction false} TopIsLeast(h: ChunkHeap, m: int)
    requires GoodHeap(h) && 0 <= m < |h| && h[m] != [] && forall i :: 0 <= i < |h| ==> h[i] != []
    requires forall i :: 0 <= i < |h| ==> !Less(h[i][0], h[m][0])
    ensures NoneBefore(h, h[m][0].minTime)
  {
    forall c | HasChunk(h, c)
      ensures h[m][0].minTime <= c.minTime
    {
      var i, j :| 0 <= i < |h| && 0 <= j < |h[i]| && h[i][j] == c;
      assert GoodList(h[i]);
      assert h[i][0].minTime <= h[i][j].minTime;
    }
  }

  ghost predicate NoneBefore(h: ChunkHeap, t: int) {
    forall c :: HasChunk(h, c) ==> t <= c.minTime
  }

  ghost predicate AllAfter(h: ChunkHeap, t: int) {
    forall c :: HasChunk(h, c) ==> t < c.minTime
  }

  /** Sample counts, which bound how often Next can be called. */
  ghost function ListSize(l: seq<Chunk>): nat {
    if l == [] then 0 else ListSize(l[..|l| - 1]) + |l[|l| - 1].samples|
  }

  ghost function HeapSize(h: ChunkHeap): nat {
    if h == [] then 0 else HeapSize(h[..|h| - 1]) + ListSize(h[|h| - 1])
  }

  lemma {:induction false} ListSizeConcat(a: seq<Chunk>, b: seq<Chunk>)
    ensures ListSize(a + b) == ListSize(a) + ListSize(b)
  {
    if b == [] {
      assert a + b == a;
    } else {
      ListSizeConcat(a, b[..|b| - 1]);
      assert (a + b)[..|a + b| - 1] == a + b[..|b| - 1];
    }
  }

  lemma {:induction false} HeapSizeConcat(a: ChunkHeap, b: ChunkHeap)
    ensures HeapSize(a + b) == HeapSize(a) + HeapSize(b)
  {
    if b == [] {
      assert a + b == a;
    } else {
      HeapSizeConcat(a, b[..|b| - 1]);
      assert (a + b)[..|a + b| - 1] == a + b[..|b| - 1];
    }
  }

  lemma {:induction false} AdvanceSize(h: ChunkHeap, m: int)
    requires 0 <= m < |h| && h[m] != []
    ensures HeapSize(Advance(h, m)) == HeapSize(h) - |h[m][0].samples|
  {
    var l := h[m];
    assert h == h[..m] + [l] + h[m + 1..];
    assert l == [l[0]] + l[1..];
    HeapSizeConcat(h[..m], [l]);
    HeapSizeConcat(h[..m] + [l], h[m + 1..]);
    HeapSizeConcat(h[..m], h[m + 1..]);
    HeapSizeConcat(h[..m] + h[m + 1..], [l[1..]]);
    ListSizeConcat([l[0]], l[1..]);
    SizeOfOne(l);
    SizeOfOne(l[1..]);
    SizeOfOne([l[0]]);
    if |l| == 1 {
      assert l[1..] == [];
      assert Advance(h, m) == h[..m] + h[m + 1..];
    }
  }

  lemma {:induction false} SizeOfOne(l: seq<Chunk>)
    ensures HeapSize([l]) == ListSize(l)
    ensures |l| == 1 ==> ListSize(l) == |l[0].samples|
  {
    assert [l][..0] == [];
    if |l| == 1 {
      assert l[..0] == [];
    }
  }

  // ---------------------------------------------------------------------------
  // Merging a group of overlapping chunks

  ghost predicate ListTime(l: seq<Chunk>, t: int) {
    exists j :: 0 <= j < |l| && HasTime(l[j].samples, t)
  }

  ghost predicate ListSample(l: seq<Chunk>, x: FSample) {
    exists j :: 0 <= j < |l| && x in l[j].samples
  }

  /** Good chunks, one after the other in time. */
  ghost predicate Ordered(l: seq<Chunk>) {
    && (forall j :: 0 <= j < |l| ==> GoodChunk(l[j]))
    && (forall j, k :: 0 <= j < k < |l| ==> l[j].maxTime < l[k].minTime)
  }

  lemma {:induction false} FlattenTimes(l: seq<Chunk>, t: int)
    ensures HasTime(Flatten(l), t) <==> ListTime(l, t)
  {
    if l != [] {
      var n := |l| - 1;
      FlattenTimes(l[..n], t);
      ConcatTimes(Flatten(l[..n]), l[n].samples, t);
      if ListTime(l[..n], t) {
        var j :| 0 <= j < n && HasTime(l[..n][j].samples, t);
        assert HasTime(l[j].samples, t);
      }
      if ListTime(l, t) && !HasTime(l[n].samples, t) {
        var j :| 0 <= j < |l| && HasTime(l[j].samples, t);
        assert HasTime(l[..n][j].samples, t);
      }
    }
  }

  lemma {:induction false} ConcatTimes(a: seq<FSample>, b: seq<FSample>, t: int)
    ensures HasTime(a + b, t) <==> HasTime(a, t) || HasTime(b, t)
  {
    if HasTime(a, t) {
      var k :| 0 <= k < |a| && a[k].t == t;
      assert (a + b)[k].t == t;
    }
    if HasTime(b, t) {
      var k :| 0 <= k < |b| && b[k].t == t;
      assert (a + b)[|a| + k].t == t;
    }
  }

  lemma {:induction false} FlattenSamples(l: seq<Chunk>, x: FSample)
    ensures ListSample(l, x) ==> x in Flatten(l)
  {
    if ListSample(l, x) {
      var n := |l| - 1;
      var j :| 0 <= j < |l| && x in l[j].samples;
      if j < n {
        assert x in l[..n][j].samples;
        FlattenSamples(l[..n], x);
      }
    }
  }

  lemma {:induction false} FlattenOrdered(l: seq<Chunk>)
    requires Increasing(Flatten(l)) && forall j :: 0 <= j < |l| ==> GoodChunk(l[j])
    ensures Ordered(l)
  {
    if l != [] {
      var n := |l| - 1;
      var f := Flatten(l[..n]);
      assert Flatten(l) == f + l[n].samples;
      assert Increasing(f) by {
        assert forall k :: 0 <= k < |f| ==> f[k] == Flatten(l)[k];
      }
      FlattenOrdered(l[..n]);
      forall j | 0 <= j < n
        ensures l[j].maxTime < l[n].minTime
      {
        var last := l[j].samples[|l[j].samples| - 1];
        assert l[..n][j] == l[j] && last in l[j].samples;
        FlattenSamples(l[..n], last);
        var k :| 0 <= k < |f| && f[k] == last;
        assert Flatten(l)[k] == last && Flatten(l)[|f|] == l[n].samples[0];
      }
    }
  }

  lemma {:induction false} FlattenSize(l: seq<Chunk>)
    ensures |Flatten(l)| == ListSize(l)
  {
    if l != [] {
      FlattenSize(l[..|l| - 1]);
    }
  }

  /** A union has at most as many times as its inputs have samples. */
  lemma {:induction false} UnionSize(l: seq<Chunk>)
    ensures |Union(SamplesOf(l))| <= ListSize(l)
  {
    if l != [] {
      var n := |l| - 1;
      UnionSize(l[..n]);
      assert SamplesOf(l)[..n] == SamplesOf(l[..n]);
      InsertAllSize(Union(SamplesOf(l[..n])), l[n].samples);
    }
  }

  lemma {:induction false} InsertAllSize(u: Times, s: seq<FSample>)
    ensures |InsertAll(u, s)| <= |u| + |s|
  {
    if s != [] {
      InsertAllSize(u, s[..|s| - 1]);
      InsertSize(InsertAll(u, s[..|s| - 1]), s[|s| - 1].t);
    }
  }

  lemma {:induction false} InsertSize(u: Times, t: int)
    ensures |Insert(u, t)| <= |u| + 1
  {
    if u != [] && t < u[|u| - 1].t {
      InsertSize(u[..|u| - 1], t);
    }
  }

  function SamplesOf(l: seq<Chunk>): seq<seq<FSample>> {
    seq(|l|, j requires 0 <= j < |l| => l[j].samples)
  }

  lemma {:induction false} UnionTimes(l: seq<Chunk>, t: int)
    requires forall j :: 0 <= j < |l| ==> GoodChunk(l[j])
    ensures IsSeries(Union(SamplesOf(l)))
    ensures HasTime(Union(SamplesOf(l)), t) <==> ListTime(l, t)
  {
    var ins := SamplesOf(l);
    UnionIsUnion(ins);
    if InUnion(ins, t) {
      var i :| 0 <= i < |ins| && HasTime(ins[i], t);
      assert HasTime(l[i].samples, t);
    }
    if ListTime(l, t) {
      var j :| 0 <= j < |l| && HasTime(l[j].samples, t);
      assert HasTime(ins[j], t);
    }
  }

  lemma {:induction false} MergeSound(m: seq<FSample>, l: seq<Chunk>)
    requires forall j :: 0 <= j < |l| ==> GoodChunk(l[j])
    requires IsMerge(m, Union(SamplesOf(l)), SamplesOf(l))
    ensures IsSeries(m) && Increasing(m) && InInt64(m)
    ensures forall x :: x in m ==> ListSample(l, x)
    ensures forall t :: HasTime(m, t) <==> ListTime(l, t)
  {
    hide Union, GoodChunk;
    var u := Union(SamplesOf(l));
    UnionTimes(l, 0);
    forall k | 0 <= k < |m|
      ensures ListSample(l, m[k]) && m[k].t <= MAX_INT64
    {
      MergedSample(m, u, l, k);
    }
    forall t
      ensures HasTime(m, t) <==> ListTime(l, t)
    {
      UnionTimes(l, t);
      SameTimes(m, u, t);
    }
  }

  lemma {:induction false} MergedSample(m: seq<FSample>, u: Times, l: seq<Chunk>, k: int)
    requires forall j :: 0 <= j < |l| ==> GoodChunk(l[j])
    requires IsMerge(m, u, SamplesOf(l)) && 0 <= k < |m|
    ensures ListSample(l, m[k]) && m[k].t <= MAX_INT64
  {
    var ins := SamplesOf(l);
    var i := MergedFrom(m, u, ins, k);
    assert m[k] in l[i].samples && GoodChunk(l[i]);
  }

  lemma {:induction false} SameTimes(m: seq<FSample>, u: Times, t: int)
    requires |m| == |u| && forall k :: 0 <= k < |m| ==> m[k].t == u[k].t
    ensures HasTime(m, t) <==> HasTime(u, t)
  {
    if HasTime(u, t) {
      var k :| 0 <= k < |u| && u[k].t == t;
      assert m[k].t == t;
    }
    if HasTime(m, t) {
      var k :| 0 <= k < |m| && m[k].t == t;
      assert u[k].t == t;
    }
  }

  /** The overlapping chunks, merged and encoded again. */
  method MergeChunks(l: seq<Chunk>) returns (chks: seq<Chunk>)
    requires l != [] && forall j :: 0 <= j < |l| ==> GoodChunk(l[j])
    ensures chks != [] && Ordered(chks)
    ensures forall j :: 0 <= j < |chks| ==> |chks[j].samples| <= 120
    ensures forall t :: ListTime(chks, t) <==> ListTime(l, t)
    ensures forall x :: ListSample(chks, x) ==> ListSample(l, x)
    ensures ListSize(chks) <= ListSize(l)
  {
    hide Flatten, Union, ListSize, GoodChunk, SamplesOf, IsSeries, InInt64;
    GoodSamples(l);
    var m := Drain(SamplesOf(l));
    MergeSound(m, l);
    chks := Encode(m);
    FlattenOrdered(chks);
    FlattenSize(chks);
    UnionSize(l);
    forall t
      ensures ListTime(chks, t) <==> ListTime(l, t)
    {
      FlattenTimes(chks, t);
    }
    forall x
      ensures ListSample(chks, x) ==> ListSample(l, x)
    {
      FlattenSamples(chks, x);
    }
    FirstTime(l);
  }

  lemma {:induction false} GoodSamples(l: seq<Chunk>)
    requires forall j :: 0 <= j < |l| ==> GoodChunk(l[j])
    ensures |SamplesOf(l)| == |l| && forall i :: 0 <= i < |l| ==> IsSeries(SamplesOf(l)[i])
  {
  }

  lemma {:induction false} FirstTime(l: seq<Chunk>)
    requires l != [] && GoodChunk(l[0])
    ensures ListTime(l, l[0].minTime)
  {
    assert HasTime(l[0].samples, l[0].minTime);
  }

  // ---------------------------------------------------------------------------
  // compactChunkIterator

  ghost predicate HeapTime(h: ChunkHeap, t: int) {
    exists c :: HasChunk(h, c) && HasTime(c.samples, t)
  }

  ghost predicate HeapSample(h: ChunkHeap, x: FSample) {
    exists c :: HasChunk(h, c) && x in c.samples
  }

  predicate Overlap(a: Chunk, b: Chunk) {
    a.minTime <= b.maxTime && b.minTime <= a.maxTime
  }

  /** A chunk of the heap that no other one overlaps. */
  ghost predicate Alone(h: ChunkHeap, d: Chunk) {
    HasChunk(h, d) && forall e :: HasChunk(h, e) && e != d ==> !Overlap(d, e)
  }

  predicate Short(c: Chunk) {
    |c.samples| <= 120
  }

  /** The chunk c and the heap h have exactly the times of h0, and only samples of it. */
  ghost predicate SameData(h0: ChunkHeap, c: Chunk, h: ChunkHeap) {
    && (forall t :: HeapTime(h0, t) <==> HasTime(c.samples, t) || HeapTime(h, t))
    && (forall x :: x in c.samples || HeapSample(h, x) ==> HeapSample(h0, x))
  }

  /** Chunks come from h0 or are re-encoded, and those that overlap no other stay as they are. */
  ghost predicate KeepsChunks(h0: ChunkHeap, c: Chunk, h: ChunkHeap) {
    && (forall d :: d == c || HasChunk(h, d) ==> HasChunk(h0, d) || Short(d))
    && (forall d :: Alone(h0, d) ==> d == c || Alone(h, d))
  }

  /** What one call of Next may turn the heap h0 into: a chunk c and a rest h. */
  ghost predicate Emits(h0: ChunkHeap, c: Chunk, h: ChunkHeap) {
    && GoodChunk(c) && GoodHeap(h) && AllAfter(h, c.maxTime)
    && SameData(h0, c, h) && KeepsChunks(h0, c, h)
    && HeapSize(h) < HeapSize(h0)
  }

  // What is collected: chunks that overlap the first one, directly or through each other

  /** The j-th chunk collected overlaps another one collected before it. */
  ghost predicate Linked(first: Chunk, got: seq<Chunk>, j: int)
    requires 0 <= j < |got|
  {
    exists e :: (e == first || e in got[..j]) && e != got[j] && Overlap(e, got[j])
  }

  ghost predicate AllLinked(first: Chunk, got: seq<Chunk>) {
    forall j :: 0 <= j < |got| ==> Linked(first, got, j)
  }

  ghost predicate Reaches(first: Chunk, got: seq<Chunk>, e: Chunk) {
    e == first || e in got
  }

  /** The group lies between the first chunk's start and oMaxTime, which one of it reaches; prev started last. */
  ghost predicate GroupBounds(first: Chunk, got: seq<Chunk>, prev: Chunk, oMaxTime: int) {
    && (forall e :: Reaches(first, got, e) ==> GoodChunk(e) && e.maxTime <= oMaxTime && e.minTime <= prev.minTime)
    && (exists e :: Reaches(first, got, e) && e.maxTime == oMaxTime)
    && Reaches(first, got, prev)
  }

  /** What the group and the heap hold is what there was. */
  ghost predicate GroupParts(h0: ChunkHeap, first: Chunk, got: seq<Chunk>, h: ChunkHeap) {
    forall c :: c == first || HasChunk(h0, c) <==> Reaches(first, got, c) || HasChunk(h, c)
  }

  lemma {:induction false} StartGroup(h0: ChunkHeap, first: Chunk)
    requires GoodChunk(first)
    ensures GroupBounds(first, [], first, first.maxTime) && GroupParts(h0, first, [], h0) && AllLinked(first, [])
    ensures ListSize([]) == 0
  {
    hide GoodChunk, HasChunk;
    assert Reaches(first, [], first);
  }

  lemma {:induction false} ReachesSnoc(first: Chunk, got: seq<Chunk>, next: Chunk, e: Chunk)
    ensures Reaches(first, got + [next], e) <==> Reaches(first, got, e) || e == next
  {
  }

  /** A chunk that starts within the group, no earlier than prev, joins it. */
  lemma {:induction false} JoinBounds(first: Chunk, got: seq<Chunk>, prev: Chunk, oMaxTime: int, next: Chunk)
    requires GroupBounds(first, got, prev, oMaxTime) && GoodChunk(next) && prev.minTime <= next.minTime
    ensures GroupBounds(first, got + [next], next, if next.maxTime > oMaxTime then next.maxTime else oMaxTime)
  {
    hide GoodChunk, Reaches;
    var max := if next.maxTime > oMaxTime then next.maxTime else oMaxTime;
    forall e
      ensures Reaches(first, got + [next], e) <==> Reaches(first, got, e) || e == next
    {
      ReachesSnoc(first, got, next, e);
    }
    var e :| Reaches(first, got, e) && e.maxTime == oMaxTime;
    assert Reaches(first, got + [next], if next.maxTime > oMaxTime then next else e);
  }

  lemma {:induction false} GoodSpan(c: Chunk)
    requires GoodChunk(c)
    ensures c.minTime <= c.maxTime
  {
  }

  /** It overlaps the one that reaches furthest or, if it is the same chunk again, prev. */
  lemma {:induction false} JoinLink(first: Chunk, got: seq<Chunk>, prev: Chunk, oMaxTime: int, next: Chunk)
    returns (e: Chunk)
    requires GroupBounds(first, got, prev, oMaxTime) && GoodChunk(next) && prev.minTime <= next.minTime <= oMaxTime
    requires next != prev
    ensures Reaches(first, got, e) && e != next && Overlap(e, next)
  {
    hide GoodChunk, Reaches;
    e :| Reaches(first, got, e) && e.maxTime == oMaxTime;
    GoodSpan(next);
    GoodSpan(prev);
    if e == next {
      e := prev;
    }
  }

  lemma {:induction false} JoinLinks(first: Chunk, got: seq<Chunk>, prev: Chunk, oMaxTime: int, next: Chunk)
    requires GroupBounds(first, got, prev, oMaxTime) && GoodChunk(next) && prev.minTime <= next.minTime <= oMaxTime
    requires next != prev && AllLinked(first, got)
    ensures AllLinked(first, got + [next])
  {
    hide GoodChunk, GroupBounds;
    var r := got + [next];
    forall j | 0 <= j < |r|
      ensures Linked(first, r, j)
    {
      if j < |got| {
        assert Linked(first, got, j);
        assert r[..j] == got[..j] && r[j] == got[j];
      } else {
        var e := JoinLink(first, got, prev, oMaxTime, next);
        assert r[..j] == got && r[j] == next;
        assert (e == first || e in r[..j]) && e != r[j] && Overlap(e, r[j]);
      }
    }
  }

  lemma {:induction false} JoinParts(h0: ChunkHeap, first: Chunk, got: seq<Chunk>, h: ChunkHeap, next: Chunk, h': ChunkHeap)
    requires GroupParts(h0, first, got, h) && forall c :: HasChunk(h, c) <==> c == next || HasChunk(h', c)
    ensures GroupParts(h0, first, got + [next], h')
    ensures Reaches(first, got, next) ==> GroupParts(h0, first, got, h')
  {
    hide HasChunk, Reaches;
    forall c
      ensures Reaches(first, got + [next], c) <==> Reaches(first, got, c) || c == next
    {
      ReachesSnoc(first, got, next, c);
    }
  }

  lemma {:induction false} LeastNext(h: ChunkHeap, m: int, prev: Chunk)
    requires GoodHeap(h) && 0 <= m < |h| && h[m] != [] && NoneBefore(h, prev.minTime)
    ensures prev.minTime <= h[m][0].minTime && GoodChunk(h[m][0])
  {
    assert HasChunk(h, h[m][0]);
    assert GoodList(h[m]);
  }

  /** With the top after t, every chunk is after t. */
  lemma {:induction false} TopAfter(h: ChunkHeap, t: int, u: int)
    requires NoneBefore(h, u) && t < u
    ensures AllAfter(h, t)
  {
    hide HasChunk;
  }

  lemma {:induction false} StillNone(h: ChunkHeap, next: Chunk, h': ChunkHeap)
    requires NoneBefore(h, next.minTime) && forall c :: HasChunk(h, c) <==> c == next || HasChunk(h', c)
    ensures NoneBefore(h', next.minTime)
  {
    hide HasChunk;
  }

  lemma {:induction false} StillNoneBefore(h: ChunkHeap, t: int, next: Chunk, h': ChunkHeap)
    requires NoneBefore(h, t) && forall c :: HasChunk(h, c) <==> c == next || HasChunk(h', c)
    ensures NoneBefore(h', t)
  {
    hide HasChunk;
  }

  lemma {:induction false} NothingAfter(t: int)
    ensures AllAfter([], t)
  {
  }

  /** The loop of Next: the chunks that overlap the first one, directly or through each other, and no others. */
  method CollectOverlaps(h0: ChunkHeap, first: Chunk)
    returns (h: ChunkHeap, overlapping: seq<Chunk>, oMaxTime: int, ghost prev: Chunk)
    requires GoodHeap(h0) && GoodChunk(first) && NoneBefore(h0, first.minTime)
    ensures GoodHeap(h) && AllAfter(h, oMaxTime)
    ensures GroupBounds(first, overlapping, prev, oMaxTime) && AllLinked(first, overlapping)
    ensures GroupParts(h0, first, overlapping, h)
    ensures HeapSize(h) + ListSize(overlapping) <= HeapSize(h0)
  {
    hide GoodHeap, GoodChunk, HeapSize, ListSize, Advance, HasChunk, NoneBefore, AllAfter, Less;
    hide GroupBounds, GroupParts, AllLinked, Reaches;
    h, overlapping, oMaxTime := h0, [], first.maxTime;
    var last := first;
    StartGroup(h0, first);
    while |h| > 0
      invariant GoodHeap(h) && NoneBefore(h, last.minTime)
      invariant GroupBounds(first, overlapping, last, oMaxTime) && AllLinked(first, overlapping)
      invariant GroupParts(h0, first, overlapping, h)
      invariant HeapSize(h) + ListSize(overlapping) <= HeapSize(h0)
      decreases HeapSize(h)
    {
      HeapLists(h);
      var m := TopOf(h);
      var next := h[m][0];
      TopIsLeast(h, m);
      if next.minTime > oMaxTime {
        TopAfter(h, oMaxTime, next.minTime);
        return h, overlapping, oMaxTime, last;
      }
      AdvanceStep(h, m);
      LeastNext(h, m, last);
      ghost var h1 := Advance(h, m);
      JoinParts(h0, first, overlapping, h, next, h1);
      if next.minTime != last.minTime || next.maxTime != last.maxTime || next.samples != last.samples {
        SizeOfGroup(overlapping, next);
        JoinLinks(first, overlapping, last, oMaxTime, next);
        JoinBounds(first, overlapping, last, oMaxTime, next);
        StillNone(h, next, h1);
        overlapping := overlapping + [next];
        if next.maxTime > oMaxTime {
          oMaxTime := next.maxTime;
        }
        last := next;
      } else {
        StillNoneBefore(h, last.minTime, next, h1);
        LastReaches(first, overlapping, last, oMaxTime);
      }
      h := Advance(h, m);
    }
    NothingAfter(oMaxTime);
    prev := last;
  }

  lemma {:induction false} LastReaches(first: Chunk, got: seq<Chunk>, prev: Chunk, oMaxTime: int)
    requires GroupBounds(first, got, prev, oMaxTime)
    ensures Reaches(first, got, prev)
  {
  }

  lemma {:induction false} SizeOfNone()
    ensures ListSize([]) == 0 && HeapSize([]) == 0
  {
  }

  lemma {:induction false} HeapLists(h: ChunkHeap)
    requires GoodHeap(h)
    ensures forall i :: 0 <= i < |h| ==> h[i] != []
  {
  }

  lemma {:induction false} AdvanceStep(h: ChunkHeap, m: int)
    requires GoodHeap(h) && 0 <= m < |h| && h[m] != []
    ensures GoodHeap(Advance(h, m)) && GoodChunk(h[m][0])
    ensures HeapSize(Advance(h, m)) == HeapSize(h) - |h[m][0].samples| < HeapSize(h)
    ensures forall c :: HasChunk(h, c) <==> c == h[m][0] || HasChunk(Advance(h, m), c)
  {
    hide Advance, HeapSize;
    AdvanceGood(h, m);
    AdvanceSize(h, m);
    assert GoodList(h[m]);
    forall c
      ensures HasChunk(h, c) <==> c == h[m][0] || HasChunk(Advance(h, m), c)
    {
      AdvanceTakes(h, m, c);
    }
  }

  /** h0 holds the chunks of l and those of h. */
  ghost predicate Holds(h0: ChunkHeap, l: seq<Chunk>, h: ChunkHeap) {
    forall c :: HasChunk(h0, c) <==> c in l || HasChunk(h, c)
  }

  /** What the first chunk was taken from holds the group and the rest. */
  lemma {:induction false} GroupIs(h0: ChunkHeap, first: Chunk, h1: ChunkHeap, got: seq<Chunk>, h: ChunkHeap)
    requires forall c :: HasChunk(h0, c) <==> c == first || HasChunk(h1, c)
    requires GroupParts(h1, first, got, h)
    ensures Holds(h0, got + [first], h)
  {
    hide HasChunk;
  }

  /** Without overlap the first chunk is passed on as it is. */
  lemma {:induction false} EmitFirst(h0: ChunkHeap, first: Chunk, h: ChunkHeap)
    requires Holds(h0, [first], h)
    requires GoodChunk(first) && GoodHeap(h) && AllAfter(h, first.maxTime) && HeapSize(h) < HeapSize(h0)
    ensures Emits(h0, first, h)
  {
    hide HeapSize, HasChunk;
    assert forall c :: HasChunk(h0, c) <==> c == first || HasChunk(h, c);
  }

  /** Every chunk of a group of two or more overlaps another one of it. */
  lemma {:induction false} Partner(first: Chunk, got: seq<Chunk>, d: Chunk) returns (e: Chunk)
    requires AllLinked(first, got) && got != [] && d in got + [first]
    ensures e in got + [first] && e != d && Overlap(d, e)
  {
    if d == first {
      assert Linked(first, got, 0);
      e := got[0];
    } else {
      var j :| 0 <= j < |got| && got[j] == d;
      assert Linked(first, got, j);
      e :| (e == first || e in got[..j]) && e != got[j] && Overlap(e, got[j]);
    }
  }

  lemma {:induction false} AloneIsLeft(h0: ChunkHeap, first: Chunk, got: seq<Chunk>, h: ChunkHeap, d: Chunk)
    requires Holds(h0, got + [first], h) && AllLinked(first, got) && got != [] && Alone(h0, d)
    ensures HasChunk(h, d)
  {
    hide HasChunk, AllLinked;
    if d in got + [first] {
      var e := Partner(first, got, d);
      assert false;
    }
  }

  /** A chunk outside the group that no other overlaps is not overlapped by the merged chunks either. */
  lemma {:induction false} AloneStays(h0: ChunkHeap, first: Chunk, got: seq<Chunk>, h: ChunkHeap, oMaxTime: int,
                                      chks: seq<Chunk>, r: ChunkHeap, d: Chunk)
    requires Holds(h0, got + [first], h) && AllLinked(first, got) && got != [] && Alone(h0, d)
    requires AllAfter(h, oMaxTime) && forall c :: c in chks ==> c.maxTime <= oMaxTime
    requires chks != [] && Holds(r, chks[1..], h)
    ensures Alone(r, d)
  {
    hide HasChunk;
    AloneIsLeft(h0, first, got, h, d);
    assert HasChunk(r, d);
    forall e | HasChunk(r, e) && e != d
      ensures !Overlap(d, e)
    {
      if HasChunk(h, e) {
        assert HasChunk(h0, e);
      } else {
        assert e in chks;
      }
    }
  }

  lemma {:induction false} MergedKeeps(h0: ChunkHeap, first: Chunk, got: seq<Chunk>, h: ChunkHeap, oMaxTime: int,
                                       chks: seq<Chunk>, r: ChunkHeap)
    requires Holds(h0, got + [first], h) && AllLinked(first, got) && got != []
    requires AllAfter(h, oMaxTime) && forall c :: c in chks ==> c.maxTime <= oMaxTime && Short(c)
    requires chks != [] && Holds(r, chks[1..], h)
    ensures KeepsChunks(h0, chks[0], r)
  {
    hide HasChunk, Alone, AllLinked, AllAfter, Short;
    forall d | Alone(h0, d)
      ensures Alone(r, d)
    {
      AloneStays(h0, first, got, h, oMaxTime, chks, r, d);
    }
    forall d | d == chks[0] || HasChunk(r, d)
      ensures HasChunk(h0, d) || Short(d)
    {
      assert d in chks || HasChunk(h, d);
    }
  }

  lemma {:induction false} MergedData(h0: ChunkHeap, all: seq<Chunk>, h: ChunkHeap, chks: seq<Chunk>, r: ChunkHeap)
    requires Holds(h0, all, h) && chks != [] && Holds(r, chks[1..], h)
    requires forall t :: ListTime(chks, t) <==> ListTime(all, t)
    requires forall x :: ListSample(chks, x) ==> ListSample(all, x)
    ensures SameData(h0, chks[0], r)
  {
    hide HasChunk, Holds, HeapTime, HeapSample, ListTime, ListSample, HasTime;
    forall t
      ensures HeapTime(h0, t) <==> HasTime(chks[0].samples, t) || HeapTime(r, t)
    {
      TimesOf(h0, all, h, t);
      TimesOf(r, chks[1..], h, t);
      HeadTime(chks, t);
    }
    forall x
      ensures x in chks[0].samples || HeapSample(r, x) ==> HeapSample(h0, x)
    {
      SamplesIn(h0, all, h, x);
      SamplesIn(r, chks[1..], h, x);
      HeadSample(chks, x);
    }
  }

  lemma {:induction false} MergedAfter(h: ChunkHeap, oMaxTime: int, chks: seq<Chunk>, r: ChunkHeap)
    requires chks != [] && Ordered(chks) && Holds(r, chks[1..], h)
    requires AllAfter(h, oMaxTime) && forall c :: c in chks ==> c.maxTime <= oMaxTime
    ensures AllAfter(r, chks[0].maxTime)
  {
    hide HasChunk, GoodChunk;
    forall c | HasChunk(r, c)
      ensures chks[0].maxTime < c.minTime
    {
      if c in chks[1..] {
        var j :| 0 <= j < |chks[1..]| && chks[1..][j] == c;
        assert chks[j + 1] == c;
      } else {
        assert chks[0] in chks;
      }
    }
  }

  lemma {:induction false} GoodHeapSnoc(h: ChunkHeap, chks: seq<Chunk>, r: ChunkHeap)
    requires GoodHeap(h) && Ordered(chks) && chks != [] && r == h + if |chks| > 1 then [chks[1..]] else []
    ensures GoodHeap(r)
  {
    hide GoodList;
    OrderedIsGood(chks);
  }

  /** With overlap the first of the merged chunks is passed on and the others return to the heap. */
  lemma {:induction false} EmitMerged(h0: ChunkHeap, first: Chunk, got: seq<Chunk>, prev: Chunk, oMaxTime: int,
                                      h: ChunkHeap, chks: seq<Chunk>, r: ChunkHeap)
    requires Holds(h0, got + [first], h) && AllLinked(first, got) && got != []
    requires GroupBounds(first, got, prev, oMaxTime) && GoodHeap(h) && AllAfter(h, oMaxTime)
    requires chks != [] && Ordered(chks) && forall j :: 0 <= j < |chks| ==> Short(chks[j])
    requires forall t :: ListTime(chks, t) <==> ListTime(got + [first], t)
    requires forall x :: ListSample(chks, x) ==> ListSample(got + [first], x)
    requires HeapSize(h) + ListSize(chks) <= HeapSize(h0)
    requires r == h + if |chks| > 1 then [chks[1..]] else []
    ensures Emits(h0, chks[0], r)
  {
    hide HeapSize, ListSize, GoodHeap, AllAfter, AllLinked, Short, ListTime, ListSample, HasChunk, Holds;
    hide GoodChunk, SameData, KeepsChunks;
    PushMerged(h, chks, r);
    GoodHeapSnoc(h, chks, r);
    OrderedIsGood(chks);
    forall c | c in chks
      ensures c.maxTime <= oMaxTime && Short(c)
    {
      var j :| 0 <= j < |chks| && chks[j] == c;
      MergedBefore(first, got, prev, oMaxTime, chks, j);
    }
    MergedAfter(h, oMaxTime, chks, r);
    MergedData(h0, got + [first], h, chks, r);
    MergedKeeps(h0, first, got, h, oMaxTime, chks, r);
  }

  /** The heap with the merged chunks but the first pushed. */
  lemma {:induction false} PushMerged(h: ChunkHeap, chks: seq<Chunk>, r: ChunkHeap)
    requires chks != [] && r == h + if |chks| > 1 then [chks[1..]] else []
    ensures Holds(r, chks[1..], h)
    ensures HeapSize(r) == HeapSize(h) + ListSize(chks) - |chks[0].samples|
  {
    forall c
      ensures HasChunk(r, c) <==> c in chks[1..] || HasChunk(h, c)
    {
      if HasChunk(h, c) {
        var i, j :| 0 <= i < |h| && 0 <= j < |h[i]| && h[i][j] == c;
        assert r[i][j] == c;
      }
      if c in chks[1..] {
        var j :| 0 <= j < |chks[1..]| && chks[1..][j] == c;
        assert r[|h|][j] == c;
      }
    }
    assert chks == [chks[0]] + chks[1..];
    ListSizeConcat([chks[0]], chks[1..]);
    SizeOfOne([chks[0]]);
    SizeOfOne(chks[1..]);
    HeapSizeConcat(h, [chks[1..]]);
    SizeOfNone();
    if |chks| == 1 {
      assert r == h;
    }
  }

  lemma {:induction false} OrderedIsGood(chks: seq<Chunk>)
    requires Ordered(chks) && chks != []
    ensures GoodList(chks[1..])
    ensures |chks[0].samples| > 0
  {
    forall j | 0 <= j < |chks|
      ensures chks[j].minTime <= chks[j].maxTime
    {
      assert GoodChunk(chks[j]);
    }
  }

  /** No merged chunk ends after the group it came from. */
  lemma {:induction false} MergedBefore(first: Chunk, got: seq<Chunk>, prev: Chunk, oMaxTime: int, chks: seq<Chunk>, k: int)
    requires 0 <= k < |chks| && GroupBounds(first, got, prev, oMaxTime) && Ordered(chks)
    requires forall t :: ListTime(chks, t) <==> ListTime(got + [first], t)
    ensures chks[k].maxTime <= oMaxTime
  {
    hide GoodChunk, GroupBounds;
    var all := got + [first];
    assert GoodChunk(chks[k]);
    LastTime(chks[k]);
    assert ListTime(chks, chks[k].maxTime);
    assert ListTime(all, chks[k].maxTime);
    var j :| 0 <= j < |all| && HasTime(all[j].samples, chks[k].maxTime);
    GroupEnds(first, got, prev, oMaxTime, j);
    WithinChunk(all[j], chks[k].maxTime);
  }

  lemma {:induction false} GroupEnds(first: Chunk, got: seq<Chunk>, prev: Chunk, oMaxTime: int, j: int)
    requires GroupBounds(first, got, prev, oMaxTime) && 0 <= j < |got + [first]|
    ensures GoodChunk((got + [first])[j]) && (got + [first])[j].maxTime <= oMaxTime
  {
    hide GoodChunk;
    assert Reaches(first, got, (got + [first])[j]);
  }

  lemma {:induction false} LastTime(c: Chunk)
    requires GoodChunk(c)
    ensures HasTime(c.samples, c.maxTime)
  {
    assert c.samples[|c.samples| - 1].t == c.maxTime;
  }

  lemma {:induction false} WithinChunk(c: Chunk, t: int)
    requires GoodChunk(c) && HasTime(c.samples, t)
    ensures c.minTime <= t <= c.maxTime
  {
  }

  lemma {:induction false} TimesOf(h0: ChunkHeap, l: seq<Chunk>, h: ChunkHeap, t: int)
    requires Holds(h0, l, h)
    ensures HeapTime(h0, t) <==> ListTime(l, t) || HeapTime(h, t)
  {
    hide HasChunk;
    if ListTime(l, t) {
      var j :| 0 <= j < |l| && HasTime(l[j].samples, t);
      assert l[j] in l;
      assert HasChunk(h0, l[j]);
    }
    if HeapTime(h, t) {
      var c :| HasChunk(h, c) && HasTime(c.samples, t);
      assert HasChunk(h0, c);
    }
  }

  lemma {:induction false} SamplesIn(h0: ChunkHeap, l: seq<Chunk>, h: ChunkHeap, x: FSample)
    requires Holds(h0, l, h)
    ensures HeapSample(h0, x) <==> ListSample(l, x) || HeapSample(h, x)
  {
    hide HasChunk;
    if ListSample(l, x) {
      var j :| 0 <= j < |l| && x in l[j].samples;
      assert l[j] in l;
      assert HasChunk(h0, l[j]);
    }
    if HeapSample(h, x) {
      var c :| HasChunk(h, c) && x in c.samples;
      assert HasChunk(h0, c);
    }
  }

  lemma {:induction false} HeadTime(l: seq<Chunk>, t: int)
    requires l != []
    ensures ListTime(l, t) <==> HasTime(l[0].samples, t) || ListTime(l[1..], t)
  {
    if ListTime(l[1..], t) {
      var j :| 0 <= j < |l[1..]| && HasTime(l[1..][j].samples, t);
      assert HasTime(l[j + 1].samples, t);
    }
    if ListTime(l, t) && !HasTime(l[0].samples, t) {
      var j :| 0 <= j < |l| && HasTime(l[j].samples, t);
      assert HasTime(l[1..][j - 1].samples, t);
    }
  }

  lemma {:induction false} HeadSample(l: seq<Chunk>, x: FSample)
    requires l != []
    ensures ListSample(l, x) <==> x in l[0].samples || ListSample(l[1..], x)
  {
    if ListSample(l[1..], x) {
      var j :| 0 <= j < |l[1..]| && x in l[1..][j].samples;
      assert x in l[j + 1].samples;
    }
    if ListSample(l, x) && x !in l[0].samples {
      var j :| 0 <= j < |l| && x in l[j].samples;
      assert x in l[1..][j - 1].samples;
    }
  }

  class CompactChunkIterator {
    const iterators: ChunkHeap
    var started: bool
    var h: ChunkHeap
    var curr: Chunk

    /** What is still to be delivered; before the first call, the inputs that are not empty. */
    ghost function Pending(): ChunkHeap
      reads this
    {
      if started then h else NonEmpty(iterators)
    }

    ghost predicate Valid()
      reads this
    {
      GoodHeap(Pending())
    }

    constructor (iterators: ChunkHeap)
      requires forall i :: 0 <= i < |iterators| ==> GoodList(iterators[i])
      ensures Valid() && Pending() == NonEmpty(iterators)
    {
      this.iterators := iterators;
      started, h, curr := false, [], Chunk(0, 0, []);
      new;
      NonEmptyGood(iterators);
    }

    method Next() returns (ok: bool)
      requires Valid()
      modifies this
      ensures Valid() && started
      ensures ok <==> old(Pending()) != []
      ensures !ok ==> Pending() == []
      ensures ok ==> Emits(old(Pending()), curr, h)
    {
      hide GoodHeap, GoodChunk, HeapSize, ListSize, Advance, Emits, HasChunk, AllAfter, NoneBefore, Less;
      hide GroupBounds, GroupParts, AllLinked, Holds, Ordered, ListTime, ListSample;
      if !started {
        h := NonEmpty(iterators);
        started := true;
      }
      ghost var h0 := h;
      if h == [] {
        return false;
      }
      HeapLists(h);
      var m := TopOf(h);
      curr := h[m][0];
      TopIsLeast(h, m);
      AdvanceStep(h, m);
      ghost var h1 := Advance(h, m);
      StillNone(h, curr, h1);
      var overlapping, oMaxTime;
      ghost var prev;
      h, overlapping, oMaxTime, prev := CollectOverlaps(Advance(h, m), curr);
      GroupIs(h0, curr, h1, overlapping, h);
      if overlapping == [] {
        OneChunk(curr, prev, oMaxTime);
        EmitFirst(h0, curr, h);
        EmitsGood(h0, curr, h);
        return true;
      }
      SizeOfGroup(overlapping, curr);
      GoodGroup(curr, overlapping, prev, oMaxTime);
      var chks := MergeChunks(overlapping + [curr]);
      ghost var rest := h;
      if |chks| > 1 {
        h := h + [chks[1..]];
      }
      NoneMore(rest);
      EmitMerged(h0, curr, overlapping, prev, oMaxTime, rest, chks, h);
      curr := chks[0];
      EmitsGood(h0, curr, h);
      return true;
    }
  }

  lemma {:induction false} OneChunk(first: Chunk, prev: Chunk, oMaxTime: int)
    requires GroupBounds(first, [], prev, oMaxTime)
    ensures oMaxTime == first.maxTime && [] + [first] == [first]
  {
    hide GoodChunk;
  }

  lemma {:induction false} GoodGroup(first: Chunk, got: seq<Chunk>, prev: Chunk, oMaxTime: int)
    requires GroupBounds(first, got, prev, oMaxTime)
    ensures forall j :: 0 <= j < |got + [first]| ==> GoodChunk((got + [first])[j])
  {
    hide GoodChunk, GroupBounds;
    forall j | 0 <= j < |got + [first]|
      ensures GoodChunk((got + [first])[j])
    {
      GroupEnds(first, got, prev, oMaxTime, j);
    }
  }

  lemma {:induction false} NoneMore(h: ChunkHeap)
    ensures h + [] == h
  {
  }

  lemma {:induction false} SizeOfGroup(l: seq<Chunk>, c: Chunk)
    ensures ListSize(l + [c]) == ListSize(l) + |c.samples|
  {
    ListSizeConcat(l, [c]);
    SizeOfOne([c]);
  }

  lemma {:induction false} EmitsGood(h0: ChunkHeap, c: Chunk, h: ChunkHeap)
    requires Emits(h0, c, h)
    ensures GoodHeap(h)
  {
  }

  /** The first call pushes the iterators that have a chunk. */
  function NonEmpty(l: ChunkHeap): ChunkHeap {
    if l == [] then [] else NonEmpty(l[..|l| - 1]) + if l[|l| - 1] == [] then [] else [l[|l| - 1]]
  }

  lemma {:induction false} NonEmptyGood(l: ChunkHeap)
    requires forall i :: 0 <= i < |l| ==> GoodList(l[i])
    ensures GoodHeap(NonEmpty(l))
  {
    if l != [] {
      NonEmptyGood(l[..|l| - 1]);
    }
  }

  lemma {:induction false} NonEmptyChunks(l: ChunkHeap, c: Chunk)
    ensures HasChunk(NonEmpty(l), c) <==> HasChunk(l, c)
  {
    hide HasChunk;
    if l == [] {
      assert NonEmpty(l) == l;
    } else {
      var n := |l| - 1;
      var rest, last := l[..n], l[n];
      NonEmptyChunks(rest, c);
      assert l == rest + [last];
      SnocChunk(rest, last, c);
      SnocChunk(NonEmpty(rest), last, c);
      assert NonEmpty(l) == NonEmpty(rest) + if last == [] then [] else [last];
      if last == [] {
        assert NonEmpty(l) == NonEmpty(rest);
      }
    }
  }

  lemma {:induction false} SnocChunk(h: ChunkHeap, l: seq<Chunk>, c: Chunk)
    ensures HasChunk(h + [l], c) <==> HasChunk(h, c) || c in l
  {
    var r := h + [l];
    if HasChunk(h, c) {
      var i, j :| 0 <= i < |h| && 0 <= j < |h[i]| && h[i][j] == c;
      assert r[i][j] == c;
    }
    if c in l {
      var j :| 0 <= j < |l| && l[j] == c;
      assert r[|h|][j] == c;
    }
    if HasChunk(r, c) && c !in l {
      var i, j :| 0 <= i < |r| && 0 <= j < |r[i]| && r[i][j] == c;
      assert i < |h| && h[i][j] == c;
    }
  }

  /** out and what is left in h make up the inputs, and h comes after out. */
  ghost predicate Delivered(iterators: ChunkHeap, out: seq<Chunk>, h: ChunkHeap) {
    && Ordered(out)
    && (out != [] ==> AllAfter(h, out[|out| - 1].maxTime))
    && (forall t :: HeapTime(iterators, t) <==> ListTime(out, t) || HeapTime(h, t))
    && (forall x :: ListSample(out, x) || HeapSample(h, x) ==> HeapSample(iterators, x))
  }

  /** Whole chunks: those delivered or left are inputs or short, and those alone are delivered or still alone. */
  ghost predicate ChunksKept(iterators: ChunkHeap, out: seq<Chunk>, h: ChunkHeap) {
    && (forall d :: d in out || HasChunk(h, d) ==> HasChunk(iterators, d) || Short(d))
    && (forall d :: Alone(iterators, d) ==> d in out || Alone(h, d))
  }

  lemma {:induction false} KeepNext(iterators: ChunkHeap, out: seq<Chunk>, h0: ChunkHeap, c: Chunk, h: ChunkHeap)
    requires ChunksKept(iterators, out, h0) && Emits(h0, c, h)
    ensures ChunksKept(iterators, out + [c], h)
  {
    hide HasChunk, HeapSize, GoodHeap, GoodChunk, AllAfter, SameData, Alone, Short;
  }

  lemma {:induction false} DeliverNext(iterators: ChunkHeap, out: seq<Chunk>, h0: ChunkHeap, c: Chunk, h: ChunkHeap)
    requires Delivered(iterators, out, h0) && Emits(h0, c, h)
    requires forall d :: HasChunk(h0, d) ==> GoodChunk(d)
    ensures Delivered(iterators, out + [c], h)
  {
    hide HasChunk, HeapSize, GoodHeap, KeepsChunks, HeapTime, HeapSample;
    var r := out + [c];
    forall t
      ensures ListTime(r, t) <==> ListTime(out, t) || HasTime(c.samples, t)
    {
      SnocTime(out, c, t);
    }
    forall x
      ensures ListSample(r, x) <==> ListSample(out, x) || x in c.samples
    {
      SnocSample(out, c, x);
    }
    if out != [] {
      EmittedAfter(h0, c, h, out[|out| - 1].maxTime);
      OrderedSnoc(out, c);
    }
  }

  lemma {:induction false} SnocTime(out: seq<Chunk>, c: Chunk, t: int)
    ensures ListTime(out + [c], t) <==> ListTime(out, t) || HasTime(c.samples, t)
  {
    var r := out + [c];
    if ListTime(out, t) {
      var j :| 0 <= j < |out| && HasTime(out[j].samples, t);
      assert HasTime(r[j].samples, t);
    }
    assert r[|out|] == c;
  }

  lemma {:induction false} SnocSample(out: seq<Chunk>, c: Chunk, x: FSample)
    ensures ListSample(out + [c], x) <==> ListSample(out, x) || x in c.samples
  {
    var r := out + [c];
    if ListSample(out, x) {
      var j :| 0 <= j < |out| && x in out[j].samples;
      assert x in r[j].samples;
    }
    assert r[|out|] == c;
  }

  lemma {:induction false} OrderedSnoc(out: seq<Chunk>, c: Chunk)
    requires Ordered(out) && out != [] && GoodChunk(c) && out[|out| - 1].maxTime < c.minTime
    ensures Ordered(out + [c])
  {
    forall j | 0 <= j < |out|
      ensures out[j].maxTime < c.minTime
    {
      assert GoodChunk(out[|out| - 1]);
      assert j < |out| - 1 ==> out[j].maxTime < out[|out| - 1].minTime;
    }
  }

  /** What comes out of a heap that is after t is after t. */
  lemma {:induction false} EmittedAfter(h0: ChunkHeap, c: Chunk, h: ChunkHeap, t: int)
    requires AllAfter(h0, t) && Emits(h0, c, h)
    requires forall d :: HasChunk(h0, d) ==> GoodChunk(d)
    ensures t < c.minTime
  {
    hide HasChunk, HeapSize, GoodHeap;
    assert HasTime(c.samples, c.samples[0].t);
    assert HeapTime(h0, c.minTime);
    var d :| HasChunk(h0, d) && HasTime(d.samples, c.minTime);
    assert GoodChunk(d);
  }

  /**
    All chunks, in order and without overlap, with exactly the times of the inputs and only samples of
    the inputs.  Each is one of the inputs' chunks or has at most 120 samples, and a chunk that no other
    one overlaps is among them as it was.
   */
  method CompactAll(iterators: ChunkHeap) returns (out: seq<Chunk>)
    requires forall i :: 0 <= i < |iterators| ==> GoodList(iterators[i])
    ensures Ordered(out)
    ensures forall t :: ListTime(out, t) <==> HeapTime(iterators, t)
    ensures forall x :: ListSample(out, x) ==> HeapSample(iterators, x)
    ensures forall d :: d in out ==> HasChunk(iterators, d) || Short(d)
    ensures forall d :: Alone(iterators, d) ==> d in out
  {
    hide GoodHeap, GoodList, GoodChunk, HeapSize, Emits, Delivered, ChunksKept, HasChunk, Alone;
    var it := new CompactChunkIterator(iterators);
    out := [];
    DeliverNothing(iterators);
    var more := true;
    while more
      invariant fresh(it) && it.Valid() && Delivered(iterators, out, it.Pending())
      invariant ChunksKept(iterators, out, it.Pending())
      invariant !more ==> it.Pending() == []
      decreases HeapSize(it.Pending()), more
    {
      ghost var h0 := it.Pending();
      GoodChunks(h0);
      more := it.Next();
      if more {
        EmitsLess(h0, it.curr, it.h);
        DeliverNext(iterators, out, h0, it.curr, it.h);
        KeepNext(iterators, out, h0, it.curr, it.h);
        out := out + [it.curr];
      }
    }
    DeliveredAll(iterators, out);
  }

  lemma {:induction false} GoodChunks(h: ChunkHeap)
    requires GoodHeap(h)
    ensures forall d :: HasChunk(h, d) ==> GoodChunk(d)
  {
    forall d | HasChunk(h, d)
      ensures GoodChunk(d)
    {
      var i, j :| 0 <= i < |h| && 0 <= j < |h[i]| && h[i][j] == d;
      assert GoodList(h[i]);
    }
  }

  lemma {:induction false} EmitsLess(h0: ChunkHeap, c: Chunk, h: ChunkHeap)
    requires Emits(h0, c, h)
    ensures HeapSize(h) < HeapSize(h0)
  {
  }

  lemma {:induction false} DeliverNothing(iterators: ChunkHeap)
    ensures Delivered(iterators, [], NonEmpty(iterators)) && ChunksKept(iterators, [], NonEmpty(iterators))
  {
    hide NonEmpty, HasChunk;
    forall c
      ensures HasChunk(NonEmpty(iterators), c) <==> HasChunk(iterators, c)
    {
      NonEmptyChunks(iterators, c);
    }
  }

  lemma {:induction false} DeliveredAll(iterators: ChunkHeap, out: seq<Chunk>)
    requires Delivered(iterators, out, []) && ChunksKept(iterators, out, [])
    ensures Ordered(out)
    ensures forall t :: ListTime(out, t) <==> HeapTime(iterators, t)
    ensures forall x :: ListSample(out, x) ==> HeapSample(iterators, x)
    ensures forall d :: d in out ==> HasChunk(iterators, d) || Short(d)
    ensures forall d :: Alone(iterators, d) ==> d in out
  {
    assert forall c :: !HasChunk([], c);
  }
}

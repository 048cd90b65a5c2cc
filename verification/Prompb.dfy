/**
  prompb/types.pb.go: the messages Label, Sample, BucketSpan and TimeSeries. Each is written backwards
  into a buffer of exactly its size and read back by a loop over its fields.
 */
module Prompb {

  import GoInt
  import opened Samples
  import opened Varint
  import opened Wire

  /** Strings are their bytes; unknown holds the fields the message does not know. */
  datatype Label = Label(name: seq<int>, value: seq<int>, unknown: seq<int>)

  /** The value is its IEEE 754 bit pattern. */
  datatype PSample = PSample(bits: int, timestamp: int, unknown: seq<int>)

  datatype BucketSpan = BucketSpan(offset: int, length: int, unknown: seq<int>)

  /** Without exemplars and histograms. */
  datatype TimeSeries = TimeSeries(labels: seq<Label>, samples: seq<PSample>, unknown: seq<int>)

  const EMPTY_LABEL := Label([], [], [])
  const EMPTY_SAMPLE := PSample(0, 0, [])
  const EMPTY_SPAN := BucketSpan(0, 0, [])
  const EMPTY_SERIES := TimeSeries([], [], [])

  /** Value != 0 is false of both zeros. */
  predicate IsZero(bits: int) {
    bits == 0 || bits == TWO_63
  }

  // ---------------------------------------------------------------------------
  // What Go's types allow, and what an earlier Unmarshal may have kept as unknown

  ghost predicate ValidLabel(m: Label) {
    |m.name| < TWO_63 && |m.value| < TWO_63 && AllUnknown(2, m.unknown)
  }

  ghost predicate ValidSample(m: PSample) {
    0 <= m.bits < TWO_64 && -TWO_63 <= m.timestamp < TWO_63 && AllUnknown(2, m.unknown)
  }

  ghost predicate ValidSpan(m: BucketSpan) {
    -TWO_31 <= m.offset < TWO_31 && 0 <= m.length < TWO_32 && AllUnknown(2, m.unknown)
  }

  ghost predicate ValidSeries(m: TimeSeries) {
    && (forall i :: 0 <= i < |m.labels| ==> ValidLabel(m.labels[i]) && |EncLabel(m.labels[i])| < TWO_63)
    && (forall i :: 0 <= i < |m.samples| ==> ValidSample(m.samples[i]) && |EncSample(m.samples[i])| < TWO_63)
    && AllUnknown(4, m.unknown)
  }

  // ---------------------------------------------------------------------------
  // The encoding

  function BytesField(key: int, b: seq<int>): seq<int> {
    [key] + Encoded(|b|) + b
  }

  function EncLabel(m: Label): seq<int> {
    (if |m.name| > 0 then BytesField(0x0a, m.name) else [])
    + ((if |m.value| > 0 then BytesField(0x12, m.value) else []) + m.unknown)
  }

  function EncSample(m: PSample): seq<int> {
    (if IsZero(m.bits) then [] else [0x09] + LittleEndian(m.bits, 8))
    + (Stamp(m.timestamp) + m.unknown)
  }

  function Stamp(timestamp: int): seq<int> {
    if timestamp == 0 then [] else [0x10] + Encoded(Uint64(timestamp))
  }

  function EncSpan(m: BucketSpan): seq<int>
    requires 0 <= m.length
  {
    (if m.offset == 0 then [] else [0x08] + Encoded(ZigZag32(m.offset)))
    + ((if m.length == 0 then [] else [0x10] + Encoded(m.length)) + m.unknown)
  }

  function EncLabels(ls: seq<Label>): seq<int> {
    if |ls| == 0 then [] else BytesField(0x0a, EncLabel(ls[0])) + EncLabels(ls[1..])
  }

  function EncSamples(ss: seq<PSample>): seq<int> {
    if |ss| == 0 then [] else BytesField(0x12, EncSample(ss[0])) + EncSamples(ss[1..])
  }

  function EncSeries(m: TimeSeries): seq<int> {
    EncLabels(m.labels) + (EncSamples(m.samples) + m.unknown)
  }

  // ---------------------------------------------------------------------------
  // The decoding, one field at a time

  datatype Step<+M> = Bad | Next(m: M, n: int)

  /** The loop of every Unmarshal. */
  function ParseAll<M>(field: (M, seq<int>) -> Step<M>, m: M, d: seq<int>): Option<M>
    decreases |d|
  {
    if |d| == 0 then Some(m)
    else
      match field(m, d)
      case Bad => None
      case Next(m', n) => if 0 < n <= |d| then ParseAll(field, m', d[n..]) else None
  }

  lemma {:induction false} ParseNext<M>(field: (M, seq<int>) -> Step<M>, m: M, x: seq<int>, rest: seq<int>, m': M)
    requires |x| > 0 && field(m, x + rest) == Next(m', |x|)
    ensures ParseAll(field, m, x + rest) == ParseAll(field, m', rest)
  {
    assert (x + rest)[|x|..] == rest;
  }

  function LabelField(m: Label, d: seq<int>): Step<Label> {
    match ReadTag(d)
    case NoTag => Bad
    case Tag(num, wireType, n) =>
      if num <= 2 then
        var c := ReadChunk(d[n..]);
        if wireType != 2 || c.NoChunk? then Bad
        else if num == 1 then Next(m.(name := c.bytes), n + c.n)
        else Next(m.(value := c.bytes), n + c.n)
      else
        var k := Unknown(d);
        if k.None? then Bad else Next(m.(unknown := m.unknown + d[..k.value]), k.value)
  }

  function SampleField(m: PSample, d: seq<int>): Step<PSample> {
    match ReadTag(d)
    case NoTag => Bad
    case Tag(num, wireType, n) =>
      if num == 1 then
        if wireType != 1 || n + 8 > |d| then Bad
        else Next(m.(bits := FromLittleEndian(d[n..n + 8])), n + 8)
      else if num == 2 then
        var w := ReadVarint(d[n..], 0);
        if wireType != 0 || w.Fail? then Bad
        else Next(m.(timestamp := Int64(w.v)), n + w.n)
      else
        var k := Unknown(d);
        if k.None? then Bad else Next(m.(unknown := m.unknown + d[..k.value]), k.value)
  }

  function SpanField(m: BucketSpan, d: seq<int>): Step<BucketSpan> {
    match ReadTag(d)
    case NoTag => Bad
    case Tag(num, wireType, n) =>
      if num <= 2 then
        var w := ReadVarint(d[n..], 0);
        if wireType != 0 || w.Fail? then Bad
        else if num == 1 then Next(m.(offset := UnZigZag32(Int32(w.v))), n + w.n)
        else Next(m.(length := w.v % TWO_32), n + w.n)
      else
        var k := Unknown(d);
        if k.None? then Bad else Next(m.(unknown := m.unknown + d[..k.value]), k.value)
  }

  /** Fields 3 and 4, exemplars and histograms, are outside the model. */
  function SeriesField(m: TimeSeries, d: seq<int>): Step<TimeSeries> {
    match ReadTag(d)
    case NoTag => Bad
    case Tag(num, wireType, n) =>
      if num <= 4 then
        var c := ReadChunk(d[n..]);
        if wireType != 2 || c.NoChunk? || num > 2 then Bad
        else if num == 1 then
          var l := ParseAll(LabelField, EMPTY_LABEL, c.bytes);
          if l.None? then Bad else Next(m.(labels := m.labels + [l.value]), n + c.n)
        else
          var s := ParseAll(SampleField, EMPTY_SAMPLE, c.bytes);
          if s.None? then Bad else Next(m.(samples := m.samples + [s.value]), n + c.n)
      else
        var k := Unknown(d);
        if k.None? then Bad else Next(m.(unknown := m.unknown + d[..k.value]), k.value)
  }

  // ---------------------------------------------------------------------------
  // Reading back one field

  lemma {:induction false} ReadKey(key: int, rest: seq<int>)
    requires 8 <= key < 128 && key % 8 != 4
    ensures ReadTag([key] + rest) == Tag(key / 8, key % 8, 1) && ([key] + rest)[1..] == rest
  {
    assert ReadVarint([key] + rest, 0) == Read(key, 1) by { ReadSmall(key, rest); }
    hide ReadVarint;
    assert key % TWO_64 == key;
  }

  lemma {:induction false} ReadSmall(key: int, rest: seq<int>)
    requires 0 <= key < 128
    ensures ReadVarint([key] + rest, 0) == Read(key, 1)
  {
    assert ([key] + rest)[0] == key;
  }

  lemma {:induction false} ReadBack(b: seq<int>, rest: seq<int>)
    requires |b| < TWO_63
    ensures ReadChunk(Encoded(|b|) + b + rest) == Chunk(b, |Encoded(|b|)| + |b|)
  {
    hide ReadVarint, Encoded;
    var d := Encoded(|b|) + b + rest;
    TenBytes(|b|);
    ReadEncoded(|b|, 0, b + rest);
    assert d == Encoded(|b|) + (b + rest);
  }

  /** A field of bytes is read back by its key. */
  lemma {:induction false} BytesFieldBack(key: int, b: seq<int>, rest: seq<int>)
    requires 8 <= key < 128 && key % 8 == 2 && |b| < TWO_63
    ensures var d := BytesField(key, b) + rest;
      ReadTag(d) == Tag(key / 8, 2, 1) && ReadChunk(d[1..]) == Chunk(b, |BytesField(key, b)| - 1)
  {
    hide ReadVarint, Encoded, ReadTag, ReadChunk;
    var d := BytesField(key, b) + rest;
    assert d == [key] + (Encoded(|b|) + b + rest);
    ReadKey(key, Encoded(|b|) + b + rest);
    ReadBack(b, rest);
  }

  lemma {:induction false} NumberBack(key: int, v: int, rest: seq<int>)
    requires 8 <= key < 128 && key % 8 == 0 && 0 <= v < TWO_64
    ensures var d := [key] + Encoded(v) + rest;
      ReadTag(d) == Tag(key / 8, 0, 1) && ReadVarint(d[1..], 0) == Read(v, |Encoded(v)|)
  {
    hide ReadVarint, Encoded, ReadTag;
    var d := [key] + Encoded(v) + rest;
    assert d == [key] + (Encoded(v) + rest);
    ReadKey(key, Encoded(v) + rest);
    TenBytes(v);
    ReadEncoded(v, 0, rest);
  }

  // ---------------------------------------------------------------------------
  // Round trips

  lemma {:induction false} LabelUnknown(m: Label, u: seq<int>)
    requires AllUnknown(2, u)
    ensures ParseAll(LabelField, m, u) == Some(m.(unknown := m.unknown + u))
    decreases |u|
  {
    hide ReadTag, Unknown, ReadChunk;
    if |u| == 0 {
      assert m.unknown + u == m.unknown;
    } else {
      var n := Unknown(u).value;
      var m' := m.(unknown := m.unknown + u[..n]);
      LabelUnknown(m', u[n..]);
      assert m.unknown + u[..n] + u[n..] == m.unknown + u;
    }
  }

  lemma {:induction false} LabelName(m: Label, b: seq<int>, rest: seq<int>)
    requires |b| < TWO_63
    ensures ParseAll(LabelField, m, BytesField(0x0a, b) + rest) == ParseAll(LabelField, m.(name := b), rest)
  {
    hide ReadTag, ReadChunk, Unknown;
    BytesFieldBack(0x0a, b, rest);
    ParseNext(LabelField, m, BytesField(0x0a, b), rest, m.(name := b));
  }

  lemma {:induction false} LabelValue(m: Label, b: seq<int>, rest: seq<int>)
    requires |b| < TWO_63
    ensures ParseAll(LabelField, m, BytesField(0x12, b) + rest) == ParseAll(LabelField, m.(value := b), rest)
  {
    hide ReadTag, ReadChunk, Unknown;
    BytesFieldBack(0x12, b, rest);
    ParseNext(LabelField, m, BytesField(0x12, b), rest, m.(value := b));
  }

  lemma {:induction false} LabelRoundTrip(m: Label)
    requires ValidLabel(m)
    ensures ParseAll(LabelField, EMPTY_LABEL, EncLabel(m)) == Some(m)
  {
    hide ParseAll, BytesField, AllUnknown;
    var l, v := EMPTY_LABEL.(name := m.name), if |m.value| > 0 then BytesField(0x12, m.value) else [];
    if |m.name| > 0 {
      LabelName(EMPTY_LABEL, m.name, v + m.unknown);
    } else {
      assert [] + (v + m.unknown) == v + m.unknown;
    }
    if |m.value| > 0 {
      LabelValue(l, m.value, m.unknown);
    } else {
      assert v + m.unknown == m.unknown;
    }
    LabelUnknown(l.(value := m.value), m.unknown);
    assert [] + m.unknown == m.unknown;
  }

  /** What becomes of a sample: minus zero is written like zero, that is, not at all. */
  function Canonical(m: PSample): PSample {
    if IsZero(m.bits) then m.(bits := 0) else m
  }

  lemma {:induction false} SampleUnknown(m: PSample, u: seq<int>)
    requires AllUnknown(2, u)
    ensures ParseAll(SampleField, m, u) == Some(m.(unknown := m.unknown + u))
    decreases |u|
  {
    hide ReadTag, Unknown, FromLittleEndian, Int64, ReadVarint;
    if |u| == 0 {
      assert m.unknown + u == m.unknown;
    } else {
      var n := Unknown(u).value;
      var m' := m.(unknown := m.unknown + u[..n]);
      SampleUnknown(m', u[n..]);
      assert m.unknown + u[..n] + u[n..] == m.unknown + u;
    }
  }

  lemma {:induction false} SampleValue(m: PSample, bits: int, rest: seq<int>)
    requires 0 <= bits < TWO_64
    ensures ParseAll(SampleField, m, [0x09] + LittleEndian(bits, 8) + rest)
         == ParseAll(SampleField, m.(bits := bits), rest)
  {
    hide ReadTag, Unknown, FromLittleEndian, LittleEndian, Int64, ReadVarint;
    var x := [0x09] + LittleEndian(bits, 8);
    Fixed64(bits);
    assert x + rest == [0x09] + (LittleEndian(bits, 8) + rest);
    ReadKey(0x09, LittleEndian(bits, 8) + rest);
    assert (x + rest)[1..9] == LittleEndian(bits, 8);
    ParseNext(SampleField, m, x, rest, m.(bits := bits));
  }

  lemma {:induction false} Signed(t: int)
    requires -TWO_63 <= t < TWO_63
    ensures 0 <= Uint64(t) < TWO_64 && Int64(Uint64(t)) == t
  {
    GoInt.DivModUnique(t, TWO_64, if t < 0 then -1 else 0, if t < 0 then t + TWO_64 else t);
  }

  lemma {:induction false} SampleTimestamp(m: PSample, t: int, rest: seq<int>)
    requires -TWO_63 <= t < TWO_63
    ensures ParseAll(SampleField, m, [0x10] + Encoded(Uint64(t)) + rest)
         == ParseAll(SampleField, m.(timestamp := t), rest)
  {
    hide ReadTag, Unknown, FromLittleEndian, Encoded, Int64, Uint64, ReadVarint;
    Signed(t);
    NumberBack(0x10, Uint64(t), rest);
    ParseNext(SampleField, m, [0x10] + Encoded(Uint64(t)), rest, m.(timestamp := t));
  }

  lemma {:induction false} SampleRoundTrip(m: PSample)
    requires ValidSample(m)
    ensures ParseAll(SampleField, EMPTY_SAMPLE, EncSample(m)) == Some(Canonical(m))
  {
    Signed(m.timestamp);
    hide ParseAll, AllUnknown, Encoded, LittleEndian, Uint64;
    var s := EMPTY_SAMPLE.(bits := Canonical(m).bits);
    var t := if m.timestamp == 0 then [] else [0x10] + Encoded(Uint64(m.timestamp));
    if IsZero(m.bits) {
      assert [] + (t + m.unknown) == t + m.unknown;
    } else {
      SampleValue(EMPTY_SAMPLE, m.bits, t + m.unknown);
    }
    if m.timestamp == 0 {
      assert t + m.unknown == m.unknown;
    } else {
      SampleTimestamp(s, m.timestamp, m.unknown);
    }
    SampleUnknown(s.(timestamp := m.timestamp), m.unknown);
    assert [] + m.unknown == m.unknown;
  }

  lemma {:induction false} SpanUnknown(m: BucketSpan, u: seq<int>)
    requires AllUnknown(2, u)
    ensures ParseAll(SpanField, m, u) == Some(m.(unknown := m.unknown + u))
    decreases |u|
  {
    hide ReadTag, Unknown, UnZigZag32, Int32, ReadVarint;
    if |u| == 0 {
      assert m.unknown + u == m.unknown;
    } else {
      var n := Unknown(u).value;
      var m' := m.(unknown := m.unknown + u[..n]);
      SpanUnknown(m', u[n..]);
      assert m.unknown + u[..n] + u[n..] == m.unknown + u;
    }
  }

  /** An int32 carries all that UnZigZag32 looks at. */
  lemma {:induction false} UnZigZagWraps(v: int)
    requires 0 <= v < TWO_32
    ensures UnZigZag32(Int32(v)) == UnZigZag32(v)
  {
  }

  lemma {:induction false} SpanOffset(m: BucketSpan, x: int, rest: seq<int>)
    requires -TWO_31 <= x < TWO_31
    ensures 0 <= ZigZag32(x) && ParseAll(SpanField, m, [0x08] + Encoded(ZigZag32(x)) + rest)
         == ParseAll(SpanField, m.(offset := x), rest)
  {
    ZigZagRoundTrip(x);
    hide *;
    UnZigZagWraps(ZigZag32(x));
    NumberBack(0x08, ZigZag32(x), rest);
    SpanFieldIs(m, [0x08] + Encoded(ZigZag32(x)) + rest);
    ParseNext(SpanField, m, [0x08] + Encoded(ZigZag32(x)), rest, m.(offset := x));
  }

  lemma {:induction false} SpanFieldIs(m: BucketSpan, d: seq<int>)
    requires ReadTag(d).Tag? && ReadTag(d).num <= 2 && ReadTag(d).wireType == 0
    requires ReadVarint(d[ReadTag(d).n..], 0).Read?
    ensures var t := ReadTag(d); var w := ReadVarint(d[t.n..], 0);
      SpanField(m, d) == Next(if t.num == 1 then m.(offset := UnZigZag32(Int32(w.v))) else m.(length := w.v % TWO_32),
                              t.n + w.n)
  {
    hide ReadTag, ReadVarint, UnZigZag32, Int32;
  }

  lemma {:induction false} SpanLength(m: BucketSpan, x: int, rest: seq<int>)
    requires 0 <= x < TWO_32
    ensures ParseAll(SpanField, m, [0x10] + Encoded(x) + rest) == ParseAll(SpanField, m.(length := x), rest)
  {
    assert x % TWO_32 == x;
    hide *;
    NumberBack(0x10, x, rest);
    SpanFieldIs(m, [0x10] + Encoded(x) + rest);
    ParseNext(SpanField, m, [0x10] + Encoded(x), rest, m.(length := x));
  }

  lemma {:induction false} SpanRoundTrip(m: BucketSpan)
    requires ValidSpan(m)
    ensures ParseAll(SpanField, EMPTY_SPAN, EncSpan(m)) == Some(m)
  {
    hide ParseAll, AllUnknown, Encoded, ZigZag32;
    var s := EMPTY_SPAN.(offset := m.offset);
    var t := if m.length == 0 then [] else [0x10] + Encoded(m.length);
    if m.offset == 0 {
      assert [] + (t + m.unknown) == t + m.unknown;
    } else {
      SpanOffset(EMPTY_SPAN, m.offset, t + m.unknown);
    }
    if m.length == 0 {
      assert t + m.unknown == m.unknown;
    } else {
      SpanLength(s, m.length, m.unknown);
    }
    SpanUnknown(s.(length := m.length), m.unknown);
    assert [] + m.unknown == m.unknown;
  }

  lemma {:induction false} SeriesUnknown(m: TimeSeries, u: seq<int>)
    requires AllUnknown(4, u)
    ensures ParseAll(SeriesField, m, u) == Some(m.(unknown := m.unknown + u))
    decreases |u|
  {
    hide ReadTag, Unknown, ReadChunk, LabelField, SampleField;
    if |u| == 0 {
      assert m.unknown + u == m.unknown;
    } else {
      var n := Unknown(u).value;
      var m' := m.(unknown := m.unknown + u[..n]);
      SeriesUnknown(m', u[n..]);
      assert m.unknown + u[..n] + u[n..] == m.unknown + u;
    }
  }

  lemma {:induction false} OneLabel(m: TimeSeries, l: Label, rest: seq<int>)
    requires ValidLabel(l) && |EncLabel(l)| < TWO_63
    ensures ParseAll(SeriesField, m, BytesField(0x0a, EncLabel(l)) + rest)
         == ParseAll(SeriesField, m.(labels := m.labels + [l]), rest)
  {
    hide ReadTag, Unknown, ReadChunk, LabelField, SampleField, ParseAll, EncLabel, AllUnknown;
    LabelRoundTrip(l);
    BytesFieldBack(0x0a, EncLabel(l), rest);
    ParseNext(SeriesField, m, BytesField(0x0a, EncLabel(l)), rest, m.(labels := m.labels + [l]));
  }

  lemma {:induction false} OneSample(m: TimeSeries, s: PSample, rest: seq<int>)
    requires ValidSample(s) && |EncSample(s)| < TWO_63
    ensures ParseAll(SeriesField, m, BytesField(0x12, EncSample(s)) + rest)
         == ParseAll(SeriesField, m.(samples := m.samples + [Canonical(s)]), rest)
  {
    hide ReadTag, Unknown, ReadChunk, LabelField, SampleField, ParseAll, EncSample, AllUnknown, Canonical;
    SampleRoundTrip(s);
    BytesFieldBack(0x12, EncSample(s), rest);
    ParseNext(SeriesField, m, BytesField(0x12, EncSample(s)), rest, m.(samples := m.samples + [Canonical(s)]));
  }

  lemma {:induction false} LabelsRoundTrip(m: TimeSeries, ls: seq<Label>, rest: seq<int>)
    requires forall i :: 0 <= i < |ls| ==> ValidLabel(ls[i]) && |EncLabel(ls[i])| < TWO_63
    ensures ParseAll(SeriesField, m, EncLabels(ls) + rest) == ParseAll(SeriesField, m.(labels := m.labels + ls), rest)
    decreases |ls|
  {
    hide ParseAll, EncLabel, BytesField, ValidLabel;
    if |ls| == 0 {
      assert [] + rest == rest && m.labels + ls == m.labels;
    } else {
      var x := BytesField(0x0a, EncLabel(ls[0]));
      assert EncLabels(ls) + rest == x + (EncLabels(ls[1..]) + rest);
      OneLabel(m, ls[0], EncLabels(ls[1..]) + rest);
      LabelsRoundTrip(m.(labels := m.labels + [ls[0]]), ls[1..], rest);
      assert m.labels + [ls[0]] + ls[1..] == m.labels + ls;
    }
  }

  function AllCanonical(ss: seq<PSample>): seq<PSample> {
    seq(|ss|, i requires 0 <= i < |ss| => Canonical(ss[i]))
  }

  lemma {:induction false} SamplesRoundTrip(m: TimeSeries, ss: seq<PSample>, rest: seq<int>)
    requires forall i :: 0 <= i < |ss| ==> ValidSample(ss[i]) && |EncSample(ss[i])| < TWO_63
    ensures ParseAll(SeriesField, m, EncSamples(ss) + rest)
         == ParseAll(SeriesField, m.(samples := m.samples + AllCanonical(ss)), rest)
    decreases |ss|
  {
    hide ParseAll, EncSample, BytesField, ValidSample, Canonical;
    if |ss| == 0 {
      assert [] + rest == rest && m.samples + AllCanonical(ss) == m.samples;
    } else {
      var x := BytesField(0x12, EncSample(ss[0]));
      assert EncSamples(ss) + rest == x + (EncSamples(ss[1..]) + rest);
      OneSample(m, ss[0], EncSamples(ss[1..]) + rest);
      SamplesRoundTrip(m.(samples := m.samples + [Canonical(ss[0])]), ss[1..], rest);
      assert m.samples + [Canonical(ss[0])] + AllCanonical(ss[1..]) == m.samples + AllCanonical(ss);
    }
  }

  /** A time series comes back as it was, but for minus zeros, and exactly as it was if it holds none. */
  lemma {:induction false} SeriesRoundTrip(m: TimeSeries)
    requires ValidSeries(m)
    ensures ParseAll(SeriesField, EMPTY_SERIES, EncSeries(m)) == Some(m.(samples := AllCanonical(m.samples)))
    ensures ParseAll(SeriesField, EMPTY_SERIES, EncSeries(m)) == Some(m)
      <==> forall i :: 0 <= i < |m.samples| ==> m.samples[i].bits != TWO_63
  {
    hide ParseAll, EncSamples, EncLabels, ValidSample, ValidLabel, AllUnknown;
    var s := EMPTY_SERIES.(labels := m.labels);
    LabelsRoundTrip(EMPTY_SERIES, m.labels, EncSamples(m.samples) + m.unknown);
    assert [] + m.labels == m.labels;
    SamplesRoundTrip(s, m.samples, m.unknown);
    assert [] + AllCanonical(m.samples) == AllCanonical(m.samples);
    SeriesUnknown(s.(samples := AllCanonical(m.samples)), m.unknown);
    assert [] + m.unknown == m.unknown;
    CanonicalSame(m.samples);
  }

  lemma {:induction false} CanonicalSame(ss: seq<PSample>)
    ensures AllCanonical(ss) == ss <==> forall i :: 0 <= i < |ss| ==> ss[i].bits != TWO_63
  {
    if AllCanonical(ss) == ss {
      forall i | 0 <= i < |ss|
        ensures ss[i].bits != TWO_63
      {
        assert AllCanonical(ss)[i] == ss[i];
      }
    }
  }

  // ---------------------------------------------------------------------------
  // What Unmarshal returns can be written again, in no more bytes than it was read from

  ghost predicate IsBytes(d: seq<int>) {
    forall i :: 0 <= i < |d| ==> 0 <= d[i] < 256
  }

  lemma {:induction false} EncodedMonotone(x: int, y: int)
    requires 0 <= x <= y
    ensures |Encoded(x)| <= |Encoded(y)|
  {
    if y >= 128 && x >= 128 {
      EncodedMonotone(x / 128, y / 128);
    }
  }

  /** No varint is shorter than the one written. */
  lemma {:induction false} EncodedMinimal(d: seq<int>, k: int)
    requires ReadVarint(d, k).Read?
    ensures |Encoded(ReadVarint(d, k).v)| <= ReadVarint(d, k).n
  {
    if d[0] >= 128 {
      EncodedMinimal(d[1..], k + 1);
    }
  }

  lemma {:induction false} EncodedMinimalFor(d: seq<int>, x: int)
    requires ReadVarint(d, 0).Read? && 0 <= x <= ReadVarint(d, 0).v
    ensures |Encoded(x)| <= ReadVarint(d, 0).n
  {
    EncodedMinimal(d, 0);
    EncodedMonotone(x, ReadVarint(d, 0).v);
  }

  lemma {:induction false} ChunkMinimal(key: int, d: seq<int>, b: seq<int>)
    requires ReadChunk(d).Chunk? && |b| <= |ReadChunk(d).bytes|
    ensures |BytesField(key, b)| <= 1 + ReadChunk(d).n
  {
    var v := ReadVarint(d, 0).v;
    assert Int64(v) <= v;
    EncodedMinimalFor(d, |b|);
  }

  lemma {:induction false} LabelStep(m: Label, d: seq<int>)
    requires ValidLabel(m) && |d| < TWO_63 && LabelField(m, d).Next?
    ensures var r := LabelField(m, d);
      ValidLabel(r.m) && 0 < r.n <= |d| && |EncLabel(r.m)| <= |EncLabel(m)| + r.n
  {
    hide ReadTag, ReadChunk, Unknown, AllUnknown, BytesField;
    var t := ReadTag(d);
    if t.num <= 2 {
      ChunkMinimal(if t.num == 1 then 0x0a else 0x12, d[t.n..], ReadChunk(d[t.n..]).bytes);
    } else {
      AllUnknownSnoc(2, m.unknown, d);
    }
  }

  lemma {:induction false} LabelParsed(m: Label, d: seq<int>)
    requires ValidLabel(m) && |d| < TWO_63 && ParseAll(LabelField, m, d).Some?
    ensures var r := ParseAll(LabelField, m, d).value; ValidLabel(r) && |EncLabel(r)| <= |EncLabel(m)| + |d|
    decreases |d|
  {
    hide LabelField, ValidLabel, EncLabel;
    if |d| > 0 {
      var r := LabelField(m, d);
      LabelStep(m, d);
      LabelParsed(r.m, d[r.n..]);
    }
  }

  lemma {:induction false} SampleStep(m: PSample, d: seq<int>)
    requires ValidSample(m) && IsBytes(d) && SampleField(m, d).Next?
    ensures var r := SampleField(m, d);
      ValidSample(r.m) && 0 < r.n <= |d| && |EncSample(r.m)| <= |EncSample(m)| + r.n
  {
    hide ReadTag, ReadVarint, Unknown, AllUnknown, Encoded, LittleEndian, FromLittleEndian, Int64, Uint64;
    var t, r := ReadTag(d), SampleField(m, d);
    Signed(m.timestamp);
    Fixed64(m.bits);
    if t.num == 1 {
      FixedRange(d[t.n..t.n + 8]);
      EightBytes();
      Fixed64(r.m.bits);
    } else if t.num == 2 {
      Unsigned(ReadVarint(d[t.n..], 0).v);
      EncodedMinimalFor(d[t.n..], Uint64(r.m.timestamp));
    } else {
      AllUnknownSnoc(2, m.unknown, d);
    }
  }

  lemma {:induction false} Unsigned(v: int)
    requires 0 <= v
    ensures -TWO_63 <= Int64(v) < TWO_63 && 0 <= Uint64(Int64(v)) <= v
  {
    var r := v % TWO_64;
    if r >= TWO_63 {
      GoInt.DivModUnique(r - TWO_64, TWO_64, -1, r);
    }
  }

  lemma {:induction false} SampleParsed(m: PSample, d: seq<int>)
    requires ValidSample(m) && IsBytes(d) && ParseAll(SampleField, m, d).Some?
    ensures var r := ParseAll(SampleField, m, d).value; ValidSample(r) && |EncSample(r)| <= |EncSample(m)| + |d|
    decreases |d|
  {
    hide SampleField, ValidSample, EncSample;
    if |d| > 0 {
      var r := SampleField(m, d);
      SampleStep(m, d);
      SampleParsed(r.m, d[r.n..]);
    }
  }

  lemma {:induction false} EncLabelsSnoc(ls: seq<Label>, l: Label)
    ensures |EncLabels(ls + [l])| == |EncLabels(ls)| + |BytesField(0x0a, EncLabel(l))|
    decreases |ls|
  {
    hide BytesField, EncLabel;
    if |ls| == 0 {
      assert ls + [l] == [l] && [l][1..] == [];
    } else {
      assert (ls + [l])[1..] == ls[1..] + [l];
      EncLabelsSnoc(ls[1..], l);
    }
  }

  lemma {:induction false} EncSamplesSnoc(ss: seq<PSample>, s: PSample)
    ensures |EncSamples(ss + [s])| == |EncSamples(ss)| + |BytesField(0x12, EncSample(s))|
    decreases |ss|
  {
    hide BytesField, EncSample;
    if |ss| == 0 {
      assert ss + [s] == [s] && [s][1..] == [];
    } else {
      assert (ss + [s])[1..] == ss[1..] + [s];
      EncSamplesSnoc(ss[1..], s);
    }
  }

  lemma {:induction false} ChunkBytes(d: seq<int>, n: int)
    requires IsBytes(d) && 0 <= n <= |d| && ReadChunk(d[n..]).Chunk?
    ensures IsBytes(ReadChunk(d[n..]).bytes)
  {
    hide ReadVarint, Int64;
    var c, w := ReadChunk(d[n..]), ReadVarint(d[n..], 0);
    forall i | 0 <= i < |c.bytes|
      ensures 0 <= c.bytes[i] < 256
    {
      assert c.bytes[i] == d[n + w.n + i];
    }
  }

  lemma {:induction false} SeriesStep(m: TimeSeries, d: seq<int>)
    requires ValidSeries(m) && IsBytes(d) && |d| < TWO_63 && SeriesField(m, d).Next?
    ensures var r := SeriesField(m, d);
      ValidSeries(r.m) && 0 < r.n <= |d| && |EncSeries(r.m)| <= |EncSeries(m)| + r.n
  {
    hide ReadTag, ReadChunk, Unknown, AllUnknown, IsBytes, ParseAll, BytesField, EncLabel, EncSample;
    hide EncLabels, EncSamples, ValidLabel, ValidSample;
    var t := ReadTag(d);
    if t.num <= 2 {
      var c := ReadChunk(d[t.n..]);
      ChunkBytes(d, t.n);
      EmptyIsValid();
      if t.num == 1 {
        LabelParsed(EMPTY_LABEL, c.bytes);
        var l := ParseAll(LabelField, EMPTY_LABEL, c.bytes).value;
        ChunkMinimal(0x0a, d[t.n..], EncLabel(l));
        EncLabelsSnoc(m.labels, l);
      } else {
        SampleParsed(EMPTY_SAMPLE, c.bytes);
        var s := ParseAll(SampleField, EMPTY_SAMPLE, c.bytes).value;
        ChunkMinimal(0x12, d[t.n..], EncSample(s));
        EncSamplesSnoc(m.samples, s);
      }
    } else {
      AllUnknownSnoc(4, m.unknown, d);
    }
  }

  lemma {:induction false} EmptyIsValid()
    ensures ValidLabel(EMPTY_LABEL) && ValidSample(EMPTY_SAMPLE) && ValidSpan(EMPTY_SPAN) && ValidSeries(EMPTY_SERIES)
    ensures |EncLabel(EMPTY_LABEL)| == |EncSample(EMPTY_SAMPLE)| == |EncSeries(EMPTY_SERIES)| == 0
  {
  }

  lemma {:induction false} SeriesParsed(m: TimeSeries, d: seq<int>)
    requires ValidSeries(m) && IsBytes(d) && |d| < TWO_63 && ParseAll(SeriesField, m, d).Some?
    ensures var r := ParseAll(SeriesField, m, d).value; ValidSeries(r) && |EncSeries(r)| <= |EncSeries(m)| + |d|
    decreases |d|
  {
    hide SeriesField, ValidSeries, EncSeries;
    if |d| > 0 {
      var r := SeriesField(m, d);
      SeriesStep(m, d);
      SeriesParsed(r.m, d[r.n..]);
    }
  }

  /** Whatever bytes a time series was read from, writing it and reading it again gives the same, in no more bytes. */
  lemma {:induction false} ReadWriteRead(d: seq<int>)
    requires IsBytes(d) && |d| < TWO_63 && ParseAll(SeriesField, EMPTY_SERIES, d).Some?
    ensures var m := ParseAll(SeriesField, EMPTY_SERIES, d).value;
      && |EncSeries(m)| <= |d|
      && ParseAll(SeriesField, EMPTY_SERIES, EncSeries(m)) == Some(m.(samples := AllCanonical(m.samples)))
  {
    hide ParseAll, SeriesField, ValidSeries, EncSeries;
    EmptyIsValid();
    SeriesParsed(EMPTY_SERIES, d);
    SeriesRoundTrip(ParseAll(SeriesField, EMPTY_SERIES, d).value);
  }

  // ---------------------------------------------------------------------------
  // Size

  function BytesSize(b: seq<int>): int {
    if |b| > 0 then 1 + |b| + SizeOf(|b|) else 0
  }

  function LabelSize(m: Label): int {
    BytesSize(m.name) + BytesSize(m.value) + |m.unknown|
  }

  function SampleSize(m: PSample): int {
    (if IsZero(m.bits) then 0 else 9) + (if m.timestamp == 0 then 0 else 1 + SizeOf(Uint64(m.timestamp))) + |m.unknown|
  }

  function SpanSize(m: BucketSpan): int
    requires 0 <= m.length
  {
    (if m.offset == 0 then 0 else 1 + SizeOf(ZigZag64(m.offset)))
    + (if m.length == 0 then 0 else 1 + SizeOf(m.length)) + |m.unknown|
  }

  lemma {:induction false} LabelSizeIsLength(m: Label)
    ensures LabelSize(m) == |EncLabel(m)|
  {
    hide SizeOf, Encoded;
    SizeIsLength(|m.name|);
    SizeIsLength(|m.value|);
  }

  lemma {:induction false} SampleSizeIsLength(m: PSample)
    requires 0 <= m.bits < TWO_64
    ensures SampleSize(m) == |EncSample(m)|
  {
    hide SizeOf, Encoded, LittleEndian;
    SizeIsLength(Uint64(m.timestamp));
    Fixed64(m.bits);
  }

  /** The size of an offset is taken from its 64-bit ZigZag, its bytes from the 32-bit one. */
  lemma {:induction false} SpanSizeIsLength(m: BucketSpan)
    requires -TWO_31 <= m.offset < TWO_31 && 0 <= m.length
    ensures SpanSize(m) == |EncSpan(m)|
  {
    hide SizeOf, Encoded, ZigZag32, ZigZag64, ZigZag;
    ZigZagRoundTrip(m.offset);
    SizeIsLength(ZigZag32(m.offset));
    SizeIsLength(m.length);
  }

  method SeriesSize(m: TimeSeries) returns (n: int)
    requires GoSamples(m.samples)
    ensures n == |EncSeries(m)|
  {
    hide SizeOf, EncLabel, EncSample, EncLabels, EncSamples, LabelSize, SampleSize;
    n := 0;
    EncodedNone();
    for i := 0 to |m.labels|
      invariant n == |EncLabels(m.labels[..i])|
    {
      var l := LabelSize(m.labels[i]);
      LabelSizeIsLength(m.labels[i]);
      SizeIsLength(l);
      EncLabelsSnoc(m.labels[..i], m.labels[i]);
      assert m.labels[..i + 1] == m.labels[..i] + [m.labels[i]];
      n := n + 1 + l + SizeOf(l);
    }
    assert m.labels[..|m.labels|] == m.labels;
    for i := 0 to |m.samples|
      invariant n == |EncLabels(m.labels)| + |EncSamples(m.samples[..i])|
    {
      var l := SampleSize(m.samples[i]);
      SampleSizeIsLength(m.samples[i]);
      SizeIsLength(l);
      EncSamplesSnoc(m.samples[..i], m.samples[i]);
      assert m.samples[..i + 1] == m.samples[..i] + [m.samples[i]];
      n := n + 1 + l + SizeOf(l);
    }
    assert m.samples[..|m.samples|] == m.samples;
    n := n + |m.unknown|;
  }

  /** The values are bit patterns of 64-bit floats. */
  ghost predicate GoSamples(ss: seq<PSample>) {
    forall i :: 0 <= i < |ss| ==> 0 <= ss[i].bits < TWO_64
  }

  lemma {:induction false} EncodedNone()
    ensures |EncLabels([])| == 0 && |EncSamples([])| == 0
  {
  }

  // ---------------------------------------------------------------------------
  // Marshal

  method PutBytesField(a: array<int>, i: int, key: int, b: seq<int>) returns (lo: int)
    requires |BytesField(key, b)| <= i <= a.Length
    modifies a
    ensures Wrote(old(a[..]), a[..], lo, i, BytesField(key, b))
  {
    hide Encoded, Wrote;
    ghost var s0 := a[..];
    var j := CopyBack(a, i, b);
    ghost var s1 := a[..];
    WroteBounds(s0, s1, j, i, b);
    lo := PutSize(a, j, key, |b|);
    WroteBoth(s0, s1, a[..], lo, j, i, [key] + Encoded(|b|), b);
  }

  /** A key and a varint before what is already written. */
  method PutSize(a: array<int>, i: int, key: int, v: int) returns (lo: int)
    requires 0 <= v && 1 + |Encoded(v)| <= i <= a.Length
    modifies a
    ensures Wrote(old(a[..]), a[..], lo, i, [key] + Encoded(v))
  {
    hide Encoded, Wrote;
    ghost var s0 := a[..];
    var j := PutVarint(a, i, v);
    ghost var s1 := a[..];
    WroteBounds(s0, s1, j, i, Encoded(v));
    lo := PutByte(a, j, key);
    WroteBoth(s0, s1, a[..], lo, j, i, [key], Encoded(v));
  }

  lemma {:induction false} WroteBounds(s: seq<int>, t: seq<int>, lo: int, hi: int, x: seq<int>)
    requires Wrote(s, t, lo, hi, x)
    ensures 0 <= lo <= hi <= |s| == |t| && hi - lo == |x| && t[lo..hi] == x
  {
  }

  method MarshalLabel(a: array<int>, hi: int, m: Label) returns (n: int)
    requires |EncLabel(m)| <= hi <= a.Length
    modifies a
    ensures Wrote(old(a[..]), a[..], hi - n, hi, EncLabel(m))
  {
    hide Wrote, BytesField;
    ghost var s0 := a[..];
    var i := CopyBack(a, hi, m.unknown);
    ghost var x := m.unknown;
    WroteBounds(s0, a[..], i, hi, x);
    if |m.value| > 0 {
      ghost var s1, j := a[..], i;
      i := PutBytesField(a, i, 0x12, m.value);
      WroteBoth(s0, s1, a[..], i, j, hi, BytesField(0x12, m.value), x);
      x := BytesField(0x12, m.value) + x;
      WroteBounds(s0, a[..], i, hi, x);
    } else {
      assert [] + x == x;
    }
    if |m.name| > 0 {
      ghost var s1, j := a[..], i;
      i := PutBytesField(a, i, 0x0a, m.name);
      WroteBoth(s0, s1, a[..], i, j, hi, BytesField(0x0a, m.name), x);
    } else {
      assert [] + x == x;
    }
    n := hi - i;
  }

  method MarshalSample(a: array<int>, hi: int, m: PSample) returns (n: int)
    requires 0 <= m.bits < TWO_64 && |EncSample(m)| <= hi <= a.Length
    modifies a
    ensures Wrote(old(a[..]), a[..], hi - n, hi, EncSample(m))
  {
    Fixed64(m.bits);
    hide Wrote, Encoded, LittleEndian, IsZero;
    ghost var s0 := a[..];
    var i := CopyBack(a, hi, m.unknown);
    ghost var x := m.unknown;
    WroteBounds(s0, a[..], i, hi, x);
    i := PutStamp(a, hi, i, m.timestamp, s0, x);
    x := Stamp(m.timestamp) + x;
    hide Stamp;
    WroteBounds(s0, a[..], i, hi, x);
    if !IsZero(m.bits) {
      i := PutValue(a, hi, i, m.bits, s0, x);
    } else {
      assert [] + x == x;
    }
    n := hi - i;
  }

  method PutStamp(a: array<int>, hi: int, i: int, timestamp: int, ghost s0: seq<int>, ghost x: seq<int>) returns (lo: int)
    requires |Stamp(timestamp)| <= i <= hi <= a.Length && Wrote(s0, a[..], i, hi, x)
    modifies a
    ensures Wrote(s0, a[..], lo, hi, Stamp(timestamp) + x)
  {
    hide Wrote, Encoded;
    lo := i;
    if timestamp != 0 {
      ghost var s1 := a[..];
      lo := PutSize(a, i, 0x10, Uint64(timestamp));
      WroteBoth(s0, s1, a[..], lo, i, hi, Stamp(timestamp), x);
    } else {
      assert [] + x == x;
    }
  }

  method PutValue(a: array<int>, hi: int, i: int, bits: int, ghost s0: seq<int>, ghost x: seq<int>) returns (lo: int)
    requires 0 <= bits < TWO_64 && 9 <= i <= hi <= a.Length && Wrote(s0, a[..], i, hi, x)
    modifies a
    ensures Wrote(s0, a[..], lo, hi, [0x09] + LittleEndian(bits, 8) + x)
  {
    Fixed64(bits);
    hide Wrote, LittleEndian;
    ghost var s1 := a[..];
    var j := PutFixed64(a, i, bits);
    ghost var s2 := a[..];
    WroteBounds(s1, s2, j, i, LittleEndian(bits, 8));
    lo := PutByte(a, j, 0x09);
    WroteBoth(s1, s2, a[..], lo, j, i, [0x09], LittleEndian(bits, 8));
    WroteBoth(s0, s1, a[..], lo, i, hi, [0x09] + LittleEndian(bits, 8), x);
  }

  method MarshalSpan(a: array<int>, hi: int, m: BucketSpan) returns (n: int)
    requires 0 <= m.length && |EncSpan(m)| <= hi <= a.Length
    modifies a
    ensures Wrote(old(a[..]), a[..], hi - n, hi, EncSpan(m))
  {
    hide Wrote, Encoded;
    ghost var s0 := a[..];
    var i := CopyBack(a, hi, m.unknown);
    ghost var x := m.unknown;
    WroteBounds(s0, a[..], i, hi, x);
    if m.length != 0 {
      ghost var s1, j := a[..], i;
      i := PutSize(a, i, 0x10, m.length);
      WroteBoth(s0, s1, a[..], i, j, hi, [0x10] + Encoded(m.length), x);
      x := [0x10] + Encoded(m.length) + x;
      WroteBounds(s0, a[..], i, hi, x);
    } else {
      assert [] + x == x;
    }
    if m.offset != 0 {
      ghost var s1, j := a[..], i;
      i := PutSize(a, i, 0x08, ZigZag32(m.offset));
      WroteBoth(s0, s1, a[..], i, j, hi, [0x08] + Encoded(ZigZag32(m.offset)), x);
    } else {
      assert [] + x == x;
    }
    n := hi - i;
  }

  lemma {:induction false} EncLabelsFrom(ls: seq<Label>, k: int)
    requires 0 <= k < |ls|
    ensures EncLabels(ls[k..]) == BytesField(0x0a, EncLabel(ls[k])) + EncLabels(ls[k + 1..])
    ensures |EncLabels(ls[k..])| <= |EncLabels(ls)|
    decreases k
  {
    hide BytesField, EncLabel;
    assert ls[k..][1..] == ls[k + 1..];
    if k > 0 {
      EncLabelsFrom(ls, k - 1);
      assert ls[k - 1..][1..] == ls[k..];
    } else {
      assert ls[0..] == ls;
    }
  }

  lemma {:induction false} EncSamplesFrom(ss: seq<PSample>, k: int)
    requires 0 <= k < |ss|
    ensures EncSamples(ss[k..]) == BytesField(0x12, EncSample(ss[k])) + EncSamples(ss[k + 1..])
    ensures |EncSamples(ss[k..])| <= |EncSamples(ss)|
    decreases k
  {
    hide BytesField, EncSample;
    assert ss[k..][1..] == ss[k + 1..];
    if k > 0 {
      EncSamplesFrom(ss, k - 1);
      assert ss[k - 1..][1..] == ss[k..];
    } else {
      assert ss[0..] == ss;
    }
  }

  /** One label in front of x, which is already written. */
  method PutLabel(a: array<int>, hi: int, i: int, l: Label, ghost s0: seq<int>, ghost x: seq<int>) returns (lo: int)
    requires |BytesField(0x0a, EncLabel(l))| <= i <= hi <= a.Length && Wrote(s0, a[..], i, hi, x)
    modifies a
    ensures Wrote(s0, a[..], lo, hi, BytesField(0x0a, EncLabel(l)) + x)
  {
    hide Wrote, EncLabel, Encoded;
    ghost var s1 := a[..];
    var size := MarshalLabel(a, i, l);
    ghost var s2 := a[..];
    WroteBounds(s1, s2, i - size, i, EncLabel(l));
    lo := PutSize(a, i - size, 0x0a, size);
    WroteBoth(s1, s2, a[..], lo, i - size, i, [0x0a] + Encoded(size), EncLabel(l));
    WroteBoth(s0, s1, a[..], lo, i, hi, BytesField(0x0a, EncLabel(l)), x);
  }

  method PutSample(a: array<int>, hi: int, i: int, s: PSample, ghost s0: seq<int>, ghost x: seq<int>)
    returns (lo: int)
    requires 0 <= s.bits < TWO_64
    requires |BytesField(0x12, EncSample(s))| <= i <= hi <= a.Length && Wrote(s0, a[..], i, hi, x)
    modifies a
    ensures Wrote(s0, a[..], lo, hi, BytesField(0x12, EncSample(s)) + x)
  {
    hide Wrote, EncSample, Encoded;
    ghost var s1 := a[..];
    var size := MarshalSample(a, i, s);
    ghost var s2 := a[..];
    WroteBounds(s1, s2, i - size, i, EncSample(s));
    lo := PutSize(a, i - size, 0x12, size);
    WroteBoth(s1, s2, a[..], lo, i - size, i, [0x12] + Encoded(size), EncSample(s));
    WroteBoth(s0, s1, a[..], lo, i, hi, BytesField(0x12, EncSample(s)), x);
  }

  method PutLabels(a: array<int>, hi: int, i: int, ls: seq<Label>, ghost s0: seq<int>, ghost x: seq<int>)
    returns (lo: int)
    requires |EncLabels(ls)| <= i <= hi <= a.Length && Wrote(s0, a[..], i, hi, x)
    modifies a
    ensures Wrote(s0, a[..], lo, hi, EncLabels(ls) + x)
  {
    hide Wrote, EncLabel, EncLabels, BytesField;
    lo := i;
    var k := |ls|;
    EncodedNone();
    WroteBounds(s0, a[..], i, hi, x);
    assert EncLabels(ls[k..]) + x == x by { assert ls[k..] == []; }
    while k > 0
      invariant 0 <= k <= |ls| && lo <= hi && Wrote(s0, a[..], lo, hi, EncLabels(ls[k..]) + x)
      invariant lo == i - |EncLabels(ls[k..])|
    {
      k := k - 1;
      EncLabelsFrom(ls, k);
      ghost var y, field := EncLabels(ls[k + 1..]) + x, BytesField(0x0a, EncLabel(ls[k]));
      lo := PutLabel(a, hi, lo, ls[k], s0, y);
      assert field + y == EncLabels(ls[k..]) + x;
      WroteBounds(s0, a[..], lo, hi, field + y);
    }
    assert ls[0..] == ls;
  }

  lemma {:induction false} Associates(a: seq<int>, b: seq<int>, c: seq<int>)
    ensures a + b + c == a + (b + c)
  {
  }

  method PutSamples(a: array<int>, hi: int, i: int, ss: seq<PSample>, ghost s0: seq<int>, ghost x: seq<int>)
    returns (lo: int)
    requires GoSamples(ss) && |EncSamples(ss)| <= i <= hi <= a.Length && Wrote(s0, a[..], i, hi, x)
    modifies a
    ensures Wrote(s0, a[..], lo, hi, EncSamples(ss) + x)
  {
    hide Wrote, EncSample, EncSamples, BytesField;
    lo := i;
    var k := |ss|;
    EncodedNone();
    WroteBounds(s0, a[..], i, hi, x);
    assert EncSamples(ss[k..]) + x == x by { assert ss[k..] == []; }
    while k > 0
      invariant 0 <= k <= |ss| && lo <= hi && Wrote(s0, a[..], lo, hi, EncSamples(ss[k..]) + x)
      invariant lo == i - |EncSamples(ss[k..])|
    {
      k := k - 1;
      EncSamplesFrom(ss, k);
      ghost var y, field := EncSamples(ss[k + 1..]) + x, BytesField(0x12, EncSample(ss[k]));
      lo := PutSample(a, hi, lo, ss[k], s0, y);
      Associates(field, EncSamples(ss[k + 1..]), x);
      WroteBounds(s0, a[..], lo, hi, field + y);
    }
    assert ss[0..] == ss;
  }

  method MarshalSeries(a: array<int>, hi: int, m: TimeSeries) returns (n: int)
    requires GoSamples(m.samples) && |EncSeries(m)| <= hi <= a.Length
    modifies a
    ensures Wrote(old(a[..]), a[..], hi - n, hi, EncSeries(m))
  {
    hide Wrote, EncLabels, EncSamples, GoSamples;
    ghost var s0 := a[..];
    var i := CopyBack(a, hi, m.unknown);
    WroteBounds(s0, a[..], i, hi, m.unknown);
    i := PutSamples(a, hi, i, m.samples, s0, m.unknown);
    WroteBounds(s0, a[..], i, hi, EncSamples(m.samples) + m.unknown);
    i := PutLabels(a, hi, i, m.labels, s0, EncSamples(m.samples) + m.unknown);
    n := hi - i;
  }

  /** The buffer is exactly as long as what is written into it. */
  method Marshal(m: TimeSeries) returns (d: seq<int>)
    requires GoSamples(m.samples)
    ensures d == EncSeries(m)
  {
    hide Wrote, EncSeries, GoSamples;
    var size := SeriesSize(m);
    var a := new int[size];
    ghost var s0 := a[..];
    var n := MarshalSeries(a, size, m);
    WroteBounds(s0, a[..], size - n, size, EncSeries(m));
    return a[..n];
  }

  method MarshalBucketSpan(m: BucketSpan) returns (d: seq<int>)
    requires -TWO_31 <= m.offset < TWO_31 && 0 <= m.length < TWO_32
    ensures d == EncSpan(m)
  {
    hide Wrote, EncSpan;
    SpanSizeIsLength(m);
    var size := SpanSize(m);
    var a := new int[size];
    ghost var s0 := a[..];
    var n := MarshalSpan(a, size, m);
    WroteBounds(s0, a[..], size - n, size, EncSpan(m));
    return a[..n];
  }

  // ---------------------------------------------------------------------------
  // Unmarshal

  lemma {:induction false} ParseAt<M>(field: (M, seq<int>) -> Step<M>, m: M, d: seq<int>, i: int)
    requires 0 <= i < |d|
    ensures field(m, d[i..]).Bad? ==> ParseAll(field, m, d[i..]) == None
    ensures field(m, d[i..]).Next? && 0 < field(m, d[i..]).n <= |d| - i ==>
      ParseAll(field, m, d[i..]) == ParseAll(field, field(m, d[i..]).m, d[i + field(m, d[i..]).n..])
  {
    var r := field(m, d[i..]);
    if r.Next? && 0 < r.n <= |d| - i {
      assert d[i..][r.n..] == d[i + r.n..];
    }
  }

  lemma {:induction false} ParseDone<M>(field: (M, seq<int>) -> Step<M>, m: M, d: seq<int>)
    ensures ParseAll(field, m, d[|d|..]) == Some(m)
  {
  }

  method UnmarshalLabel(d: seq<int>) returns (r: Option<Label>)
    ensures r == ParseAll(LabelField, EMPTY_LABEL, d)
  {
    hide ParseAll, ReadTag, ReadChunk, Unknown;
    var m, i := EMPTY_LABEL, 0;
    assert d[0..] == d;
    while i < |d|
      invariant 0 <= i <= |d| && ParseAll(LabelField, EMPTY_LABEL, d) == ParseAll(LabelField, m, d[i..])
    {
      ParseAt(LabelField, m, d, i);
      var t := TagAt(d, i);
      if t.NoTag? {
        return None;
      }
      if t.num == 1 || t.num == 2 {
        if t.wireType != 2 {
          return None;
        }
        assert d[i..][t.n..] == d[i + t.n..];
        var c := ChunkAt(d, i + t.n);
        if c.NoChunk? {
          return None;
        }
        if t.num == 1 {
          m := m.(name := c.bytes);
        } else {
          m := m.(value := c.bytes);
        }
        i := i + t.n + c.n;
      } else {
        var k := UnknownAt(d, i);
        if k.None? {
          return None;
        }
        assert d[i..][..k.value] == d[i..i + k.value];
        m := m.(unknown := m.unknown + d[i..i + k.value]);
        i := i + k.value;
      }
    }
    ParseDone(LabelField, m, d);
    return Some(m);
  }

  method UnmarshalSample(d: seq<int>) returns (r: Option<PSample>)
    ensures r == ParseAll(SampleField, EMPTY_SAMPLE, d)
  {
    hide ParseAll, ReadTag, ReadVarint, Unknown, FromLittleEndian;
    var m, i := EMPTY_SAMPLE, 0;
    assert d[0..] == d;
    while i < |d|
      invariant 0 <= i <= |d| && ParseAll(SampleField, EMPTY_SAMPLE, d) == ParseAll(SampleField, m, d[i..])
    {
      ParseAt(SampleField, m, d, i);
      var t := TagAt(d, i);
      if t.NoTag? {
        return None;
      }
      if t.num == 1 {
        if t.wireType != 1 || i + t.n + 8 > |d| {
          return None;
        }
        assert d[i..][t.n..t.n + 8] == d[i + t.n..i + t.n + 8];
        m := m.(bits := FromLittleEndian(d[i + t.n..i + t.n + 8]));
        i := i + t.n + 8;
      } else if t.num == 2 {
        assert d[i..][t.n..] == d[i + t.n..];
        var w := DecodeVarint(d, i + t.n, TWO_64);
        if t.wireType != 0 || w.Fail? {
          return None;
        }
        m := m.(timestamp := Int64(w.v));
        i := i + t.n + w.n;
      } else {
        var k := UnknownAt(d, i);
        if k.None? {
          return None;
        }
        assert d[i..][..k.value] == d[i..i + k.value];
        m := m.(unknown := m.unknown + d[i..i + k.value]);
        i := i + k.value;
      }
    }
    ParseDone(SampleField, m, d);
    return Some(m);
  }

  method UnmarshalSpan(d: seq<int>) returns (r: Option<BucketSpan>)
    ensures r == ParseAll(SpanField, EMPTY_SPAN, d)
  {
    hide ParseAll, ReadTag, ReadVarint, Unknown;
    var m, i := EMPTY_SPAN, 0;
    assert d[0..] == d;
    while i < |d|
      invariant 0 <= i <= |d| && ParseAll(SpanField, EMPTY_SPAN, d) == ParseAll(SpanField, m, d[i..])
    {
      hide UnZigZag32;
      ParseAt(SpanField, m, d, i);
      var t := TagAt(d, i);
      if t.NoTag? {
        return None;
      }
      if t.num == 1 || t.num == 2 {
        assert d[i..][t.n..] == d[i + t.n..];
        var w := DecodeVarint(d, i + t.n, TWO_32);
        if t.wireType != 0 || w.Fail? {
          return None;
        }
        if t.num == 1 {
          m := m.(offset := UnZigZag32(Int32(w.v)));
        } else {
          m := m.(length := w.v);
        }
        i := i + t.n + w.n;
      } else {
        var k := UnknownAt(d, i);
        if k.None? {
          return None;
        }
        assert d[i..][..k.value] == d[i..i + k.value];
        m := m.(unknown := m.unknown + d[i..i + k.value]);
        i := i + k.value;
      }
    }
    ParseDone(SpanField, m, d);
    return Some(m);
  }

  method UnmarshalSeries(d: seq<int>) returns (r: Option<TimeSeries>)
    ensures r == ParseAll(SeriesField, EMPTY_SERIES, d)
  {
    hide ParseAll, ReadTag, ReadChunk, Unknown, LabelField, SampleField;
    var m, i := EMPTY_SERIES, 0;
    assert d[0..] == d;
    while i < |d|
      invariant 0 <= i <= |d| && ParseAll(SeriesField, EMPTY_SERIES, d) == ParseAll(SeriesField, m, d[i..])
    {
      ParseAt(SeriesField, m, d, i);
      var t := TagAt(d, i);
      if t.NoTag? {
        return None;
      }
      if t.num <= 4 {
        assert d[i..][t.n..] == d[i + t.n..];
        var c := ChunkAt(d, i + t.n);
        if t.wireType != 2 || c.NoChunk? || t.num > 2 {
          return None;
        }
        if t.num == 1 {
          var l := UnmarshalLabel(c.bytes);
          if l.None? {
            return None;
          }
          m := m.(labels := m.labels + [l.value]);
        } else {
          var s := UnmarshalSample(c.bytes);
          if s.None? {
            return None;
          }
          m := m.(samples := m.samples + [s.value]);
        }
        i := i + t.n + c.n;
      } else {
        var k := UnknownAt(d, i);
        if k.None? {
          return None;
        }
        assert d[i..][..k.value] == d[i..i + k.value];
        m := m.(unknown := m.unknown + d[i..i + k.value]);
        i := i + k.value;
      }
    }
    ParseDone(SeriesField, m, d);
    return Some(m);
  }

  /** The two halves of the source together. */
  method WriteThenRead(m: TimeSeries) returns (r: Option<TimeSeries>)
    requires ValidSeries(m)
    ensures r == Some(m.(samples := AllCanonical(m.samples)))
  {
    hide ParseAll, EncSeries, AllUnknown, EncLabel, EncSample;
    var d := Marshal(m);
    SeriesRoundTrip(m);
    r := UnmarshalSeries(d);
  }

  method WriteThenReadSpan(m: BucketSpan) returns (r: Option<BucketSpan>)
    requires ValidSpan(m)
    ensures r == Some(m)
  {
    hide ParseAll, EncSpan, AllUnknown;
    var d := MarshalBucketSpan(m);
    SpanRoundTrip(m);
    r := UnmarshalSpan(d);
  }
}

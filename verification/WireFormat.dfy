/**
  The Protocol Buffers wire format in its own terms, and that the messages of prompb/types.pb.go are written,
  read and skipped in it: a record is a key, which is a field number and a wire type, and a payload.
 */
module WireFormat {

  import opened Samples
  import opened Varint
  import opened Wire
  import opened Prompb

  // ---------------------------------------------------------------------------
  // Records

  /** The number with these digits to base 128, lowest first; the high bit of a digit does not count. */
  function Digits(b: seq<int>): int {
    if |b| == 0 then 0 else b[0] % 128 + 128 * Digits(b[1..])
  }

  /** Bytes with the high bit set on all but the last. */
  ghost predicate IsGroup(b: seq<int>) {
    |b| > 0 && 0 <= b[|b| - 1] < 128 && forall i :: 0 <= i < |b| - 1 ==> 128 <= b[i] < 256
  }

  /** The shortest such bytes for a number. */
  ghost predicate IsVarint(b: seq<int>, v: int) {
    IsGroup(b) && Digits(b) == v && (|b| > 1 ==> b[|b| - 1] != 0)
  }

  ghost predicate IsNumber(x: seq<int>, num: int, v: int) {
    exists k, w :: IsVarint(k, num * 8 + 0) && IsVarint(w, v) && x == k + w
  }

  ghost predicate IsBytes(x: seq<int>, num: int, b: seq<int>) {
    exists k, l :: IsVarint(k, num * 8 + 2) && IsVarint(l, |b|) && x == k + l + b
  }

  ghost predicate IsFixed64(x: seq<int>, num: int, v: int) {
    exists k, f :: IsVarint(k, num * 8 + 1) && IsEightBytes(f, v) && x == k + f
  }

  /** Little-endian. */
  ghost predicate IsEightBytes(f: seq<int>, v: int) {
    && |f| == 8 && (forall i :: 0 <= i < 8 ==> 0 <= f[i] < 256)
    && v == f[0] + 0x100 * f[1] + 0x1_0000 * f[2] + 0x100_0000 * f[3]
          + 0x1_0000_0000 * (f[4] + 0x100 * f[5] + 0x1_0000 * f[6] + 0x100_0000 * f[7])
  }

  lemma {:induction false} EncodedIs(v: int)
    requires 0 <= v
    ensures IsVarint(Encoded(v), v)
  {
    if v >= 128 {
      EncodedIs(v / 128);
      var b := Encoded(v);
      assert b[1..] == Encoded(v / 128);
      assert b[|b| - 1] == Encoded(v / 128)[|b| - 2];
    }
  }

  lemma {:induction false} KeyIs(key: int)
    requires 0 <= key < 128
    ensures IsVarint([key], key)
  {
    assert [key][1..] == [];
  }

  lemma {:induction false} EightBytesAre(v: int)
    requires 0 <= v < TWO_64
    ensures IsEightBytes(LittleEndian(v, 8), v)
  {
    hide LittleEndian;
    var b := v / TWO_32;
    var c := FourBytes(v, 4);
    var e := FourBytes(b, 0);
    LittleEndianNext(b / TWO_32, 0);
    assert LittleEndian(v, 8) == c + e;
    Halves(c, e, v);
  }

  lemma {:induction false} Halves(c: seq<int>, e: seq<int>, v: int)
    requires 0 <= v < TWO_64 && IsFour(c, v % TWO_32) && IsFour(e, v / TWO_32 % TWO_32)
    ensures IsEightBytes(c + e, v)
  {
    assert 0 <= v / TWO_32 < TWO_32;
    assert v == v % TWO_32 + TWO_32 * (v / TWO_32);
  }

  lemma {:induction false} FourBytes(v: int, n: int) returns (c: seq<int>)
    requires 0 <= v && 0 <= n
    ensures IsFour(c, v % TWO_32) && LittleEndian(v, n + 4) == c + LittleEndian(v / TWO_32, n)
  {
    hide LittleEndian;
    var v1, v2, v3 := v / 256, v / 0x1_0000, v / 0x100_0000;
    assert v1 / 256 == v2 && v2 / 256 == v3 && v3 / 256 == v / TWO_32;
    c := [v % 256, v1 % 256, v2 % 256, v3 % 256];
    LittleEndianNext(v, n + 4);
    LittleEndianNext(v1, n + 3);
    LittleEndianNext(v2, n + 2);
    LittleEndianNext(v3, n + 1);
  }

  ghost predicate IsFour(c: seq<int>, v: int) {
    && |c| == 4 && (forall i :: 0 <= i < 4 ==> 0 <= c[i] < 256)
    && v == c[0] + 0x100 * c[1] + 0x1_0000 * c[2] + 0x100_0000 * c[3]
  }

  // ---------------------------------------------------------------------------
  // Writing

  lemma {:induction false} NumberIs(num: int, v: int)
    requires 0 < num < 16 && 0 <= v
    ensures IsNumber([num * 8] + Encoded(v), num, v)
  {
    hide IsVarint;
    KeyIs(num * 8);
    EncodedIs(v);
  }

  lemma {:induction false} BytesIs(num: int, b: seq<int>)
    requires 0 < num < 15
    ensures IsBytes(BytesField(num * 8 + 2, b), num, b)
  {
    hide IsVarint;
    KeyIs(num * 8 + 2);
    EncodedIs(|b|);
  }

  lemma {:induction false} Fixed64Is(num: int, v: int)
    requires 0 < num < 15 && 0 <= v < TWO_64
    ensures IsFixed64([num * 8 + 1] + LittleEndian(v, 8), num, v)
  {
    hide IsVarint;
    KeyIs(num * 8 + 1);
    EightBytesAre(v);
  }

  /** A label: its name in field 1, its value in field 2, empty ones left out, then what it did not know. */
  lemma {:induction false} LabelOnWire(m: Label) returns (name: seq<int>, value: seq<int>)
    ensures EncLabel(m) == name + value + m.unknown
    ensures if m.name == [] then name == [] else IsBytes(name, 1, m.name)
    ensures if m.value == [] then value == [] else IsBytes(value, 2, m.value)
  {
    hide IsBytes;
    name := if |m.name| > 0 then BytesField(0x0a, m.name) else [];
    value := if |m.value| > 0 then BytesField(0x12, m.value) else [];
    BytesIs(1, m.name);
    BytesIs(2, m.value);
  }

  /** A sample: its value as a double in field 1, unless it is a zero of either sign, its time in field 2, unless 0. */
  lemma {:induction false} SampleOnWire(m: PSample) returns (value: seq<int>, time: seq<int>)
    requires 0 <= m.bits < TWO_64 && -TWO_63 <= m.timestamp < TWO_63
    ensures EncSample(m) == value + time + m.unknown
    ensures if m.bits == 0 || m.bits == 0x8000_0000_0000_0000 then value == [] else IsFixed64(value, 1, m.bits)
    ensures if m.timestamp == 0 then time == []
            else IsNumber(time, 2, if m.timestamp < 0 then m.timestamp + 0x1_0000_0000_0000_0000 else m.timestamp)
  {
    hide IsFixed64, IsNumber;
    value := if IsZero(m.bits) then [] else [0x09] + LittleEndian(m.bits, 8);
    time := Stamp(m.timestamp);
    Fixed64Is(1, m.bits);
    NumberIs(2, Uint64(m.timestamp));
  }

  /** A span: its offset as a ZigZag number in field 1, its length in field 2. */
  lemma {:induction false} SpanOnWire(m: BucketSpan) returns (offset: seq<int>, length: seq<int>)
    requires -TWO_31 <= m.offset < TWO_31 && 0 <= m.length < TWO_32
    ensures EncSpan(m) == offset + length + m.unknown
    ensures if m.offset == 0 then offset == []
            else IsNumber(offset, 1, if m.offset < 0 then -2 * m.offset - 1 else 2 * m.offset)
    ensures if m.length == 0 then length == [] else IsNumber(length, 2, m.length)
  {
    hide IsNumber;
    ZigZagRoundTrip(m.offset);
    offset := if m.offset == 0 then [] else [0x08] + Encoded(ZigZag32(m.offset));
    length := if m.length == 0 then [] else [0x10] + Encoded(m.length);
    NumberIs(1, ZigZag32(m.offset));
    NumberIs(2, m.length);
  }

  function Flat(xs: seq<seq<int>>): seq<int> {
    if |xs| == 0 then [] else xs[0] + Flat(xs[1..])
  }

  lemma {:induction false} LabelsOnWire(ls: seq<Label>) returns (xs: seq<seq<int>>)
    ensures EncLabels(ls) == Flat(xs) && |xs| == |ls|
    ensures forall i :: 0 <= i < |ls| ==> IsBytes(xs[i], 1, EncLabel(ls[i]))
  {
    hide IsBytes, EncLabel, BytesField;
    if |ls| == 0 {
      xs := [];
    } else {
      var rest := LabelsOnWire(ls[1..]);
      xs := [BytesField(0x0a, EncLabel(ls[0]))] + rest;
      BytesIs(1, EncLabel(ls[0]));
      assert xs[1..] == rest;
    }
  }

  lemma {:induction false} SamplesOnWire(ss: seq<PSample>) returns (xs: seq<seq<int>>)
    ensures EncSamples(ss) == Flat(xs) && |xs| == |ss|
    ensures forall i :: 0 <= i < |ss| ==> IsBytes(xs[i], 2, EncSample(ss[i]))
  {
    hide IsBytes, EncSample, BytesField;
    if |ss| == 0 {
      xs := [];
    } else {
      var rest := SamplesOnWire(ss[1..]);
      xs := [BytesField(0x12, EncSample(ss[0]))] + rest;
      BytesIs(2, EncSample(ss[0]));
      assert xs[1..] == rest;
    }
  }

  /** A time series: its labels in fields 1, its samples in fields 2, in order. */
  lemma {:induction false} SeriesOnWire(m: TimeSeries) returns (labels: seq<seq<int>>, samples: seq<seq<int>>)
    ensures EncSeries(m) == Flat(labels) + Flat(samples) + m.unknown
    ensures |labels| == |m.labels| && forall i :: 0 <= i < |m.labels| ==> IsBytes(labels[i], 1, EncLabel(m.labels[i]))
    ensures |samples| == |m.samples| && forall i :: 0 <= i < |m.samples| ==> IsBytes(samples[i], 2, EncSample(m.samples[i]))
  {
    hide IsBytes, EncLabel, EncSample;
    labels := LabelsOnWire(m.labels);
    samples := SamplesOnWire(m.samples);
  }

  // ---------------------------------------------------------------------------
  // Reading

  /** At most ten bytes with the high bit on all but the last are read as their number, whatever follows. */
  lemma {:induction false} ReadDigits(b: seq<int>, k: int, rest: seq<int>)
    requires IsGroup(b) && 0 <= k && k + |b| <= 10
    ensures ReadVarint(b + rest, k) == Read(Digits(b), |b|)
  {
    assert (b + rest)[0] == b[0] && (b + rest)[1..] == b[1..] + rest;
    if |b| > 1 {
      ReadDigits(b[1..], k + 1, rest);
    } else {
      assert Digits(b[1..]) == 0;
    }
  }

  /** Bytes that end, or ten of them that have passed, without one below 128 are no number. */
  lemma {:induction false} ReadNothing(d: seq<int>, k: int)
    requires 0 <= k && forall i :: 0 <= i < |d| && i < 10 - k ==> 128 <= d[i]
    ensures ReadVarint(d, k) == Fail
  {
    if k < 10 && |d| > 0 {
      ReadNothing(d[1..], k + 1);
    }
  }

  /** The key at the front of d has this field number and wire type. */
  ghost predicate StartsWith(d: seq<int>, num: int, wireType: int) {
    exists k, rest :: IsVarint(k, num * 8 + wireType) && |k| <= 10 && d == k + rest
  }

  lemma {:induction false} TagIs(d: seq<int>, num: int, wireType: int)
    requires StartsWith(d, num, wireType) && 0 < num < 0x2000_0000 && 0 <= wireType < 8
    ensures wireType != 4 ==> ReadTag(d).Tag? && ReadTag(d).num == num && ReadTag(d).wireType == wireType
    ensures wireType == 4 ==> ReadTag(d) == NoTag
  {
    hide ReadVarint, Digits, IsGroup, Uint64, Int32;
    var k, rest :| IsVarint(k, num * 8 + wireType) && |k| <= 10 && d == k + rest;
    ReadDigits(k, 0, rest);
    KeyParts(num * 8 + wireType, num, wireType);
  }

  lemma {:induction false} KeyParts(v: int, num: int, wireType: int)
    requires v == num * 8 + wireType && 0 < num < 0x2000_0000 && 0 <= wireType < 8
    ensures Uint64(v) == v && Int32(v / 8) == num && v % 8 == wireType
  {
    assert v / 8 == num;
  }

  /** A known field with another wire type than its own, and an end-group, are errors. */
  lemma {:induction false} WrongTypeFails(d: seq<int>, num: int, wireType: int)
    requires StartsWith(d, num, wireType) && 0 < num < 0x2000_0000 && 0 <= wireType < 8
    ensures forall m :: wireType == 4 || (num <= 2 && wireType != 2) ==> ParseAll(LabelField, m, d) == None
    ensures forall m :: wireType == 4 || (num == 1 && wireType != 1) || (num == 2 && wireType != 0) ==>
      ParseAll(SampleField, m, d) == None
    ensures forall m :: wireType == 4 || (num <= 2 && wireType != 0) ==> ParseAll(SpanField, m, d) == None
    ensures forall m :: wireType == 4 || (num <= 2 && wireType != 2) ==> ParseAll(SeriesField, m, d) == None
  {
    hide ReadVarint, ReadTag, ReadChunk, Unknown;
    TagIs(d, num, wireType);
    NotEmpty(d, num, wireType);
  }

  lemma {:induction false} NotEmpty(d: seq<int>, num: int, wireType: int)
    requires StartsWith(d, num, wireType)
    ensures |d| > 0
  {
  }

  // ---------------------------------------------------------------------------
  // Skipping

  /** A field: a key and a payload, or a group of fields between a start and an end. */
  datatype Field = Simple(num: int, wireType: int, payload: seq<int>) | Group(num: int, body: Fields)

  datatype Fields = NoFields | Fields(head: Field, tail: Fields)

  function Write(f: Field): seq<int>
    requires 0 < f.num && (f.Simple? ==> 0 <= f.wireType) && (f.Group? ==> Numbered(f.body))
    decreases f
  {
    match f
    case Simple(num, wireType, payload) => Encoded(num * 8 + wireType) + payload
    case Group(num, body) => Encoded(num * 8 + 3) + WriteAll(body) + Encoded(num * 8 + 4)
  }

  function WriteAll(fs: Fields): seq<int>
    requires Numbered(fs)
    decreases fs
  {
    match fs
    case NoFields => []
    case Fields(f, rest) => Write(f) + WriteAll(rest)
  }

  predicate Numbered(fs: Fields)
    decreases fs
  {
    match fs
    case NoFields => true
    case Fields(f, rest) =>
      0 < f.num && (f.Simple? ==> 0 <= f.wireType) && (f.Group? ==> Numbered(f.body)) && Numbered(rest)
  }

  /** One payload of each wire type but groups. */
  ghost predicate IsPayload(p: seq<int>, wireType: int) {
    match wireType
    case 0 => IsGroup(p) && |p| <= 10
    case 1 => |p| == 8
    case 2 => exists l, b :: IsGroup(l) && |l| <= 10 && Digits(l) == |b| < 0x8000_0000_0000_0000 && p == l + b
    case 5 => |p| == 4
    case _ => false
  }

  lemma {:induction false} PayloadSkipped(before: seq<int>, p: seq<int>, rest: seq<int>, wireType: int)
    requires IsPayload(p, wireType)
    ensures SkipPayload(before + p + rest, |before|, wireType) == Some(|before| + |p|)
  {
    hide ReadVarint, Digits, IsGroup;
    var d := before + p + rest;
    assert d[|before|..] == p + rest;
    if wireType == 0 {
      ReadDigits(p, 0, rest);
    } else if wireType == 2 {
      ReadLength(p, rest);
    }
  }

  lemma {:induction false} ReadLength(p: seq<int>, rest: seq<int>)
    requires IsPayload(p, 2)
    ensures var w := ReadVarint(p + rest, 0); w.Read? && 0 <= Int64(w.v) && w.n + Int64(w.v) == |p|
  {
    hide ReadVarint, Digits, IsGroup;
    var l, b :| IsGroup(l) && |l| <= 10 && Digits(l) == |b| < 0x8000_0000_0000_0000 && p == l + b;
    ReadDigits(l, 0, b + rest);
    assert p + rest == l + (b + rest);
  }

  /** Every field has a number that the wire format allows, and a payload of its type. */
  ghost predicate WellFormed(f: Field)
    decreases f
  {
    && 0 < f.num < 0x2000_0000
    && match f
       case Simple(_, wireType, payload) => IsPayload(payload, wireType)
       case Group(_, body) => AllWellFormed(body)
  }

  ghost predicate AllWellFormed(fs: Fields)
    decreases fs
  {
    match fs
    case NoFields => true
    case Fields(f, rest) => WellFormed(f) && AllWellFormed(rest)
  }

  lemma {:induction false} FormedIsNumbered(f: Field)
    requires WellFormed(f)
    ensures 0 < f.num && (f.Simple? ==> 0 <= f.wireType) && (f.Group? ==> Numbered(f.body))
    decreases f
  {
    if f.Group? {
      AllFormedNumbered(f.body);
    }
  }

  lemma {:induction false} AllFormedNumbered(fs: Fields)
    requires AllWellFormed(fs)
    ensures Numbered(fs)
    decreases fs
  {
    if fs.Fields? {
      FormedIsNumbered(fs.head);
      AllFormedNumbered(fs.tail);
    }
  }

  /** A key is read, and the skip goes on behind it. */
  lemma {:induction false} KeySkipped(before: seq<int>, num: int, wireType: int, rest: seq<int>, depth: int)
    requires 0 < num < 0x2000_0000 && 0 <= wireType < 8
    ensures var k := Encoded(num * 8 + wireType);
      var d, i := before + k + rest, |before|;
      SkipFrom(d, i, depth) ==
      match SkipPayload(d, i + |k|, wireType) {
        case None => None
        case Some(j) =>
          if Depth(depth, wireType) < 0 then None
          else if Depth(depth, wireType) == 0 then Some(j)
          else SkipFrom(d, j, Depth(depth, wireType))
      }
  {
    hide ReadVarint, SkipPayload, Encoded, Depth;
    var v := num * 8 + wireType;
    var k := Encoded(v);
    var d, i := before + k + rest, |before|;
    TenBytes(v);
    EncodedBytes(v);
    ReadEncoded(v, 0, rest);
    assert d[i..] == k + rest;
    assert Uint64(v) % 8 == wireType;
  }

  lemma {:induction false} SimpleSkipped(before: seq<int>, num: int, wireType: int, p: seq<int>, rest: seq<int>, depth: int)
    requires 0 < num < 0x2000_0000 && IsPayload(p, wireType) && 0 <= depth
    ensures var k := Encoded(num * 8 + wireType);
      var d, j := before + (k + p) + rest, |before| + |k + p|;
      SkipFrom(d, |before|, depth) == if depth == 0 then Some(j) else SkipFrom(d, j, depth)
  {
    hide SkipPayload, Encoded, SkipFrom;
    var k := Encoded(num * 8 + wireType);
    assert before + (k + p) + rest == before + k + (p + rest) == (before + k) + p + rest;
    KeySkipped(before, num, wireType, p + rest, depth);
    PayloadSkipped(before + k, p, rest, wireType);
  }

  /** Wherever a field stands and however deep, skipping passes exactly the field. */
  lemma {:induction false} FieldSkipped(before: seq<int>, f: Field, rest: seq<int>, depth: int)
    requires WellFormed(f) && 0 <= depth && 0 < f.num && (f.Simple? ==> 0 <= f.wireType) && (f.Group? ==> Numbered(f.body))
    ensures var d, j := before + Write(f) + rest, |before| + |Write(f)|;
      SkipFrom(d, |before|, depth) == if depth == 0 then Some(j) else SkipFrom(d, j, depth)
    decreases f
  {
    hide SkipPayload, Encoded, SkipFrom;
    var d := before + Write(f) + rest;
    match f
    case Simple(num, wireType, p) => SimpleSkipped(before, num, wireType, p, rest, depth);
    case Group(num, body) =>
      var k, e, x := Encoded(num * 8 + 3), Encoded(num * 8 + 4), WriteAll(body);
      assert d == before + k + (x + e + rest) == (before + k) + x + (e + rest) == (before + k + x) + e + rest;
      KeySkipped(before, num, 3, x + e + rest, depth);
      NoPayload(d, |before| + |k|);
      FieldsSkipped(before + k, body, e + rest, depth + 1);
      KeySkipped(before + k + x, num, 4, rest, depth + 1);
      NoPayload(d, |before + k + x| + |e|);
  }

  lemma {:induction false} NoPayload(d: seq<int>, i: int)
    requires 0 <= i <= |d|
    ensures SkipPayload(d, i, 3) == Some(i) && SkipPayload(d, i, 4) == Some(i)
  {
  }

  lemma {:induction false} FieldsSkipped(before: seq<int>, fs: Fields, rest: seq<int>, depth: int)
    requires AllWellFormed(fs) && Numbered(fs) && 0 < depth
    ensures var d := before + WriteAll(fs) + rest;
      SkipFrom(d, |before|, depth) == SkipFrom(d, |before| + |WriteAll(fs)|, depth)
    decreases fs
  {
    hide SkipFrom, Write;
    match fs
    case NoFields =>
    case Fields(f, tail) =>
      var d := before + WriteAll(fs) + rest;
      assert d == before + Write(f) + (WriteAll(tail) + rest) == (before + Write(f)) + WriteAll(tail) + rest;
      FieldSkipped(before, f, WriteAll(tail) + rest, depth);
      FieldsSkipped(before + Write(f), tail, rest, depth);
  }

  /** An unknown field is skipped whole, whatever it contains and whatever follows it. */
  lemma {:induction false} UnknownIsSkipped(f: Field, rest: seq<int>)
    requires WellFormed(f)
    ensures 0 < f.num && (f.Simple? ==> 0 <= f.wireType) && (f.Group? ==> Numbered(f.body))
    ensures Unknown(Write(f) + rest) == Some(|Write(f)|)
  {
    hide SkipFrom, Write, WellFormed;
    FormedIsNumbered(f);
    FieldSkipped([], f, rest, 0);
    assert [] + Write(f) + rest == Write(f) + rest;
  }

  /** Wire types 6 and 7 do not exist. */
  lemma {:induction false} NoSuchType(num: int, wireType: int, rest: seq<int>)
    requires 0 < num < 0x2000_0000 && 6 <= wireType < 8
    ensures SkipFrom(Encoded(num * 8 + wireType) + rest, 0, 0) == None
  {
    hide Encoded;
    KeySkipped([], num, wireType, rest, 0);
    assert [] + Encoded(num * 8 + wireType) + rest == Encoded(num * 8 + wireType) + rest;
  }
}

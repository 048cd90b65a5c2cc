/**
  The wire types of Protocol Buffers as prompb/types.pb.go writes and reads them: base 128 varints,
  ZigZag integers, little-endian fixed64 and the skipping of unknown fields. A byte is an integer
  below 256; a value wraps to its Go type explicitly.
 */
module Varint {

  import GoInt

  const TWO_31: int := 0x8000_0000
  const TWO_32: int := 0x1_0000_0000
  const TWO_63: int := 0x8000_0000_0000_0000
  const TWO_64: int := 0x1_0000_0000_0000_0000

  function Uint64(x: int): int {
    x % TWO_64
  }

  function Int64(x: int): int {
    if x % TWO_64 < TWO_63 then x % TWO_64 else x % TWO_64 - TWO_64
  }

  function Int32(x: int): int {
    if x % TWO_32 < TWO_31 then x % TWO_32 else x % TWO_32 - TWO_32
  }

  // ---------------------------------------------------------------------------
  // Varints

  /** Seven bits a byte, lowest first, the high bit set on all but the last. */
  function Encoded(v: int): seq<int>
    requires 0 <= v
  {
    if v < 128 then [v] else [v % 128 + 128] + Encoded(v / 128)
  }

  /** math/bits.Len64. */
  function BitLen(x: int): int
    requires 0 <= x
  {
    if x == 0 then 0 else 1 + BitLen(x / 2)
  }

  function SetLowBit(x: int): int {
    if x % 2 == 0 then x + 1 else x
  }

  /** sovTypes. */
  function SizeOf(x: int): int
    requires 0 <= x
  {
    (BitLen(SetLowBit(x)) + 6) / 7
  }

  lemma {:induction false} BitLenLowBit(x: int)
    requires 0 < x
    ensures BitLen(SetLowBit(x)) == BitLen(x)
  {
    assert SetLowBit(x) / 2 == x / 2;
  }

  lemma {:induction false} BitLenSevenths(x: int)
    requires 128 <= x
    ensures BitLen(x) == 7 + BitLen(x / 128)
  {
    assert BitLen(x) == 2 + BitLen(x / 2 / 2) && x / 2 / 2 == x / 4;
    assert BitLen(x / 4) == 2 + BitLen(x / 4 / 2 / 2) && x / 4 / 2 / 2 == x / 16;
    assert BitLen(x / 16) == 2 + BitLen(x / 16 / 2 / 2) && x / 16 / 2 / 2 == x / 64;
    assert BitLen(x / 64) == 1 + BitLen(x / 64 / 2) && x / 64 / 2 == x / 128;
  }

  lemma {:induction false} BitLenSmall(x: int)
    requires 0 < x < 128
    ensures 1 <= BitLen(x) <= 7
  {
    assert BitLen(x) <= 2 + BitLen(x / 2 / 2) && x / 2 / 2 == x / 4;
    assert BitLen(x / 4) <= 2 + BitLen(x / 4 / 2 / 2) && x / 4 / 2 / 2 == x / 16;
    assert BitLen(x / 16) <= 2 + BitLen(x / 16 / 2 / 2) && x / 16 / 2 / 2 == x / 64;
    assert BitLen(x / 64) <= 1 + BitLen(x / 64 / 2) && x / 64 / 2 == 0;
  }

  /** The size computed from the bit length is the number of bytes written. */
  lemma {:induction false} SizeIsLength(v: int)
    requires 0 <= v
    ensures SizeOf(v) == |Encoded(v)|
  {
    if v < 128 {
      BitLenSmall(SetLowBit(v));
    } else {
      SizeIsLength(v / 128);
      BitLenLowBit(v);
      BitLenLowBit(v / 128);
      BitLenSevenths(v);
    }
  }

  /** encodeVarintTypes: writes the varint so that it ends at offset. */
  method EncodeVarint(a: array<int>, offset: int, v: int) returns (base: int)
    requires 0 <= v && SizeOf(v) <= offset <= a.Length
    modifies a
    ensures 0 <= base && base + |Encoded(v)| == offset && a[base..offset] == Encoded(v)
    ensures a[..base] == old(a[..base]) && a[offset..] == old(a[offset..])
  {
    hide SizeOf;
    SizeIsLength(v);
    base := offset - SizeOf(v);
    var i, w := base, v;
    ghost var before, after := a[..base], a[offset..];
    while w >= 128
      invariant 0 <= w && base <= i < offset && i + |Encoded(w)| == offset
      invariant a[base..i] + Encoded(w) == Encoded(v)
      invariant a[..base] == before && a[offset..] == after
    {
      ghost var done := a[base..i];
      a[i] := w % 128 + 128;
      assert a[base..i + 1] == done + [w % 128 + 128];
      assert Encoded(w) == [w % 128 + 128] + Encoded(w / 128);
      assert done + [w % 128 + 128] + Encoded(w / 128) == done + Encoded(w);
      w := w / 128;
      i := i + 1;
    }
    ghost var done := a[base..i];
    a[i] := w;
    assert a[base..offset] == done + [w];
  }

  datatype Read = Fail | Read(v: int, n: int)

  /** The value of a varint at the front of d, and its length; at most ten bytes. */
  function ReadVarint(d: seq<int>, k: int): (r: Read)
    ensures r.Read? ==> 0 < r.n <= |d| && 0 <= r.v
  {
    if k >= 10 || |d| == 0 then Fail
    else if d[0] < 128 then Read(d[0] % 128, 1)
    else
      match ReadVarint(d[1..], k + 1)
      case Fail => Fail
      case Read(v, n) => Read(d[0] % 128 + 128 * v, n + 1)
  }

  /** What was read does not depend on what follows. */
  lemma {:induction false} ReadLocal(d: seq<int>, k: int, e: seq<int>)
    requires ReadVarint(d, k).Read?
    ensures ReadVarint(d[..ReadVarint(d, k).n] + e, k) == ReadVarint(d, k)
  {
    if d[0] >= 128 {
      ReadLocal(d[1..], k + 1, e);
      var n := ReadVarint(d, k).n;
      assert (d[..n] + e)[1..] == d[1..][..n - 1] + e;
    }
  }

  /** Reading undoes writing, whatever follows. */
  lemma {:induction false} ReadEncoded(v: int, k: int, rest: seq<int>)
    requires 0 <= v && k + |Encoded(v)| <= 10
    ensures ReadVarint(Encoded(v) + rest, k) == Read(v, |Encoded(v)|)
  {
    var d := Encoded(v) + rest;
    if v >= 128 {
      assert d[1..] == Encoded(v / 128) + rest;
      ReadEncoded(v / 128, k + 1, rest);
    }
  }

  lemma {:induction false} EncodedLength(v: int, n: int, bound: int)
    requires 0 <= v < bound && 0 < n && bound == Power128(n)
    ensures |Encoded(v)| <= n
  {
    if v >= 128 {
      EncodedLength(v / 128, n - 1, Power128(n - 1));
    }
  }

  function Power128(n: int): int {
    if n <= 0 then 1 else 128 * Power128(n - 1)
  }

  lemma {:induction false} TenBytes(v: int)
    requires 0 <= v < TWO_64
    ensures |Encoded(v)| <= 10
  {
    assert Power128(5) == 0x8_0000_0000;
    assert Power128(10) == 128 * 128 * 128 * 128 * 128 * Power128(5);
    EncodedLength(v, 10, Power128(10));
  }

  lemma {:induction false} EncodedBytes(v: int)
    requires 0 <= v
    ensures |Encoded(v)| > 0 && forall i :: 0 <= i < |Encoded(v)| ==> 0 <= Encoded(v)[i] < 256
  {
    if v >= 128 {
      EncodedBytes(v / 128);
    }
  }

  /** Adding below the modulus first does not matter. */
  lemma {:induction false} WrapAdd(a: int, b: int, m: int)
    requires 0 < m
    ensures (a % m + b) % m == (a + b) % m
  {
    var q, q' := a / m, (a + b) / m;
    assert a == m * q + a % m && a + b == m * q' + (a + b) % m;
    assert a % m + b == m * (q' - q) + (a + b) % m;
    GoInt.DivModUnique(a % m + b, m, q' - q, (a + b) % m);
  }

  /** The shift loop of every Unmarshal, for a Go type of modulus m: each byte's bits are added in its place. */
  method DecodeVarint(d: seq<int>, start: int, m: int) returns (r: Read)
    requires 0 <= start <= |d| && 0 < m
    ensures var w := ReadVarint(d[start..], 0); r == if w.Fail? then Fail else Read(w.v % m, w.n)
  {
    hide ReadVarint, Power128;
    var v, i, k, unit := 0, start, 0, 1;
    ghost var total := 0;
    while true
      invariant start <= i <= |d| && 0 <= k <= 10
      invariant v == total % m
      invariant Continues(ReadVarint(d[start..], 0), ReadVarint(d[i..], k), total, unit, i - start)
      decreases 10 - k
    {
      ReadOne(d, i, k);
      if k >= 10 {
        return Fail;
      }
      if i >= |d| {
        return Fail;
      }
      var b := d[i];
      ContinuesNext(ReadVarint(d[start..], 0), d, i, k, total, unit, i - start);
      WrapAdd(total, b % 128 * unit, m);
      total := total + b % 128 * unit;
      v := (v + b % 128 * unit) % m;
      i := i + 1;
      if b < 128 {
        return Read(v, i - start);
      }
      k := k + 1;
      unit := 128 * unit;
    }
  }

  /** The whole reading, given the part still to be read and what was read before it. */
  ghost predicate Continues(whole: Read, part: Read, total: int, unit: int, n: int) {
    whole == if part.Fail? then Fail else Read(total + unit * part.v, n + part.n)
  }

  lemma {:induction false} ReadOne(d: seq<int>, i: int, k: int)
    requires 0 <= i <= |d|
    ensures k >= 10 || i == |d| ==> ReadVarint(d[i..], k) == Fail
    ensures k < 10 && i < |d| && d[i] < 128 ==> ReadVarint(d[i..], k) == Read(d[i] % 128, 1)
    ensures k < 10 && i < |d| && d[i] >= 128 ==>
      var w := ReadVarint(d[i + 1..], k + 1);
      ReadVarint(d[i..], k) == if w.Fail? then Fail else Read(d[i] % 128 + 128 * w.v, w.n + 1)
  {
    if i < |d| {
      assert d[i..][1..] == d[i + 1..];
    }
  }

  lemma {:induction false} ContinuesNext(whole: Read, d: seq<int>, i: int, k: int, total: int, unit: int, n: int)
    requires 0 <= i < |d| && k < 10 && Continues(whole, ReadVarint(d[i..], k), total, unit, n)
    ensures d[i] < 128 ==> whole == Read(total + d[i] % 128 * unit, n + 1)
    ensures d[i] >= 128 ==>
      Continues(whole, ReadVarint(d[i + 1..], k + 1), total + d[i] % 128 * unit, 128 * unit, n + 1)
  {
    hide ReadVarint;
    ReadOne(d, i, k);
    var w := ReadVarint(d[i + 1..], k + 1);
    if d[i] >= 128 && w.Read? {
      Distribute(unit, d[i] % 128, w.v);
    }
  }

  lemma {:induction false} Distribute(unit: int, c: int, v: int)
    ensures unit * (c + 128 * v) == c * unit + 128 * unit * v
  {
  }

  // ---------------------------------------------------------------------------
  // ZigZag and fixed64

  /** The mathematical reading: 0, -1, 1, -2, ... become 0, 1, 2, 3, ... */
  function ZigZag(x: int): int {
    if x >= 0 then 2 * x else -2 * x - 1
  }

  /** (uint32(x) << 1) ^ uint32(x >> 31): the second operand is all zeros or all ones. */
  function ZigZag32(x: int): int {
    var shifted := 2 * (x % TWO_32) % TWO_32;
    if x < 0 then TWO_32 - 1 - shifted else shifted
  }

  /** The same in 64 bits, which sozTypes measures. */
  function ZigZag64(x: int): int {
    var shifted := 2 * (x % TWO_64) % TWO_64;
    if x < 0 then TWO_64 - 1 - shifted else shifted
  }

  /** int32((uint32(v) >> 1) ^ uint32(((v & 1) << 31) >> 31)). */
  function UnZigZag32(v: int): int {
    var half := v % TWO_32 / 2;
    Int32(if v % 2 == 1 then TWO_32 - 1 - half else half)
  }

  /** Doubling a negative number in modulus m. */
  lemma {:induction false} DoubleWraps(x: int, m: int)
    requires 0 < m && -m <= 2 * x < 0
    ensures 2 * (x % m) % m == 2 * x + m
  {
    GoInt.DivModUnique(x, m, -1, x + m);
    GoInt.DivModUnique(2 * (x + m), m, 1, 2 * x + m);
  }

  lemma {:induction false} ZigZag32Is(x: int)
    requires -TWO_31 <= x < TWO_31
    ensures ZigZag32(x) == ZigZag(x) && 0 <= ZigZag(x) < TWO_32
  {
    if x < 0 {
      DoubleWraps(x, TWO_32);
    }
  }

  lemma {:induction false} ZigZag64Is(x: int)
    requires -TWO_31 <= x < TWO_31
    ensures ZigZag64(x) == ZigZag(x)
  {
    if x < 0 {
      DoubleWraps(x, TWO_64);
    }
  }

  lemma {:induction false} UnZigZagIs(x: int)
    requires -TWO_31 <= x < TWO_31
    ensures UnZigZag32(ZigZag(x)) == x
  {
    if x < 0 {
      assert ZigZag(x) % TWO_32 / 2 == -x - 1;
    }
  }

  /** The bit operations compute ZigZag in either width, and reading undoes it. */
  lemma {:induction false} ZigZagRoundTrip(x: int)
    requires -TWO_31 <= x < TWO_31
    ensures ZigZag32(x) == ZigZag64(x) == ZigZag(x) && 0 <= ZigZag(x) < TWO_32
    ensures UnZigZag32(ZigZag32(x)) == x
  {
    hide *;
    ZigZag32Is(x);
    ZigZag64Is(x);
    UnZigZagIs(x);
  }

  function LittleEndian(v: int, n: int): seq<int>
    decreases n
  {
    if n <= 0 then [] else [v % 256] + LittleEndian(v / 256, n - 1)
  }

  function FromLittleEndian(d: seq<int>): int {
    if |d| == 0 then 0 else d[0] + 256 * FromLittleEndian(d[1..])
  }

  function Power256(n: int): int {
    if n <= 0 then 1 else 256 * Power256(n - 1)
  }

  lemma {:induction false} FixedRoundTrip(v: int, n: int)
    requires 0 <= n && 0 <= v < Power256(n)
    ensures |LittleEndian(v, n)| == n && FromLittleEndian(LittleEndian(v, n)) == v
  {
    if n > 0 {
      FixedRoundTrip(v / 256, n - 1);
      assert LittleEndian(v, n)[1..] == LittleEndian(v / 256, n - 1);
    }
  }

  lemma {:induction false} FixedRange(d: seq<int>)
    requires forall i :: 0 <= i < |d| ==> 0 <= d[i] < 256
    ensures 0 <= FromLittleEndian(d) < Power256(|d|)
  {
    if |d| > 0 {
      FixedRange(d[1..]);
    }
  }

  lemma {:induction false} Fixed64(v: int)
    requires 0 <= v < TWO_64
    ensures |LittleEndian(v, 8)| == 8 && FromLittleEndian(LittleEndian(v, 8)) == v
  {
    EightBytes();
    FixedRoundTrip(v, 8);
  }

  lemma {:induction false} EightBytes()
    ensures Power256(8) == TWO_64
  {
    assert Power256(4) == 0x1_0000_0000;
    assert Power256(8) == 256 * 256 * 256 * 256 * Power256(4);
  }

  /** binary.LittleEndian.PutUint64 at index i. */
  method PutFixed(a: array<int>, i: int, v: int)
    requires 0 <= i && i + 8 <= a.Length && 0 <= v < TWO_64
    modifies a
    ensures a[i..i + 8] == LittleEndian(v, 8)
    ensures a[..i] == old(a[..i]) && a[i + 8..] == old(a[i + 8..])
  {
    hide LittleEndian;
    var j, w, n := 0, v, 8;
    ghost var before, after := a[..i], a[i + 8..];
    while j < n
      invariant 0 <= j <= n && a[i..i + j] + LittleEndian(w, n - j) == LittleEndian(v, n)
      invariant a[..i] == before && a[i + 8..] == after
    {
      ghost var done := a[i..i + j];
      a[i + j] := w % 256;
      assert a[i..i + j + 1] == done + [w % 256];
      LittleEndianNext(w, n - j);
      assert done + [w % 256] + LittleEndian(w / 256, n - j - 1) == done + LittleEndian(w, n - j);
      w := w / 256;
      j := j + 1;
    }
    LittleEndianNext(w, 0);
  }

  lemma {:induction false} LittleEndianNext(v: int, n: int)
    ensures n <= 0 ==> |LittleEndian(v, n)| == 0
    ensures n > 0 ==> LittleEndian(v, n) == [v % 256] + LittleEndian(v / 256, n - 1)
  {
  }
}

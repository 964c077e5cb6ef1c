/** WNDQ: the binary form of a two-dimensional wind field, quantised to 16-bit integers. */
module VectorField {
  import opened Wrappers
  import opened Coverage
  import opened Arrays

  /** A 4-byte header float: its bytes are kept, its meaning is a parameter. */
  datatype Float = Float(b0: Byte, b1: Byte, b2: Byte, b3: Byte)

  datatype FloatFormat = FloatFormat(finite: Float -> bool, value: Float -> real)

  datatype Metadata = Metadata(latStart: Float, latStep: Float, latCount: nat,
                               lonStart: Float, lonStep: Float, lonCount: nat, scale: Float)

  datatype Error =
    | NotTwoDimensional | ShapeMismatch | NonFiniteField
    | TooFewPoints | ZeroStep | BadScale | NonFiniteOrigin | CountTooWide
    | TooShort | BadMagic | BadVersion | BadFlags | SizeMismatch

  datatype Decoded = Decoded(u: Field, v: Field, meta: Metadata)

  const MAGIC: seq<Byte> := [0x57, 0x4E, 0x44, 0x51]
  const HEADER := 36

  // ---------------------------------------------------------------- integers and bytes

  function PutU32(n: nat): (r: seq<Byte>)
    requires n < 0x1_0000_0000
    ensures |r| == 4
  {
    [n % 0x100, n / 0x100 % 0x100, n / 0x1_0000 % 0x100, n / 0x100_0000]
  }

  function GetU32(b: seq<Byte>, at: nat): (r: nat)
    requires at + 4 <= |b|
    ensures r < 0x1_0000_0000
  {
    var b0: int, b1: int, b2: int, b3: int := b[at], b[at + 1], b[at + 2], b[at + 3];
    b0 + 0x100 * b1 + 0x1_0000 * b2 + 0x100_0000 * b3
  }

  function PutFloat(f: Float): (r: seq<Byte>)
    ensures |r| == 4
  {
    [f.b0, f.b1, f.b2, f.b3]
  }

  function GetFloat(b: seq<Byte>, at: nat): Float
    requires at + 4 <= |b|
  {
    Float(b[at], b[at + 1], b[at + 2], b[at + 3])
  }

  type Int16 = q: int | -32768 <= q <= 32767

  function LowByte(q: Int16): Byte {
    q % 256
  }

  function HighByte(q: Int16): Byte {
    (if q < 0 then q + 65536 else q) / 256
  }

  function GetI16(low: Byte, high: Byte): Int16 {
    var n := low + 256 * high;
    if n < 32768 then n else n - 65536
  }

  lemma Int16RoundTrip(q: Int16, low: Byte, high: Byte)
    ensures GetI16(LowByte(q), HighByte(q)) == q
    ensures LowByte(GetI16(low, high)) == low && HighByte(GetI16(low, high)) == high
  {
  }

  lemma LowDigit(b: Byte, rest: nat)
    ensures (b as int + 0x100 * rest) % 0x100 == b && (b as int + 0x100 * rest) / 0x100 == rest
  {
  }

  lemma DivideTwice(n: nat)
    ensures n / 0x1_0000 == n / 0x100 / 0x100 && n / 0x100_0000 == n / 0x1_0000 / 0x100
  {
  }

  lemma WordOfBytes(b0: Byte, b1: Byte, b2: Byte, b3: Byte, word: nat)
    requires word == b0 as int + 0x100 * b1 as int + 0x1_0000 * b2 as int + 0x100_0000 * b3 as int
    ensures word % 0x100 == b0 && word / 0x100 % 0x100 == b1 && word / 0x1_0000 % 0x100 == b2 && word / 0x100_0000 == b3
  {
    var high: nat := b2 as int + 0x100 * b3;
    var upper: nat := b1 as int + 0x100 * high;
    DivideTwice(word);
    LowDigit(b0, upper);
    LowDigit(b1, high);
    LowDigit(b2, b3);
  }

  lemma GetOfPut(n: nat)
    requires n < 0x1_0000_0000
    ensures GetU32(PutU32(n), 0) == n
  {
    DivideTwice(n);
  }

  lemma PutOfGet(b: seq<Byte>, at: nat)
    requires at + 4 <= |b|
    ensures PutU32(GetU32(b, at)) == b[at..at + 4]
  {
    WordOfBytes(b[at], b[at + 1], b[at + 2], b[at + 3], GetU32(b, at));
  }

  /** `astype("<i2").tobytes()` */
  function Bytes(qs: seq<Int16>): (r: seq<Byte>)
    ensures |r| == 2 * |qs|
  {
    seq(2 * |qs|, k requires 0 <= k < 2 * |qs| => if k % 2 == 0 then LowByte(qs[k / 2]) else HighByte(qs[k / 2]))
  }

  /** `np.frombuffer(dtype="<i2")` */
  function Ints(b: seq<Byte>, at: nat, n: nat): (r: seq<Int16>)
    requires at + 2 * n <= |b|
    ensures |r| == n
  {
    seq(n, i requires 0 <= i < n => GetI16(b[at + 2 * i], b[at + 2 * i + 1]))
  }

  lemma PackedPair(qs: seq<Int16>, i: nat)
    requires i < |qs|
    ensures Bytes(qs)[2 * i] == LowByte(qs[i]) && Bytes(qs)[2 * i + 1] == HighByte(qs[i])
  {
    assert (2 * i) / 2 == i && (2 * i + 1) / 2 == i;
  }

  lemma IntsOfBytes(qs: seq<Int16>, b: seq<Byte>, at: nat)
    requires at + 2 * |qs| <= |b| && b[at..at + 2 * |qs|] == Bytes(qs)
    ensures Ints(b, at, |qs|) == qs
  {
    var packed := Bytes(qs);
    assert forall k | 0 <= k < |packed| :: b[at + k] == packed[k];
    forall i | 0 <= i < |qs| ensures Ints(b, at, |qs|)[i] == qs[i] {
      PackedPair(qs, i);
      Int16RoundTrip(qs[i], 0, 0);
    }
  }

  lemma BytesOfInts(b: seq<Byte>, at: nat, n: nat)
    requires at + 2 * n <= |b|
    ensures Bytes(Ints(b, at, n)) == b[at..at + 2 * n]
  {
    forall k | 0 <= k < 2 * n ensures Bytes(Ints(b, at, n))[k] == b[at + k] {
      var i := k / 2;
      Int16RoundTrip(0, b[at + 2 * i], b[at + 2 * i + 1]);
    }
  }

  // ---------------------------------------------------------------- quantisation

  function Clip(q: int): Int16 {
    if q < -32768 then -32768 else if q > 32767 then 32767 else q
  }

  /** `np.clip(np.round(x / scale), -32768, 32767)` */
  function Quantise(x: real, scale: real): Int16
    requires scale > 0.0
  {
    Clip(RoundHalfEven(x / scale))
  }

  /** The value a quantum stands for. */
  function Dequantise(q: Int16, scale: real): real {
    q as real * scale
  }

  lemma RoundingError(t: real)
    ensures var q := Clip(RoundHalfEven(t)) as real;
            && (-0.5 <= q - t <= 0.5 <==> -32768.5 <= t <= 32767.5)
            && (t > 32767.5 ==> q == 32767.0) && (t < -32768.5 ==> q == -32768.0)
  {
    RoundIsNearest(t, 0);
  }

  lemma Scaled(a: real, b: real, scale: real)
    requires scale > 0.0
    ensures a * scale <= b * scale <==> a <= b
  {
    assert (b - a) * scale == b * scale - a * scale;
    if a <= b { assert (b - a) * scale >= 0.0; } else { assert (a - b) * scale > 0.0; }
  }

  lemma Shift(t: real, d: real, scale: real)
    ensures (t + d) * scale == t * scale + d * scale
  {
  }

  lemma Upper(q: real, t: real, d: real, scale: real)
    requires scale > 0.0
    ensures q * scale - t * scale <= d * scale <==> q - t <= d
  {
    Scaled(q, t + d, scale);
    Shift(t, d, scale);
  }

  lemma Ratio(x: real, scale: real)
    requires scale > 0.0
    ensures x / scale * scale == x
  {
  }

  /** A value comes back within half a quantum exactly when it lies in the representable range, ends
      extended by half a quantum; beyond it the nearer end comes back. */
  lemma QuantisationError(x: real, scale: real)
    requires scale > 0.0
    ensures -(0.5 * scale) <= Dequantise(Quantise(x, scale), scale) - x <= 0.5 * scale
            <==> -(32768.5 * scale) <= x <= 32767.5 * scale
    ensures x > 32767.5 * scale ==> Quantise(x, scale) == 32767
    ensures x < -(32768.5 * scale) ==> Quantise(x, scale) == -32768
  {
    var t := x / scale;
    var q := Quantise(x, scale) as real;
    RoundingError(t);
    Ratio(x, scale);
    ErrorAbove(q, t, x, scale);
    ErrorBelow(q, t, x, scale);
    RangeBelow(t, x, scale);
  }

  lemma ErrorAbove(q: real, t: real, x: real, scale: real)
    requires scale > 0.0 && t * scale == x
    ensures q * scale - x <= 0.5 * scale <==> q - t <= 0.5
    ensures x <= 32767.5 * scale <==> t <= 32767.5
  {
    Upper(q, t, 0.5, scale);
    Scaled(t, 32767.5, scale);
  }

  lemma ErrorBelow(q: real, t: real, x: real, scale: real)
    requires scale > 0.0 && t * scale == x
    ensures x - q * scale <= 0.5 * scale <==> t - q <= 0.5
  {
    Upper(t, q, 0.5, scale);
  }

  lemma RangeBelow(t: real, x: real, scale: real)
    requires scale > 0.0 && t * scale == x
    ensures 0.0 - x <= 32768.5 * scale <==> -32768.5 <= t
  {
    Upper(0.0, t, 32768.5, scale);
    assert 0.0 * scale == 0.0;
  }

  lemma QuantiseExact(q: Int16, scale: real)
    requires scale > 0.0
    ensures Quantise(Dequantise(q, scale), scale) == q
  {
    assert q as real * scale / scale == q as real;
  }

  // ---------------------------------------------------------------- header

  /** `VectorGridMetadata.__post_init__` */
  function CheckMetadata(m: Metadata, ff: FloatFormat): Option<Error> {
    if m.latCount < 2 || m.lonCount < 2 then Some(TooFewPoints)
    else if IsZero(m.latStep, ff) || IsZero(m.lonStep, ff) then Some(ZeroStep)
    else if !ff.finite(m.scale) || ff.value(m.scale) <= 0.0 then Some(BadScale)
    else if !ff.finite(m.latStart) || !ff.finite(m.lonStart) then Some(NonFiniteOrigin)
    else None
  }

  predicate IsZero(f: Float, ff: FloatFormat) {
    ff.finite(f) && ff.value(f) == 0.0
  }

  function PutHeader(m: Metadata): (r: seq<Byte>)
    requires m.latCount < 0x1_0000_0000 && m.lonCount < 0x1_0000_0000
    ensures |r| == HEADER
  {
    MAGIC + [1, 1, 0, 0] + PutFloat(m.scale)
    + PutFloat(m.latStart) + PutFloat(m.latStep) + PutU32(m.latCount)
    + PutFloat(m.lonStart) + PutFloat(m.lonStep) + PutU32(m.lonCount)
  }

  function GetHeader(b: seq<Byte>): Metadata
    requires |b| >= HEADER
  {
    Metadata(GetFloat(b, 12), GetFloat(b, 16), GetU32(b, 20),
             GetFloat(b, 24), GetFloat(b, 28), GetU32(b, 32), GetFloat(b, 8))
  }

  // ---------------------------------------------------------------- encode and decode

  function QuantiseAll(f: Field, scale: real): (r: seq<Int16>)
    requires AllFinite(f) && scale > 0.0
    ensures |r| == |f.cells|
  {
    seq(|f.cells|, k requires 0 <= k < |f.cells| => Quantise(f.cells[k].x, scale))
  }

  /** `encode_vector_field_int16`; the counts of `m` are ignored, the shape of `u` supplies them. */
  function Encode(u: Field, v: Field, m: Metadata, ff: FloatFormat): Result<seq<Byte>, Error>
    requires u.Valid() && v.Valid()
  {
    if |u.shape| != 2 || |v.shape| != 2 then Err(NotTwoDimensional)
    else if u.shape != v.shape then Err(ShapeMismatch)
    else if !AllFinite(u) || !AllFinite(v) then Err(NonFiniteField)
    else
      var meta := m.(latCount := u.shape[0], lonCount := u.shape[1]);
      match CheckMetadata(meta, ff)
      case Some(e) => Err(e)
      case None =>
        if meta.latCount >= 0x1_0000_0000 || meta.lonCount >= 0x1_0000_0000 then Err(CountTooWide)
        else
          var scale := ff.value(meta.scale);
          Ok(PutHeader(meta) + Bytes(QuantiseAll(u, scale)) + Bytes(QuantiseAll(v, scale)))
  }

  function Physical(shape: seq<nat>, qs: seq<Int16>, scale: real): Field {
    Field(shape, seq(|qs|, k requires 0 <= k < |qs| => Finite(Dequantise(qs[k], scale))))
  }

  /** `decode_vector_field_int16` */
  function Decode(b: seq<Byte>, ff: FloatFormat): Result<Decoded, Error> {
    if |b| < HEADER then Err(TooShort)
    else if b[..4] != MAGIC then Err(BadMagic)
    else if b[4] != 1 then Err(BadVersion)
    else if b[5] != 1 then Err(BadFlags)
    else
      var meta := GetHeader(b);
      match CheckMetadata(meta, ff)
      case Some(e) => Err(e)
      case None =>
        var n := meta.latCount * meta.lonCount;
        if |b| != HEADER + n * 2 * 2 then Err(SizeMismatch)
        else
          var shape := [meta.latCount, meta.lonCount];
          var scale := ff.value(meta.scale);
          Ok(Decoded(Physical(shape, Ints(b, HEADER, n), scale),
                     Physical(shape, Ints(b, HEADER + 2 * n, n), scale), meta))
  }

  // ---------------------------------------------------------------- round trips

  lemma HeaderRoundTrip(m: Metadata, rest: seq<Byte>)
    requires m.latCount < 0x1_0000_0000 && m.lonCount < 0x1_0000_0000
    ensures var b := PutHeader(m) + rest; b[..4] == MAGIC && b[4] == 1 && b[5] == 1 && GetHeader(b) == m
  {
    var b := PutHeader(m) + rest;
    GetOfPut(m.latCount);
    GetOfPut(m.lonCount);
    assert b[20..24] == PutU32(m.latCount);
    assert b[32..36] == PutU32(m.lonCount);
    assert GetU32(b, 20) == GetU32(b[20..24], 0) && GetU32(b, 32) == GetU32(b[32..36], 0);
    assert b[..4] == MAGIC;
  }

  lemma PutFloatOfGet(b: seq<Byte>, at: nat)
    requires at + 4 <= |b|
    ensures PutFloat(GetFloat(b, at)) == b[at..at + 4]
  {
  }

  /** Where the pieces of a header lie. */
  lemma Pieces(p: seq<Byte>, a: seq<Byte>, b: seq<Byte>, c: seq<Byte>, d: seq<Byte>,
               e: seq<Byte>, f: seq<Byte>, g: seq<Byte>)
    requires |p| == 8 && |a| == |b| == |c| == |d| == |e| == |f| == |g| == 4
    ensures var h := p + a + b + c + d + e + f + g;
            && h[..8] == p && h[8..12] == a && h[12..16] == b && h[16..20] == c && h[20..24] == d
            && h[24..28] == e && h[28..32] == f && h[32..36] == g
  {
  }

  lemma HeaderWords(b: seq<Byte>)
    requires |b| >= HEADER
    ensures var h := PutHeader(GetHeader(b));
            && h[..8] == MAGIC + [1, 1, 0, 0]
            && h[8..12] == b[8..12] && h[12..16] == b[12..16] && h[16..20] == b[16..20] && h[20..24] == b[20..24]
            && h[24..28] == b[24..28] && h[28..32] == b[28..32] && h[32..36] == b[32..36]
  {
    var m := GetHeader(b);
    Pieces(MAGIC + [1, 1, 0, 0], PutFloat(m.scale), PutFloat(m.latStart), PutFloat(m.latStep), PutU32(m.latCount),
           PutFloat(m.lonStart), PutFloat(m.lonStep), PutU32(m.lonCount));
    PutFloatOfGet(b, 8);
    PutFloatOfGet(b, 12);
    PutFloatOfGet(b, 16);
    PutOfGet(b, 20);
    PutFloatOfGet(b, 24);
    PutFloatOfGet(b, 28);
    PutOfGet(b, 32);
  }

  /** The bytes of a header are those of its parsed fields exactly when the reserved word is zero. */
  lemma HeaderBytes(b: seq<Byte>)
    requires |b| >= HEADER && b[..4] == MAGIC && b[4] == 1 && b[5] == 1
    ensures PutHeader(GetHeader(b)) == b[..HEADER] <==> b[6] == 0 && b[7] == 0
  {
    HeaderWords(b);
    SameHeader(PutHeader(GetHeader(b)), b);
  }

  lemma HeaderFront(h: seq<Byte>, b: seq<Byte>)
    requires |h| == |b| == 8 && h == MAGIC + [1, 1, 0, 0]
    requires b[..4] == MAGIC && b[4] == 1 && b[5] == 1
    ensures h == b <==> b[6] == 0 && b[7] == 0
  {
    assert b == b[..4] + [b[4], b[5], b[6], b[7]];
    assert h[4] == 1 && h[5] == 1 && h[6] == 0 && h[7] == 0;
  }

  /** Two headers with the same seven words agree exactly when their first eight bytes do. */
  lemma SameWords(h: seq<Byte>, b: seq<Byte>)
    requires |h| == |b| == HEADER
    requires h[8..12] == b[8..12] && h[12..16] == b[12..16] && h[16..20] == b[16..20] && h[20..24] == b[20..24]
    requires h[24..28] == b[24..28] && h[28..32] == b[28..32] && h[32..36] == b[32..36]
    ensures h == b <==> h[..8] == b[..8]
  {
    FrontAndWords(h);
    FrontAndWords(b);
  }

  lemma FrontAndWords(s: seq<Byte>)
    requires |s| == HEADER
    ensures s == s[..8] + Words(s)
  {
  }

  function Words(s: seq<Byte>): seq<Byte>
    requires |s| == HEADER
  {
    s[8..12] + s[12..16] + s[16..20] + s[20..24] + s[24..28] + s[28..32] + s[32..36]
  }

  lemma SameHeader(h: seq<Byte>, b: seq<Byte>)
    requires |h| == HEADER <= |b| && h[..8] == MAGIC + [1, 1, 0, 0]
    requires b[..4] == MAGIC && b[4] == 1 && b[5] == 1
    requires h[8..12] == b[8..12] && h[12..16] == b[12..16] && h[16..20] == b[16..20] && h[20..24] == b[20..24]
    requires h[24..28] == b[24..28] && h[28..32] == b[28..32] && h[32..36] == b[32..36]
    ensures h == b[..HEADER] <==> b[6] == 0 && b[7] == 0
  {
    SameWords(h, b[..HEADER]);
    HeaderFront(h[..8], b[..8]);
    assert b[..HEADER][..8] == b[..8];
  }

  lemma Slices(h: seq<Byte>, s: seq<Byte>, t: seq<Byte>)
    ensures var b := h + s + t;
            b[..|h|] == h && b[|h|..|h| + |s|] == s && b[|h| + |s|..|h| + |s| + |t|] == t && b == h + (s + t)
  {
  }

  lemma DecodeParts(m: Metadata, qu: seq<Int16>, qv: seq<Int16>, n: nat, ff: FloatFormat)
    requires m.latCount < 0x1_0000_0000 && m.lonCount < 0x1_0000_0000 && CheckMetadata(m, ff).None?
    requires |qu| == |qv| == n == m.latCount * m.lonCount
    ensures Decode(PutHeader(m) + Bytes(qu) + Bytes(qv), ff) ==
            Ok(Decoded(Physical([m.latCount, m.lonCount], qu, ff.value(m.scale)),
                       Physical([m.latCount, m.lonCount], qv, ff.value(m.scale)), m))
  {
    var b := PutHeader(m) + Bytes(qu) + Bytes(qv);
    Slices(PutHeader(m), Bytes(qu), Bytes(qv));
    HeaderRoundTrip(m, Bytes(qu) + Bytes(qv));
    IntsOfBytes(qu, b, HEADER);
    IntsOfBytes(qv, b, HEADER + 2 * n);
    DecodeByParts(b, m, qu, qv, n, ff);
  }

  lemma DecodeByParts(b: seq<Byte>, m: Metadata, qu: seq<Int16>, qv: seq<Int16>, n: nat, ff: FloatFormat)
    requires |b| == HEADER + 4 * n && b[..4] == MAGIC && b[4] == 1 && b[5] == 1 && GetHeader(b) == m
    requires CheckMetadata(m, ff).None? && n == m.latCount * m.lonCount
    requires Ints(b, HEADER, n) == qu && Ints(b, HEADER + 2 * n, n) == qv
    ensures Decode(b, ff) ==
            Ok(Decoded(Physical([m.latCount, m.lonCount], qu, ff.value(m.scale)),
                       Physical([m.latCount, m.lonCount], qv, ff.value(m.scale)), m))
  {
  }

  /** The metadata and the quantised cells of every field that can be encoded come back. */
  lemma DecodeEncode(u: Field, v: Field, m: Metadata, ff: FloatFormat)
    requires u.Valid() && v.Valid() && Encode(u, v, m, ff).Ok?
    ensures AllFinite(u) && AllFinite(v) && ff.value(m.scale) > 0.0
    ensures Decode(Encode(u, v, m, ff).value, ff) ==
            Ok(Decoded(Physical(u.shape, QuantiseAll(u, ff.value(m.scale)), ff.value(m.scale)),
                       Physical(v.shape, QuantiseAll(v, ff.value(m.scale)), ff.value(m.scale)),
                       m.(latCount := u.shape[0], lonCount := u.shape[1])))
  {
    var meta := m.(latCount := u.shape[0], lonCount := u.shape[1]);
    var scale := ff.value(m.scale);
    DecodeParts(meta, QuantiseAll(u, scale), QuantiseAll(v, scale), meta.latCount * meta.lonCount, ff);
    assert u.shape == [meta.latCount, meta.lonCount];
  }

  /** Cell by cell, what is decoded is within half a quantum of what was encoded, or the end of the
      range on its side. */
  predicate ComesBack(x: real, y: real, scale: real) {
    if x > 32767.5 * scale then y == Dequantise(32767, scale)
    else if x < -(32768.5 * scale) then y == Dequantise(-32768, scale)
    else -(0.5 * scale) <= y - x <= 0.5 * scale
  }

  /** Cell by cell, over a whole field. */
  predicate FieldComesBack(f: Field, back: Field, scale: real) {
    && back.shape == f.shape && |back.cells| == |f.cells|
    && forall k | 0 <= k < |f.cells| ::
         f.cells[k].Finite? && back.cells[k].Finite? && ComesBack(f.cells[k].x, back.cells[k].x, scale)
  }

  lemma PhysicalComesBack(f: Field, scale: real)
    requires AllFinite(f) && scale > 0.0
    ensures FieldComesBack(f, Physical(f.shape, QuantiseAll(f, scale), scale), scale)
  {
    forall k | 0 <= k < |f.cells|
      ensures ComesBack(f.cells[k].x, Dequantise(Quantise(f.cells[k].x, scale), scale), scale)
    {
      QuantisationError(f.cells[k].x, scale);
    }
  }

  /** What comes back of cell `k` of both components: a value within half a quantum, or the end of the
      range when the value lies more than half a quantum beyond it. */
  lemma DecodedCells(u: Field, v: Field, m: Metadata, ff: FloatFormat, k: nat)
    requires u.Valid() && v.Valid() && Encode(u, v, m, ff).Ok? && k < |u.cells|
    ensures |Encode(u, v, m, ff).value| == 36 + 4 * |u.cells| && Decode(Encode(u, v, m, ff).value, ff).Ok?
    ensures |v.cells| == |u.cells| && u.cells[k].Finite? && v.cells[k].Finite?
    ensures var d := Decode(Encode(u, v, m, ff).value, ff).value;
            var x, y, scale := u.cells[k].x, v.cells[k].x, ff.value(m.scale);
            && d.u.shape == d.v.shape == u.shape && |d.u.cells| == |d.v.cells| == |u.cells|
            && d.u.cells[k].Finite? && d.v.cells[k].Finite?
            && var x', y' := d.u.cells[k].x, d.v.cells[k].x;
            && (x > 32767.5 * scale ==> x' == 32767.0 * scale)
            && (x < -(32768.5 * scale) ==> x' == -32768.0 * scale)
            && (-(32768.5 * scale) <= x <= 32767.5 * scale ==> -(0.5 * scale) <= x' - x <= 0.5 * scale)
            && (y > 32767.5 * scale ==> y' == 32767.0 * scale)
            && (y < -(32768.5 * scale) ==> y' == -32768.0 * scale)
            && (-(32768.5 * scale) <= y <= 32767.5 * scale ==> -(0.5 * scale) <= y' - y <= 0.5 * scale)
  {
    EncodedSize(u, v, m, ff);
    DecodeEncode(u, v, m, ff);
    PhysicalComesBack(u, ff.value(m.scale));
    PhysicalComesBack(v, ff.value(m.scale));
    var d := Decode(Encode(u, v, m, ff).value, ff).value;
    assert ComesBack(u.cells[k].x, d.u.cells[k].x, ff.value(m.scale));
    assert ComesBack(v.cells[k].x, d.v.cells[k].x, ff.value(m.scale));
  }

  lemma EncodedSize(u: Field, v: Field, m: Metadata, ff: FloatFormat)
    requires u.Valid() && v.Valid() && Encode(u, v, m, ff).Ok?
    ensures |Encode(u, v, m, ff).value| == HEADER + 4 * |u.cells|
    ensures u.shape == v.shape
  {
    assert |u.cells| == |v.cells|;
  }

  lemma PhysicalQuantise(shape: seq<nat>, qs: seq<Int16>, scale: real)
    requires scale > 0.0
    ensures AllFinite(Physical(shape, qs, scale)) && QuantiseAll(Physical(shape, qs, scale), scale) == qs
  {
    forall k | 0 <= k < |qs| ensures Quantise(Dequantise(qs[k], scale), scale) == qs[k] {
      QuantiseExact(qs[k], scale);
    }
  }

  lemma EncodeParts(m: Metadata, qu: seq<Int16>, qv: seq<Int16>, ff: FloatFormat)
    requires m.latCount < 0x1_0000_0000 && m.lonCount < 0x1_0000_0000 && CheckMetadata(m, ff).None?
    requires |qu| == |qv| == m.latCount * m.lonCount
    ensures var shape := [m.latCount, m.lonCount];
            var u, v := Physical(shape, qu, ff.value(m.scale)), Physical(shape, qv, ff.value(m.scale));
            u.Valid() && v.Valid() && Encode(u, v, m, ff) == Ok(PutHeader(m) + Bytes(qu) + Bytes(qv))
  {
    PhysicalQuantise([m.latCount, m.lonCount], qu, ff.value(m.scale));
    PhysicalQuantise([m.latCount, m.lonCount], qv, ff.value(m.scale));
    assert m.(latCount := m.latCount, lonCount := m.lonCount) == m;
  }

  /** A payload that decodes is reproduced byte for byte by encoding what it decoded to, exactly when
      its reserved word is zero. */
  lemma EncodeDecode(b: seq<Byte>, ff: FloatFormat)
    requires Decode(b, ff).Ok?
    ensures var d := Decode(b, ff).value;
            && d.u.Valid() && d.v.Valid()
            && (Encode(d.u, d.v, d.meta, ff) == Ok(b) <==> b[6] == 0 && b[7] == 0)
  {
    var meta := GetHeader(b);
    var n := meta.latCount * meta.lonCount;
    var qu, qv := Ints(b, HEADER, n), Ints(b, HEADER + 2 * n, n);
    EncodeParts(meta, qu, qv, ff);
    HeaderBytes(b);
    SameParts(b, PutHeader(meta), n);
  }

  lemma SameFront(h: seq<Byte>, g: seq<Byte>, s: seq<Byte>, t: seq<Byte>)
    requires |h| == |g|
    ensures h + s + t == g + s + t <==> h == g
  {
    assert (h + s + t)[..|h|] == h && (g + s + t)[..|g|] == g;
  }

  lemma ThreeParts(b: seq<Byte>, i: nat, j: nat)
    requires i <= j <= |b|
    ensures b == b[..i] + b[i..j] + b[j..]
  {
  }

  lemma SameParts(b: seq<Byte>, h: seq<Byte>, n: nat)
    requires |h| == HEADER && |b| == HEADER + 4 * n
    ensures h + Bytes(Ints(b, HEADER, n)) + Bytes(Ints(b, HEADER + 2 * n, n)) == b <==> h == b[..HEADER]
  {
    var middle := HEADER + 2 * n;
    BytesOfInts(b, HEADER, n);
    BytesOfInts(b, middle, n);
    assert b[middle..middle + 2 * n] == b[middle..];
    ThreeParts(b, HEADER, middle);
    SameFront(h, b[..HEADER], b[HEADER..middle], b[middle..]);
  }
}

/** The WNDQ format byte by byte, and exactly which fields and payloads are accepted. */
module VectorLayout {
  import opened Wrappers
  import opened Arrays
  import opened VectorField

  /** The metadata a vector grid may have: at least two rows and columns, steps that are not zero, a
      positive finite scale and a finite origin. */
  predicate Acceptable(m: Metadata, ff: FloatFormat) {
    && m.latCount >= 2 && m.lonCount >= 2
    && !(ff.finite(m.latStep) && ff.value(m.latStep) == 0.0) && !(ff.finite(m.lonStep) && ff.value(m.lonStep) == 0.0)
    && ff.finite(m.scale) && ff.value(m.scale) > 0.0
    && ff.finite(m.latStart) && ff.finite(m.lonStart)
  }

  /** The order in which bad metadata is reported. */
  lemma MetadataErrors(m: Metadata, ff: FloatFormat)
    ensures CheckMetadata(m, ff).None? <==> Acceptable(m, ff)
    ensures var points := m.latCount >= 2 && m.lonCount >= 2;
            var zero := (ff.finite(m.latStep) && ff.value(m.latStep) == 0.0)
                        || (ff.finite(m.lonStep) && ff.value(m.lonStep) == 0.0);
            var scaled := ff.finite(m.scale) && ff.value(m.scale) > 0.0;
            && (CheckMetadata(m, ff) == Some(TooFewPoints) <==> !points)
            && (CheckMetadata(m, ff) == Some(ZeroStep) <==> points && zero)
            && (CheckMetadata(m, ff) == Some(BadScale) <==> points && !zero && !scaled)
            && (CheckMetadata(m, ff) == Some(NonFiniteOrigin) <==>
                  points && !zero && scaled && !(ff.finite(m.latStart) && ff.finite(m.lonStart)))
  {
  }

  /** Which fields can be encoded. */
  lemma EncodeAccepts(u: Field, v: Field, m: Metadata, ff: FloatFormat)
    requires u.Valid() && v.Valid()
    ensures Encode(u, v, m, ff).Ok? <==>
              && |u.shape| == 2 && u.shape == v.shape
              && (forall s <- u.cells :: s.Finite?) && (forall s <- v.cells :: s.Finite?)
              && Acceptable(m.(latCount := u.shape[0], lonCount := u.shape[1]), ff)
              && u.shape[0] < 0x1_0000_0000 && u.shape[1] < 0x1_0000_0000
    ensures Encode(u, v, m, ff) == Err(NotTwoDimensional) <==> !(|u.shape| == 2 && |v.shape| == 2)
    ensures Encode(u, v, m, ff) == Err(ShapeMismatch) <==> |u.shape| == 2 && |v.shape| == 2 && u.shape != v.shape
    ensures Encode(u, v, m, ff) == Err(NonFiniteField) <==>
              && |u.shape| == 2 && u.shape == v.shape
              && !((forall s <- u.cells :: s.Finite?) && (forall s <- v.cells :: s.Finite?))
  {
    if |u.shape| == 2 { MetadataErrors(m.(latCount := u.shape[0], lonCount := u.shape[1]), ff); }
  }

  /** Which payloads can be decoded: the magic text, version 1, the flag of 16-bit integers, acceptable
      metadata and exactly two integers per grid point. */
  lemma DecodeAccepts(b: seq<Byte>, ff: FloatFormat)
    ensures Decode(b, ff).Ok? <==>
              && |b| >= 36
              && b[0] == 'W' as int && b[1] == 'N' as int && b[2] == 'D' as int && b[3] == 'Q' as int
              && b[4] == 1 && b[5] == 1
              && Acceptable(GetHeader(b), ff)
              && |b| == 36 + 4 * (GetHeader(b).latCount * GetHeader(b).lonCount)
    ensures Decode(b, ff) == Err(TooShort) <==> |b| < 36
    ensures Decode(b, ff) == Err(BadMagic) <==> |b| >= 36 && b[..4] != ['W' as int, 'N' as int, 'D' as int, 'Q' as int]
    ensures Decode(b, ff) == Err(BadVersion) <==> |b| >= 36 && b[..4] == MAGIC && b[4] != 1
    ensures Decode(b, ff) == Err(BadFlags) <==> |b| >= 36 && b[..4] == MAGIC && b[4] == 1 && b[5] != 1
  {
    if |b| >= 36 {
      MetadataErrors(GetHeader(b), ff);
      assert b[..4] == [b[0], b[1], b[2], b[3]];
    }
  }

  function FourBytes(f: Float): seq<Byte> {
    [f.b0, f.b1, f.b2, f.b3]
  }

  /** The unsigned 32-bit number whose low byte is at `at`. */
  function Uint32At(bytes: seq<Byte>, at: nat): nat
    requires at + 4 <= |bytes|
  {
    bytes[at] as int + bytes[at + 1] as int * 0x100 + bytes[at + 2] as int * 0x1_0000
    + bytes[at + 3] as int * 0x100_0000
  }

  /** The header: magic text, version, flags and a zero word, the scale, then start, step and count of the
      rows and of the columns. */
  lemma HeaderLayout(m: Metadata)
    requires m.latCount < 0x1_0000_0000 && m.lonCount < 0x1_0000_0000
    ensures var h := PutHeader(m);
            && |h| == 36
            && h[..8] == ['W' as int, 'N' as int, 'D' as int, 'Q' as int, 1, 1, 0, 0]
            && h[8..12] == FourBytes(m.scale)
            && h[12..16] == FourBytes(m.latStart) && h[16..20] == FourBytes(m.latStep) && Uint32At(h, 20) == m.latCount
            && h[24..28] == FourBytes(m.lonStart) && h[28..32] == FourBytes(m.lonStep) && Uint32At(h, 32) == m.lonCount
  {
    var h := PutHeader(m);
    Pieces(MAGIC + [1, 1, 0, 0], PutFloat(m.scale), PutFloat(m.latStart), PutFloat(m.latStep), PutU32(m.latCount),
           PutFloat(m.lonStart), PutFloat(m.lonStep), PutU32(m.lonCount));
    CountBytes(h, 20, m.latCount);
    CountBytes(h, 32, m.lonCount);
  }

  lemma CountBytes(h: seq<Byte>, at: nat, n: nat)
    requires at + 4 <= |h| && n < 0x1_0000_0000 && h[at..at + 4] == PutU32(n)
    ensures Uint32At(h, at) == n
  {
    GetOfPut(n);
    var four := h[at..at + 4];
    assert four[0] == h[at] && four[1] == h[at + 1] && four[2] == h[at + 2] && four[3] == h[at + 3];
  }

  /** The 16-bit two's complement number whose low byte is at `at`. */
  function Int16At(bytes: seq<Byte>, at: nat): int
    requires at + 2 <= |bytes|
  {
    var n := bytes[at] as int + bytes[at + 1] as int * 0x100;
    if n >= 0x8000 then n - 0x1_0000 else n
  }

  /** The payload: the quanta of the first component row by row, then those of the second. */
  lemma PayloadLayout(u: Field, v: Field, m: Metadata, ff: FloatFormat, k: nat)
    requires u.Valid() && v.Valid() && Encode(u, v, m, ff).Ok? && k < |u.cells|
    ensures |v.cells| == |u.cells| && ff.value(m.scale) > 0.0
    ensures u.cells[k].Finite? && v.cells[k].Finite?
    ensures var b := Encode(u, v, m, ff).value; var n := |u.cells|;
            && |b| == 36 + 4 * n
            && b[..36] == PutHeader(m.(latCount := u.shape[0], lonCount := u.shape[1]))
            && Int16At(b, 36 + 2 * k) == Quantise(u.cells[k].x, ff.value(m.scale))
            && Int16At(b, 36 + 2 * n + 2 * k) == Quantise(v.cells[k].x, ff.value(m.scale))
  {
    var meta := m.(latCount := u.shape[0], lonCount := u.shape[1]);
    EncodedSize(u, v, m, ff);
    assert |u.cells| == |v.cells|;
    QuantaInPlace(PutHeader(meta), QuantiseAll(u, ff.value(m.scale)), QuantiseAll(v, ff.value(m.scale)), k);
  }

  lemma QuantaInPlace(h: seq<Byte>, qu: seq<Int16>, qv: seq<Int16>, k: nat)
    requires |h| == 36 && |qu| == |qv| && k < |qu|
    ensures var b := h + Bytes(qu) + Bytes(qv);
            && |b| == 36 + 4 * |qu| && b[..36] == h
            && Int16At(b, 36 + 2 * k) == qu[k] && Int16At(b, 36 + 2 * |qu| + 2 * k) == qv[k]
  {
    Slices(h, Bytes(qu), Bytes(qv));
    QuantumBytes(h + Bytes(qu) + Bytes(qv), 36, qu, k);
    QuantumBytes(h + Bytes(qu) + Bytes(qv), 36 + 2 * |qu|, qv, k);
  }

  lemma QuantumBytes(b: seq<Byte>, at: nat, qs: seq<Int16>, k: nat)
    requires at + 2 * |qs| <= |b| && b[at..at + 2 * |qs|] == Bytes(qs) && k < |qs|
    ensures Int16At(b, at + 2 * k) == qs[k]
  {
    PackedPair(qs, k);
    Int16RoundTrip(qs[k], 0, 0);
    var packed := Bytes(qs);
    assert b[at + 2 * k] == packed[2 * k] && b[at + 2 * k + 1] == packed[2 * k + 1];
  }
}

/** Reading a sharded store without any cache: the reference every cached read must agree with.
    Object storage is a map from shard key to bytes, fixed for each generation; decompression is
    an unknown function that may fail. */
module PlainStore {
  import opened Wrappers
  import opened ChunkWindows
  import opened Decimal
  import opened ShardKeys
  import opened Arrays

  type Files = map<string, seq<Byte>>

  /** `files` gives the content a reader sees under a generation; `decode` is decompression plus
      the float32 view, None when the decoder raises. */
  datatype Store = Store(path: string, files: Option<string> -> Files, decode: seq<Byte> -> Option<seq<Cell>>)

  /** Which field of a store is read. */
  datatype StoredField = StoredField(variable: string, member: Option<int>, lead: int, isMean: bool)

  function KeyOf(f: StoredField): string {
    ReaderShardKey(f.variable, f.member, f.lead, f.isMean)
  }

  // ---------------------------------------------------------------- the index at the tail

  const NUM_CHUNKS := 120
  const TAIL_BYTES := 120 * 16 + 12

  type Index = seq<(nat, nat)>

  function LittleEndian(bs: seq<Byte>): nat {
    if bs == [] then 0 else bs[0] + 256 * LittleEndian(bs[1..])
  }

  /** `(offset, length)` pairs from the end of a shard; empty when the shard is too short. */
  function IndexOfShard(bytes: seq<Byte>): (index: Index)
    ensures |index| == 0 || |index| == NUM_CHUNKS
  {
    if |bytes| < TAIL_BYTES then []
    else
      var tail := bytes[|bytes| - TAIL_BYTES..];
      seq(NUM_CHUNKS, k requires 0 <= k < NUM_CHUNKS =>
        (LittleEndian(tail[16 * k..16 * k + 8]), LittleEndian(tail[16 * k + 8..16 * k + 16])))
  }

  function PlainIndex(files: Files, shardKey: string): Index {
    if shardKey in files then IndexOfShard(files[shardKey]) else []
  }

  // ---------------------------------------------------------------- chunks and cells

  /** Bytes [offset, offset + length), as many of them as exist. */
  function ReadRange(bytes: seq<Byte>, offset: nat, length: nat): seq<Byte> {
    if offset >= |bytes| then []
    else if offset + length >= |bytes| then bytes[offset..]
    else bytes[offset..offset + length]
  }

  function DecodeChunk(decode: seq<Byte> -> Option<seq<Cell>>, raw: seq<Byte>): Option<Chunk> {
    match decode(raw)
    case None => None
    case Some(cells) => if |cells| == 10000 then Some(cells) else None
  }

  predicate InChunkGrid(row: int, col: int) {
    0 <= row < 8 && 0 <= col < 15
  }

  /** One chunk: NaN outside the chunk grid, for an absent shard and for an empty entry; None when
      the decoder raises. */
  function PlainChunk(s: Store, g: Option<string>, shardKey: string, row: int, col: int): Option<Chunk> {
    if !InChunkGrid(row, col) then Some(NAN_CHUNK)
    else
      var index := PlainIndex(s.files(g), shardKey);
      if |index| == 0 then Some(NAN_CHUNK)
      else
        var (offset, length) := index[row * 15 + col];
        if length == 0 then Some(NAN_CHUNK)
        else DecodeChunk(s.decode, ReadRange(s.files(g)[shardKey], offset, length))
  }

  function PlainPoint(s: Store, g: Option<string>, shardKey: string, lat: int, lon: int): Option<Cell> {
    match PlainChunk(s, g, shardKey, lat / CHUNK, lon / CHUNK)
    case None => None
    case Some(chunk) => Some(At(chunk, lat % CHUNK, lon % CHUNK))
  }

  // ---------------------------------------------------------------- interpolation

  function Plus(a: Cell, b: Cell): Cell {
    if a.NaN? || b.NaN? then NaN else Num(a.value + b.value)
  }

  function Minus(a: Cell, b: Cell): Cell {
    if a.NaN? || b.NaN? then NaN else Num(a.value - b.value)
  }

  function Times(a: Cell, t: real): Cell {
    if a.NaN? then NaN else Num(a.value * t)
  }

  datatype Corners = Corners(v00: Cell, v01: Cell, v10: Cell, v11: Cell)

  /** `_bilinear` */
  function Bilinear(c: Corners, tRow: real, tCol: real): Cell {
    var lower := Plus(c.v00, Times(Minus(c.v01, c.v00), tCol));
    var upper := Plus(c.v10, Times(Minus(c.v11, c.v10), tCol));
    Plus(lower, Times(Minus(upper, lower), tRow))
  }

  /** The four stored cells of a 2x2 window, read one by one. */
  function PlainCorners(s: Store, g: Option<string>, shardKey: string, lat0: int, lat1: int, lon0: int, lon1: int)
    : Option<Corners>
  {
    var v00, v01 := PlainPoint(s, g, shardKey, lat0, lon0), PlainPoint(s, g, shardKey, lat0, lon1);
    var v10, v11 := PlainPoint(s, g, shardKey, lat1, lon0), PlainPoint(s, g, shardKey, lat1, lon1);
    if v00.None? || v01.None? || v10.None? || v11.None? then None
    else Some(Corners(v00.value, v01.value, v10.value, v11.value))
  }

  /** With all four corners known the blend is their convex combination; with one missing it is
      NaN whatever the weights. */
  lemma BilinearMeaning(c: Corners, tRow: real, tCol: real)
    ensures c.v00.Num? && c.v01.Num? && c.v10.Num? && c.v11.Num? ==>
              Bilinear(c, tRow, tCol) ==
              Num(c.v00.value * ((1.0 - tRow) * (1.0 - tCol)) + c.v01.value * ((1.0 - tRow) * tCol)
                  + c.v10.value * (tRow * (1.0 - tCol)) + c.v11.value * (tRow * tCol))
    ensures Bilinear(c, tRow, tCol).NaN? <==> c.v00.NaN? || c.v01.NaN? || c.v10.NaN? || c.v11.NaN?
  {
  }

  // ---------------------------------------------------------------- cache keys

  /** `generation or 'live'` */
  function Token(g: Option<string>): string {
    if g.None? || g.value == "" then "live" else g.value
  }

  /** The keys of two generations can meet: the text of one, with its separator, begins the other's. */
  predicate Clash(g: Option<string>, h: Option<string>) {
    Token(g) + "::" <= Token(h) + "::" || Token(h) + "::" <= Token(g) + "::"
  }

  /** No two of the generations clash. */
  ghost predicate Separable(generations: iset<Option<string>>) {
    forall g, h | g in generations && h in generations && g != h :: !Clash(g, h)
  }

  function IndexKey(path: string, g: Option<string>, shardKey: string): string {
    path + "::" + (Token(g) + "::" + shardKey)
  }

  function ChunkKey(path: string, g: Option<string>, shardKey: string, chunk: nat): string {
    IndexKey(path, g, shardKey) + "::" + Digits(chunk)
  }

  lemma SamePrefix(p: string, a: string, b: string)
    requires p + a == p + b
    ensures a == b
  {
    assert a == (p + a)[|p|..] && b == (p + b)[|p|..];
  }

  lemma PrefixesMeet(p: string, a: string, q: string, b: string)
    requires p + a == q + b
    ensures p <= q || q <= p
  {
    assert forall i | 0 <= i < |p| && i < |q| :: p[i] == (p + a)[i] && q[i] == (q + b)[i];
  }

  /** Keys of the index cache name one shard, and one generation unless two clash. */
  lemma IndexKeyUnique(path: string, g: Option<string>, a: string, h: Option<string>, b: string)
    requires IndexKey(path, g, a) == IndexKey(path, h, b)
    requires g == h || !Clash(g, h)
    ensures g == h && a == b
  {
    var p, q := Token(g) + "::", Token(h) + "::";
    SamePrefix(path + "::", p + a, q + b);
    PrefixesMeet(p, a, q, b);
    SamePrefix(p, a, b);
  }

  lemma SplitOfKey(stem: string, chunk: nat)
    ensures SplitNumber(stem + "::" + Digits(chunk)) == Some((stem + "::", chunk))
  {
    SplitUnsigned(stem + "::", Digits(chunk));
    ValueOfDigits(chunk);
  }

  /** Keys of the chunk cache name one shard and chunk, and one generation unless two clash. */
  lemma ChunkKeyUnique(path: string, g: Option<string>, a: string, m: nat, h: Option<string>, b: string, n: nat)
    requires ChunkKey(path, g, a, m) == ChunkKey(path, h, b, n)
    requires g == h || !Clash(g, h)
    ensures g == h && a == b && m == n
  {
    var p, q := IndexKey(path, g, a), IndexKey(path, h, b);
    SplitOfKey(p, m);
    SplitOfKey(q, n);
    assert p == (p + "::")[..|p|] && q == (q + "::")[..|q|];
    IndexKeyUnique(path, g, a, h, b);
  }

  // ---------------------------------------------------------------- which generations clash

  /** The same field under a variable with some text in front. */
  function Behind(text: string, f: StoredField): StoredField {
    f.(variable := text + f.variable)
  }

  lemma KeyBehind(text: string, f: StoredField)
    ensures KeyOf(Behind(text, f)) == text + KeyOf(f)
  {
    ReaderKeyParts(f.variable, f.member, f.lead, f.isMean);
    ReaderKeyParts(text + f.variable, f.member, f.lead, f.isMean);
    ConcatAssociative(text, f.variable, ReaderTail(f.member, f.lead, f.isMean));
  }

  /** A separated token that begins another one: the rest of it can pass for the start of a variable. */
  lemma LongerTokenMeets(path: string, g: Option<string>, h: Option<string>, f: StoredField)
    returns (longer: StoredField)
    requires Token(g) + "::" <= Token(h) + "::"
    ensures IndexKey(path, g, KeyOf(longer)) == IndexKey(path, h, KeyOf(f))
  {
    var p, q := Token(g) + "::", Token(h) + "::";
    var rest := q[|p|..];
    longer := Behind(rest, f);
    KeyBehind(rest, f);
    assert q == p + rest;
    assert p + (rest + KeyOf(f)) == q + KeyOf(f);
  }

  /** Some field of one generation and some field of the other share an index key. */
  ghost predicate KeysMeet(path: string, g: Option<string>, h: Option<string>) {
    exists e, f :: IndexKey(path, g, KeyOf(e)) == IndexKey(path, h, KeyOf(f))
  }

  /** Two generations share a key of the index cache, for some fields, exactly when they clash. */
  lemma GenerationsThatClash(path: string, g: Option<string>, h: Option<string>)
    ensures KeysMeet(path, g, h) <==> Clash(g, h)
  {
    var p, q := Token(g) + "::", Token(h) + "::";
    var any := StoredField("v", None, 0, false);
    if p <= q {
      var e := LongerTokenMeets(path, g, h, any);
      assert IndexKey(path, g, KeyOf(e)) == IndexKey(path, h, KeyOf(any));
    } else if q <= p {
      var e := LongerTokenMeets(path, h, g, any);
      assert IndexKey(path, g, KeyOf(any)) == IndexKey(path, h, KeyOf(e));
    }
    if KeysMeet(path, g, h) {
      var e, f :| IndexKey(path, g, KeyOf(e)) == IndexKey(path, h, KeyOf(f));
      SamePrefix(path + "::", p + KeyOf(e), q + KeyOf(f));
      PrefixesMeet(p, KeyOf(e), q, KeyOf(f));
    }
  }

  /** A generation without `::`, not ending in a colon, and not spelt like none at all. */
  predicate Ordinary(g: Option<string>) {
    g.Some? ==>
      && g.value != "" && g.value != "live"
      && g.value[|g.value| - 1] != ':'
      && forall i | 0 <= i < |g.value| - 1 :: !(g.value[i] == ':' && g.value[i + 1] == ':')
  }

  lemma OrdinaryPrefix(t: string, u: string)
    requires u != [] && u[|u| - 1] != ':' && forall i | 0 <= i < |u| - 1 :: !(u[i] == ':' && u[i + 1] == ':')
    requires t + "::" <= u + "::"
    ensures t == u
  {
    var p, q := t + "::", u + "::";
    assert p[|t|] == ':' && p[|t| + 1] == ':' && q[|t|] == ':' && q[|t| + 1] == ':';
    assert forall i | 0 <= i < |t| :: t[i] == p[i] == q[i];
  }

  lemma OrdinaryNeverClash(g: Option<string>, h: Option<string>)
    requires Ordinary(g) && Ordinary(h) && Clash(g, h)
    ensures g == h
  {
    if Token(g) + "::" <= Token(h) + "::" {
      OrdinaryPrefix(Token(g), Token(h));
    } else {
      OrdinaryPrefix(Token(h), Token(g));
    }
  }

  /** Ordinary generations never clash, so one reader may serve all of them, and none at all. */
  lemma OrdinaryIsSeparable(generations: iset<Option<string>>)
    requires forall g: string | Some(g) in generations ::
               && g != "" && g != "live" && g[|g| - 1] != ':'
               && forall i | 0 <= i < |g| - 1 :: !(g[i] == ':' && g[i + 1] == ':')
    ensures Separable(generations)
  {
    forall g, h | g in generations && h in generations && g != h ensures !Clash(g, h) {
      assert Ordinary(g) && Ordinary(h);
      if Clash(g, h) { OrdinaryNeverClash(g, h); }
    }
  }
}

/** `ShardedV1Reader`: three bounded caches stacked over a store.  Every read equals the plain read
    of PlainStore, for any capacities, any earlier calls, and whatever other threads do to the
    caches while this one does not hold the lock. */
module ShardedReader {
  import opened Wrappers
  import opened ChunkWindows
  import opened Lru
  import opened PlainStore

  datatype PointKey = PointKey(token: string, field: StoredField, lat0: int, lat1: int, lon0: int, lon1: int)

  /** `cache[k] = v; if len(cache) > limit: cache.popitem(last=False)` */
  function Insert<K(==), V>(es: seq<(K, V)>, k: K, v: V, limit: int): (r: seq<(K, V)>)
    ensures forall x <- r :: x in es || x == (k, v)
    ensures |es| <= Max(0, limit) ==> |r| <= Max(0, limit)
  {
    var grown := Put(es, k, v);
    if |grown| > limit && grown != [] then grown[1..] else grown
  }

  lemma ReplacedKeys<K, V>(es: seq<(K, V)>, i: nat, v: V)
    requires i < |es|
    ensures Keys(es[i := (es[i].0, v)]) == Keys(es)
  {
  }

  lemma LastKeyIsThere<K, V>(es: seq<(K, V)>)
    requires es != []
    ensures es[|es| - 1].0 in Keys(es)
  {
    assert Keys(es)[|es| - 1] == es[|es| - 1].0;
  }

  lemma InsertKnown<K, V>(es: seq<(K, V)>, k: K, v: V, limit: nat)
    requires |es| <= limit && k in Keys(es)
    ensures |Insert(es, k, v, limit)| == |es| && Keys(Insert(es, k, v, limit)) == Keys(es)
  {
    ReplacedKeys(es, IndexOf(Keys(es), k), v);
  }

  lemma InsertNew<K, V>(es: seq<(K, V)>, k: K, v: V, limit: nat)
    requires |es| <= limit && k !in Keys(es)
    ensures Insert(es, k, v, limit) == Last(es + [(k, v)], limit)
  {
    assert Put(es, k, v) == es + [(k, v)];
  }

  lemma NewestIsKept<K, V>(es: seq<(K, V)>, k: K, v: V, limit: nat)
    requires limit > 0
    ensures k in Keys(Last(es + [(k, v)], limit))
  {
    var kept := Last(es + [(k, v)], limit);
    assert kept[|kept| - 1] == (k, v);
    LastKeyIsThere(kept);
  }

  /** A new key goes to the end and the oldest ones leave; a key that is there keeps its place. */
  lemma InsertEvictsOldest<K, V>(es: seq<(K, V)>, k: K, v: V, limit: nat)
    requires |es| <= limit
    ensures k !in Keys(es) ==> Insert(es, k, v, limit) == Last(es + [(k, v)], limit)
    ensures k in Keys(es) ==> |Insert(es, k, v, limit)| == |es| && Keys(Insert(es, k, v, limit)) == Keys(es)
    ensures limit > 0 ==> k in Keys(Insert(es, k, v, limit))
  {
    if k in Keys(es) {
      InsertKnown(es, k, v, limit);
    } else {
      InsertNew(es, k, v, limit);
      if limit > 0 { NewestIsKept(es, k, v, limit); }
    }
  }

  class ShardedV1Reader {
    const store: Store
    const maxIndices: int
    const maxChunks: int
    const maxPoints: int
    /** The generations this reader is used with. */
    ghost const generations: iset<Option<string>>
    var indexCache: seq<(string, Index)>
    var chunkCache: seq<(string, Chunk)>
    var pointCache: seq<(PointKey, Corners)>

    constructor (store: Store, maxIndices: int, maxChunks: int, maxPoints: int, ghost generations: iset<Option<string>>)
      requires Separable(generations)
      ensures this.store == store && this.generations == generations && Valid()
      ensures this.maxIndices == maxIndices && this.maxChunks == maxChunks && this.maxPoints == maxPoints
    {
      this.store, this.generations := store, generations;
      this.maxIndices, this.maxChunks, this.maxPoints := maxIndices, maxChunks, maxPoints;
      indexCache, chunkCache, pointCache := [], [], [];
    }

    // -------------------------------------------------------------- what the caches may hold

    /** The index is not empty, and the stored one for every generation and shard its key can mean. */
    ghost predicate IndexEntryOk(x: (string, Index)) {
      && x.1 != []
      && forall g, shardKey | g in generations && x.0 == IndexKey(store.path, g, shardKey) ::
        x.1 == PlainIndex(store.files(g), shardKey)
    }

    ghost predicate ChunkEntryOk(x: (string, Chunk)) {
      forall g, shardKey, row, col
        | g in generations && InChunkGrid(row, col) && x.0 == ChunkKey(store.path, g, shardKey, row * 15 + col) ::
        PlainChunk(store, g, shardKey, row, col) == Some(x.1)
    }

    ghost predicate PointEntryOk(x: (PointKey, Corners)) {
      forall g | g in generations && x.0.token == Token(g) ::
        PlainCorners(store, g, KeyOf(x.0.field), x.0.lat0, x.0.lat1, x.0.lon0, x.0.lon1) == Some(x.1)
    }

    ghost predicate Valid()
      reads this
    {
      && Separable(generations)
      && (forall x <- indexCache :: IndexEntryOk(x)) && |indexCache| <= Max(0, maxIndices)
      && (forall x <- chunkCache :: ChunkEntryOk(x)) && |chunkCache| <= Max(0, maxChunks)
      && (forall x <- pointCache :: PointEntryOk(x)) && |pointCache| <= Max(0, maxPoints)
    }

    lemma FreshIndexOk(g: Option<string>, shardKey: string)
      requires Separable(generations) && g in generations && PlainIndex(store.files(g), shardKey) != []
      ensures IndexEntryOk((IndexKey(store.path, g, shardKey), PlainIndex(store.files(g), shardKey)))
    {
      forall h, other | h in generations && IndexKey(store.path, g, shardKey) == IndexKey(store.path, h, other)
        ensures PlainIndex(store.files(g), shardKey) == PlainIndex(store.files(h), other)
      {
        IndexKeyUnique(store.path, g, shardKey, h, other);
      }
    }

    lemma FreshChunkOk(g: Option<string>, shardKey: string, row: int, col: int, chunk: Chunk)
      requires Separable(generations) && g in generations && InChunkGrid(row, col)
      requires PlainChunk(store, g, shardKey, row, col) == Some(chunk)
      ensures ChunkEntryOk((ChunkKey(store.path, g, shardKey, row * 15 + col), chunk))
    {
      forall h, other, row', col'
        | h in generations && InChunkGrid(row', col')
          && ChunkKey(store.path, g, shardKey, row * 15 + col) == ChunkKey(store.path, h, other, row' * 15 + col')
        ensures PlainChunk(store, h, other, row', col') == Some(chunk)
      {
        ChunkKeyUnique(store.path, g, shardKey, row * 15 + col, h, other, row' * 15 + col');
      }
    }

    lemma FreshPointOk(g: Option<string>, f: StoredField, lat0: int, lat1: int, lon0: int, lon1: int, corners: Corners)
      requires Separable(generations) && g in generations
      requires PlainCorners(store, g, KeyOf(f), lat0, lat1, lon0, lon1) == Some(corners)
      ensures PointEntryOk((PointKey(Token(g), f, lat0, lat1, lon0, lon1), corners))
    {
      forall h | h in generations && Token(g) == Token(h)
        ensures PlainCorners(store, h, KeyOf(f), lat0, lat1, lon0, lon1) == Some(corners)
      {
        assert g != h ==> Clash(g, h);
      }
    }

    /** The caches stay within their capacities, and one without a capacity stays empty. */
    lemma CachesStayBounded()
      requires Valid()
      ensures maxIndices >= 0 ==> |indexCache| <= maxIndices
      ensures maxChunks >= 0 ==> |chunkCache| <= maxChunks
      ensures maxPoints >= 0 ==> |pointCache| <= maxPoints
      ensures (maxIndices <= 0 ==> indexCache == []) && (maxChunks <= 0 ==> chunkCache == [])
              && (maxPoints <= 0 ==> pointCache == [])
    {
    }

    /** A shard that is absent is never in the index cache: every read looks for it again. */
    lemma AbsentShardIsNotCached(g: Option<string>, shardKey: string)
      requires Valid() && g in generations && PlainIndex(store.files(g), shardKey) == []
      ensures IndexKey(store.path, g, shardKey) !in Keys(indexCache)
    {
      var key := IndexKey(store.path, g, shardKey);
      assert key in Keys(indexCache) ==> IndexEntryOk((key, Get(indexCache, key)));
    }

    /** The cache lock is free: other threads may run any number of reads. */
    method OtherThreads()
      requires Valid()
      modifies this
      ensures Valid()
    {
    }

    // -------------------------------------------------------------- the three cached reads

    method GetShardIndex(shardKey: string, g: Option<string>) returns (index: Index)
      requires Valid() && g in generations
      modifies this
      ensures Valid() && index == PlainIndex(store.files(g), shardKey)
      ensures var key := IndexKey(store.path, g, shardKey);
              && (key in Keys(old(indexCache)) ==> indexCache == PutLast(old(indexCache), key, index))
              && (index != [] && maxIndices > 0 ==> key in Keys(indexCache))
    {
      var key := IndexKey(store.path, g, shardKey);
      if key in Keys(indexCache) {
        index := Get(indexCache, key);
        assert IndexEntryOk((key, index));
        indexCache := PutLast(indexCache, key, index);
        PutLastInside(old(indexCache), key, index);
        PutLastHasKey(old(indexCache), key, index);
        return;
      }
      OtherThreads();
      index := PlainIndex(store.files(g), shardKey);
      if |index| == 0 { return; }
      FreshIndexOk(g, shardKey);
      if maxIndices > 0 { InsertEvictsOldest(indexCache, key, index, maxIndices); }
      indexCache := Insert(indexCache, key, index, maxIndices);
    }

    method ReadChunk(f: StoredField, row: int, col: int, g: Option<string>) returns (r: Option<Chunk>)
      requires Valid() && g in generations
      modifies this
      ensures Valid() && r == PlainChunk(store, g, KeyOf(f), row, col)
      ensures InChunkGrid(row, col) && PlainIndex(store.files(g), KeyOf(f)) != [] && r.Some? && maxChunks > 0 ==>
                ChunkKey(store.path, g, KeyOf(f), row * 15 + col) in Keys(chunkCache)
    {
      if row < 0 || row >= 8 || col < 0 || col >= 15 { return Some(NAN_CHUNK); }
      var shardKey := KeyOf(f);
      var key := ChunkKey(store.path, g, shardKey, row * 15 + col);
      if key in Keys(chunkCache) {
        var chunk := Get(chunkCache, key);
        assert ChunkEntryOk((key, chunk));
        chunkCache := PutLast(chunkCache, key, chunk);
        PutLastInside(old(chunkCache), key, chunk);
        PutLastHasKey(old(chunkCache), key, chunk);
        return Some(chunk);
      }
      OtherThreads();
      var index := GetShardIndex(shardKey, g);
      if |index| == 0 { return Some(NAN_CHUNK); }
      var (offset, length) := index[row * 15 + col];
      if length == 0 {
        r := Some(NAN_CHUNK);
      } else {
        r := DecodeChunk(store.decode, ReadRange(store.files(g)[shardKey], offset, length));
      }
      OtherThreads();
      if r.Some? {
        FreshChunkOk(g, shardKey, row, col, r.value);
        if maxChunks > 0 { InsertEvictsOldest(chunkCache, key, r.value, maxChunks); }
        chunkCache := Insert(chunkCache, key, r.value, maxChunks);
      }
    }

    method ReadPointValue(f: StoredField, lat: int, lon: int, g: Option<string>) returns (r: Option<Cell>)
      requires Valid() && g in generations
      modifies this
      ensures Valid() && r == PlainPoint(store, g, KeyOf(f), lat, lon)
    {
      var chunk := ReadChunk(f, lat / CHUNK, lon / CHUNK, g);
      if chunk.None? { return None; }
      r := Some(At(chunk.value, lat % CHUNK, lon % CHUNK));
    }

    /** The four corners of a 2x2 window: one chunk read when it lies in one chunk, else four. */
    method ReadCorners(f: StoredField, lat0: int, lat1: int, lon0: int, lon1: int, g: Option<string>)
      returns (r: Option<Corners>)
      requires Valid() && g in generations
      modifies this
      ensures Valid() && r == PlainCorners(store, g, KeyOf(f), lat0, lat1, lon0, lon1)
    {
      if lat0 / CHUNK == lat1 / CHUNK && lon0 / CHUNK == lon1 / CHUNK {
        var chunk := ReadChunk(f, lat0 / CHUNK, lon0 / CHUNK, g);
        if chunk.None? { return None; }
        r := Some(Corners(
          At(chunk.value, lat0 % CHUNK, lon0 % CHUNK), At(chunk.value, lat0 % CHUNK, lon1 % CHUNK),
          At(chunk.value, lat1 % CHUNK, lon0 % CHUNK), At(chunk.value, lat1 % CHUNK, lon1 % CHUNK)));
      } else {
        var v00 := ReadPointValue(f, lat0, lon0, g);
        if v00.None? { return None; }
        var v01 := ReadPointValue(f, lat0, lon1, g);
        if v01.None? { return None; }
        var v10 := ReadPointValue(f, lat1, lon0, g);
        if v10.None? { return None; }
        var v11 := ReadPointValue(f, lat1, lon1, g);
        if v11.None? { return None; }
        r := Some(Corners(v00.value, v01.value, v10.value, v11.value));
      }
    }

    /** `interpolate_point`: the bilinear blend of the four stored cells, None when a chunk that
        holds one of them cannot be decoded. */
    method InterpolatePoint(f: StoredField, lat0: int, lat1: int, lon0: int, lon1: int, tRow: real, tCol: real,
                            g: Option<string>)
      returns (r: Option<Cell>)
      requires Valid() && g in generations
      modifies this
      ensures Valid()
      ensures r == match PlainCorners(store, g, KeyOf(f), lat0, lat1, lon0, lon1)
                   case None => None
                   case Some(corners) => Some(Bilinear(corners, tRow, tCol))
      ensures r.Some? && maxPoints > 0 ==> PointKey(Token(g), f, lat0, lat1, lon0, lon1) in Keys(pointCache)
    {
      var key := PointKey(Token(g), f, lat0, lat1, lon0, lon1);
      if key in Keys(pointCache) {
        var corners := Get(pointCache, key);
        assert PointEntryOk((key, corners));
        pointCache := PutLast(pointCache, key, corners);
        PutLastInside(old(pointCache), key, corners);
        PutLastHasKey(old(pointCache), key, corners);
        return Some(Bilinear(corners, tRow, tCol));
      }
      OtherThreads();
      var corners := ReadCorners(f, lat0, lat1, lon0, lon1, g);
      if corners.None? { return None; }
      OtherThreads();
      FreshPointOk(g, f, lat0, lat1, lon0, lon1, corners.value);
      if maxPoints > 0 { InsertEvictsOldest(pointCache, key, corners.value, maxPoints); }
      pointCache := Insert(pointCache, key, corners.value, maxPoints);
      r := Some(Bilinear(corners.value, tRow, tCol));
    }

    // -------------------------------------------------------------- windows

    /** The plain reads of one shard under one generation. */
    function Plain(g: Option<string>, shardKey: string): PointReader {
      (lat, lon) => PlainPoint(store, g, shardKey, lat, lon)
    }

    lemma PointOfChunk(g: Option<string>, shardKey: string, lat: int, lon: int, row: int, col: int,
                       chunk: Option<Chunk>)
      requires row == lat / CHUNK && col == lon / CHUNK && chunk == PlainChunk(store, g, shardKey, row, col)
      ensures Plain(g, shardKey)(lat, lon) ==
              if chunk.None? then None else Some(At(chunk.value, lat % CHUNK, lon % CHUNK))
    {
    }

    lemma ChunkSupplies(g: Option<string>, shardKey: string, row: int, col: int, chunk: Option<Chunk>)
      requires chunk == PlainChunk(store, g, shardKey, row, col)
      ensures SuppliedBy(Plain(g, shardKey), row, col, chunk)
    {
      forall lat, lon | lat / CHUNK == row && lon / CHUNK == col
        ensures Plain(g, shardKey)(lat, lon) ==
                if chunk.None? then None else Some(At(chunk.value, lat % CHUNK, lon % CHUNK))
      {
        PointOfChunk(g, shardKey, lat, lon, row, col, chunk);
      }
    }

    /** What a window's answer says of one cell: on the 721 by 1440 grid the plain value, off it NaN. */
    lemma WindowCell(g: Option<string>, shardKey: string, lat: int, lon: int, cell: Cell)
      ensures CellOk(Plain(g, shardKey), lat, lon, cell) <==>
              if 0 <= lat < 721 && 0 <= lon < 1440 then PlainPoint(store, g, shardKey, lat, lon) == Some(cell)
              else cell == NaN
    {
      PlainIsPoint(g, shardKey, lat, lon);
    }

    lemma PlainIsPoint(g: Option<string>, shardKey: string, lat: int, lon: int)
      ensures Plain(g, shardKey)(lat, lon) == PlainPoint(store, g, shardKey, lat, lon)
      ensures lat < 0 || lon < 0 ==> PlainPoint(store, g, shardKey, lat, lon).Some?
    {
    }

    /** South or west of the grid every chunk reads as NaN. */
    lemma OffGridIsNaN(g: Option<string>, shardKey: string)
      ensures BlankOffGrid(Plain(g, shardKey))
    {
    }

    /** The chunk one placement of a window takes its cells from. */
    method ReadSource(f: StoredField, w: Window, p: Placement, g: Option<string>) returns (chunk: Option<Chunk>)
      requires Valid() && g in generations && NonEmpty(p) && p == PlacementAt(w, p.chunkRow, p.chunkCol)
      modifies this
      ensures Valid() && PieceReads(w, Plain(g, KeyOf(f)), p, chunk)
    {
      chunk := ReadChunk(f, p.chunkRow, p.chunkCol, g);
      ChunkSupplies(g, KeyOf(f), p.chunkRow, p.chunkCol, chunk);
      PieceFromChunk(w, Plain(g, KeyOf(f)), p, chunk);
    }

    /** `read_window`: cell by cell the plain point value on the 721 by 1440 grid and NaN off it.  The call
        fails exactly for a window of negative extent or when some cell's chunk is undecodable. */
    method ReadWindow(f: StoredField, w: Window, g: Option<string>) returns (r: Option<array2<Cell>>)
      requires Valid() && g in generations
      modifies this
      ensures Valid()
      ensures r.None? <==> w.Height() < 0 || w.Width() < 0 || exists i, j :: Unreadable(w, Plain(g, KeyOf(f)), i, j)
      ensures r.Some? ==>
                && fresh(r.value) && r.value.Length0 == w.Height() && r.value.Length1 == w.Width()
                && forall i, j | w.Has(i, j) :: CellOk(Plain(g, KeyOf(f)), w.latMin + i, w.lonMin + j, r.value[i, j])
    {
      if w.Height() < 0 || w.Width() < 0 { return None; }
      var window := new Cell[w.Height(), w.Width()]((i, j) => NaN);
      var ps := ChunkPlacements(w);
      var n := 0;
      while n < |ps|
        invariant 0 <= n <= |ps| && Valid()
        invariant forall i, j | w.Has(i, j) :: WrittenOk(w, Plain(g, KeyOf(f)), ps[..n], i, j, window[i, j])
      {
        var p := ps[n];
        var chunk := ReadSource(f, w, p, g);
        if chunk.None? {
          UnreadablePiece(w, Plain(g, KeyOf(f)), p);
          return None;
        }
        label write:
        WritePiece(w, window, p, chunk.value);
        forall i, j | w.Has(i, j) ensures WrittenOk(w, Plain(g, KeyOf(f)), ps[..n] + [p], i, j, window[i, j]) {
          WrittenNext(w, Plain(g, KeyOf(f)), ps[..n], p, chunk.value, i, j, old@write(window[i, j]), window[i, j]);
        }
        assert ps[..n + 1] == ps[..n] + [p];
        n := n + 1;
      }
      assert ps[..n] == ps;
      OffGridIsNaN(g, KeyOf(f));
      forall i, j | w.Has(i, j)
        ensures CellOk(Plain(g, KeyOf(f)), w.latMin + i, w.lonMin + j, window[i, j])
        ensures !Unreadable(w, Plain(g, KeyOf(f)), i, j)
      {
        AllWritten(w, Plain(g, KeyOf(f)), ps, i, j, window[i, j]);
      }
      r := Some(window);
    }

  }

  lemma PutLastInside<K, V>(es: seq<(K, V)>, k: K, v: V)
    requires (k, v) in es
    ensures forall x <- PutLast(es, k, v) :: x in es
    ensures k in Keys(es) ==> |PutLast(es, k, v)| == |es|
  {
  }

  lemma PutLastHasKey<K, V>(es: seq<(K, V)>, k: K, v: V)
    ensures k in Keys(PutLast(es, k, v))
  {
    LastKeyIsThere(PutLast(es, k, v));
  }
}

/** The ingestion side of a shard: the container of compressed chunks and the split of a field into
    chunks.  What a reader without caches finds in a written shard is what was written. */
module ShardWriter {
  import opened Wrappers
  import opened Arrays
  import opened ChunkWindows
  import opened PlainStore

  const SHARD_MAGIC := 0x53484152

  // ---------------------------------------------------------------- little-endian numbers

  /** `struct.pack` of an unsigned number, low byte first. */
  function Packed(n: nat, width: nat): (s: seq<Byte>)
    ensures |s| == width
  {
    if width == 0 then [] else [n % 256] + Packed(n / 256, width - 1)
  }

  function Power256(width: nat): nat {
    if width == 0 then 1 else 256 * Power256(width - 1)
  }

  lemma {:induction false} PackedRoundTrip(n: nat, width: nat)
    requires n < Power256(width)
    ensures LittleEndian(Packed(n, width)) == n
  {
    if width == 0 {
    } else {
      PackedRoundTrip(n / 256, width - 1);
      assert Packed(n, width)[1..] == Packed(n / 256, width - 1);
    }
  }

  lemma EightBytesSuffice(n: nat)
    requires n < 0x1_0000_0000_0000_0000
    ensures LittleEndian(Packed(n, 8)) == n
  {
    assert Power256(4) == 0x1_0000_0000;
    assert Power256(8) == 256 * (256 * (256 * (256 * Power256(4))));
    PackedRoundTrip(n, 8);
  }

  /** The unsigned 64-bit number whose low byte is at `at`. */
  function Uint64At(bytes: seq<Byte>, at: nat): nat
    requires at + 8 <= |bytes|
  {
    bytes[at] as int + bytes[at + 1] as int * 0x100 + bytes[at + 2] as int * 0x1_0000
    + bytes[at + 3] as int * 0x100_0000 + bytes[at + 4] as int * 0x1_0000_0000
    + bytes[at + 5] as int * 0x100_0000_0000 + bytes[at + 6] as int * 0x1_0000_0000_0000
    + bytes[at + 7] as int * 0x100_0000_0000_0000
  }

  lemma LittleEndianFrom(bs: seq<Byte>, i: nat)
    requires i < |bs|
    ensures LittleEndian(bs[i..]) == bs[i] + 256 * LittleEndian(bs[i + 1..])
  {
    assert bs[i..][1..] == bs[i + 1..];
  }

  lemma EightBytes(bs: seq<Byte>)
    requires |bs| == 8
    ensures LittleEndian(bs) == Uint64At(bs, 0)
  {
    assert bs[0..] == bs;
    for i := 0 to 8
      invariant forall k | 0 <= k < i :: LittleEndian(bs[k..]) == bs[k] + 256 * LittleEndian(bs[k + 1..])
    {
      LittleEndianFrom(bs, i);
    }
    assert bs[8..] == [];
  }

  lemma UintOfSlice(bytes: seq<Byte>, at: nat)
    requires at + 8 <= |bytes|
    ensures LittleEndian(bytes[at..at + 8]) == Uint64At(bytes, at)
  {
    EightBytes(bytes[at..at + 8]);
  }

  /** What the reader makes of the end of a shard: entry `k` of the last 1932 bytes is an offset and a
      length of eight bytes each, low byte first; a shorter object has no index. */
  lemma IndexMeaning(bytes: seq<Byte>, k: nat)
    requires k < 120
    ensures |bytes| < 1932 ==> IndexOfShard(bytes) == []
    ensures |bytes| >= 1932 ==>
              && |IndexOfShard(bytes)| == 120
              && IndexOfShard(bytes)[k] ==
                 (Uint64At(bytes, |bytes| - 1932 + 16 * k), Uint64At(bytes, |bytes| - 1932 + 16 * k + 8))
  {
    if |bytes| >= 1932 {
      var at := |bytes| - 1932;
      var tail := bytes[at..];
      TailSlice(bytes, at, 16 * k);
      TailSlice(bytes, at, 16 * k + 8);
      UintOfSlice(bytes, at + 16 * k);
      UintOfSlice(bytes, at + 16 * k + 8);
    }
  }

  lemma TailSlice(bytes: seq<Byte>, at: nat, i: nat)
    requires at + i + 8 <= |bytes|
    ensures bytes[at..][i..i + 8] == bytes[at + i..at + i + 8]
  {
  }

  // ---------------------------------------------------------------- the container

  /** The bytes of all chunks, one after the other. */
  function Payload(chunks: seq<seq<Byte>>): seq<Byte> {
    if chunks == [] then [] else Payload(chunks[..|chunks| - 1]) + chunks[|chunks| - 1]
  }

  /** Where chunk `k` lies: an empty one is entered as (0, 0). */
  function EntryOf(chunks: seq<seq<Byte>>, k: nat): (nat, nat)
    requires k < |chunks|
  {
    if chunks[k] == [] then (0, 0) else (|Payload(chunks[..k])|, |chunks[k]|)
  }

  function Entries(chunks: seq<seq<Byte>>): (es: Index)
    ensures |es| == |chunks|
  {
    seq(|chunks|, k requires 0 <= k < |chunks| => EntryOf(chunks, k))
  }

  function IndexBytes(es: Index): (bytes: seq<Byte>)
    ensures |bytes| == 16 * |es|
  {
    if es == [] then []
    else
      var (offset, length) := es[|es| - 1];
      IndexBytes(es[..|es| - 1]) + (Packed(offset, 8) + Packed(length, 8))
  }

  function Trailer(n: nat): (bytes: seq<Byte>)
    ensures |bytes| == 12
  {
    Packed(n, 4) + Packed(16 * n, 4) + Packed(SHARD_MAGIC, 4)
  }

  function Container(chunks: seq<seq<Byte>>): seq<Byte> {
    Payload(chunks) + IndexBytes(Entries(chunks)) + Trailer(|chunks|)
  }

  /** The last twelve bytes of a full shard: 120 chunks, 1920 bytes of index, and the magic number, each a
      32-bit number low byte first; so the magic number reads RAHS, not SHAR. */
  lemma TrailerOfFullShard(chunks: seq<seq<Byte>>)
    requires |chunks| == 120
    ensures var bytes := Container(chunks);
            && |bytes| == |Payload(chunks)| + 1932
            && bytes[|bytes| - 12..] == [120, 0, 0, 0, 0x80, 7, 0, 0, 'R' as int, 'A' as int, 'H' as int, 'S' as int]
  {
    FourBytes(120, 120, 0, 0, 0);
    FourBytes(1920, 0x80, 7, 0, 0);
    FourBytes(SHARD_MAGIC, 'R' as int, 'A' as int, 'H' as int, 'S' as int);
  }

  lemma FourBytes(n: nat, b0: Byte, b1: Byte, b2: Byte, b3: Byte)
    requires n == b0 as int + b1 as int * 0x100 + b2 as int * 0x1_0000 + b3 as int * 0x100_0000
    ensures Packed(n, 4) == [b0, b1, b2, b3]
  {
    var n3: nat := b3 as int;
    var n2: nat := b2 as int + 0x100 * n3;
    var n1: nat := b1 as int + 0x100 * n2;
    OneByte(n3, b3, 0, 0);
    OneByte(n2, b2, n3, 1);
    OneByte(n1, b1, n2, 2);
    OneByte(n, b0, n1, 3);
    assert Packed(0, 0) == [];
  }

  lemma OneByte(n: nat, low: Byte, rest: nat, width: nat)
    requires n == low as int + 0x100 * rest
    ensures Packed(n, width + 1) == [low] + Packed(rest, width)
  {
  }

  lemma PayloadNext(chunks: seq<seq<Byte>>, i: nat)
    requires i < |chunks|
    ensures Payload(chunks[..i + 1]) == Payload(chunks[..i]) + chunks[i]
  {
    assert chunks[..i + 1][..i] == chunks[..i];
  }

  lemma IndexBytesNext(es: Index, i: nat)
    requires i < |es|
    ensures IndexBytes(es[..i + 1]) == IndexBytes(es[..i]) + (Packed(es[i].0, 8) + Packed(es[i].1, 8))
  {
    assert es[..i + 1][..i] == es[..i];
  }

  lemma EntriesNext(chunks: seq<seq<Byte>>, i: nat)
    requires i < |chunks|
    ensures Entries(chunks)[..i + 1] == Entries(chunks)[..i] + [EntryOf(chunks, i)]
  {
  }

  /** The loop over the chunks. */
  method LayOutChunks(chunks: seq<seq<Byte>>) returns (payload: seq<Byte>, entries: Index)
    ensures payload == Payload(chunks) && entries == Entries(chunks)
  {
    payload, entries := [], [];
    var currentOffset := 0;
    for i := 0 to |chunks|
      invariant payload == Payload(chunks[..i]) && currentOffset == |payload|
      invariant entries == Entries(chunks)[..i]
    {
      PayloadNext(chunks, i);
      EntriesNext(chunks, i);
      if |chunks[i]| > 0 {
        entries := entries + [(currentOffset, |chunks[i]|)];
        payload := payload + chunks[i];
        currentOffset := currentOffset + |chunks[i]|;
      } else {
        entries := entries + [(0, 0)];
      }
    }
    assert chunks[..|chunks|] == chunks && Entries(chunks)[..|chunks|] == Entries(chunks);
  }

  lemma Regroup(a: seq<Byte>, b: seq<Byte>, c: seq<Byte>)
    ensures (a + b) + c == a + (b + c)
  {
  }

  /** The loop over the entries, and the trailer. */
  method AppendIndex(payload: seq<Byte>, entries: Index) returns (buffer: seq<Byte>)
    ensures buffer == payload + IndexBytes(entries) + Trailer(|entries|)
  {
    buffer := payload;
    for i := 0 to |entries|
      invariant buffer == payload + IndexBytes(entries[..i])
    {
      var (offset, length) := entries[i];
      IndexBytesNext(entries, i);
      Regroup(payload, IndexBytes(entries[..i]), Packed(offset, 8) + Packed(length, 8));
      buffer := buffer + (Packed(offset, 8) + Packed(length, 8));
    }
    assert entries[..|entries|] == entries;
    var indexSize := |entries| * 16;
    buffer := buffer + (Packed(|entries|, 4) + Packed(indexSize, 4) + Packed(SHARD_MAGIC, 4));
  }

  /** `build_sharded_v1_container` */
  method BuildShardedV1Container(chunks: seq<seq<Byte>>) returns (container: seq<Byte>)
    ensures container == Container(chunks)
  {
    var payload, entries := LayOutChunks(chunks);
    container := AppendIndex(payload, entries);
  }

  // ---------------------------------------------------------------- reading a written container

  /** Chunk `k` lies in the payload where its entry says. */
  lemma {:induction false} ChunkInPayload(chunks: seq<seq<Byte>>, k: nat)
    requires k < |chunks|
    ensures var at := |Payload(chunks[..k])|;
            at + |chunks[k]| <= |Payload(chunks)| && Payload(chunks)[at..at + |chunks[k]|] == chunks[k]
  {
    var last := |chunks| - 1;
    if k == last {
    } else {
      ChunkInPayload(chunks[..last], k);
      assert chunks[..last][..k] == chunks[..k] && chunks[..last][k] == chunks[k];
    }
  }

  lemma FrontSlice(a: seq<Byte>, b: seq<Byte>, i: nat, j: nat)
    requires i <= j <= |a|
    ensures (a + b)[i..j] == a[i..j]
  {
  }

  lemma BackSlices(a: seq<Byte>, b: seq<Byte>, c: seq<Byte>)
    requires |b| == 8 && |c| == 8
    ensures (a + (b + c))[|a|..|a| + 8] == b && (a + (b + c))[|a| + 8..|a| + 16] == c
  {
  }

  lemma {:induction false} EntryInIndexBytes(es: Index, k: nat)
    requires k < |es|
    ensures IndexBytes(es)[16 * k..16 * k + 8] == Packed(es[k].0, 8)
    ensures IndexBytes(es)[16 * k + 8..16 * k + 16] == Packed(es[k].1, 8)
  {
    var last := |es| - 1;
    var before, entry := IndexBytes(es[..last]), Packed(es[last].0, 8) + Packed(es[last].1, 8);
    if k == last {
      BackSlices(before, Packed(es[last].0, 8), Packed(es[last].1, 8));
    } else {
      EntryInIndexBytes(es[..last], k);
      FrontSlice(before, entry, 16 * k, 16 * k + 8);
      FrontSlice(before, entry, 16 * k + 8, 16 * k + 16);
    }
  }

  lemma PayloadGrows(chunks: seq<seq<Byte>>, k: nat)
    requires k < |chunks|
    ensures EntryOf(chunks, k).0 + EntryOf(chunks, k).1 <= |Payload(chunks)|
  {
    ChunkInPayload(chunks, k);
  }

  lemma MiddleSlice(a: seq<Byte>, b: seq<Byte>, c: seq<Byte>, i: nat)
    requires i + 8 <= |b|
    ensures (a + b + c)[|a| + i..|a| + i + 8] == b[i..i + 8]
  {
  }

  lemma NumberInMiddle(a: seq<Byte>, b: seq<Byte>, c: seq<Byte>, i: nat, n: nat)
    requires i + 8 <= |b| && b[i..i + 8] == Packed(n, 8) && n < 0x1_0000_0000_0000_0000
    ensures Uint64At(a + b + c, |a| + i) == n
  {
    MiddleSlice(a, b, c, i);
    UintOfSlice(a + b + c, |a| + i);
    EightBytesSuffice(n);
  }

  lemma LaidOutIndex(p: seq<Byte>, es: Index, t: seq<Byte>, k: nat)
    requires |es| == 120 && |t| == 12 && k < 120
    requires es[k].0 < 0x1_0000_0000_0000_0000 && es[k].1 < 0x1_0000_0000_0000_0000
    ensures |IndexOfShard(p + IndexBytes(es) + t)| == 120 && IndexOfShard(p + IndexBytes(es) + t)[k] == es[k]
  {
    var b := IndexBytes(es);
    IndexMeaning(p + b + t, k);
    EntryInIndexBytes(es, k);
    NumberInMiddle(p, b, t, 16 * k, es[k].0);
    NumberInMiddle(p, b, t, 16 * k + 8, es[k].1);
  }

  /** The reader finds the writer's entries. */
  lemma WrittenIndex(chunks: seq<seq<Byte>>, k: nat)
    requires |chunks| == 120 && k < 120 && |Payload(chunks)| < 0x1_0000_0000_0000_0000
    ensures |IndexOfShard(Container(chunks))| == 120
    ensures IndexOfShard(Container(chunks))[k] == EntryOf(chunks, k)
  {
    PayloadGrows(chunks, k);
    LaidOutIndex(Payload(chunks), Entries(chunks), Trailer(120), k);
  }

  /** The bytes an entry names are the chunk's own. */
  lemma WrittenRange(chunks: seq<seq<Byte>>, k: nat)
    requires k < |chunks| && chunks[k] != []
    ensures ReadRange(Container(chunks), EntryOf(chunks, k).0, EntryOf(chunks, k).1) == chunks[k]
  {
    var (offset, length) := EntryOf(chunks, k);
    ChunkInPayload(chunks, k);
    Regroup(Payload(chunks), IndexBytes(Entries(chunks)), Trailer(|chunks|));
    FrontSlice(Payload(chunks), IndexBytes(Entries(chunks)) + Trailer(|chunks|), offset, offset + length);
  }

  /** The round trip of a container: chunk (row, col) of the reader is the decoding of the chunk the
      writer was given at that place, and NaN where it was given an empty one. */
  lemma ContainerRoundTrip(s: Store, g: Option<string>, shardKey: string, chunks: seq<seq<Byte>>, row: int, col: int)
    requires |chunks| == 120 && |Payload(chunks)| < 0x1_0000_0000_0000_0000
    requires shardKey in s.files(g) && s.files(g)[shardKey] == Container(chunks)
    requires 0 <= row < 8 && 0 <= col < 15
    ensures PlainChunk(s, g, shardKey, row, col) ==
            if chunks[row * 15 + col] == [] then Some(NAN_CHUNK) else DecodeChunk(s.decode, chunks[row * 15 + col])
  {
    var k := row * 15 + col;
    WrittenIndex(chunks, k);
    if chunks[k] != [] { WrittenRange(chunks, k); }
  }

  // ---------------------------------------------------------------- a field in chunks

  /** A two-dimensional array, row by row. */
  datatype Region = Region(rows: nat, cols: nat, cells: seq<seq<Cell>>) {
    predicate Valid() {
      |cells| == rows && forall row <- cells :: |row| == cols
    }

    /** A hundred rows a chunk, or all of them when there are fewer. */
    function LatChunk(): (n: nat)
      ensures n > 0 && (0 < rows < 100 ==> n == rows) && (rows == 0 || rows >= 100 ==> n == 100)
    {
      if rows > 0 then Min(CHUNK, rows) else CHUNK
    }

    function LonChunk(): (n: nat)
      ensures n > 0 && (0 < cols < 100 ==> n == cols) && (cols == 0 || cols >= 100 ==> n == 100)
    {
      if cols > 0 then Min(CHUNK, cols) else CHUNK
    }

    function LatChunks(): nat {
      (rows + LatChunk() - 1) / LatChunk()
    }

    function LonChunks(): nat {
      (cols + LonChunk() - 1) / LonChunk()
    }

    /** The cell at (i, j), NaN beyond the array. */
    function CellAt(i: int, j: int): Cell
      requires Valid()
    {
      if 0 <= i < rows && 0 <= j < cols then cells[i][j] else NaN
    }

    /** Row `i` of the chunk whose first cell is (top, left). */
    function ChunkRow(top: int, left: int, i: nat): (row: seq<Cell>)
      requires Valid()
    {
      seq(LonChunk(), j requires 0 <= j => CellAt(top + i, left + j))
    }

    /** Chunk (r, c) in row-major order. */
    function ChunkCells(r: nat, c: nat): seq<Cell>
      requires Valid()
    {
      Flatten(ChunkRows(r * LatChunk(), c * LonChunk()))
    }

    function ChunkRows(top: int, left: int): seq<seq<Cell>>
      requires Valid()
    {
      seq(LatChunk(), i requires 0 <= i => ChunkRow(top, left, i))
    }
  }

  /** The rows of a table, one after the other. */
  function Flatten<T>(rows: seq<seq<T>>): seq<T> {
    if rows == [] then [] else Flatten(rows[..|rows| - 1]) + rows[|rows| - 1]
  }

  lemma FlattenNext<T>(rows: seq<seq<T>>, row: seq<T>)
    ensures Flatten(rows + [row]) == Flatten(rows) + row
  {
    assert (rows + [row])[..|rows|] == rows;
  }

  lemma {:induction false} FlattenAt<T>(rows: seq<seq<T>>, i: nat, j: nat)
    requires i < |rows| && j < |rows[i]|
    ensures var at := |Flatten(rows[..i])| + j; at < |Flatten(rows)| && Flatten(rows)[at] == rows[i][j]
  {
    var last := |rows| - 1;
    if i == last {
    } else {
      FlattenAt(rows[..last], i, j);
      assert rows[..last][..i] == rows[..i] && rows[..last][i] == rows[i];
    }
  }

  lemma OneMore(n: nat, w: nat)
    ensures (n + 1) * w == n * w + w
  {
  }

  lemma {:induction false} FlattenSize<T>(rows: seq<seq<T>>, w: nat)
    requires forall row <- rows :: |row| == w
    ensures |Flatten(rows)| == |rows| * w
  {
    if rows == [] {
    } else {
      var last := |rows| - 1;
      FlattenSize(rows[..last], w);
      OneMore(last, w);
    }
  }

  /** The compressed chunks of row `r` of chunks. */
  function RowOfChunks(a: Region, compress: seq<Cell> -> seq<Byte>, r: nat): (cs: seq<seq<Byte>>)
    requires a.Valid()
    ensures |cs| == a.LonChunks()
  {
    seq(a.LonChunks(), c requires 0 <= c => compress(a.ChunkCells(r, c)))
  }

  function ChunkTable(a: Region, compress: seq<Cell> -> seq<Byte>): (t: seq<seq<seq<Byte>>>)
    requires a.Valid()
    ensures |t| == a.LatChunks()
  {
    seq(a.LatChunks(), r requires 0 <= r => RowOfChunks(a, compress, r))
  }

  function Shard(a: Region, compress: seq<Cell> -> seq<Byte>): seq<Byte>
    requires a.Valid()
  {
    Container(Flatten(ChunkTable(a, compress)))
  }

  function FilledRow(a: Region, top: nat, left: nat, subLat: nat, subLon: nat, w: nat, i: nat): seq<Cell>
    requires a.Valid() && top + subLat <= a.rows && left + subLon <= a.cols
  {
    seq(w, j requires 0 <= j => if i < subLat && j < subLon then a.cells[top + i][left + j] else NaN)
  }

  lemma FilledRowIsChunkRow(a: Region, top: nat, left: nat, subLat: nat, subLon: nat, i: nat)
    requires a.Valid() && i < a.LatChunk()
    requires top + subLat == Min(top + a.LatChunk(), a.rows) && left + subLon == Min(left + a.LonChunk(), a.cols)
    ensures FilledRow(a, top, left, subLat, subLon, a.LonChunk(), i) == a.ChunkRow(top, left, i)
  {
    assert i < subLat <==> top + i < a.rows;
    var row, chunkRow := FilledRow(a, top, left, subLat, subLon, a.LonChunk(), i), a.ChunkRow(top, left, i);
    forall j | 0 <= j < a.LonChunk() ensures row[j] == chunkRow[j] {
      assert j < subLon <==> left + j < a.cols;
      assert chunkRow[j] == a.CellAt(top + i, left + j);
    }
  }

  lemma Quotient(x: nat, d: nat)
    requires d > 0
    ensures x / d * d <= x
  {
    assert x == x / d * d + x % d;
  }

  lemma Monotone(a: nat, b: nat, m: nat)
    requires a <= b
    ensures a * m <= b * m
  {
  }

  lemma ChunkStart(k: nat, chunk: nat, size: nat)
    requires chunk > 0 && k < (size + chunk - 1) / chunk
    ensures 0 <= k * chunk < size && (k + 1) * chunk == k * chunk + chunk
  {
    Quotient(size + chunk - 1, chunk);
    Monotone(k + 1, (size + chunk - 1) / chunk, chunk);
    Monotone(0, k, chunk);
  }

  /** `chunk_buf` of the writer: NaN everywhere, then the part of the array that reaches into it. */
  method FillChunk(a: Region, r: nat, c: nat) returns (buffer: seq<Cell>)
    requires a.Valid() && r < a.LatChunks() && c < a.LonChunks()
    ensures buffer == a.ChunkCells(r, c)
  {
    var latChunk, lonChunk := a.LatChunk(), a.LonChunk();
    ChunkStart(r, latChunk, a.rows);
    ChunkStart(c, lonChunk, a.cols);
    var latStart, lonStart := r * latChunk, c * lonChunk;
    var subLat := Min((r + 1) * latChunk, a.rows) - latStart;
    var subLon := Min((c + 1) * lonChunk, a.cols) - lonStart;
    var rows := seq(latChunk, i requires 0 <= i => FilledRow(a, latStart, lonStart, subLat, subLon, lonChunk, i));
    forall i | 0 <= i < latChunk ensures rows[i] == a.ChunkRow(latStart, lonStart, i) {
      FilledRowIsChunkRow(a, latStart, lonStart, subLat, subLon, i);
    }
    assert rows == a.ChunkRows(latStart, lonStart);
    buffer := Flatten(rows);
  }

  lemma TableNext<T>(rows: seq<seq<T>>, n: nat)
    requires n < |rows|
    ensures Flatten(rows[..n + 1]) == Flatten(rows[..n]) + rows[n]
  {
    assert rows[..n + 1] == rows[..n] + [rows[n]];
    FlattenNext(rows[..n], rows[n]);
  }

  /** The compressed chunks of one row of chunks. */
  method EncodeRow(a: Region, compress: seq<Cell> -> seq<Byte>, r: nat) returns (chunks: seq<seq<Byte>>)
    requires a.Valid() && r < a.LatChunks()
    ensures chunks == RowOfChunks(a, compress, r)
  {
    chunks := [];
    for c := 0 to a.LonChunks()
      invariant chunks == RowOfChunks(a, compress, r)[..c]
    {
      var buffer := FillChunk(a, r, c);
      chunks := chunks + [compress(buffer)];
    }
  }

  /** The shard of one variable, as `encode_region_sharded_v1` writes it. */
  method EncodeRegion(a: Region, compress: seq<Cell> -> seq<Byte>) returns (shard: seq<Byte>)
    requires a.Valid()
    ensures shard == Shard(a, compress)
  {
    var chunks: seq<seq<Byte>> := [];
    ghost var table := ChunkTable(a, compress);
    for r := 0 to a.LatChunks()
      invariant chunks == Flatten(table[..r])
    {
      var row := EncodeRow(a, compress, r);
      TableNext(table, r);
      chunks := chunks + row;
    }
    assert table[..a.LatChunks()] == table;
    shard := BuildShardedV1Container(chunks);
  }

  // ---------------------------------------------------------------- from the array back to the array

  /** Decompression undoes compression of every 100x100 chunk, and nothing compresses to nothing. */
  ghost predicate Lossless(decode: seq<Byte> -> Option<seq<Cell>>, compress: seq<Cell> -> seq<Byte>) {
    forall cells: seq<Cell> | |cells| == 10000 :: compress(cells) != [] && decode(compress(cells)) == Some(cells)
  }

  /** An array that fills the reader's grid of 8 by 15 chunks; the platform's is 721 by 1440. */
  predicate FillsGrid(a: Region) {
    a.Valid() && 700 < a.rows <= 800 && 1400 < a.cols <= 1500
  }

  lemma GridShape(a: Region)
    requires FillsGrid(a)
    ensures a.LatChunk() == 100 && a.LonChunk() == 100 && a.LatChunks() == 8 && a.LonChunks() == 15
  {
  }

  lemma TableAt(a: Region, compress: seq<Cell> -> seq<Byte>, r: nat, c: nat)
    requires FillsGrid(a) && r < 8 && c < 15
    ensures var chunks := Flatten(ChunkTable(a, compress));
            |chunks| == 120 && chunks[r * 15 + c] == compress(a.ChunkCells(r, c))
  {
    GridShape(a);
    var table := ChunkTable(a, compress);
    FlattenSize(table, 15);
    FlattenSize(table[..r], 15);
    FlattenAt(table, r, c);
    assert table[r] == RowOfChunks(a, compress, r);
  }

  lemma ChunkCellAt(a: Region, r: nat, c: nat, i: nat, j: nat)
    requires FillsGrid(a) && i < 100 && j < 100
    ensures |a.ChunkCells(r, c)| == 10000
    ensures a.ChunkCells(r, c)[i * 100 + j] == a.CellAt(r * 100 + i, c * 100 + j)
  {
    GridShape(a);
    var rows := a.ChunkRows(r * 100, c * 100);
    FlattenSize(rows, 100);
    FlattenSize(rows[..i], 100);
    FlattenAt(rows, i, j);
    assert rows[i] == a.ChunkRow(r * 100, c * 100, i);
  }

  /** The shard stored under the key is the one written for the array. */
  ghost predicate Written(s: Store, g: Option<string>, shardKey: string, a: Region,
                          compress: seq<Cell> -> seq<Byte>) {
    && FillsGrid(a) && Lossless(s.decode, compress) && |Shard(a, compress)| < 0x1_0000_0000_0000_0000
    && shardKey in s.files(g) && s.files(g)[shardKey] == Shard(a, compress)
  }

  lemma WrittenChunkIsRead(s: Store, g: Option<string>, shardKey: string, a: Region,
                           compress: seq<Cell> -> seq<Byte>, r: nat, c: nat)
    requires Written(s, g, shardKey, a, compress) && r < 8 && c < 15
    ensures |a.ChunkCells(r, c)| == 10000
    ensures PlainChunk(s, g, shardKey, r, c) == Some(a.ChunkCells(r, c))
  {
    TableAt(a, compress, r, c);
    ContainerRoundTrip(s, g, shardKey, Flatten(ChunkTable(a, compress)), r, c);
    ChunkCellAt(a, r, c, 0, 0);
    assert compress(a.ChunkCells(r, c)) != [];
  }

  lemma GridPlace(n: int, k: nat, rest: nat)
    requires n == k * 100 + rest && rest < 100
    ensures n / 100 == k && n % 100 == rest
  {
  }

  /** A point is a cell of its chunk. */
  lemma PointInChunk(s: Store, g: Option<string>, shardKey: string, lat: int, lon: int,
                     r: nat, c: nat, i: nat, j: nat, chunk: Chunk)
    requires lat == r * 100 + i && lon == c * 100 + j && i < 100 && j < 100
    requires PlainChunk(s, g, shardKey, r, c) == Some(chunk)
    ensures PlainPoint(s, g, shardKey, lat, lon) == Some(chunk[i * 100 + j])
  {
    GridPlace(lat, r, i);
    GridPlace(lon, c, j);
  }

  lemma PointOfRegion(s: Store, g: Option<string>, shardKey: string, a: Region,
                      lat: int, lon: int, r: nat, c: nat, i: nat, j: nat)
    requires lat == r * 100 + i && lon == c * 100 + j && i < 100 && j < 100
    requires FillsGrid(a) && PlainChunk(s, g, shardKey, r, c) == Some(a.ChunkCells(r, c))
    ensures PlainPoint(s, g, shardKey, lat, lon) ==
            Some(if lat < a.rows && lon < a.cols then a.cells[lat][lon] else NaN)
  {
    ChunkCellAt(a, r, c, i, j);
    PointInChunk(s, g, shardKey, lat, lon, r, c, i, j, a.ChunkCells(r, c));
  }

  lemma WrittenPlaceIsRead(s: Store, g: Option<string>, shardKey: string, a: Region, compress: seq<Cell> -> seq<Byte>,
                           lat: int, lon: int, r: nat, c: nat, i: nat, j: nat)
    requires lat == r * 100 + i && lon == c * 100 + j && r < 8 && c < 15 && i < 100 && j < 100
    requires Written(s, g, shardKey, a, compress)
    ensures PlainPoint(s, g, shardKey, lat, lon) ==
            Some(if lat < a.rows && lon < a.cols then a.cells[lat][lon] else NaN)
  {
    WrittenChunkIsRead(s, g, shardKey, a, compress, r, c);
    PointOfRegion(s, g, shardKey, a, lat, lon, r, c, i, j);
  }

  lemma Place(n: int, chunks: nat) returns (k: nat, rest: nat)
    requires 0 <= n < 100 * chunks
    ensures k < chunks && rest < 100 && n == k * 100 + rest
  {
    k, rest := n / 100, n % 100;
  }

  /** What was written is read: for an array of the grid's size under a lossless codec the value at
      (lat, lon) is the array's own cell, and NaN on the part of the chunk grid the array does not reach. */
  lemma WrittenCellIsRead(s: Store, g: Option<string>, shardKey: string, a: Region,
                          compress: seq<Cell> -> seq<Byte>, lat: int, lon: int)
    requires a.Valid() && 700 < a.rows <= 800 && 1400 < a.cols <= 1500 && 0 <= lat < 800 && 0 <= lon < 1500
    requires forall x: seq<Cell> | |x| == 10000 :: compress(x) != [] && s.decode(compress(x)) == Some(x)
    requires |Shard(a, compress)| < 0x1_0000_0000_0000_0000
    requires shardKey in s.files(g) && s.files(g)[shardKey] == Shard(a, compress)
    ensures PlainPoint(s, g, shardKey, lat, lon) ==
            Some(if lat < a.rows && lon < a.cols then a.cells[lat][lon] else NaN)
  {
    var r, i := Place(lat, 8);
    var c, j := Place(lon, 15);
    WrittenPlaceIsRead(s, g, shardKey, a, compress, lat, lon, r, c, i, j);
  }

  /** So the four corners an interpolation reads are the array's cells: the second of a pair is the
      next longitude, the second pair the next latitude. */
  lemma WrittenCornersAreRead(s: Store, g: Option<string>, shardKey: string, a: Region,
                              compress: seq<Cell> -> seq<Byte>, lat0: int, lat1: int, lon0: int, lon1: int)
    requires Written(s, g, shardKey, a, compress)
    requires 0 <= lat0 < a.rows && 0 <= lat1 < a.rows && 0 <= lon0 < a.cols && 0 <= lon1 < a.cols
    ensures PlainCorners(s, g, shardKey, lat0, lat1, lon0, lon1) ==
            Some(Corners(a.cells[lat0][lon0], a.cells[lat0][lon1], a.cells[lat1][lon0], a.cells[lat1][lon1]))
  {
    WrittenCellIsRead(s, g, shardKey, a, compress, lat0, lon0);
    WrittenCellIsRead(s, g, shardKey, a, compress, lat0, lon1);
    WrittenCellIsRead(s, g, shardKey, a, compress, lat1, lon0);
    WrittenCellIsRead(s, g, shardKey, a, compress, lat1, lon1);
  }
}

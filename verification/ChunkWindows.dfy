/** Splitting a window of the 721x1440 grid across 100x100 chunks, and putting the pieces together
    in the caller's window. */
module ChunkWindows {
  import opened Wrappers

  const CHUNK: int := 100
  const LAT_CELLS: int := 721
  const LON_CELLS: int := 1440

  /** A grid cell value; missing data is NaN. */
  datatype Cell = NaN | Num(value: real)

  /** A decoded 100x100 chunk in row-major order. */
  type Chunk = c: seq<Cell> | |c| == 10000 witness seq(10000, _ => NaN)

  const NAN_CHUNK: Chunk := seq(10000, _ => NaN)

  function At(c: Chunk, row: int, col: int): Cell
    requires 0 <= row < CHUNK && 0 <= col < CHUNK
  {
    c[row * CHUNK + col]
  }

  datatype Slice = Slice(start: int, stop: int) {
    predicate Has(i: int) {
      start <= i < stop
    }
  }

  datatype Placement = Placement(
    chunkRow: int,
    chunkCol: int,
    srcRows: Slice,
    srcCols: Slice,
    dstRows: Slice,
    dstCols: Slice)

  datatype Window = Window(latMin: int, latMax: int, lonMin: int, lonMax: int) {
    function Height(): int {
      latMax - latMin + 1
    }

    function Width(): int {
      lonMax - lonMin + 1
    }

    predicate Has(i: int, j: int) {
      0 <= i < Height() && 0 <= j < Width()
    }
  }

  function Max(a: int, b: int): int {
    if a > b then a else b
  }

  function Min(a: int, b: int): int {
    if a < b then a else b
  }

  // ---------------------------------------------------------------- one axis

  /** The part of chunk `k` of an axis of `size` cells that the interval [lo, hi] needs. */
  function Source(k: int, lo: int, hi: int, size: int): Slice {
    var start := k * CHUNK;
    Slice(Max(0, lo - start), Min(Min((k + 1) * CHUNK, size) - start, hi - start + 1))
  }

  /** Where that part lands in the interval. */
  function Destination(k: int, lo: int, hi: int, size: int): Slice {
    var source := Source(k, lo, hi, size);
    var start := Max(0, k * CHUNK - lo);
    Slice(start, start + (source.stop - source.start))
  }

  /** Offset `d` of the interval belongs to chunk `k` exactly when its cell lies in that chunk and
      below the end of the axis; its place in the chunk is the cell number modulo 100. */
  lemma AxisSplit(k: int, lo: int, hi: int, size: int, d: int)
    requires 0 <= d <= hi - lo
    ensures Destination(k, lo, hi, size).Has(d) <==> lo + d < size && (lo + d) / CHUNK == k
    ensures Destination(k, lo, hi, size).Has(d) ==>
              Source(k, lo, hi, size).start + (d - Destination(k, lo, hi, size).start) == (lo + d) % CHUNK
  {
  }

  /** The chunk numbers visited cover the interval. */
  lemma AxisRange(lo: int, hi: int, d: int)
    requires 0 <= d <= hi - lo
    ensures lo / CHUNK <= (lo + d) / CHUNK <= hi / CHUNK
  {
  }

  /** A destination never leaves the interval. */
  lemma AxisInside(k: int, lo: int, hi: int, size: int, d: int)
    requires Source(k, lo, hi, size).start < Source(k, lo, hi, size).stop
    requires Destination(k, lo, hi, size).Has(d)
    ensures 0 <= d <= hi - lo
    ensures 0 <= Source(k, lo, hi, size).start + (d - Destination(k, lo, hi, size).start) < CHUNK
  {
  }

  // ---------------------------------------------------------------- placements

  function PlacementAt(w: Window, r: int, c: int): Placement {
    Placement(r, c,
      Source(r, w.latMin, w.latMax, LAT_CELLS), Source(c, w.lonMin, w.lonMax, LON_CELLS),
      Destination(r, w.latMin, w.latMax, LAT_CELLS), Destination(c, w.lonMin, w.lonMax, LON_CELLS))
  }

  predicate NonEmpty(p: Placement) {
    p.srcRows.start < p.srcRows.stop && p.srcCols.start < p.srcCols.stop
  }

  predicate Covers(p: Placement, i: int, j: int) {
    p.dstRows.Has(i) && p.dstCols.Has(j)
  }

  /** The cell of the chunk that lands at (i, j). */
  function SourceRow(p: Placement, i: int): int {
    p.srcRows.start + (i - p.dstRows.start)
  }

  function SourceCol(p: Placement, j: int): int {
    p.srcCols.start + (j - p.dstCols.start)
  }

  /** What the placement list of a window promises: every cell below the ends of the axes is
      covered by exactly one placement, which reads it from its own chunk; the others by none. */
  ghost predicate Tiles(w: Window, ps: seq<Placement>) {
    && (forall p <- ps :: NonEmpty(p) && p == PlacementAt(w, p.chunkRow, p.chunkCol))
    && (forall i, j | w.Has(i, j) ::
          (exists p :: p in ps && Covers(p, i, j)) <==> w.latMin + i < LAT_CELLS && w.lonMin + j < LON_CELLS)
    && (forall m, n | 0 <= m < n < |ps| :: ps[m].chunkRow != ps[n].chunkRow || ps[m].chunkCol != ps[n].chunkCol)
  }

  /** The cell a placement supplies is the one the grid has there. */
  lemma CoveredCell(w: Window, p: Placement, i: int, j: int)
    requires NonEmpty(p) && p == PlacementAt(w, p.chunkRow, p.chunkCol) && Covers(p, i, j)
    ensures w.Has(i, j)
    ensures p.chunkRow == (w.latMin + i) / CHUNK && p.chunkCol == (w.lonMin + j) / CHUNK
    ensures SourceRow(p, i) == (w.latMin + i) % CHUNK && SourceCol(p, j) == (w.lonMin + j) % CHUNK
    ensures w.latMin + i < LAT_CELLS && w.lonMin + j < LON_CELLS
  {
    AxisInside(p.chunkRow, w.latMin, w.latMax, LAT_CELLS, i);
    AxisInside(p.chunkCol, w.lonMin, w.lonMax, LON_CELLS, j);
    AxisSplit(p.chunkRow, w.latMin, w.latMax, LAT_CELLS, i);
    AxisSplit(p.chunkCol, w.lonMin, w.lonMax, LON_CELLS, j);
  }

  /** The chunk of a cell below the ends of the axes contributes a placement that covers it. */
  lemma CellIsCovered(w: Window, i: int, j: int)
    requires w.Has(i, j) && w.latMin + i < LAT_CELLS && w.lonMin + j < LON_CELLS
    ensures var p := PlacementAt(w, (w.latMin + i) / CHUNK, (w.lonMin + j) / CHUNK); NonEmpty(p) && Covers(p, i, j)
  {
    AxisSplit((w.latMin + i) / CHUNK, w.latMin, w.latMax, LAT_CELLS, i);
    AxisSplit((w.lonMin + j) / CHUNK, w.lonMin, w.lonMax, LON_CELLS, j);
  }

  /** Two placements of one window that touch the same cell are the same placement. */
  lemma DestinationsDisjoint(w: Window, p: Placement, q: Placement, i: int, j: int)
    requires NonEmpty(p) && p == PlacementAt(w, p.chunkRow, p.chunkCol) && Covers(p, i, j)
    requires NonEmpty(q) && q == PlacementAt(w, q.chunkRow, q.chunkCol) && Covers(q, i, j)
    ensures p == q
  {
    CoveredCell(w, p, i, j);
    CoveredCell(w, q, i, j);
  }

  /** A window without cells has no piece. */
  lemma NoPiece(w: Window, p: Placement)
    requires w.Height() <= 0 || w.Width() <= 0
    requires p == PlacementAt(w, p.chunkRow, p.chunkCol)
    ensures !NonEmpty(p)
  {
  }

  /** `_chunk_placements`; the chunk grid is walked row by row and empty pieces are skipped.  A window
      without cells, of whatever negative extent, gets the empty list. */
  method ChunkPlacements(w: Window) returns (ps: seq<Placement>)
    ensures Tiles(w, ps)
    ensures forall i, j | w.Has(i, j) ::
              (exists p :: p in ps && Covers(p, i, j)) <==> w.latMin + i < 721 && w.lonMin + j < 1440
    ensures forall m, n | 0 <= m < n < |ps| :: ps[m].chunkRow != ps[n].chunkRow || ps[m].chunkCol != ps[n].chunkCol
    ensures w.Height() <= 0 || w.Width() <= 0 ==> ps == []
  {
    ps := [];
    var r := w.latMin / CHUNK;
    while r <= w.latMax / CHUNK
      invariant r >= w.latMin / CHUNK
      invariant Listed(w, ps, r, w.lonMin / CHUNK)
      decreases w.latMax / CHUNK + 1 - r
    {
      var c := w.lonMin / CHUNK;
      while c <= w.lonMax / CHUNK
        invariant c >= w.lonMin / CHUNK
        invariant Listed(w, ps, r, c)
        decreases w.lonMax / CHUNK + 1 - c
      {
        var p := PlacementAt(w, r, c);
        ghost var before := ps;
        if NonEmpty(p) { ps := ps + [p]; }
        ListedNext(w, before, ps, r, c);
        c := c + 1;
      }
      r := r + 1;
    }
    ListedTiles(w, ps, r);
    if ps != [] && (w.Height() <= 0 || w.Width() <= 0) { NoPiece(w, ps[0]); }
  }

  predicate Before(w: Window, r: int, c: int, r': int, c': int) {
    && w.latMin / CHUNK <= r && w.lonMin / CHUNK <= c <= w.lonMax / CHUNK
    && (r < r' || (r == r' && c < c'))
  }

  /** The placements of all chunks in front of (r, c) are listed, once each, and no others. */
  ghost predicate Listed(w: Window, ps: seq<Placement>, r: int, c: int) {
    && (forall p <- ps ::
          NonEmpty(p) && p == PlacementAt(w, p.chunkRow, p.chunkCol) && Before(w, p.chunkRow, p.chunkCol, r, c))
    && (forall r', c' | Before(w, r', c', r, c) && NonEmpty(PlacementAt(w, r', c')) :: PlacementAt(w, r', c') in ps)
    && (forall m, n | 0 <= m < n < |ps| :: ps[m].chunkRow != ps[n].chunkRow || ps[m].chunkCol != ps[n].chunkCol)
  }

  lemma ListedNext(w: Window, before: seq<Placement>, ps: seq<Placement>, r: int, c: int)
    requires Listed(w, before, r, c) && w.latMin / CHUNK <= r && w.lonMin / CHUNK <= c <= w.lonMax / CHUNK
    requires ps == if NonEmpty(PlacementAt(w, r, c)) then before + [PlacementAt(w, r, c)] else before
    ensures Listed(w, ps, r, c + 1)
  {
  }

  lemma ListedTiles(w: Window, ps: seq<Placement>, r: int)
    requires Listed(w, ps, r, w.lonMin / CHUNK) && r > w.latMax / CHUNK
    ensures Tiles(w, ps)
  {
    forall i, j | w.Has(i, j)
      ensures (exists p :: p in ps && Covers(p, i, j)) <==> w.latMin + i < LAT_CELLS && w.lonMin + j < LON_CELLS
    {
      if w.latMin + i < LAT_CELLS && w.lonMin + j < LON_CELLS {
        CellIsCovered(w, i, j);
        AxisRange(w.latMin, w.latMax, i);
        AxisRange(w.lonMin, w.lonMax, j);
        var p := PlacementAt(w, (w.latMin + i) / CHUNK, (w.lonMin + j) / CHUNK);
        assert Before(w, p.chunkRow, p.chunkCol, r, w.lonMin / CHUNK);
        assert p in ps && Covers(p, i, j);
      }
      forall p | p in ps && Covers(p, i, j) ensures w.latMin + i < LAT_CELLS && w.lonMin + j < LON_CELLS {
        CoveredCell(w, p, i, j);
      }
    }
  }

  // ---------------------------------------------------------------- writing pieces back

  /** The decoded chunks by chunk row and column. */
  type Grid = (int, int) -> Chunk

  ghost predicate Pieces(w: Window, ps: seq<Placement>) {
    forall p <- ps :: NonEmpty(p) && p == PlacementAt(w, p.chunkRow, p.chunkCol)
  }

  /** The plain value of the grid at a cell. */
  function CellOf(grid: Grid, lat: int, lon: int): Cell {
    At(grid(lat / CHUNK, lon / CHUNK), lat % CHUNK, lon % CHUNK)
  }

  /** What stands at (i, j) after the pieces of `ps` were written in order over NaN. */
  ghost function CellAfter(w: Window, ps: seq<Placement>, grid: Grid, i: int, j: int): Cell
    requires Pieces(w, ps)
  {
    if ps == [] then NaN
    else
      var p := ps[|ps| - 1];
      if Covers(p, i, j) then
        CoveredCell(w, p, i, j);
        At(grid(p.chunkRow, p.chunkCol), SourceRow(p, i), SourceCol(p, j))
      else CellAfter(w, ps[..|ps| - 1], grid, i, j)
  }

  lemma {:induction false} CellAfterIsPlain(w: Window, ps: seq<Placement>, grid: Grid, i: int, j: int)
    requires Pieces(w, ps)
    ensures CellAfter(w, ps, grid, i, j) ==
            if exists p :: p in ps && Covers(p, i, j) then CellOf(grid, w.latMin + i, w.lonMin + j) else NaN
  {
    if ps == [] {
    } else {
      var n := |ps| - 1;
      assert ps == ps[..n] + [ps[n]];
      if Covers(ps[n], i, j) {
        CoveredCell(w, ps[n], i, j);
      } else {
        CellAfterIsPlain(w, ps[..n], grid, i, j);
      }
    }
  }

  /** The order in which the pieces are written back does not matter: any list with the same
      placements leaves the plain grid values below the ends of the axes and NaN elsewhere. */
  lemma WriteBackOrderIrrelevant(w: Window, ps: seq<Placement>, qs: seq<Placement>, grid: Grid, i: int, j: int)
    requires Tiles(w, ps) && w.Has(i, j) && forall p :: p in qs <==> p in ps
    ensures Pieces(w, qs)
    ensures CellAfter(w, qs, grid, i, j) == CellAfter(w, ps, grid, i, j)
    ensures CellAfter(w, ps, grid, i, j) ==
            if w.latMin + i < LAT_CELLS && w.lonMin + j < LON_CELLS then CellOf(grid, w.latMin + i, w.lonMin + j)
            else NaN
  {
    CellAfterIsPlain(w, ps, grid, i, j);
    CellAfterIsPlain(w, qs, grid, i, j);
  }

  /** `window[dst] = arr[src]`: one piece is written, every other cell keeps its value. */
  method WritePiece(w: Window, window: array2<Cell>, p: Placement, chunk: Chunk)
    requires window.Length0 == w.Height() && window.Length1 == w.Width()
    requires NonEmpty(p) && p == PlacementAt(w, p.chunkRow, p.chunkCol)
    modifies window
    ensures forall i, j | w.Has(i, j) ::
              window[i, j] == if Covers(p, i, j) then At(chunk, (w.latMin + i) % CHUNK, (w.lonMin + j) % CHUNK)
                              else old(window[i, j])
  {
    forall i, j | Covers(p, i, j)
      ensures w.Has(i, j) && SourceRow(p, i) == (w.latMin + i) % CHUNK && SourceCol(p, j) == (w.lonMin + j) % CHUNK
    {
      CoveredCell(w, p, i, j);
    }
    forall i, j | p.dstRows.start <= i < p.dstRows.stop && p.dstCols.start <= j < p.dstCols.stop {
      window[i, j] := At(chunk, SourceRow(p, i), SourceCol(p, j));
    }
  }

  // ---------------------------------------------------------------- against plain point reads

  /** Reading one cell without caches; None when its chunk cannot be decoded. */
  type PointReader = (int, int) -> Option<Cell>

  /** A cell of the window below the ends of the axes whose chunk cannot be decoded. */
  predicate Unreadable(w: Window, point: PointReader, i: int, j: int) {
    w.Has(i, j) && w.latMin + i < LAT_CELLS && w.lonMin + j < LON_CELLS && point(w.latMin + i, w.lonMin + j).None?
  }

  /** The cell of the answer is the plain value on the grid and NaN off it. */
  predicate CellOk(point: PointReader, lat: int, lon: int, cell: Cell) {
    if 0 <= lat < LAT_CELLS && 0 <= lon < LON_CELLS then point(lat, lon) == Some(cell) else cell == NaN
  }

  /** Which cell makes the read of a window fail: one of the 721 by 1440 grid whose chunk cannot be decoded. */
  lemma FailingCell(w: Window, point: PointReader, i: int, j: int, value: Option<Cell>)
    requires w.Has(i, j) && value == point(w.latMin + i, w.lonMin + j)
    requires w.latMin + i < 0 || w.lonMin + j < 0 ==> value.Some?
    ensures Unreadable(w, point, i, j) <==> 0 <= w.latMin + i < 721 && 0 <= w.lonMin + j < 1440 && value.None?
  {
  }

  ghost predicate BlankOffGrid(point: PointReader) {
    forall lat, lon | lat < 0 || lon < 0 :: point(lat, lon) == Some(NaN)
  }

  /** The chunk of a piece supplies the plain values of the cells the piece covers. */
  ghost predicate PieceReads(w: Window, point: PointReader, p: Placement, chunk: Option<Chunk>) {
    forall i, j | Covers(p, i, j) ::
      point(w.latMin + i, w.lonMin + j) ==
      if chunk.None? then None else Some(At(chunk.value, (w.latMin + i) % CHUNK, (w.lonMin + j) % CHUNK))
  }

  /** One chunk supplies the plain values of all its points. */
  ghost predicate SuppliedBy(point: PointReader, row: int, col: int, chunk: Option<Chunk>) {
    forall lat, lon | lat / CHUNK == row && lon / CHUNK == col ::
      point(lat, lon) == if chunk.None? then None else Some(At(chunk.value, lat % CHUNK, lon % CHUNK))
  }

  lemma PieceFromChunk(w: Window, point: PointReader, p: Placement, chunk: Option<Chunk>)
    requires NonEmpty(p) && p == PlacementAt(w, p.chunkRow, p.chunkCol)
    requires SuppliedBy(point, p.chunkRow, p.chunkCol, chunk)
    ensures PieceReads(w, point, p, chunk)
  {
    forall i, j | Covers(p, i, j)
      ensures point(w.latMin + i, w.lonMin + j) ==
              if chunk.None? then None else Some(At(chunk.value, (w.latMin + i) % CHUNK, (w.lonMin + j) % CHUNK))
    {
      CoveredCell(w, p, i, j);
    }
  }

  /** After some pieces were written, a cell is the plain value if one of them covers it. */
  ghost predicate WrittenOk(w: Window, point: PointReader, done: seq<Placement>, i: int, j: int, cell: Cell) {
    if exists p :: p in done && Covers(p, i, j) then point(w.latMin + i, w.lonMin + j) == Some(cell)
    else cell == NaN
  }

  lemma WrittenNext(w: Window, point: PointReader, done: seq<Placement>, p: Placement, chunk: Chunk,
                    i: int, j: int, before: Cell, after: Cell)
    requires PieceReads(w, point, p, Some(chunk)) && WrittenOk(w, point, done, i, j, before)
    requires after == if Covers(p, i, j) then At(chunk, (w.latMin + i) % CHUNK, (w.lonMin + j) % CHUNK) else before
    ensures WrittenOk(w, point, done + [p], i, j, after)
  {
    if Covers(p, i, j) { assert p in done + [p]; }
  }

  lemma AllWritten(w: Window, point: PointReader, ps: seq<Placement>, i: int, j: int, cell: Cell)
    requires Tiles(w, ps) && BlankOffGrid(point) && w.Has(i, j) && WrittenOk(w, point, ps, i, j, cell)
    ensures CellOk(point, w.latMin + i, w.lonMin + j, cell) && !Unreadable(w, point, i, j)
  {
  }

  lemma UnreadablePiece(w: Window, point: PointReader, p: Placement)
    requires NonEmpty(p) && p == PlacementAt(w, p.chunkRow, p.chunkCol) && PieceReads(w, point, p, None)
    ensures Unreadable(w, point, p.dstRows.start, p.dstCols.start)
  {
    CoveredCell(w, p, p.dstRows.start, p.dstCols.start);
    assert Covers(p, p.dstRows.start, p.dstCols.start);
  }
}

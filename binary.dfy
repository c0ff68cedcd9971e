/**
 * The binary marcher, `par_msquares_function`: the image is cut into
 * cells of `cellsize` pixels, each cell is classified by its four corner
 * samples, and the case's points and triangles from the binary tables are
 * placed at the cell.  Points on the western and northern edges of a cell
 * are welded to the neighbour's coincident points; with CONNECT every
 * boundary triangle also yields a pair of extrusion triangles over
 * duplicated points; with SIMPLIFY runs of full cells are merged and
 * unreferenced points removed.
 *
 * The reference definitions below describe the result cell by cell in
 * raster order, independently of the row buffers, the weld bookkeeping and
 * the edge map the marcher keeps.
 */
module BinaryMarch {
  import opened Wrappers
  import opened Sequences
  import opened Tables
  import opened Classify
  import opened Geometry
  import opened Meshes
  import opened Simplification
  import opened Compaction

  /** The caller's image: its size in pixels, the cell size and the inside test on pixel indices. */
  datatype Image = Image(width: nat, height: nat, cellsize: nat, inside: int -> bool)

  /**
   * What one march depends on: the decoded tables, the image, whether
   * INVERT and HEIGHTS are set, and the height callback, evaluated at the
   * nominal position of a point.
   */
  datatype Config = Config(tables: TableSet, image: Image, invert: bool, heights: bool, heightAt: Pos -> int)

  predicate ConfigOk(cfg: Config)
  {
    TablesOk(cfg.tables) && DimensionsOk(cfg.image.width, cfg.image.height, cfg.image.cellsize)
  }

  function Cols(cfg: Config): nat
    requires ConfigOk(cfg)
  {
    cfg.image.width / cfg.image.cellsize
  }

  function Rows(cfg: Config): nat
    requires ConfigOk(cfg)
  {
    cfg.image.height / cfg.image.cellsize
  }

  predicate CellIn(cfg: Config, row: nat, col: nat)
  {
    ConfigOk(cfg) && row < Rows(cfg) && col < Cols(cfg)
  }

  /** A corner sample: the inside test, flipped by INVERT. */
  function Sample(cfg: Config, index: int): bool
  {
    cfg.image.inside(index) != cfg.invert
  }

  /**
   * The case of a cell: its corners are sampled on the cell grid lines,
   * the eastmost line pulled back one pixel and the southmost row clamped
   * to the last pixel row.
   */
  function CellCode(cfg: Config, row: nat, col: nat): (code: nat)
    requires CellIn(cfg, row, col)
    ensures code < 16
  {
    var img := cfg.image;
    var north := NorthStart(img.width, img.cellsize, row);
    var south := SouthStart(img.width, img.height, img.cellsize, row);
    var west := ColumnOffset(Cols(cfg), img.cellsize, col);
    var east := ColumnOffset(Cols(cfg), img.cellsize, col + 1);
    BinaryCode(Sample(cfg, south + west), Sample(cfg, south + east), Sample(cfg, north + west), Sample(cfg, north + east))
  }

  /** The triangle slots of a cell's case, three per triangle. */
  function CellSlots(cfg: Config, row: nat, col: nat): seq<int>
    requires CellIn(cfg, row, col)
  {
    cfg.tables.binaryTriangles[CellCode(cfg, row, col)]
  }

  /** The point slots of a cell's case. */
  function CellPoints(cfg: Config, row: nat, col: nat): seq<int>
    requires CellIn(cfg, row, col)
  {
    cfg.tables.binaryPoints[CellCode(cfg, row, col)]
  }

  /** The slots a cell emits a point for, welded or not (`mask`). */
  function Mask(cfg: Config, row: nat, col: nat): set<int>
    requires CellIn(cfg, row, col)
  {
    set s | s in CellPoints(cfg, row, col)
  }

  /** The mask of the western neighbour; none in column 0. */
  function WestMask(cfg: Config, row: nat, col: nat): set<int>
    requires CellIn(cfg, row, col)
  {
    if col == 0 then {} else Mask(cfg, row, col - 1)
  }

  /** The mask of the northern neighbour; none in row 0. */
  function NorthMask(cfg: Config, row: nat, col: nat): set<int>
    requires CellIn(cfg, row, col)
  {
    if row == 0 then {} else Mask(cfg, row - 1, col)
  }

  /** Slot lists whose entries are slots. */
  predicate SlotsOk(l: seq<int>)
  {
    forall j :: 0 <= j < |l| ==> 0 <= l[j] < 8
  }

  /** The point a marcher creates at a nominal position. */
  function MakePoint(cfg: Config, pos: Pos): Point
  {
    Point(pos, if cfg.heights then cfg.heightAt(pos) else 0)
  }

  /** The points created for the first `n` slots of `slots`: one per slot that is not welded. */
  function FreshPoints(cfg: Config, row: nat, col: nat, slots: seq<int>, west: set<int>, north: set<int>, n: nat): seq<Point>
    requires n <= |slots| && SlotsOk(slots)
  {
    if n == 0 then []
    else
      FreshPoints(cfg, row, col, slots, west, north, n - 1) +
      if Welded(slots[n - 1] as nat, west, north) then [] else [MakePoint(cfg, SlotPos(row, col, slots[n - 1] as nat))]
  }

  /** The positions of the corners of the first `n` triangles of `slots`, each triangle reversed. */
  function TrianglePositions(row: nat, col: nat, slots: seq<int>, n: nat): (r: seq<Pos>)
    requires 3 * n <= |slots| && SlotsOk(slots)
    ensures |r| == 3 * n
  {
    if n == 0 then []
    else
      TrianglePositions(row, col, slots, n - 1) +
      [SlotPos(row, col, slots[3 * n - 1] as nat), SlotPos(row, col, slots[3 * n - 2] as nat), SlotPos(row, col, slots[3 * n - 3] as nat)]
  }

  /** Whether a triangle is a boundary triangle: two of its corners are edge midpoints. */
  predicate Boundary(a: int, b: int, c: int)
  {
    (a % 2 == 1 && b % 2 == 1) || (a % 2 == 1 && c % 2 == 1) || (b % 2 == 1 && c % 2 == 1)
  }

  /**
   * The positions of the corners of the extrusion pairs of the first `n`
   * triangles of `slots`: for a boundary triangle with midpoints P and Q
   * the pair covers the segment PQ and its duplicate.
   */
  function ConnectorPositions(row: nat, col: nat, slots: seq<int>, n: nat): seq<Pos>
    requires 3 * n <= |slots| && SlotsOk(slots)
  {
    if n == 0 then []
    else
      var a, b, c := slots[3 * n - 3], slots[3 * n - 2], slots[3 * n - 1];
      var pa, pb, pc := SlotPos(row, col, a as nat), SlotPos(row, col, b as nat), SlotPos(row, col, c as nat);
      ConnectorPositions(row, col, slots, n - 1) + PairPositions(a, b, c, pa, pb, pc)
  }

  /** The corner positions of the extrusion pair of one triangle with corner slots a, b, c at pa, pb, pc. */
  function PairPositions(a: int, b: int, c: int, pa: Pos, pb: Pos, pc: Pos): seq<Pos>
  {
    if a % 2 == 1 && b % 2 == 1 then [pa, pb, pb, pb, pa, pa]
    else if a % 2 == 1 && c % 2 == 1 then [pc, pc, pa, pa, pc, pa]
    else if b % 2 == 1 && c % 2 == 1 then [pb, pc, pc, pc, pb, pb]
    else []
  }

  /** The number of boundary triangles among the first `n` triangles of `slots`. */
  function BoundaryCount(slots: seq<int>, n: nat): nat
    requires 3 * n <= |slots|
  {
    if n == 0 then 0
    else BoundaryCount(slots, n - 1) + if Boundary(slots[3 * n - 3], slots[3 * n - 2], slots[3 * n - 1]) then 1 else 0
  }

  lemma DedupSlots(l: seq<int>)
    requires SlotsOk(l)
    ensures SlotsOk(Dedup(l))
    ensures forall x :: x in Dedup(l) <==> x in l
    ensures forall i, j :: 0 <= i < j < |Dedup(l)| ==> Dedup(l)[i] != Dedup(l)[j]
  {
    DedupProperties(l);
    var d := Dedup(l);
    forall j | 0 <= j < |d| ensures 0 <= d[j] < 8 {
      assert d[j] in d;
      var k :| 0 <= k < |l| && l[k] == d[j];
    }
  }

  /** What the tables guarantee for every cell's case. */
  lemma TablesOkCell(cfg: Config, row: nat, col: nat)
    requires CellIn(cfg, row, col)
    ensures SlotsOk(CellSlots(cfg, row, col)) && |CellSlots(cfg, row, col)| % 3 == 0
    ensures SlotsOk(CellPoints(cfg, row, col))
    ensures forall s :: s in CellSlots(cfg, row, col) ==> s in Mask(cfg, row, col)
    ensures forall i, j :: 0 <= i < j < |CellPoints(cfg, row, col)| ==> CellPoints(cfg, row, col)[i] != CellPoints(cfg, row, col)[j]
  {
    var code := CellCode(cfg, row, col);
    var slots := cfg.tables.binaryTriangles[code];
    assert CellPoints(cfg, row, col) == Dedup(slots);
    assert SlotsOk(slots) by {
      forall j | 0 <= j < |slots| ensures 0 <= slots[j] < 8 {
        assert 0 <= cfg.tables.binaryTriangles[code][j] < 8;
      }
    }
    DedupSlots(slots);
  }

  // ---------------------------------------------------------------------
  // Cell-level results.
  // ---------------------------------------------------------------------

  /** The points a cell creates. */
  function CellFresh(cfg: Config, row: nat, col: nat): seq<Point>
    requires CellIn(cfg, row, col)
  {
    TablesOkCell(cfg, row, col);
    var slots := CellPoints(cfg, row, col);
    FreshPoints(cfg, row, col, slots, WestMask(cfg, row, col), NorthMask(cfg, row, col), |slots|)
  }

  /** The corner positions of a cell's triangles. */
  function CellTrianglePositions(cfg: Config, row: nat, col: nat): seq<Pos>
    requires CellIn(cfg, row, col)
  {
    TablesOkCell(cfg, row, col);
    TrianglePositions(row, col, CellSlots(cfg, row, col), |CellSlots(cfg, row, col)| / 3)
  }

  /** The corner positions of a cell's extrusion triangles. */
  function CellConnectorPositions(cfg: Config, row: nat, col: nat): seq<Pos>
    requires CellIn(cfg, row, col)
  {
    TablesOkCell(cfg, row, col);
    ConnectorPositions(row, col, CellSlots(cfg, row, col), |CellSlots(cfg, row, col)| / 3)
  }

  /** The number of triangles of a cell. */
  function CellCount(cfg: Config, row: nat, col: nat): nat
    requires CellIn(cfg, row, col)
  {
    |CellSlots(cfg, row, col)| / 3
  }

  // ---------------------------------------------------------------------
  // Raster-order results: the cells before a position of the march.
  // ---------------------------------------------------------------------

  /** A position of the march: a row and a column, or just past the last row. */
  predicate Progress(cfg: Config, row: nat, col: nat)
  {
    ConfigOk(cfg) && row <= Rows(cfg) && col <= Cols(cfg) && (row == Rows(cfg) ==> col == 0)
  }

  /** What a march produces: created points, triangle corners, the number of triangles, extrusion corners. */
  datatype Trace = Trace(created: seq<Point>, corners: seq<Pos>, count: nat, extrusion: seq<Pos>)

  function Extend(t: Trace, u: Trace): Trace
  {
    Trace(t.created + u.created, t.corners + u.corners, t.count + u.count, t.extrusion + u.extrusion)
  }

  /** What one cell adds; extrusion triangles only with CONNECT. */
  function CellTrace(cfg: Config, connect: bool, row: nat, col: nat): Trace
    requires CellIn(cfg, row, col)
  {
    Trace(CellFresh(cfg, row, col), CellTrianglePositions(cfg, row, col), CellCount(cfg, row, col),
      if connect then CellConnectorPositions(cfg, row, col) else [])
  }

  /** What the cells before (`row`, `col`) produce, one after the other in raster order. */
  function DoneTrace(cfg: Config, connect: bool, row: nat, col: nat): Trace
    requires Progress(cfg, row, col)
    decreases row, col
  {
    if col > 0 then Extend(DoneTrace(cfg, connect, row, col - 1), CellTrace(cfg, connect, row, col - 1))
    else if row > 0 then DoneTrace(cfg, connect, row - 1, Cols(cfg))
    else Trace([], [], 0, [])
  }

  /** What the whole grid produces. */
  function GridTrace(cfg: Config, connect: bool): Trace
    requires ConfigOk(cfg)
  {
    DoneTrace(cfg, connect, Rows(cfg), 0)
  }

  /**
   * The simplification record of a cell: full when its case is 15, its
   * first triangle (the triangles before it in the march), its triangle count.
   */
  function CellRecord(cfg: Config, connect: bool, row: nat, col: nat): Record
    requires CellIn(cfg, row, col)
  {
    Record(CellCode(cfg, row, col) == 15, DoneTrace(cfg, connect, row, col).count, CellCount(cfg, row, col))
  }

  /** The records of the first `n` cells of a row. */
  function RowRecords(cfg: Config, connect: bool, row: nat, n: nat): seq<Record>
    requires ConfigOk(cfg) && row < Rows(cfg) && n <= Cols(cfg)
  {
    if n == 0 then [] else RowRecords(cfg, connect, row, n - 1) + [CellRecord(cfg, connect, row, n - 1)]
  }

  /** The records of the first `n` rows (`simplification_codes`, `_tris`, `_ntris`). */
  function RecordGrid(cfg: Config, connect: bool, n: nat): seq<seq<Record>>
    requires ConfigOk(cfg) && n <= Rows(cfg)
  {
    if n == 0 then [] else RecordGrid(cfg, connect, n - 1) + [RowRecords(cfg, connect, n - 1, Cols(cfg))]
  }

  /** The corners of a full cell's two triangles as the march emits them: NE, SE, SW and SW, NW, NE. */
  function FullSquare(row: nat, col: nat): seq<Pos>
  {
    [SlotPos(row, col, 4), SlotPos(row, col, 2), SlotPos(row, col, 0), SlotPos(row, col, 0), SlotPos(row, col, 6), SlotPos(row, col, 4)]
  }

  /** A full cell's triangles are its square, two triangles corner to corner. */
  lemma FullCellCorners(cfg: Config, row: nat, col: nat)
    requires CellIn(cfg, row, col) && CellCode(cfg, row, col) == 15
    ensures CellCount(cfg, row, col) == 2 && CellTrianglePositions(cfg, row, col) == FullSquare(row, col)
  {
    var slots := CellSlots(cfg, row, col);
    assert slots == [0, 2, 4, 4, 6, 0];
    assert TrianglePositions(row, col, slots, 1) == [SlotPos(row, col, 4), SlotPos(row, col, 2), SlotPos(row, col, 0)];
  }

  /**
   * The record of cell (`row`, `col`) addresses whole triangles among the
   * emitted `corners`, and when the cell is full its two triangles are
   * there, with the square's corners.
   */
  predicate RecordFits(rec: Record, row: nat, col: nat, corners: seq<Pos>)
  {
    (rec.first + rec.count) * 3 <= |corners| &&
    (rec.block ==> rec.count == 2 && corners[3 * rec.first..3 * rec.first + 6] == FullSquare(row, col))
  }

  /** Every record of a row fits the emitted corners. */
  predicate RowFits(records: seq<Record>, row: nat, corners: seq<Pos>)
  {
    forall c :: 0 <= c < |records| ==> RecordFits(records[c], row, c, corners)
  }

  /** Every record of a grid of `ncols` columns fits the emitted corners. */
  predicate GridFits(g: seq<seq<Record>>, ncols: nat, corners: seq<Pos>)
  {
    GridOk(g, ncols) && forall r, c :: 0 <= r < |g| && 0 <= c < ncols ==> RecordFits(g[r][c], r, c, corners)
  }

  lemma RowFitsGrow(records: seq<Record>, row: nat, corners: seq<Pos>, more: seq<Pos>)
    requires RowFits(records, row, corners)
    ensures RowFits(records, row, corners + more)
  {
    forall c | 0 <= c < |records| ensures RecordFits(records[c], row, c, corners + more) {
      var f := 3 * records[c].first;
      if records[c].block {
        assert (corners + more)[f..f + 6] == corners[f..f + 6];
      }
    }
  }

  /** The record of one more cell, placed after the triangles already emitted. */
  lemma RowFitsStep(records: seq<Record>, row: nat, corners: seq<Pos>, cell: seq<Pos>, rec: Record)
    requires RowFits(records, row, corners)
    requires rec.first * 3 == |corners| && rec.count * 3 == |cell|
    requires rec.block ==> rec.count == 2 && cell == FullSquare(row, |records|)
    ensures RowFits(records + [rec], row, corners + cell)
    ensures RowCount(records + [rec], |records| + 1) == RowCount(records, |records|) + rec.count
  {
    var all := corners + cell;
    RowFitsGrow(records, row, corners, cell);
    forall c | 0 <= c < |records| + 1 ensures RecordFits((records + [rec])[c], row, c, all) {
      if c == |records| {
        if rec.block {
          assert all[3 * rec.first..3 * rec.first + 6] == cell;
        }
      } else {
        assert (records + [rec])[c] == records[c];
      }
    }
    RowCountPrefix(records, [rec], |records|);
  }

  /**
   * With SIMPLIFY, the records of the first `col` cells of a row: one per
   * cell, each fitting the `corners` emitted so far, and together counting
   * the triangles emitted since the row started at `rowstart` corners.
   */
  predicate RowRecordsOk(cfg: Config, connect: bool, row: nat, col: nat, records: seq<Record>, rowstart: nat, corners: seq<Pos>)
    requires ConfigOk(cfg) && row < Rows(cfg) && col <= Cols(cfg)
  {
    records == RowRecords(cfg, connect, row, col) && |records| == col && RowFits(records, row, corners) &&
    rowstart + 3 * RowCount(records, col) == |corners|
  }

  /** With SIMPLIFY, the records of the first `row` rows, fitting the `corners` emitted so far and counting them all. */
  predicate GridRecordsOk(cfg: Config, connect: bool, row: nat, grid: seq<seq<Record>>, corners: seq<Pos>)
    requires ConfigOk(cfg) && row <= Rows(cfg)
  {
    grid == RecordGrid(cfg, connect, row) && |grid| == row && GridFits(grid, Cols(cfg), corners) &&
    3 * GridCount(grid, row) == |corners|
  }

  /** With SIMPLIFY, the records of a finished row join those of the rows before it. */
  lemma GridRecordsStep(cfg: Config, connect: bool, row: nat, grid: seq<seq<Record>>, before: seq<Pos>, records: seq<Record>,
                        after: seq<Pos>)
    requires ConfigOk(cfg) && row < Rows(cfg) && GridRecordsOk(cfg, connect, row, grid, before) && before <= after
    requires RowRecordsOk(cfg, connect, row, Cols(cfg), records, |before|, after)
    ensures GridRecordsOk(cfg, connect, row + 1, grid + [records], after)
  {
    assert before + after[|before|..] == after;
    GridFitsStep(grid, Cols(cfg), before, records, after[|before|..]);
  }

  /** A finished row joins the grid. */
  lemma GridFitsStep(g: seq<seq<Record>>, ncols: nat, corners: seq<Pos>, records: seq<Record>, more: seq<Pos>)
    requires GridFits(g, ncols, corners) && |records| == ncols && RowFits(records, |g|, corners + more)
    ensures GridFits(g + [records], ncols, corners + more)
    ensures GridCount(g + [records], |g| + 1) == GridCount(g, |g|) + RowCount(records, ncols)
  {
    var g', all := g + [records], corners + more;
    assert GridOk(g', ncols) by {
      forall r | 0 <= r < |g'| ensures |g'[r]| == ncols {
        if r < |g| {
          assert g'[r] == g[r];
        }
      }
    }
    forall r, c | 0 <= r < |g'| && 0 <= c < ncols ensures RecordFits(g'[r][c], r, c, all) {
      if r < |g| {
        assert g'[r] == g[r];
        assert RowFits(g[r], r, corners) && RecordFits(g[r][c], r, c, corners);
        RowFitsGrow(g[r], r, corners, more);
      } else {
        assert g'[r] == records;
      }
    }
    GridCountPrefix(g, [records], |g|);
    assert g'[|g|] == records;
  }

  // ---------------------------------------------------------------------
  // Index lists and their positions.
  // ---------------------------------------------------------------------

  /** The positions of the points an index list refers to. */
  function Positions(points: seq<Point>, s: seq<nat>): (r: seq<Pos>)
    requires IndicesIn(s, |points|)
    ensures |r| == |s|
  {
    seq(|s|, j requires 0 <= j < |s| => points[s[j]].pos)
  }

  lemma PositionsAppend(points: seq<Point>, s: seq<nat>, d: seq<nat>)
    requires IndicesIn(s, |points|) && IndicesIn(d, |points|)
    ensures IndicesIn(s + d, |points|)
    ensures Positions(points, s + d) == Positions(points, s) + Positions(points, d)
  {
  }

  lemma PositionsExtend(points: seq<Point>, more: seq<Point>, s: seq<nat>)
    requires IndicesIn(s, |points|)
    ensures IndicesIn(s, |points + more|)
    ensures Positions(points + more, s) == Positions(points, s)
  {
  }

  /** Every point is the one the marcher creates at its position (copies included). */
  predicate PointsOk(cfg: Config, points: seq<Point>)
  {
    forall i :: 0 <= i < |points| ==> points[i] == MakePoint(cfg, points[i].pos)
  }

  /**
   * The edge map (`edgemap`): it maps original points to their duplicates,
   * an original has at most one duplicate and no two originals share one,
   * a duplicate is an exact copy, and every point that is not an original
   * is a duplicate.
   */
  predicate EdgeMapOk(points: seq<Point>, edge: map<nat, nat>, originals: set<nat>)
  {
    (forall i :: i in originals ==> i < |points|) &&
    (forall x :: x in edge ==> x in originals && edge[x] < |points| && edge[x] !in originals && points[edge[x]] == points[x]) &&
    (forall x, y :: x in edge && y in edge && x != y ==> edge[x] != edge[y]) &&
    (forall i :: 0 <= i < |points| && i !in originals ==> i in edge.Values)
  }

  /** The fourth and fifth corners of the extrusion pairs: the points a CONNECT merge lowers. */
  function Extruded(conn: seq<nat>): set<nat>
  {
    set j | 0 <= j < |conn| && (j % 6 == 3 || j % 6 == 4) :: conn[j]
  }

  /** The extrusion pairs mark exactly the points among the first `n` that are not originals: the duplicates. */
  predicate PairsMarkCopies(conn: seq<nat>, n: nat, originals: set<nat>)
  {
    |conn| % 6 == 0 && forall i :: 0 <= i < n ==> (i in Extruded(conn) <==> i !in originals)
  }

  /** Keeping some of the points keeps them points the marcher creates. */
  lemma {:induction false} KeptPointsOk(cfg: Config, points: seq<Point>, used: set<nat>, n: nat)
    requires n <= |points| && PointsOk(cfg, points)
    ensures PointsOk(cfg, Kept(points, used, n))
  {
    if n > 0 {
      KeptPointsOk(cfg, points, used, n - 1);
    }
  }

  /** Keeping the originals among appended points keeps the appended originals. */
  lemma {:induction false} KeptFrame(points: seq<Point>, more: seq<Point>, used: set<nat>, used2: set<nat>, n: nat)
    requires n <= |points|
    requires forall i :: 0 <= i < n ==> (i in used <==> i in used2)
    ensures Kept(points + more, used2, n) == Kept(points, used, n)
  {
    if n > 0 {
      KeptFrame(points, more, used, used2, n - 1);
    }
  }

  // ---------------------------------------------------------------------
  // One cell of the march.
  // ---------------------------------------------------------------------

  /** Every index of `s` is an original point: main triangles never use extrusion copies. */
  predicate OnOriginals(s: seq<nat>, originals: set<nat>)
  {
    forall k :: 0 <= k < |s| ==> s[k] in originals
  }

  /** The indices `inds` gives the slots of `mask` are original points at the slots' positions in cell (`row`, `col`). */
  predicate SlotIndicesOk(points: seq<Point>, originals: set<nat>, inds: seq<nat>, mask: set<int>, row: int, col: int, k: nat)
    requires k <= 8
  {
    |inds| >= k && forall s :: 0 <= s < k && s in mask ==>
      inds[s] in originals && inds[s] < |points| && points[inds[s]].pos == SlotPos(row, col, s)
  }

  /**
   * One step of the point loop: the slot is welded to the coincident point
   * of the western neighbour, then of the northern one, tested in the
   * source's order, or becomes a new point.
   */
  method PlaceSlot(cfg: Config, row: nat, col: nat, s: int, west: set<int>, north: set<int>, previnds: seq<nat>, prevrowinds: seq<nat>,
                   points: seq<Point>, ghost originals: set<nat>, ghost mask: set<int>, currinds: seq<nat>)
      returns (newpoints: seq<Point>, ghost neworiginals: set<nat>, newinds: seq<nat>)
    requires 0 <= s < 8 && s !in mask
    requires |previnds| == 8 && SlotIndicesOk(points, originals, previnds, west, row, col - 1, 8)
    requires |prevrowinds| == 3 && SlotIndicesOk(points, originals, prevrowinds, north, row - 1, col, 3)
    requires |currinds| == 8 && SlotIndicesOk(points, originals, currinds, mask, row, col, 8)
    requires PointsOk(cfg, points)
    ensures newpoints == points + if Welded(s, west, north) then [] else [MakePoint(cfg, SlotPos(row, col, s))]
    ensures PointsOk(cfg, newpoints)
    ensures forall i :: i in neworiginals <==> i in originals || |points| <= i < |newpoints|
    ensures |newinds| == 8 && SlotIndicesOk(newpoints, neworiginals, newinds, mask + {s}, row, col, 8)
    ensures SlotIndicesOk(newpoints, neworiginals, previnds, west, row, col - 1, 8)
    ensures SlotIndicesOk(newpoints, neworiginals, prevrowinds, north, row - 1, col, 3)
    ensures WestPartner(s).Some? && WestPartner(s).value in west ==> newinds[s] == previnds[WestPartner(s).value]
    ensures (!(WestPartner(s).Some? && WestPartner(s).value in west) &&
             NorthPartner(s).Some? && NorthPartner(s).value in north) ==>
      newinds[s] == prevrowinds[NorthPartner(s).value]
    ensures !Welded(s, west, north) ==> newinds[s] == |points|
  {
    newpoints, neworiginals := points, originals;
    if s == 0 && 2 in west {
      newinds := currinds[s := previnds[2]];
    } else if s == 7 && 3 in west {
      newinds := currinds[s := previnds[3]];
    } else if s == 6 && 4 in west {
      newinds := currinds[s := previnds[4]];
    } else if s == 4 && 2 in north {
      newinds := currinds[s := prevrowinds[2]];
    } else if s == 5 && 1 in north {
      newinds := currinds[s := prevrowinds[1]];
    } else if s == 6 && 0 in north {
      newinds := currinds[s := prevrowinds[0]];
    } else {
      var n := |points|;
      newpoints := points + [MakePoint(cfg, SlotPos(row, col, s))];
      neworiginals := originals + {n};
      newinds := currinds[s := n];
      SlotIndicesGrow(points, newpoints, originals, neworiginals, previnds, west, row, col - 1, 8);
      SlotIndicesGrow(points, newpoints, originals, neworiginals, prevrowinds, north, row - 1, col, 3);
      SlotIndicesGrow(points, newpoints, originals, neworiginals, currinds, mask, row, col, 8);
    }
    SlotIndicesSet(newpoints, neworiginals, currinds, newinds, mask, row, col, s);
  }

  /** Appending points and originals keeps the index facts. */
  lemma SlotIndicesGrow(points: seq<Point>, points2: seq<Point>, originals: set<nat>, originals2: set<nat>,
                        inds: seq<nat>, mask: set<int>, row: int, col: int, k: nat)
    requires k <= 8 && SlotIndicesOk(points, originals, inds, mask, row, col, k)
    requires |points| <= |points2| && points2[..|points|] == points && originals <= originals2
    ensures SlotIndicesOk(points2, originals2, inds, mask, row, col, k)
  {
    forall s | 0 <= s < k && s in mask
      ensures inds[s] in originals2 && inds[s] < |points2| && points2[inds[s]].pos == SlotPos(row, col, s)
    {
      assert points2[inds[s]] == points2[..|points|][inds[s]];
    }
  }

  /** Setting the index of one more slot. */
  lemma SlotIndicesSet(points: seq<Point>, originals: set<nat>, inds: seq<nat>, newinds: seq<nat>, mask: set<int>, row: int, col: int, s: int)
    requires 0 <= s < 8 && SlotIndicesOk(points, originals, inds, mask, row, col, 8)
    requires |newinds| == |inds| && forall t :: 0 <= t < |inds| && t != s ==> newinds[t] == inds[t]
    requires newinds[s] in originals && newinds[s] < |points| && points[newinds[s]].pos == SlotPos(row, col, s)
    ensures SlotIndicesOk(points, originals, newinds, mask + {s}, row, col, 8)
  {
  }

  /** The point loop over a list of distinct slots. */
  method PlaceSlots(cfg: Config, row: nat, col: nat, slots: seq<int>, points: seq<Point>, ghost originals: set<nat>,
                    prevmask: set<int>, previnds: seq<nat>, prevrowmask: set<int>, prevrowinds: seq<nat>)
      returns (newpoints: seq<Point>, ghost neworiginals: set<nat>, mask: set<int>, currinds: seq<nat>)
    requires SlotsOk(slots) && forall i, j :: 0 <= i < j < |slots| ==> slots[i] != slots[j]
    requires |previnds| == 8 && SlotIndicesOk(points, originals, previnds, prevmask, row, col - 1, 8)
    requires |prevrowinds| == 3 && SlotIndicesOk(points, originals, prevrowinds, prevrowmask, row - 1, col, 3)
    requires PointsOk(cfg, points)
    ensures mask == set s | s in slots
    ensures newpoints == points + FreshPoints(cfg, row, col, slots, prevmask, prevrowmask, |slots|) && PointsOk(cfg, newpoints)
    ensures forall i :: i in neworiginals <==> i in originals || |points| <= i < |newpoints|
    ensures |currinds| == 8 && SlotIndicesOk(newpoints, neworiginals, currinds, mask, row, col, 8)
  {
    newpoints, neworiginals, mask, currinds := points, originals, {}, [0, 0, 0, 0, 0, 0, 0, 0];
    for j := 0 to |slots|
      invariant newpoints == points + FreshPoints(cfg, row, col, slots, prevmask, prevrowmask, j) && PointsOk(cfg, newpoints)
      invariant forall i :: i in neworiginals <==> i in originals || |points| <= i < |newpoints|
      invariant mask == set s | s in slots[..j]
      invariant |currinds| == 8 && SlotIndicesOk(newpoints, neworiginals, currinds, mask, row, col, 8)
      invariant SlotIndicesOk(newpoints, neworiginals, previnds, prevmask, row, col - 1, 8)
      invariant SlotIndicesOk(newpoints, neworiginals, prevrowinds, prevrowmask, row - 1, col, 3)
    {
      newpoints, neworiginals, mask, currinds :=
        PlaceSlotsStep(cfg, row, col, slots, j, points, originals, prevmask, previnds, prevrowmask, prevrowinds,
                       newpoints, neworiginals, mask, currinds);
      assert slots[..j + 1] == slots[..j] + [slots[j]];
    }
    assert slots[..|slots|] == slots;
  }

  /** One iteration of the point loop. */
  method PlaceSlotsStep(cfg: Config, row: nat, col: nat, slots: seq<int>, j: nat, ghost points: seq<Point>, ghost originals: set<nat>,
                        prevmask: set<int>, previnds: seq<nat>, prevrowmask: set<int>, prevrowinds: seq<nat>,
                        points2: seq<Point>, ghost originals2: set<nat>, mask2: set<int>, inds2: seq<nat>)
      returns (points3: seq<Point>, ghost originals3: set<nat>, mask3: set<int>, inds3: seq<nat>)
    requires SlotsOk(slots) && forall i, k :: 0 <= i < k < |slots| ==> slots[i] != slots[k]
    requires j < |slots| && |previnds| == 8 && |prevrowinds| == 3
    requires points2 == points + FreshPoints(cfg, row, col, slots, prevmask, prevrowmask, j) && PointsOk(cfg, points2)
    requires forall i :: i in originals2 <==> i in originals || |points| <= i < |points2|
    requires mask2 == set s | s in slots[..j]
    requires |inds2| == 8 && SlotIndicesOk(points2, originals2, inds2, mask2, row, col, 8)
    requires SlotIndicesOk(points2, originals2, previnds, prevmask, row, col - 1, 8)
    requires SlotIndicesOk(points2, originals2, prevrowinds, prevrowmask, row - 1, col, 3)
    ensures points3 == points + FreshPoints(cfg, row, col, slots, prevmask, prevrowmask, j + 1) && PointsOk(cfg, points3)
    ensures forall i :: i in originals3 <==> i in originals || |points| <= i < |points3|
    ensures mask3 == mask2 + {slots[j]}
    ensures |inds3| == 8 && SlotIndicesOk(points3, originals3, inds3, mask3, row, col, 8)
    ensures SlotIndicesOk(points3, originals3, previnds, prevmask, row, col - 1, 8)
    ensures SlotIndicesOk(points3, originals3, prevrowinds, prevrowmask, row - 1, col, 3)
  {
    assert slots[..j + 1] == slots[..j] + [slots[j]];
    var midp := slots[j];
    points3, originals3, inds3 :=
      PlaceSlot(cfg, row, col, midp, prevmask, prevrowmask, previnds, prevrowinds, points2, originals2, mask2, inds2);
    mask3 := mask2 + {midp};
  }

  /** The corner positions of one triangle, reversed. */
  lemma PositionsOfTriangle(points: seq<Point>, i: nat, j: nat, k: nat)
    requires i < |points| && j < |points| && k < |points|
    ensures IndicesIn([k, j, i], |points|) && Positions(points, [k, j, i]) == [points[k].pos, points[j].pos, points[i].pos]
  {
  }

  /** The triangle loop over a slot list: each table triangle (a, b, c) is emitted as (c, b, a). */
  method EmitSlots(row: nat, col: nat, slots: seq<int>, mask: set<int>, points: seq<Point>, ghost originals: set<nat>, currinds: seq<nat>)
      returns (out: seq<nat>)
    requires SlotsOk(slots) && |slots| % 3 == 0 && forall s :: s in slots ==> s in mask
    requires |currinds| == 8 && SlotIndicesOk(points, originals, currinds, mask, row, col, 8)
    ensures IndicesIn(out, |points|) && Positions(points, out) == TrianglePositions(row, col, slots, |slots| / 3)
    ensures |out| == |slots| && OnOriginals(out, originals)
  {
    out := [];
    for q := 0 to |slots| / 3
      invariant |out| == 3 * q && OnOriginals(out, originals)
      invariant IndicesIn(out, |points|) && Positions(points, out) == TrianglePositions(row, col, slots, q)
    {
      var a, b, c := slots[3 * q], slots[3 * q + 1], slots[3 * q + 2];
      EmitTriangle(row, col, slots, mask, points, originals, currinds, q, out);
      EmitOnOriginals(slots, mask, points, originals, currinds, q, out, row, col);
      out := out + [currinds[c], currinds[b], currinds[a]];
    }
  }

  /** One iteration of the triangle loop: triangle `q` of the slot list, reversed, through the slots' point indices. */
  lemma EmitTriangle(row: nat, col: nat, slots: seq<int>, mask: set<int>, points: seq<Point>, originals: set<nat>,
                     currinds: seq<nat>, q: nat, out: seq<nat>)
    requires SlotsOk(slots) && 3 * q + 3 <= |slots| && forall s :: s in slots ==> s in mask
    requires |currinds| == 8 && SlotIndicesOk(points, originals, currinds, mask, row, col, 8)
    requires IndicesIn(out, |points|) && Positions(points, out) == TrianglePositions(row, col, slots, q)
    ensures var a, b, c := slots[3 * q], slots[3 * q + 1], slots[3 * q + 2];
      var tri := [currinds[c], currinds[b], currinds[a]];
      IndicesIn(out + tri, |points|) && Positions(points, out + tri) == TrianglePositions(row, col, slots, q + 1)
  {
    var a, b, c := slots[3 * q], slots[3 * q + 1], slots[3 * q + 2];
    assert a in slots && b in slots && c in slots;
    var tri := [currinds[c], currinds[b], currinds[a]];
    PositionsOfTriangle(points, currinds[a], currinds[b], currinds[c]);
    PositionsAppend(points, out, tri);
  }

  /** The triangle loop only emits indices of original points. */
  lemma EmitOnOriginals(slots: seq<int>, mask: set<int>, points: seq<Point>, originals: set<nat>,
                        currinds: seq<nat>, q: nat, out: seq<nat>, row: nat, col: nat)
    requires SlotsOk(slots) && 3 * q + 3 <= |slots| && forall s :: s in slots ==> s in mask
    requires |currinds| == 8 && SlotIndicesOk(points, originals, currinds, mask, row, col, 8)
    requires OnOriginals(out, originals)
    ensures OnOriginals(out + [currinds[slots[3 * q + 2]], currinds[slots[3 * q + 1]], currinds[slots[3 * q]]], originals)
  {
    assert slots[3 * q] in slots && slots[3 * q + 1] in slots && slots[3 * q + 2] in slots;
  }

  function Both(x: nat, y: nat): set<nat>
  {
    {x, y}
  }

  /** Appending a pair marks its fourth and fifth corners. */
  lemma PairsMarkSnoc(conn: seq<nat>, pair: seq<nat>, n: nat, n2: nat, originals: set<nat>)
    requires PairsMarkCopies(conn, n, originals) && IndicesIn(conn, n) && n <= n2 && |pair| == 6
    requires forall i :: n <= i < n2 ==> i in Both(pair[3], pair[4])
    requires pair[3] < n2 && pair[3] !in originals && pair[4] < n2 && pair[4] !in originals
    ensures PairsMarkCopies(conn + pair, n2, originals)
  {
    var k := |conn| / 6;
    assert |conn| == 6 * k;
    var c := conn + pair;
    forall j | 0 <= j < |c| && (j % 6 == 3 || j % 6 == 4)
      ensures c[j] in Extruded(conn) + {pair[3], pair[4]}
    {
      if j >= |conn| {
        assert j - 6 * k == j % 6;
      }
    }
    forall y | y in Extruded(conn) ensures y in Extruded(c) {
      var j :| 0 <= j < |conn| && (j % 6 == 3 || j % 6 == 4) && conn[j] == y;
      assert c[j] == y;
    }
    assert (6 * k + 3) % 6 == 3 && (6 * k + 4) % 6 == 4;
    assert c[6 * k + 3] == pair[3] && c[6 * k + 4] == pair[4];
    assert pair[3] in Extruded(c) && pair[4] in Extruded(c);
    forall i | 0 <= i < n2 ensures i in Extruded(c) <==> i !in originals {
      if i >= n {
        assert i in Both(pair[3], pair[4]);
      }
    }
  }

  /** Gives point `i` a duplicate unless it has one already (the `edgemap[i] == 0xffff` test). */
  method Duplicate(cfg: Config, points: seq<Point>, edge: map<nat, nat>, ghost originals: set<nat>, i: nat)
      returns (newpoints: seq<Point>, newedge: map<nat, nat>)
    requires EdgeMapOk(points, edge, originals) && PointsOk(cfg, points) && i in originals
    ensures |newpoints| >= |points| && newpoints[..|points|] == points
    ensures EdgeMapOk(newpoints, newedge, originals) && PointsOk(cfg, newpoints) && i in newedge
    ensures forall x :: x in edge ==> x in newedge && newedge[x] == edge[x]
    ensures |newpoints| <= |points| + 1 && (|newpoints| > |points| ==> newedge[i] == |points|)
  {
    newpoints, newedge := points, edge;
    if i !in edge {
      newpoints := points + [points[i]];
      newedge := edge[i := |points|];
      DuplicateOk(cfg, points, edge, originals, i);
    }
  }

  /** Appending a copy of original `i` and recording it keeps the edge map and the points well formed. */
  lemma DuplicateOk(cfg: Config, points: seq<Point>, edge: map<nat, nat>, originals: set<nat>, i: nat)
    requires EdgeMapOk(points, edge, originals) && PointsOk(cfg, points) && i in originals && i !in edge
    ensures EdgeMapOk(points + [points[i]], edge[i := |points|], originals)
    ensures PointsOk(cfg, points + [points[i]]) && (points + [points[i]])[..|points|] == points
  {
    var n := |points|;
    var newpoints, newedge := points + [points[i]], edge[i := n];
    assert newpoints[..n] == points;
    assert forall x :: x in newedge ==> x in originals && newedge[x] < |newpoints| && newedge[x] !in originals && newpoints[newedge[x]] == newpoints[x] by {
      forall x | x in newedge
        ensures x in originals && newedge[x] < |newpoints| && newedge[x] !in originals && newpoints[newedge[x]] == newpoints[x]
      {
        if x != i {
          assert newpoints[edge[x]] == points[edge[x]] && newpoints[x] == points[x];
        }
      }
    }
    forall x, y | x in newedge && y in newedge && x != y ensures newedge[x] != newedge[y] {
      if x != i && y != i {
        assert edge[x] != edge[y];
      }
    }
    forall j | 0 <= j < |newpoints| && j !in originals ensures j in newedge.Values {
      if j < n {
        var x :| x in edge && edge[x] == j;
        assert newedge[x] == j;
      } else {
        assert newedge[i] == j;
      }
    }
    assert PointsOk(cfg, newpoints) by {
      forall k | 0 <= k < |newpoints| ensures newpoints[k] == MakePoint(cfg, newpoints[k].pos) {
        if k < n {
          assert newpoints[k] == points[k];
        }
      }
    }
  }

  /** What the edge map says about one original with a duplicate. */
  lemma EdgeMapAt(points: seq<Point>, edge: map<nat, nat>, originals: set<nat>, x: nat)
    requires EdgeMapOk(points, edge, originals) && x in edge
    ensures x < |points| && edge[x] < |points| && points[edge[x]] == points[x] && edge[x] !in originals
  {
  }

  /**
   * The corners of the extrusion pair of a boundary triangle with corners
   * i, j, k (slots a, b, c), given the duplicates du and dv of its two
   * midpoints in corner order.
   */
  function PairIndices(a: int, b: int, c: int, i: nat, j: nat, k: nat, du: nat, dv: nat): seq<nat>
  {
    if a % 2 == 1 && b % 2 == 1 then [i, j, dv, dv, du, i]
    else if a % 2 == 1 && c % 2 == 1 then [dv, k, i, du, dv, i]
    else [j, k, dv, dv, du, j]
  }

  /** The two midpoints of a boundary triangle, in corner order. */
  function Midpoints(a: int, b: int, c: int, i: nat, j: nat, k: nat): (nat, nat)
  {
    if a % 2 == 1 && b % 2 == 1 then (i, j)
    else if a % 2 == 1 && c % 2 == 1 then (i, k)
    else (j, k)
  }

  /** The pair covers the segment between the midpoints and its duplicate, and its fourth and fifth corners are duplicates. */
  lemma PairIndicesOk(points: seq<Point>, a: int, b: int, c: int, i: nat, j: nat, k: nat, du: nat, dv: nat)
    requires Boundary(a, b, c) && i < |points| && j < |points| && k < |points| && du < |points| && dv < |points|
    requires points[du].pos == points[Midpoints(a, b, c, i, j, k).0].pos
    requires points[dv].pos == points[Midpoints(a, b, c, i, j, k).1].pos
    ensures |PairIndices(a, b, c, i, j, k, du, dv)| == 6 && IndicesIn(PairIndices(a, b, c, i, j, k, du, dv), |points|)
    ensures Positions(points, PairIndices(a, b, c, i, j, k, du, dv)) == PairPositions(a, b, c, points[i].pos, points[j].pos, points[k].pos)
    ensures Both(PairIndices(a, b, c, i, j, k, du, dv)[3], PairIndices(a, b, c, i, j, k, du, dv)[4]) == Both(du, dv)
  {
  }

  /**
   * The extrusion step of one triangle with corner slots a, b, c at points
   * i, j, k: for a boundary triangle both midpoints get a duplicate (unless
   * they have one) and a pair of triangles over the midpoints and their
   * duplicates is appended.
   */
  method ConnectTriangle(cfg: Config, a: int, b: int, c: int, i: nat, j: nat, k: nat, points: seq<Point>, conn: seq<nat>,
                         edge: map<nat, nat>, ghost originals: set<nat>)
      returns (newpoints: seq<Point>, newconn: seq<nat>, newedge: map<nat, nat>)
    requires i in originals && j in originals && k in originals
    requires EdgeMapOk(points, edge, originals) && PointsOk(cfg, points)
    requires IndicesIn(conn, |points|) && PairsMarkCopies(conn, |points|, originals)
    ensures |newpoints| >= |points| && newpoints[..|points|] == points
    ensures EdgeMapOk(newpoints, newedge, originals) && PointsOk(cfg, newpoints)
    ensures forall x :: x in edge ==> x in newedge && newedge[x] == edge[x]
    ensures IndicesIn(newconn, |newpoints|) && PairsMarkCopies(newconn, |newpoints|, originals)
    ensures Positions(newpoints, newconn) ==
      Positions(points, conn) + PairPositions(a, b, c, points[i].pos, points[j].pos, points[k].pos)
  {
    newpoints, newconn, newedge := points, conn, edge;
    if !Boundary(a, b, c) {
      return;
    }
    var (u, v) := Midpoints(a, b, c, i, j, k);
    newpoints, newedge := DuplicateBoth(cfg, points, edge, originals, u, v);
    EdgeMapAt(newpoints, newedge, originals, u);
    EdgeMapAt(newpoints, newedge, originals, v);
    var pair := PairIndices(a, b, c, i, j, k, newedge[u], newedge[v]);
    AppendPair(cfg, points, newpoints, conn, originals, a, b, c, i, j, k, newedge[u], newedge[v]);
    newconn := conn + pair;
  }

  /** Appending the pair to the connector list, after the duplicates were made. */
  lemma AppendPair(cfg: Config, points: seq<Point>, newpoints: seq<Point>, conn: seq<nat>, originals: set<nat>,
                   a: int, b: int, c: int, i: nat, j: nat, k: nat, du: nat, dv: nat)
    requires Boundary(a, b, c) && i < |points| && j < |points| && k < |points|
    requires |points| <= |newpoints| && newpoints[..|points|] == points
    requires IndicesIn(conn, |points|) && PairsMarkCopies(conn, |points|, originals)
    requires du < |newpoints| && du !in originals && dv < |newpoints| && dv !in originals
    requires newpoints[du] == newpoints[Midpoints(a, b, c, i, j, k).0] && newpoints[dv] == newpoints[Midpoints(a, b, c, i, j, k).1]
    requires forall n :: |points| <= n < |newpoints| ==> n in Both(du, dv)
    ensures IndicesIn(conn + PairIndices(a, b, c, i, j, k, du, dv), |newpoints|)
    ensures PairsMarkCopies(conn + PairIndices(a, b, c, i, j, k, du, dv), |newpoints|, originals)
    ensures Positions(newpoints, conn + PairIndices(a, b, c, i, j, k, du, dv)) ==
      Positions(points, conn) + PairPositions(a, b, c, points[i].pos, points[j].pos, points[k].pos)
  {
    var pair := PairIndices(a, b, c, i, j, k, du, dv);
    assert newpoints[i] == points[i] && newpoints[j] == points[j] && newpoints[k] == points[k];
    PairIndicesOk(newpoints, a, b, c, i, j, k, du, dv);
    PositionsExtend(points, newpoints[|points|..], conn);
    assert points + newpoints[|points|..] == newpoints;
    PositionsAppend(newpoints, conn, pair);
    PairsMarkSnoc(conn, pair, |points|, |newpoints|, originals);
  }

  /** Gives both midpoints a duplicate, in order. */
  method DuplicateBoth(cfg: Config, points: seq<Point>, edge: map<nat, nat>, ghost originals: set<nat>, u: nat, v: nat)
      returns (newpoints: seq<Point>, newedge: map<nat, nat>)
    requires EdgeMapOk(points, edge, originals) && PointsOk(cfg, points) && u in originals && v in originals
    ensures |newpoints| >= |points| && newpoints[..|points|] == points
    ensures EdgeMapOk(newpoints, newedge, originals) && PointsOk(cfg, newpoints) && u in newedge && v in newedge
    ensures forall x :: x in edge ==> x in newedge && newedge[x] == edge[x]
    ensures forall n :: |points| <= n < |newpoints| ==> n in Both(newedge[u], newedge[v])
  {
    newpoints, newedge := Duplicate(cfg, points, edge, originals, u);
    var middle, middleEdge := newpoints, newedge;
    newpoints, newedge := Duplicate(cfg, newpoints, newedge, originals, v);
    PrefixTrans(points, middle, newpoints);
    assert newedge[u] == middleEdge[u];
    forall n | |points| <= n < |newpoints|
      ensures n in Both(newedge[u], newedge[v])
    {
      if n < |middle| {
        assert n == |points| && middleEdge[u] == n;
      } else {
        assert n == |middle| && newedge[v] == n;
      }
    }
  }

  lemma ConcatAssoc<T>(x: seq<T>, y: seq<T>, z: seq<T>)
    ensures x + (y + z) == (x + y) + z
  {
  }

  lemma ConnectorPositionsStep(row: nat, col: nat, slots: seq<int>, q: nat)
    requires 3 * q + 3 <= |slots| && SlotsOk(slots)
    ensures ConnectorPositions(row, col, slots, q + 1) == ConnectorPositions(row, col, slots, q) +
      PairPositions(slots[3 * q], slots[3 * q + 1], slots[3 * q + 2],
        SlotPos(row, col, slots[3 * q] as nat), SlotPos(row, col, slots[3 * q + 1] as nat), SlotPos(row, col, slots[3 * q + 2] as nat))
  {
  }

  /** The extrusion loop over the triangles of a slot list. */
  method ConnectSlots(cfg: Config, row: nat, col: nat, slots: seq<int>, mask: set<int>, points: seq<Point>, conn: seq<nat>,
                      edge: map<nat, nat>, ghost originals: set<nat>, currinds: seq<nat>)
      returns (newpoints: seq<Point>, newconn: seq<nat>, newedge: map<nat, nat>)
    requires SlotsOk(slots) && |slots| % 3 == 0 && forall s :: s in slots ==> s in mask
    requires |currinds| == 8 && SlotIndicesOk(points, originals, currinds, mask, row, col, 8)
    requires EdgeMapOk(points, edge, originals) && PointsOk(cfg, points)
    requires IndicesIn(conn, |points|) && PairsMarkCopies(conn, |points|, originals)
    ensures |newpoints| >= |points| && newpoints[..|points|] == points
    ensures EdgeMapOk(newpoints, newedge, originals) && PointsOk(cfg, newpoints)
    ensures forall x :: x in edge ==> x in newedge && newedge[x] == edge[x]
    ensures IndicesIn(newconn, |newpoints|) && PairsMarkCopies(newconn, |newpoints|, originals)
    ensures Positions(newpoints, newconn) == Positions(points, conn) + ConnectorPositions(row, col, slots, |slots| / 3)
  {
    newpoints, newconn, newedge := points, conn, edge;
    for q := 0 to |slots| / 3
      invariant |newpoints| >= |points| && newpoints[..|points|] == points
      invariant EdgeMapOk(newpoints, newedge, originals) && PointsOk(cfg, newpoints)
      invariant forall x :: x in edge ==> x in newedge && newedge[x] == edge[x]
      invariant IndicesIn(newconn, |newpoints|) && PairsMarkCopies(newconn, |newpoints|, originals)
      invariant Positions(newpoints, newconn) == Positions(points, conn) + ConnectorPositions(row, col, slots, q)
    {
      ghost var before := newpoints;
      ghost var beforeEdge := newedge;
      newpoints, newconn, newedge := ConnectStep(cfg, row, col, slots, mask, q, points, conn, newpoints, newconn, newedge, originals, currinds);
      PrefixTrans(points, before, newpoints);
      assert forall x :: x in edge ==> x in beforeEdge && newedge[x] == beforeEdge[x];
    }
  }

  /** One iteration of the extrusion loop: triangle `q` of the slot list. */
  method ConnectStep(cfg: Config, row: nat, col: nat, slots: seq<int>, mask: set<int>, q: nat, points: seq<Point>, conn: seq<nat>,
                     curr: seq<Point>, currconn: seq<nat>, edge: map<nat, nat>, ghost originals: set<nat>, currinds: seq<nat>)
      returns (newpoints: seq<Point>, newconn: seq<nat>, newedge: map<nat, nat>)
    requires SlotsOk(slots) && 3 * q + 3 <= |slots| && forall s :: s in slots ==> s in mask
    requires |currinds| == 8 && SlotIndicesOk(points, originals, currinds, mask, row, col, 8)
    requires |curr| >= |points| && curr[..|points|] == points && IndicesIn(conn, |points|)
    requires EdgeMapOk(curr, edge, originals) && PointsOk(cfg, curr)
    requires IndicesIn(currconn, |curr|) && PairsMarkCopies(currconn, |curr|, originals)
    requires Positions(curr, currconn) == Positions(points, conn) + ConnectorPositions(row, col, slots, q)
    ensures |newpoints| >= |curr| && newpoints[..|curr|] == curr
    ensures EdgeMapOk(newpoints, newedge, originals) && PointsOk(cfg, newpoints)
    ensures forall x :: x in edge ==> x in newedge && newedge[x] == edge[x]
    ensures IndicesIn(newconn, |newpoints|) && PairsMarkCopies(newconn, |newpoints|, originals)
    ensures Positions(newpoints, newconn) == Positions(points, conn) + ConnectorPositions(row, col, slots, q + 1)
  {
    var a, b, c := slots[3 * q], slots[3 * q + 1], slots[3 * q + 2];
    assert a in slots && b in slots && c in slots;
    SlotIndicesGrow(points, curr, originals, originals, currinds, mask, row, col, 8);
    ghost var pair := PairPositions(a, b, c, SlotPos(row, col, a as nat), SlotPos(row, col, b as nat), SlotPos(row, col, c as nat));
    assert pair == PairPositions(a, b, c, curr[currinds[a]].pos, curr[currinds[b]].pos, curr[currinds[c]].pos);
    newpoints, newconn, newedge :=
      ConnectTriangle(cfg, a, b, c, currinds[a], currinds[b], currinds[c], curr, currconn, edge, originals);
    ConnectorPositionsStep(row, col, slots, q);
    ConcatAssoc(Positions(points, conn), ConnectorPositions(row, col, slots, q), pair);
  }

  // ---------------------------------------------------------------------
  // Frames: what appending points keeps.
  // ---------------------------------------------------------------------

  /** Appending original points appends them to the originals' view. */
  lemma {:induction false} KeptFresh(points: seq<Point>, more: seq<Point>, used: set<nat>, used2: set<nat>, m: nat)
    requires m <= |more|
    requires forall i :: 0 <= i < |points| ==> (i in used <==> i in used2)
    requires forall i :: |points| <= i < |points| + m ==> i in used2
    ensures Kept(points + more, used2, |points| + m) == Kept(points, used, |points|) + more[..m]
  {
    if m == 0 {
      KeptFrame(points, more, used, used2, |points|);
    } else {
      KeptFresh(points, more, used, used2, m - 1);
      assert more[..m] == more[..m - 1] + [more[m - 1]];
    }
  }

  lemma KeptAllFresh(points: seq<Point>, placed: seq<Point>, used: set<nat>, used2: set<nat>)
    requires |points| <= |placed| && placed[..|points|] == points
    requires forall i :: i in used2 <==> i in used || |points| <= i < |placed|
    ensures Kept(placed, used2, |placed|) == Kept(points, used, |points|) + placed[|points|..]
  {
    var more := placed[|points|..];
    assert points + more == placed;
    KeptFresh(points, more, used, used2, |more|);
    assert more[..|more|] == more;
  }

  /** Appending duplicates leaves the originals' view alone. */
  lemma {:induction false} KeptCopies(points: seq<Point>, more: seq<Point>, used: set<nat>, m: nat)
    requires m <= |more|
    requires forall i :: |points| <= i < |points| + m ==> i !in used
    ensures Kept(points + more, used, |points| + m) == Kept(points, used, |points|)
  {
    if m == 0 {
      KeptFrame(points, more, used, used, |points|);
    } else {
      KeptCopies(points, more, used, m - 1);
    }
  }

  /** New original points keep the edge map and the marking. */
  lemma OriginalsGrow(points: seq<Point>, points2: seq<Point>, edge: map<nat, nat>, conn: seq<nat>, originals: set<nat>, originals2: set<nat>)
    requires EdgeMapOk(points, edge, originals) && IndicesIn(conn, |points|) && PairsMarkCopies(conn, |points|, originals)
    requires |points| <= |points2| && points2[..|points|] == points
    requires forall i :: i in originals2 <==> i in originals || |points| <= i < |points2|
    ensures EdgeMapOk(points2, edge, originals2) && IndicesIn(conn, |points2|) && PairsMarkCopies(conn, |points2|, originals2)
  {
    forall x | x in edge ensures points2[edge[x]] == points2[x] {
      assert points2[edge[x]] == points[edge[x]] && points2[x] == points[x];
    }
    forall i | 0 <= i < |points2| ensures i in Extruded(conn) <==> i !in originals2 {
      if i >= |points| {
        assert i !in Extruded(conn);
      }
    }
  }

  // ---------------------------------------------------------------------
  // One cell.
  // ---------------------------------------------------------------------

  /** The point and triangle loops of one cell. */
  method PlaceAndEmit(cfg: Config, row: nat, col: nat, code: nat, points: seq<Point>, tris: seq<nat>,
                      ghost conn: seq<nat>, ghost edge: map<nat, nat>, ghost originals: set<nat>,
                      prevmask: set<int>, previnds: seq<nat>, prevrowmask: set<int>, prevrowinds: seq<nat>)
      returns (placed: seq<Point>, newtris: seq<nat>, ghost neworiginals: set<nat>, mask: set<int>, currinds: seq<nat>)
    requires CellIn(cfg, row, col) && code == CellCode(cfg, row, col)
    requires prevmask == WestMask(cfg, row, col) && prevrowmask == NorthMask(cfg, row, col)
    requires |previnds| == 8 && SlotIndicesOk(points, originals, previnds, prevmask, row, col - 1, 8)
    requires |prevrowinds| == 3 && SlotIndicesOk(points, originals, prevrowinds, prevrowmask, row - 1, col, 3)
    requires EdgeMapOk(points, edge, originals) && PointsOk(cfg, points)
    requires IndicesIn(tris, |points|) && IndicesIn(conn, |points|) && PairsMarkCopies(conn, |points|, originals)
    requires OnOriginals(tris, originals)
    ensures |placed| >= |points| && placed[..|points|] == points && originals <= neworiginals
    ensures Kept(placed, neworiginals, |placed|) == Kept(points, originals, |points|) + CellFresh(cfg, row, col)
    ensures EdgeMapOk(placed, edge, neworiginals) && PointsOk(cfg, placed)
    ensures IndicesIn(newtris, |placed|) && Positions(placed, newtris) == Positions(points, tris) + CellTrianglePositions(cfg, row, col)
    ensures |newtris| == |tris| + 3 * CellCount(cfg, row, col) && OnOriginals(newtris, neworiginals)
    ensures IndicesIn(conn, |placed|) && PairsMarkCopies(conn, |placed|, neworiginals) && Positions(placed, conn) == Positions(points, conn)
    ensures mask == Mask(cfg, row, col)
    ensures |currinds| == 8 && SlotIndicesOk(placed, neworiginals, currinds, mask, row, col, 8)
  {
    TablesOkCell(cfg, row, col);
    var pointspec := cfg.tables.binaryPoints[code];
    placed, neworiginals, mask, currinds :=
      PlaceSlots(cfg, row, col, pointspec, points, originals, prevmask, previnds, prevrowmask, prevrowinds);
    ghost var created := CellFresh(cfg, row, col);
    assert placed == points + created;
    assert placed[..|points|] == points && placed[|points|..] == created;
    KeptAllFresh(points, placed, originals, neworiginals);
    OriginalsGrow(points, placed, edge, conn, originals, neworiginals);
    PositionsExtend(points, created, conn);
    var trianglespec := cfg.tables.binaryTriangles[code];
    var emitted := EmitSlots(row, col, trianglespec, mask, placed, neworiginals, currinds);
    PositionsExtend(points, created, tris);
    PositionsAppend(placed, tris, emitted);
    newtris := tris + emitted;
    OnOriginalsAppend(tris, emitted, originals, neworiginals);
  }

  /** Triangles on the old originals followed by triangles on the new ones are on the new ones. */
  lemma OnOriginalsAppend(tris: seq<nat>, more: seq<nat>, originals: set<nat>, neworiginals: set<nat>)
    requires OnOriginals(tris, originals) && OnOriginals(more, neworiginals) && originals <= neworiginals
    ensures OnOriginals(tris + more, neworiginals)
  {
  }

  /**
   * The work of one cell: its case's points (welded or new), its triangles
   * and, with CONNECT, its extrusion pairs.
   */
  method MarchCell(cfg: Config, connect: bool, row: nat, col: nat, code: nat,
                   points: seq<Point>, tris: seq<nat>, conn: seq<nat>, edge: map<nat, nat>, ghost originals: set<nat>,
                   prevmask: set<int>, previnds: seq<nat>, prevrowmask: set<int>, prevrowinds: seq<nat>)
      returns (newpoints: seq<Point>, newtris: seq<nat>, newconn: seq<nat>, newedge: map<nat, nat>, ghost neworiginals: set<nat>,
               mask: set<int>, currinds: seq<nat>)
    requires CellIn(cfg, row, col) && code == CellCode(cfg, row, col)
    requires prevmask == WestMask(cfg, row, col) && prevrowmask == NorthMask(cfg, row, col)
    requires |previnds| == 8 && SlotIndicesOk(points, originals, previnds, prevmask, row, col - 1, 8)
    requires |prevrowinds| == 3 && SlotIndicesOk(points, originals, prevrowinds, prevrowmask, row - 1, col, 3)
    requires EdgeMapOk(points, edge, originals) && PointsOk(cfg, points)
    requires IndicesIn(tris, |points|) && IndicesIn(conn, |points|) && PairsMarkCopies(conn, |points|, originals)
    requires OnOriginals(tris, originals)
    requires !connect ==> edge == map[] && conn == []
    ensures |newpoints| >= |points| && newpoints[..|points|] == points && originals <= neworiginals
    ensures Kept(newpoints, neworiginals, |newpoints|) == Kept(points, originals, |points|) + CellFresh(cfg, row, col)
    ensures EdgeMapOk(newpoints, newedge, neworiginals) && PointsOk(cfg, newpoints)
    ensures IndicesIn(newtris, |newpoints|) && Positions(newpoints, newtris) == Positions(points, tris) + CellTrianglePositions(cfg, row, col)
    ensures |newtris| == |tris| + 3 * CellCount(cfg, row, col) && OnOriginals(newtris, neworiginals)
    ensures IndicesIn(newconn, |newpoints|) && PairsMarkCopies(newconn, |newpoints|, neworiginals)
    ensures connect ==> Positions(newpoints, newconn) == Positions(points, conn) + CellConnectorPositions(cfg, row, col)
    ensures !connect ==> newedge == map[] && newconn == []
    ensures mask == Mask(cfg, row, col)
    ensures |currinds| == 8 && SlotIndicesOk(newpoints, neworiginals, currinds, mask, row, col, 8)
  {
    var placed;
    placed, newtris, neworiginals, mask, currinds :=
      PlaceAndEmit(cfg, row, col, code, points, tris, conn, edge, originals, prevmask, previnds, prevrowmask, prevrowinds);
    newpoints, newconn, newedge := placed, conn, edge;
    if connect {
      TablesOkCell(cfg, row, col);
      newpoints, newconn, newedge :=
        ConnectSlots(cfg, row, col, cfg.tables.binaryTriangles[code], mask, placed, conn, edge, neworiginals, currinds);
      CopiesFrame(placed, newpoints, neworiginals, currinds, mask, row, col, newtris);
      PrefixTrans(points, placed, newpoints);
    }
  }

  /** What the extrusion loop's appended duplicates keep. */
  lemma CopiesFrame(points: seq<Point>, points2: seq<Point>, originals: set<nat>,
                    inds: seq<nat>, mask: set<int>, row: int, col: int, tris: seq<nat>)
    requires |points| <= |points2| && points2[..|points|] == points && forall i :: i in originals ==> i < |points|
    requires SlotIndicesOk(points, originals, inds, mask, row, col, 8) && IndicesIn(tris, |points|)
    ensures Kept(points2, originals, |points2|) == Kept(points, originals, |points|)
    ensures SlotIndicesOk(points2, originals, inds, mask, row, col, 8)
    ensures IndicesIn(tris, |points2|) && Positions(points2, tris) == Positions(points, tris)
  {
    assert points + points2[|points|..] == points2;
    KeptCopies(points, points2[|points|..], originals, |points2| - |points|);
    SlotIndicesGrow(points, points2, originals, originals, inds, mask, row, col, 8);
    PositionsExtend(points, points2[|points|..], tris);
  }

  // ---------------------------------------------------------------------
  // The state of the march after the cells before (`row`, `col`).
  // ---------------------------------------------------------------------

  function Observed(connect: bool, points: seq<Point>, tris: seq<nat>, conn: seq<nat>, originals: set<nat>): Trace
    requires IndicesIn(tris, |points|) && IndicesIn(conn, |points|)
  {
    Trace(Kept(points, originals, |points|), Positions(points, tris), |tris| / 3, if connect then Positions(points, conn) else [])
  }

  /**
   * The marcher's state agrees with the reference definitions: the
   * originals in order are the created points, the triangles' corners are
   * at the reference positions, and with CONNECT so are the extrusion
   * pairs' (without it there are none and the edge map is empty).
   */
  predicate MarchState(cfg: Config, connect: bool, row: nat, col: nat,
                       points: seq<Point>, tris: seq<nat>, conn: seq<nat>, edge: map<nat, nat>, originals: set<nat>)
    requires Progress(cfg, row, col)
  {
    EdgeMapOk(points, edge, originals) && PointsOk(cfg, points) &&
    IndicesIn(tris, |points|) && IndicesIn(conn, |points|) && PairsMarkCopies(conn, |points|, originals) &&
    OnOriginals(tris, originals) &&
    |tris| % 3 == 0 && Observed(connect, points, tris, conn, originals) == DoneTrace(cfg, connect, row, col) &&
    (!connect ==> edge == map[] && conn == [])
  }

  /** One more cell done. */
  lemma MarchStateStep(cfg: Config, connect: bool, row: nat, col: nat,
                       points: seq<Point>, tris: seq<nat>, conn: seq<nat>, edge: map<nat, nat>, originals: set<nat>,
                       points2: seq<Point>, tris2: seq<nat>, conn2: seq<nat>, edge2: map<nat, nat>, originals2: set<nat>)
    requires CellIn(cfg, row, col) && MarchState(cfg, connect, row, col, points, tris, conn, edge, originals)
    requires Kept(points2, originals2, |points2|) == Kept(points, originals, |points|) + CellFresh(cfg, row, col)
    requires EdgeMapOk(points2, edge2, originals2) && PointsOk(cfg, points2)
    requires IndicesIn(tris2, |points2|) && Positions(points2, tris2) == Positions(points, tris) + CellTrianglePositions(cfg, row, col)
    requires |tris2| == |tris| + 3 * CellCount(cfg, row, col) && OnOriginals(tris2, originals2)
    requires IndicesIn(conn2, |points2|) && PairsMarkCopies(conn2, |points2|, originals2)
    requires connect ==> Positions(points2, conn2) == Positions(points, conn) + CellConnectorPositions(cfg, row, col)
    requires !connect ==> edge2 == map[] && conn2 == []
    ensures MarchState(cfg, connect, row, col + 1, points2, tris2, conn2, edge2, originals2)
  {
    assert Observed(connect, points2, tris2, conn2, originals2) ==
      Extend(Observed(connect, points, tris, conn, originals), CellTrace(cfg, connect, row, col));
  }

  /** The end of a row is the start of the next. */
  lemma DoneNextRow(cfg: Config, connect: bool, row: nat)
    requires ConfigOk(cfg) && row < Rows(cfg)
    ensures DoneTrace(cfg, connect, row, Cols(cfg)) == DoneTrace(cfg, connect, row + 1, 0)
  {
  }

  lemma MarchStateNextRow(cfg: Config, connect: bool, row: nat,
                          points: seq<Point>, tris: seq<nat>, conn: seq<nat>, edge: map<nat, nat>, originals: set<nat>)
    requires ConfigOk(cfg) && row < Rows(cfg) && MarchState(cfg, connect, row, Cols(cfg), points, tris, conn, edge, originals)
    ensures MarchState(cfg, connect, row + 1, 0, points, tris, conn, edge, originals)
  {
    DoneNextRow(cfg, connect, row);
  }

  // ---------------------------------------------------------------------
  // The row buffers `prevrowmasks` and `prevrowinds`.
  // ---------------------------------------------------------------------

  /** The mask the buffer holds for column `c`: this row's for the cells done, the previous row's (none in row 0) for the rest. */
  function BufferMask(cfg: Config, row: nat, col: nat, c: nat): set<int>
    requires Progress(cfg, row, col) && c < Cols(cfg)
  {
    if c < col then Mask(cfg, row, c) else if row == 0 then {} else Mask(cfg, row - 1, c)
  }

  function BufferRow(row: nat, col: nat, c: nat): int
  {
    if c < col then row else row - 1
  }

  predicate RowBufferOk(cfg: Config, points: seq<Point>, originals: set<nat>, masks: seq<set<int>>, inds: seq<nat>, row: nat, col: nat)
    requires Progress(cfg, row, col)
  {
    |masks| == Cols(cfg) && |inds| == 3 * Cols(cfg) &&
    forall c :: 0 <= c < Cols(cfg) ==>
      masks[c] == BufferMask(cfg, row, col, c) &&
      SlotIndicesOk(points, originals, inds[3 * c..3 * c + 3], masks[c], BufferRow(row, col, c), c, 3)
  }

  lemma RowBufferStart(cfg: Config)
    requires ConfigOk(cfg)
    ensures Progress(cfg, 0, 0)
    ensures RowBufferOk(cfg, [], {}, seq(Cols(cfg), _ => {}), seq(3 * Cols(cfg), _ => 0), 0, 0)
  {
  }

  lemma RowBufferGrow(cfg: Config, points: seq<Point>, points2: seq<Point>, originals: set<nat>, originals2: set<nat>,
                      masks: seq<set<int>>, inds: seq<nat>, row: nat, col: nat)
    requires Progress(cfg, row, col) && RowBufferOk(cfg, points, originals, masks, inds, row, col)
    requires |points| <= |points2| && points2[..|points|] == points && originals <= originals2
    ensures RowBufferOk(cfg, points2, originals2, masks, inds, row, col)
  {
    forall c | 0 <= c < Cols(cfg)
      ensures SlotIndicesOk(points2, originals2, inds[3 * c..3 * c + 3], masks[c], BufferRow(row, col, c), c, 3)
    {
      SlotIndicesGrow(points, points2, originals, originals2, inds[3 * c..3 * c + 3], masks[c], BufferRow(row, col, c), c, 3);
    }
  }

  /** What the buffer gives the cell (`row`, `col`): its northern neighbour's mask and southern slots. */
  lemma RowBufferAt(cfg: Config, points: seq<Point>, originals: set<nat>, masks: seq<set<int>>, inds: seq<nat>, row: nat, col: nat)
    requires CellIn(cfg, row, col) && RowBufferOk(cfg, points, originals, masks, inds, row, col)
    ensures masks[col] == NorthMask(cfg, row, col)
    ensures SlotIndicesOk(points, originals, inds[3 * col..3 * col + 3], masks[col], row - 1, col, 3)
  {
  }

  /** The buffer after cell (`row`, `col`) stored its mask and its southern slots 0, 1, 2. */
  lemma RowBufferSet(cfg: Config, points: seq<Point>, originals: set<nat>, masks: seq<set<int>>, inds: seq<nat>, row: nat, col: nat,
                     mask: set<int>, currinds: seq<nat>)
    requires CellIn(cfg, row, col) && RowBufferOk(cfg, points, originals, masks, inds, row, col)
    requires mask == Mask(cfg, row, col) && |currinds| == 8 && SlotIndicesOk(points, originals, currinds, mask, row, col, 8)
    ensures RowBufferOk(cfg, points, originals, masks[col := mask],
      inds[3 * col := currinds[0]][3 * col + 1 := currinds[1]][3 * col + 2 := currinds[2]], row, col + 1)
  {
    var masks2 := masks[col := mask];
    var inds2 := inds[3 * col := currinds[0]][3 * col + 1 := currinds[1]][3 * col + 2 := currinds[2]];
    forall c | 0 <= c < Cols(cfg)
      ensures masks2[c] == BufferMask(cfg, row, col + 1, c)
      ensures SlotIndicesOk(points, originals, inds2[3 * c..3 * c + 3], masks2[c], BufferRow(row, col + 1, c), c, 3)
    {
      if c == col {
        assert inds2[3 * c..3 * c + 3] == currinds[..3];
        SlotIndicesPrefix(points, originals, currinds, mask, row, col);
      } else {
        assert inds2[3 * c..3 * c + 3] == inds[3 * c..3 * c + 3];
        assert masks[c] == BufferMask(cfg, row, col, c) &&
          SlotIndicesOk(points, originals, inds[3 * c..3 * c + 3], masks[c], BufferRow(row, col, c), c, 3);
        assert BufferMask(cfg, row, col + 1, c) == BufferMask(cfg, row, col, c);
        assert BufferRow(row, col + 1, c) == BufferRow(row, col, c);
      }
    }
  }

  /** The first three slot indices of a cell are what its southern slots need. */
  lemma SlotIndicesPrefix(points: seq<Point>, originals: set<nat>, currinds: seq<nat>, mask: set<int>, row: nat, col: nat)
    requires SlotIndicesOk(points, originals, currinds, mask, row, col, 8)
    ensures SlotIndicesOk(points, originals, currinds[..3], mask, row, col, 3)
  {
  }

  lemma RowBufferNextRow(cfg: Config, points: seq<Point>, originals: set<nat>, masks: seq<set<int>>, inds: seq<nat>, row: nat)
    requires ConfigOk(cfg) && row < Rows(cfg) && RowBufferOk(cfg, points, originals, masks, inds, row, Cols(cfg))
    ensures RowBufferOk(cfg, points, originals, masks, inds, row + 1, 0)
  {
  }

  // ---------------------------------------------------------------------
  // The march over the grid.
  // ---------------------------------------------------------------------

  /** One cell of the column loop, with the row buffers read before and written after it. */
  method MarchStep(cfg: Config, connect: bool, row: nat, col: nat, code: nat,
                   points: seq<Point>, tris: seq<nat>, conn: seq<nat>, edge: map<nat, nat>, ghost originals: set<nat>,
                   prevmask: set<int>, previnds: seq<nat>, prevrowmasks: seq<set<int>>, prevrowinds: seq<nat>)
      returns (newpoints: seq<Point>, newtris: seq<nat>, newconn: seq<nat>, newedge: map<nat, nat>, ghost neworiginals: set<nat>,
               mask: set<int>, currinds: seq<nat>, newrowmasks: seq<set<int>>, newrowinds: seq<nat>)
    requires CellIn(cfg, row, col) && code == CellCode(cfg, row, col)
    requires MarchState(cfg, connect, row, col, points, tris, conn, edge, originals)
    requires RowBufferOk(cfg, points, originals, prevrowmasks, prevrowinds, row, col)
    requires prevmask == WestMask(cfg, row, col) && |previnds| == 8 && SlotIndicesOk(points, originals, previnds, prevmask, row, col - 1, 8)
    ensures MarchState(cfg, connect, row, col + 1, newpoints, newtris, newconn, newedge, neworiginals)
    ensures RowBufferOk(cfg, newpoints, neworiginals, newrowmasks, newrowinds, row, col + 1)
    ensures mask == Mask(cfg, row, col) && |currinds| == 8 && SlotIndicesOk(newpoints, neworiginals, currinds, mask, row, col, 8)
    ensures Positions(newpoints, newtris) == Positions(points, tris) + CellTrianglePositions(cfg, row, col)
    ensures |newtris| == |tris| + 3 * CellCount(cfg, row, col)
  {
    RowBufferAt(cfg, points, originals, prevrowmasks, prevrowinds, row, col);
    newpoints, newtris, newconn, newedge, neworiginals, mask, currinds :=
      MarchCell(cfg, connect, row, col, code, points, tris, conn, edge, originals,
        prevmask, previnds, prevrowmasks[col], prevrowinds[3 * col..3 * col + 3]);
    MarchStateStep(cfg, connect, row, col, points, tris, conn, edge, originals, newpoints, newtris, newconn, newedge, neworiginals);
    RowBufferGrow(cfg, points, newpoints, originals, neworiginals, prevrowmasks, prevrowinds, row, col);
    newrowmasks := prevrowmasks[col := mask];
    newrowinds := prevrowinds[3 * col := currinds[0]][3 * col + 1 := currinds[1]][3 * col + 2 := currinds[2]];
    RowBufferSet(cfg, newpoints, neworiginals, prevrowmasks, prevrowinds, row, col, mask, currinds);
  }

  /**
   * The state of the column loop of row `row` before cell `col`: the march
   * so far, the row buffers, the west neighbour's mask and indices, the
   * running sample indices and samples on the cell's western grid line,
   * the corners emitted since the row started (`start` before it), and
   * with SIMPLIFY the row's records. The contracts below state it as
   * `ColumnState(...) == true`, which the verifier checks as one
   * obligation instead of one per conjunct of its unfolded body.
   */
  predicate ColumnState(cfg: Config, connect: bool, simplify: bool, row: nat, col: nat, start: seq<Pos>,
                        points: seq<Point>, tris: seq<nat>, conn: seq<nat>, edge: map<nat, nat>, originals: set<nat>,
                        rowmasks: seq<set<int>>, rowinds: seq<nat>, prevmask: set<int>, previnds: seq<nat>,
                        northi: int, southi: int, northwest: bool, southwest: bool, records: seq<Record>)
    requires ConfigOk(cfg) && row < Rows(cfg) && col <= Cols(cfg)
  {
    var img := cfg.image;
    MarchState(cfg, connect, row, col, points, tris, conn, edge, originals) &&
    RowBufferOk(cfg, points, originals, rowmasks, rowinds, row, col) &&
    prevmask == (if col == 0 then {} else Mask(cfg, row, col - 1)) &&
    |previnds| == 8 && SlotIndicesOk(points, originals, previnds, prevmask, row, col - 1, 8) &&
    northi == NorthStart(img.width, img.cellsize, row) + ColumnOffset(Cols(cfg), img.cellsize, col) &&
    southi == SouthStart(img.width, img.height, img.cellsize, row) + ColumnOffset(Cols(cfg), img.cellsize, col) &&
    northwest == Sample(cfg, northi) && southwest == Sample(cfg, southi) &&
    start <= Positions(points, tris) &&
    (simplify ==> RowRecordsOk(cfg, connect, row, col, records, |start|, Positions(points, tris)))
  }

  /**
   * The column loop of one row: the corner samples are carried eastwards,
   * each cell's case is computed from them, and with SIMPLIFY each cell's
   * record (full, first triangle, triangle count) is kept.
   */
  method MarchRow(cfg: Config, connect: bool, simplify: bool, row: nat,
                  points: seq<Point>, tris: seq<nat>, conn: seq<nat>, edge: map<nat, nat>, ghost originals: set<nat>,
                  prevrowmasks: seq<set<int>>, prevrowinds: seq<nat>)
      returns (newpoints: seq<Point>, newtris: seq<nat>, newconn: seq<nat>, newedge: map<nat, nat>, ghost neworiginals: set<nat>,
               newrowmasks: seq<set<int>>, newrowinds: seq<nat>, records: seq<Record>)
    requires ConfigOk(cfg) && row < Rows(cfg)
    requires MarchState(cfg, connect, row, 0, points, tris, conn, edge, originals)
    requires RowBufferOk(cfg, points, originals, prevrowmasks, prevrowinds, row, 0)
    ensures MarchState(cfg, connect, row + 1, 0, newpoints, newtris, newconn, newedge, neworiginals)
    ensures RowBufferOk(cfg, newpoints, neworiginals, newrowmasks, newrowinds, row + 1, 0)
    ensures Positions(points, tris) <= Positions(newpoints, newtris)
    ensures simplify ==> RowRecordsOk(cfg, connect, row, Cols(cfg), records, |tris|, Positions(newpoints, newtris))
  {
    var img := cfg.image;
    var maxrow := (img.height - 1) * img.width;
    var northi := row * img.cellsize * img.width;
    var southi := Min(northi + img.cellsize * img.width, maxrow);
    var northwest := Sample(cfg, northi);
    var southwest := Sample(cfg, southi);
    GridNonEmpty(img.width, img.height, img.cellsize);
    ghost var start := Positions(points, tris);
    ColumnStart(cfg, connect, simplify, row, points, tris, conn, edge, originals, prevrowmasks, prevrowinds, northi, southi);
    var prevmask, previnds, ni, si, nw, sw;
    newpoints, newtris, newconn, newedge, neworiginals, newrowmasks, newrowinds, prevmask, previnds, ni, si, nw, sw, records :=
      MarchColumns(cfg, connect, simplify, row, start, points, tris, conn, edge, originals, prevrowmasks, prevrowinds,
        northi, southi, northwest, southwest);
    ColumnEnd(cfg, connect, simplify, row, start, newpoints, newtris, newconn, newedge, neworiginals,
      newrowmasks, newrowinds, prevmask, previnds, ni, si, nw, sw, records);
  }

  /** The column loop proper, from the state ColumnStart sets up to the state ColumnEnd hands over. */
  method MarchColumns(cfg: Config, connect: bool, simplify: bool, row: nat, ghost start: seq<Pos>,
                      points: seq<Point>, tris: seq<nat>, conn: seq<nat>, edge: map<nat, nat>, ghost originals: set<nat>,
                      prevrowmasks: seq<set<int>>, prevrowinds: seq<nat>, northi: int, southi: int, northwest: bool, southwest: bool)
      returns (newpoints: seq<Point>, newtris: seq<nat>, newconn: seq<nat>, newedge: map<nat, nat>, ghost neworiginals: set<nat>,
               newrowmasks: seq<set<int>>, newrowinds: seq<nat>, prevmask: set<int>, previnds: seq<nat>,
               ni: int, si: int, nw: bool, sw: bool, records: seq<Record>)
    requires ConfigOk(cfg) && row < Rows(cfg)
    requires ColumnState(cfg, connect, simplify, row, 0, start, points, tris, conn, edge, originals,
      prevrowmasks, prevrowinds, {}, [0, 0, 0, 0, 0, 0, 0, 0], northi, southi, northwest, southwest, []) == true
    ensures ColumnState(cfg, connect, simplify, row, Cols(cfg), start, newpoints, newtris, newconn, newedge, neworiginals,
      newrowmasks, newrowinds, prevmask, previnds, ni, si, nw, sw, records) == true
  {
    previnds, prevmask := [0, 0, 0, 0, 0, 0, 0, 0], {};
    ni, si, nw, sw := northi, southi, northwest, southwest;
    newpoints, newtris, newconn, newedge, neworiginals := points, tris, conn, edge, originals;
    newrowmasks, newrowinds := prevrowmasks, prevrowinds;
    records := [];
    for col := 0 to Cols(cfg)
      invariant ColumnState(cfg, connect, simplify, row, col, start, newpoints, newtris, newconn, newedge, neworiginals,
        newrowmasks, newrowinds, prevmask, previnds, ni, si, nw, sw, records) == true
    {
      newpoints, newtris, newconn, newedge, neworiginals, newrowmasks, newrowinds, prevmask, previnds, ni, si, nw, sw, records :=
        ColumnStep(cfg, connect, simplify, row, col, start, newpoints, newtris, newconn, newedge, neworiginals,
          newrowmasks, newrowinds, prevmask, previnds, ni, si, nw, sw, records);
    }
  }

  /** The column loop starts from the state the row loop hands over. */
  lemma ColumnStart(cfg: Config, connect: bool, simplify: bool, row: nat,
                    points: seq<Point>, tris: seq<nat>, conn: seq<nat>, edge: map<nat, nat>, originals: set<nat>,
                    rowmasks: seq<set<int>>, rowinds: seq<nat>, northi: int, southi: int)
    requires ConfigOk(cfg) && row < Rows(cfg)
    requires MarchState(cfg, connect, row, 0, points, tris, conn, edge, originals)
    requires RowBufferOk(cfg, points, originals, rowmasks, rowinds, row, 0)
    requires var img := cfg.image;
      northi == row * img.cellsize * img.width &&
      southi == Min(northi + img.cellsize * img.width, (img.height - 1) * img.width)
    ensures ColumnState(cfg, connect, simplify, row, 0, Positions(points, tris), points, tris, conn, edge, originals,
      rowmasks, rowinds, {}, [0, 0, 0, 0, 0, 0, 0, 0], northi, southi, Sample(cfg, northi), Sample(cfg, southi), []) == true
  {
    var img := cfg.image;
    assert ColumnOffset(Cols(cfg), img.cellsize, 0) == 0;
  }

  /** The column loop ends in the state the row loop carries on from. */
  lemma ColumnEnd(cfg: Config, connect: bool, simplify: bool, row: nat, start: seq<Pos>,
                  points: seq<Point>, tris: seq<nat>, conn: seq<nat>, edge: map<nat, nat>, originals: set<nat>,
                  rowmasks: seq<set<int>>, rowinds: seq<nat>, prevmask: set<int>, previnds: seq<nat>,
                  northi: int, southi: int, northwest: bool, southwest: bool, records: seq<Record>)
    requires ConfigOk(cfg) && row < Rows(cfg)
    requires ColumnState(cfg, connect, simplify, row, Cols(cfg), start, points, tris, conn, edge, originals,
      rowmasks, rowinds, prevmask, previnds, northi, southi, northwest, southwest, records) == true
    ensures MarchState(cfg, connect, row + 1, 0, points, tris, conn, edge, originals)
    ensures RowBufferOk(cfg, points, originals, rowmasks, rowinds, row + 1, 0)
    ensures start <= Positions(points, tris)
    ensures simplify ==> RowRecordsOk(cfg, connect, row, Cols(cfg), records, |start|, Positions(points, tris))
  {
    MarchStateNextRow(cfg, connect, row, points, tris, conn, edge, originals);
    RowBufferNextRow(cfg, points, originals, rowmasks, rowinds, row);
  }

  /** The body of the column loop: sample, record, march the cell. */
  method ColumnStep(cfg: Config, connect: bool, simplify: bool, row: nat, col: nat, ghost start: seq<Pos>,
                    points: seq<Point>, tris: seq<nat>, conn: seq<nat>, edge: map<nat, nat>, ghost originals: set<nat>,
                    prevrowmasks: seq<set<int>>, prevrowinds: seq<nat>, prevmask: set<int>, previnds: seq<nat>,
                    northi: int, southi: int, northwest: bool, southwest: bool, records: seq<Record>)
      returns (newpoints: seq<Point>, newtris: seq<nat>, newconn: seq<nat>, newedge: map<nat, nat>, ghost neworiginals: set<nat>,
               newrowmasks: seq<set<int>>, newrowinds: seq<nat>, mask: set<int>, currinds: seq<nat>,
               northi2: int, southi2: int, northeast: bool, southeast: bool, newrecords: seq<Record>)
    requires CellIn(cfg, row, col)
    requires ColumnState(cfg, connect, simplify, row, col, start, points, tris, conn, edge, originals,
      prevrowmasks, prevrowinds, prevmask, previnds, northi, southi, northwest, southwest, records) == true
    ensures ColumnState(cfg, connect, simplify, row, col + 1, start, newpoints, newtris, newconn, newedge, neworiginals,
      newrowmasks, newrowinds, mask, currinds, northi2, southi2, northeast, southeast, newrecords) == true
  {
    var code;
    northi2, southi2, northeast, southeast, code := SampleCell(cfg, row, col, northi, southi, northwest, southwest);
    newrecords := records;
    if simplify {
      newrecords := records + [Record(code == 15, |tris| / 3, |cfg.tables.binaryTriangles[code]| / 3)];
      RecordsStep(cfg, connect, row, col, records, start, Positions(points, tris), newrecords);
    }
    newpoints, newtris, newconn, newedge, neworiginals, mask, currinds, newrowmasks, newrowinds :=
      MarchStep(cfg, connect, row, col, code, points, tris, conn, edge, originals, prevmask, previnds, prevrowmasks, prevrowinds);
    assert start <= Positions(newpoints, newtris);
  }

  /** The record of a cell, placed after the triangles emitted before it. */
  lemma RecordsStep(cfg: Config, connect: bool, row: nat, col: nat, records: seq<Record>, start: seq<Pos>, corners: seq<Pos>, newrecords: seq<Record>)
    requires CellIn(cfg, row, col) && RowRecordsOk(cfg, connect, row, col, records, |start|, corners)
    requires |corners| == 3 * DoneTrace(cfg, connect, row, col).count
    requires var code := CellCode(cfg, row, col);
      newrecords == records + [Record(code == 15, |corners| / 3, |cfg.tables.binaryTriangles[code]| / 3)]
    ensures RowRecordsOk(cfg, connect, row, col + 1, newrecords, |start|, corners + CellTrianglePositions(cfg, row, col))
  {
    RecordStep(cfg, connect, row, col, records, |corners|);
    if CellCode(cfg, row, col) == 15 {
      FullCellCorners(cfg, row, col);
    }
    TablesOkCell(cfg, row, col);
    RowFitsStep(records, row, corners, CellTrianglePositions(cfg, row, col), newrecords[col]);
    assert records + [newrecords[col]] == newrecords;
  }

  /**
   * The sampling step of the column loop: moves the running north and
   * south indices to the cell's eastern grid line (one pixel back on the
   * last), samples there and combines the four corners into the case.
   */
  method SampleCell(cfg: Config, row: nat, col: nat, northi: int, southi: int, northwest: bool, southwest: bool)
      returns (northi2: int, southi2: int, northeast: bool, southeast: bool, code: nat)
    requires CellIn(cfg, row, col)
    requires var img := cfg.image;
      northi == NorthStart(img.width, img.cellsize, row) + ColumnOffset(Cols(cfg), img.cellsize, col) &&
      southi == SouthStart(img.width, img.height, img.cellsize, row) + ColumnOffset(Cols(cfg), img.cellsize, col)
    requires northwest == Sample(cfg, northi) && southwest == Sample(cfg, southi)
    ensures var img := cfg.image;
      northi2 == NorthStart(img.width, img.cellsize, row) + ColumnOffset(Cols(cfg), img.cellsize, col + 1) &&
      southi2 == SouthStart(img.width, img.height, img.cellsize, row) + ColumnOffset(Cols(cfg), img.cellsize, col + 1)
    ensures northeast == Sample(cfg, northi2) && southeast == Sample(cfg, southi2)
    ensures code == CellCode(cfg, row, col)
  {
    var cellsize := cfg.image.cellsize;
    ColumnAdvance(Cols(cfg), cellsize, col);
    northi2 := northi + cellsize;
    southi2 := southi + cellsize;
    if col == cfg.image.width / cellsize - 1 {
      northi2 := northi2 - 1;
      southi2 := southi2 - 1;
    }
    northeast := Sample(cfg, northi2);
    southeast := Sample(cfg, southi2);
    code := BinaryCode(southwest, southeast, northwest, northeast);
  }

  /** The record a cell stores is its reference record. */
  lemma RecordStep(cfg: Config, connect: bool, row: nat, col: nat, records: seq<Record>, ntris: nat)
    requires CellIn(cfg, row, col) && records == RowRecords(cfg, connect, row, col)
    requires ntris == 3 * DoneTrace(cfg, connect, row, col).count
    ensures var code := CellCode(cfg, row, col);
      records + [Record(code == 15, ntris / 3, |cfg.tables.binaryTriangles[code]| / 3)] == RowRecords(cfg, connect, row, col + 1)
  {
    var code := CellCode(cfg, row, col);
    var count := DoneTrace(cfg, connect, row, col).count;
    assert ntris / 3 == count;
    assert CellRecord(cfg, connect, row, col) == Record(code == 15, count, |cfg.tables.binaryTriangles[code]| / 3);
    assert RowRecords(cfg, connect, row, col + 1) == records + [CellRecord(cfg, connect, row, col)];
  }

  /**
   * The row loop: marches every row in order from empty buffers.  The
   * result is the reference mesh of the whole grid, and with SIMPLIFY the
   * records of every cell.
   */
  method March(cfg: Config, connect: bool, simplify: bool)
      returns (points: seq<Point>, tris: seq<nat>, conn: seq<nat>, edge: map<nat, nat>, ghost originals: set<nat>,
               grid: seq<seq<Record>>)
    requires ConfigOk(cfg)
    ensures Progress(cfg, Rows(cfg), 0) && MarchState(cfg, connect, Rows(cfg), 0, points, tris, conn, edge, originals)
    ensures simplify ==> GridRecordsOk(cfg, connect, Rows(cfg), grid, Positions(points, tris))
  {
    var nrows := cfg.image.height / cfg.image.cellsize;
    var ncols := cfg.image.width / cfg.image.cellsize;
    points, tris, conn, edge, originals := [], [], [], map[], {};
    var prevrowmasks: seq<set<int>> := seq(ncols, _ => {});
    var prevrowinds: seq<nat> := seq(3 * ncols, _ => 0);
    RowBufferStart(cfg);
    grid := [];
    for row := 0 to nrows
      invariant MarchState(cfg, connect, row, 0, points, tris, conn, edge, originals)
      invariant RowBufferOk(cfg, points, originals, prevrowmasks, prevrowinds, row, 0)
      invariant simplify ==> GridRecordsOk(cfg, connect, row, grid, Positions(points, tris))
    {
      var records;
      ghost var before := Positions(points, tris);
      points, tris, conn, edge, originals, prevrowmasks, prevrowinds, records :=
        MarchRow(cfg, connect, simplify, row, points, tris, conn, edge, originals, prevrowmasks, prevrowinds);
      if simplify {
        GridRecordsStep(cfg, connect, row, grid, before, records, Positions(points, tris));
        grid := grid + [records];
      }
    }
  }
}

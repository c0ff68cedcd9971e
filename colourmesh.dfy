/**
 * `par_msquares_color_multi` as a whole: the colour table is built and the
 * pixels remapped, the grid is marched into one mesh per colour, with
 * SIMPLIFY each mesh's runs of full cells are replaced by quads, and the
 * connector triangles are appended.
 */
module ColourMesh {
  import opened Wrappers
  import opened Sequences
  import opened Tables
  import opened Classify
  import opened Geometry
  import opened Meshes
  import opened Simplification
  import opened Palette
  import opened ColourMarch

  // ---------------------------------------------------------------------
  // Shape of the traces.
  // ---------------------------------------------------------------------

  /** A cell's corners come three per triangle. */
  lemma {:induction false} CellShape(p: Picture, m: nat, row: nat, col: nat, k: nat)
    requires CellIn(p, row, col) && m < |p.colors| && k <= 4
    ensures |CellTraceUpTo(p, m, row, col, k).corners| == 3 * CellTraceUpTo(p, m, row, col, k).count
  {
    if k > 0 {
      CellShape(p, m, row, col, k - 1);
      var slots := CornerSlots(p, row, col, k - 1);
      assert |slots| == 3 * (|slots| / 3);
    }
  }

  /** The corners done so far come three per triangle. */
  lemma {:induction false} DoneShape(p: Picture, m: nat, row: nat, col: nat)
    requires Progress(p, row, col) && m < |p.colors|
    ensures |DoneTrace(p, m, row, col).corners| == 3 * DoneTrace(p, m, row, col).count
    decreases row, col
  {
    if col > 0 {
      DoneShape(p, m, row, col - 1);
      CellShape(p, m, row, col - 1, 4);
      DoneStep(p, m, row, col - 1);
    } else if row > 0 {
      DoneShape(p, m, row - 1, Cols(p));
      DoneRowStart(p, m, row - 1);
    }
  }

  /** What is done at an earlier position is a prefix of what is done at a later one. */
  lemma {:induction false} DonePrefix(p: Picture, m: nat, r1: nat, c1: nat, r2: nat, c2: nat)
    requires Progress(p, r1, c1) && Progress(p, r2, c2) && m < |p.colors|
    requires r1 < r2 || (r1 == r2 && c1 <= c2)
    ensures DoneTrace(p, m, r1, c1).count <= DoneTrace(p, m, r2, c2).count
    ensures DoneTrace(p, m, r1, c1).corners <= DoneTrace(p, m, r2, c2).corners
    decreases r2, c2
  {
    if r1 == r2 && c1 == c2 {
    } else if c2 > 0 {
      DonePrefix(p, m, r1, c1, r2, c2 - 1);
      DoneGrows(p, m, r2, c2 - 1);
      PrefixTrans(DoneTrace(p, m, r1, c1).corners, DoneTrace(p, m, r2, c2 - 1).corners, DoneTrace(p, m, r2, c2).corners);
    } else {
      DonePrefix(p, m, r1, c1, r2 - 1, Cols(p));
      DoneRowStart(p, m, r2 - 1);
    }
  }

  /** One more cell extends what is done by the cell's trace. */
  lemma DoneStep(p: Picture, m: nat, row: nat, col: nat)
    requires PictureOk(p) && row < Rows(p) && col < Cols(p) && m < |p.colors|
    ensures DoneTrace(p, m, row, col + 1) == Extend(DoneTrace(p, m, row, col), CellTrace(p, m, row, col))
  {
  }

  /** One more cell only appends to what is done. */
  lemma DoneGrows(p: Picture, m: nat, row: nat, col: nat)
    requires PictureOk(p) && row < Rows(p) && col < Cols(p) && m < |p.colors|
    ensures DoneTrace(p, m, row, col).count <= DoneTrace(p, m, row, col + 1).count
    ensures DoneTrace(p, m, row, col).corners <= DoneTrace(p, m, row, col + 1).corners
  {
  }

  /** A row starts where the previous one ended. */
  lemma DoneRowStart(p: Picture, m: nat, row: nat)
    requires PictureOk(p) && row < Rows(p) && m < |p.colors|
    ensures DoneTrace(p, m, row + 1, 0) == DoneTrace(p, m, row, Cols(p))
  {
  }

  /** Without extrusion a cell adds no connector corners. */
  lemma {:induction false} CellNoExtrusion(p: Picture, m: nat, row: nat, col: nat, k: nat)
    requires CellIn(p, row, col) && m < |p.colors| && k <= 4 && !Extruded(p, m)
    ensures CellTraceUpTo(p, m, row, col, k).extrusion == []
  {
    if k > 0 {
      CellNoExtrusion(p, m, row, col, k - 1);
    }
  }

  /** Without CONNECT, and for the first colour, the march adds no connector corners. */
  lemma {:induction false} NoExtrusion(p: Picture, m: nat, row: nat, col: nat)
    requires Progress(p, row, col) && m < |p.colors| && !Extruded(p, m)
    ensures DoneTrace(p, m, row, col).extrusion == []
    decreases row, col
  {
    if col > 0 {
      NoExtrusion(p, m, row, col - 1);
      CellNoExtrusion(p, m, row, col - 1, 4);
    } else if row > 0 {
      NoExtrusion(p, m, row - 1, Cols(p));
    }
  }

  // ---------------------------------------------------------------------
  // Full cells.
  // ---------------------------------------------------------------------

  /** All four corners of the cell have colour `m` (`ncorners == 4`). */
  predicate Full(p: Picture, m: nat, row: nat, col: nat)
    requires CellIn(p, row, col)
  {
    forall c :: 0 <= c < 4 ==> CornerValues(p, row, col)[c] == m
  }

  /**
   * The corners of a full cell's two triangles: SW, SE, NE and SW, NE, NW,
   * the table entry of code 0.
   */
  function BlockSquare(p: Picture, m: nat, row: nat, col: nat): seq<Point>
    requires m < |p.colors|
  {
    var sw, se := MakePoint(p, m, SlotPos(row, col, 0)), MakePoint(p, m, SlotPos(row, col, 2));
    var ne, nw := MakePoint(p, m, SlotPos(row, col, 4)), MakePoint(p, m, SlotPos(row, col, 6));
    [sw, se, ne, sw, ne, nw]
  }

  /** A full cell has code 0 and adds the two triangles of its square to its colour's mesh. */
  lemma FullCell(p: Picture, m: nat, row: nat, col: nat)
    requires CellIn(p, row, col) && m < |p.colors| && Full(p, m, row, col)
    ensures CellCode(p, row, col) == 0
    ensures CellTrace(p, m, row, col).count == 2 && CellTrace(p, m, row, col).corners == BlockSquare(p, m, row, col)
  {
    var v := CornerValues(p, row, col);
    assert v[0] == m && v[1] == m && v[2] == m && v[3] == m;
    assert LocalIndices(v[0], v[1], v[2], v[3]) == [0, 0, 0, 0];
    assert CellCode(p, row, col) == 0;
    assert CornerSlots(p, row, col, 0) == [0, 2, 4, 0, 4, 6];
    assert CornerSlots(p, row, col, 1) == [] && CornerSlots(p, row, col, 2) == [] && CornerSlots(p, row, col, 3) == [];
    var first := CornerTrace(p, m, row, col, 0);
    assert first.corners == BlockSquare(p, m, row, col) && first.count == 2;
    assert CellTraceUpTo(p, m, row, col, 1) == Extend(Empty, first);
    assert CellTraceUpTo(p, m, row, col, 2).corners == first.corners;
    assert CellTraceUpTo(p, m, row, col, 3).corners == first.corners;
  }

  // ---------------------------------------------------------------------
  // Simplification records.
  // ---------------------------------------------------------------------

  /**
   * The record of a cell in the mesh of colour `m`: full when all four
   * corners have the colour, its first triangle (the triangles the cells
   * before it gave the mesh) and how many triangles it gave.
   */
  function CellRecord(p: Picture, m: nat, row: nat, col: nat): Record
    requires CellIn(p, row, col) && m < |p.colors|
  {
    Record(Full(p, m, row, col), DoneTrace(p, m, row, col).count, CellTrace(p, m, row, col).count)
  }

  /** The records of the first `n` cells of a row. */
  function RowRecords(p: Picture, m: nat, row: nat, n: nat): seq<Record>
    requires PictureOk(p) && row < Rows(p) && n <= Cols(p) && m < |p.colors|
  {
    seq(n, c requires 0 <= c < n => CellRecord(p, m, row, c))
  }

  /** The records of the first `n` rows (`simplification_blocks`, `_tris`, `_ntris`). */
  function RecordGrid(p: Picture, m: nat, n: nat): seq<seq<Record>>
    requires PictureOk(p) && n <= Rows(p) && m < |p.colors|
  {
    seq(n, r requires 0 <= r < n => RowRecords(p, m, r, Cols(p)))
  }

  /**
   * The record of one cell from the words the march kept: the corners of
   * colour `m` are counted, and their triangle counts added up (the
   * source writes the four corners out one after the other).
   */
  method CellRecordOf(m: nat, w: CellWords, ntris: nat) returns (rec: Record)
    requires |w.vals| == 4 && |w.counts| == 4
    ensures rec.block <==> WordsFull(w, m)
    ensures rec.first == ntris && rec.count == WordsCount(w, m, 4)
  {
    var ncelltris, ncorners := 0, 0;
    for k := 0 to 4
      invariant ncelltris == WordsCount(w, m, k)
      invariant ncorners <= k && (ncorners == k <==> forall c :: 0 <= c < k ==> w.vals[c] == m)
    {
      if w.vals[k] == m {
        ncelltris := ncelltris + w.counts[k];
        ncorners := ncorners + 1;
      }
    }
    rec := Record(ncorners == 4, ntris, ncelltris);
  }

  /** All four corner words of a cell have colour `m`. */
  predicate WordsFull(w: CellWords, m: nat)
    requires |w.vals| == 4
  {
    forall c :: 0 <= c < 4 ==> w.vals[c] == m
  }

  /** The triangle counts of the first `k` corner words that have colour `m`, added up. */
  function WordsCount(w: CellWords, m: nat, k: nat): nat
    requires |w.vals| == 4 && |w.counts| == 4 && k <= 4
  {
    if k == 0 then 0 else WordsCount(w, m, k - 1) + if w.vals[k - 1] == m then w.counts[k - 1] else 0
  }

  /** The record read off a cell's words, at the running count of triangles before it, is the cell's reference record. */
  lemma WordsRecord(p: Picture, m: nat, row: nat, col: nat, w: CellWords, rec: Record)
    requires CellIn(p, row, col) && m < |p.colors| && w == Words(p, row, col)
    requires |w.vals| == 4 && |w.counts| == 4
    requires (rec.block <==> WordsFull(w, m)) && rec.first == DoneTrace(p, m, row, col).count && rec.count == WordsCount(w, m, 4)
    ensures rec == CellRecord(p, m, row, col)
  {
    WordsCountTrace(p, m, row, col, 4);
  }

  /** The counts of the first `k` corner words add up to the triangles of the first `k` corners. */
  lemma {:induction false} WordsCountTrace(p: Picture, m: nat, row: nat, col: nat, k: nat)
    requires CellIn(p, row, col) && m < |p.colors| && k <= 4
    ensures WordsCount(Words(p, row, col), m, k) == CellTraceUpTo(p, m, row, col, k).count
  {
    if k > 0 {
      WordsCountTrace(p, m, row, col, k - 1);
      CornerCount(p, m, row, col, k - 1);
    }
  }

  /** A corner adds its word's triangle count to the cell's count when it has colour `m`. */
  lemma CornerCount(p: Picture, m: nat, row: nat, col: nat, k: nat)
    requires CellIn(p, row, col) && m < |p.colors| && k < 4
    ensures CellTraceUpTo(p, m, row, col, k + 1).count ==
      CellTraceUpTo(p, m, row, col, k).count + if Words(p, row, col).vals[k] == m then Words(p, row, col).counts[k] else 0
  {
    if CornerValues(p, row, col)[k] == m {
      assert CornerTrace(p, m, row, col, k).count == |CornerSlots(p, row, col, k)| / 3;
    }
  }

  /** The record loop of one colour, over the words of the whole grid, with a running triangle count. */
  method BuildRecords(p: Picture, m: nat, words: seq<seq<CellWords>>) returns (g: seq<seq<Record>>)
    requires PictureOk(p) && m < |p.colors| && words == WordGrid(p, Rows(p))
    ensures g == RecordGrid(p, m, Rows(p))
  {
    g := [];
    var ntris := 0;
    for row := 0 to Rows(p)
      invariant g == RecordGrid(p, m, row) && ntris == DoneTrace(p, m, row, 0).count
    {
      var records := [];
      for col := 0 to Cols(p)
        invariant records == RowRecords(p, m, row, col) && ntris == DoneTrace(p, m, row, col).count
      {
        var rec := CellRecordOf(m, words[row][col], ntris);
        WordsRecord(p, m, row, col, words[row][col], rec);
        records := records + [rec];
        ntris := ntris + rec.count;
      }
      g := g + [records];
    }
  }

  /** One more cell adds its triangle count to the running count. */
  lemma DoneCountStep(p: Picture, m: nat, row: nat, col: nat)
    requires PictureOk(p) && row < Rows(p) && col < Cols(p) && m < |p.colors|
    ensures DoneTrace(p, m, row, col + 1).count == DoneTrace(p, m, row, col).count + CellTrace(p, m, row, col).count
  {
  }

  /** The count at the start of a row is the count at the end of the previous one. */
  lemma DoneCountRow(p: Picture, m: nat, row: nat)
    requires PictureOk(p) && row < Rows(p) && m < |p.colors|
    ensures DoneTrace(p, m, row + 1, 0).count == DoneTrace(p, m, row, Cols(p)).count
  {
  }

  /** The triangles recorded for the first `n` cells of a row are those the row's cells gave. */
  lemma {:induction false} RowCountIsDone(p: Picture, m: nat, row: nat, n: nat)
    requires PictureOk(p) && row < Rows(p) && n <= Cols(p) && m < |p.colors|
    ensures DoneTrace(p, m, row, 0).count + RowCount(RowRecords(p, m, row, Cols(p)), n) == DoneTrace(p, m, row, n).count
  {
    if n > 0 {
      var records := RowRecords(p, m, row, Cols(p));
      RowCountIsDone(p, m, row, n - 1);
      assert records[n - 1] == CellRecord(p, m, row, n - 1);
      assert RowCount(records, n) == RowCount(records, n - 1) + CellTrace(p, m, row, n - 1).count;
      DoneCountStep(p, m, row, n - 1);
    }
  }

  /** The triangles recorded for the first `n` rows are those the march gave before row `n`. */
  lemma GridCountIsDone(p: Picture, m: nat, n: nat)
    requires PictureOk(p) && n <= Rows(p) && m < |p.colors|
    ensures GridCount(RecordGrid(p, m, Rows(p)), n) == DoneTrace(p, m, n, 0).count
  {
    var g := RecordGrid(p, m, Rows(p));
    var d := seq(Rows(p) + 1, r requires 0 <= r <= Rows(p) => DoneTrace(p, m, r, 0).count);
    forall r | 0 <= r < |g|
      ensures d[r] + RowCount(g[r], Cols(p)) == d[r + 1]
    {
      RowCountIsDone(p, m, r, Cols(p));
      DoneCountRow(p, m, r);
      assert g[r] == RowRecords(p, m, r, Cols(p));
    }
    GridCountFromRows(g, Cols(p), d, n);
  }

  /**
   * The records of colour `m` fit its mesh: every cell addresses whole
   * triangles among the grid's corners, a full cell holds two, and
   * together they count every triangle.
   */
  lemma RecordGridOk(p: Picture, m: nat)
    requires PictureOk(p) && m < |p.colors|
    ensures var g := RecordGrid(p, m, Rows(p));
      |g| == Rows(p) && RecordsOk(g, Cols(p), |GridTrace(p, m).corners|) &&
      3 * GridCount(g, |g|) == |GridTrace(p, m).corners|
  {
    var g := RecordGrid(p, m, Rows(p));
    var t := GridTrace(p, m);
    DoneShape(p, m, Rows(p), 0);
    forall r, c | 0 <= r < |g| && 0 <= c < Cols(p)
      ensures CellOk(g[r][c], |t.corners|)
    {
      assert g[r][c] == CellRecord(p, m, r, c);
      DonePrefix(p, m, r, c + 1, Rows(p), 0);
      if Full(p, m, r, c) {
        FullCell(p, m, r, c);
      }
    }
    GridCountIsDone(p, m, Rows(p));
  }

  /** A full cell's two triangles sit at its record in the grid's corners, with the square's corners. */
  lemma BlockFits(p: Picture, m: nat, row: nat, col: nat)
    requires CellIn(p, row, col) && m < |p.colors| && Full(p, m, row, col)
    ensures var first := DoneTrace(p, m, row, col).count;
      3 * first + 6 <= |GridTrace(p, m).corners| &&
      GridTrace(p, m).corners[3 * first..3 * first + 6] == BlockSquare(p, m, row, col)
  {
    FullCell(p, m, row, col);
    DoneShape(p, m, row, col);
    DonePrefix(p, m, row, col + 1, Rows(p), 0);
    SliceOfPrefix(GridTrace(p, m).corners, DoneTrace(p, m, row, col).corners, CellTrace(p, m, row, col).corners);
  }

  /** A part of a prefix sits at its place in the whole. */
  lemma SliceOfPrefix<T>(whole: seq<T>, before: seq<T>, part: seq<T>)
    requires before + part <= whole
    ensures |before| + |part| <= |whole| && whole[|before|..|before| + |part|] == part
  {
    assert whole[..|before| + |part|] == before + part;
    assert whole[|before|..|before| + |part|] == (before + part)[|before|..];
  }

  /** A full cell of a grid of records holds its square's two triangles at its record's place in `corners`. */
  predicate BlockFitsAt(p: Picture, m: nat, g: seq<seq<Record>>, corners: seq<Point>, r: nat, c: nat)
    requires m < |p.colors| && r < |g| && c < |g[r]|
  {
    g[r][c].block ==>
      3 * g[r][c].first + 6 <= |corners| && corners[3 * g[r][c].first..3 * g[r][c].first + 6] == BlockSquare(p, m, r, c)
  }

  /** Every full cell of a grid of records fits. */
  predicate BlocksFit(p: Picture, m: nat, g: seq<seq<Record>>, corners: seq<Point>)
    requires PictureOk(p) && m < |p.colors|
  {
    |g| == Rows(p) && GridOk(g, Cols(p)) &&
    forall r, c :: 0 <= r < |g| && 0 <= c < |g[r]| ==> BlockFitsAt(p, m, g, corners, r, c)
  }

  /** The records of colour `m` fit the full cells of its mesh. */
  lemma GridBlocksFit(p: Picture, m: nat)
    requires PictureOk(p) && m < |p.colors|
    ensures BlocksFit(p, m, RecordGrid(p, m, Rows(p)), GridTrace(p, m).corners)
  {
    var g: seq<seq<Record>> := RecordGrid(p, m, Rows(p));
    assert GridOk(g, Cols(p));
    forall r, c | 0 <= r < |g| && 0 <= c < |g[r]|
      ensures BlockFitsAt(p, m, g, GridTrace(p, m).corners, r, c)
    {
      CellBlockFits(p, m, r, c);
    }
  }

  /** The record of one cell fits its square, if full. */
  lemma CellBlockFits(p: Picture, m: nat, r: nat, c: nat)
    requires CellIn(p, r, c) && m < |p.colors|
    ensures |RecordGrid(p, m, Rows(p))[r]| == Cols(p)
    ensures BlockFitsAt(p, m, RecordGrid(p, m, Rows(p)), GridTrace(p, m).corners, r, c)
  {
    RecordGridAt(p, m, r, c);
    var rec := RecordGrid(p, m, Rows(p))[r][c];
    assert rec.block == Full(p, m, r, c) && rec.first == DoneTrace(p, m, r, c).count;
    if rec.block {
      BlockFits(p, m, r, c);
    }
  }

  /** Cell (r, c) of the grid of records is that cell's record. */
  lemma RecordGridAt(p: Picture, m: nat, r: nat, c: nat)
    requires CellIn(p, r, c) && m < |p.colors|
    ensures |RecordGrid(p, m, Rows(p))[r]| == Cols(p)
    ensures RecordGrid(p, m, Rows(p))[r][c] == CellRecord(p, m, r, c)
  {
  }

  /**
   * The quad replacing a run of full cells spans the run: the north-west
   * corner of its first northern cell, the south-west corner of its first
   * southern cell, the south-east corner of its last southern cell and the
   * north-east corner of its last northern cell.
   */
  lemma RunQuadSpansRun(p: Picture, m: nat, g: seq<seq<Record>>, corners: seq<Point>, pair: nat, s: nat, e: nat)
    requires PictureOk(p) && m < |p.colors| && BlocksFit(p, m, g, corners) && RecordsOk(g, Cols(p), |corners|)
    requires 2 * pair + 1 < Rows(p) && s <= e < Cols(p) && Block(g, Cols(p), pair, s) && Block(g, Cols(p), pair, e)
    ensures RunQuad(ColourLayout, g, Cols(p), corners, pair, s, e) ==
      Quad(ColourLayout, MakePoint(p, m, SlotPos(2 * pair, s, 6)), MakePoint(p, m, SlotPos(2 * pair, e, 4)),
           MakePoint(p, m, SlotPos(2 * pair + 1, s, 0)), MakePoint(p, m, SlotPos(2 * pair + 1, e, 2)))
  {
    var n, n', s', e' := 2 * pair, 2 * pair + 1, s, e;
    assert RunQuad(ColourLayout, g, Cols(p), corners, pair, s, e) ==
      Quad(ColourLayout, corners[g[n][s'].first * 3 + 5], corners[g[n][e'].first * 3 + 2],
           corners[g[n'][s'].first * 3 + 0], corners[g[n'][e'].first * 3 + 1]);
    BlockAt(p, m, g, corners, n, s', 5);
    assert BlockSquare(p, m, n, s')[5] == MakePoint(p, m, SlotPos(n, s', 6));
    BlockAt(p, m, g, corners, n, e', 2);
    assert BlockSquare(p, m, n, e')[2] == MakePoint(p, m, SlotPos(n, e', 4));
    BlockAt(p, m, g, corners, n', s', 0);
    assert BlockSquare(p, m, n', s')[0] == MakePoint(p, m, SlotPos(n', s', 0));
    BlockAt(p, m, g, corners, n', e', 1);
    assert BlockSquare(p, m, n', e')[1] == MakePoint(p, m, SlotPos(n', e', 2));
  }

  /** Entry `j` of a full cell's two triangles, read through its record. */
  lemma BlockAt(p: Picture, m: nat, g: seq<seq<Record>>, corners: seq<Point>, row: nat, col: nat, j: nat)
    requires PictureOk(p) && m < |p.colors| && BlocksFit(p, m, g, corners)
    requires row < |g| && col < Cols(p) && g[row][col].block && j < 6
    ensures 3 * g[row][col].first + j < |corners|
    ensures corners[3 * g[row][col].first + j] == BlockSquare(p, m, row, col)[j]
  {
    var first := g[row][col].first;
    assert BlockFitsAt(p, m, g, corners, row, col);
    assert corners[3 * first..3 * first + 6][j] == corners[3 * first + j];
  }

  // ---------------------------------------------------------------------
  // The SIMPLIFY pass on one mesh.
  // ---------------------------------------------------------------------

  /** Point `i` of a mesh, for any index. */
  function PointOf(points: seq<Point>): nat -> Point
  {
    (i: nat) => if i < |points| then points[i] else Point(Pos(0, 0), 0)
  }

  lemma CornersMap(points: seq<Point>, s: seq<nat>)
    requires IndicesIn(s, |points|)
    ensures Corners(points, s) == MapSeq(PointOf(points), s)
  {
  }

  /**
   * The rebuilt triangles only use indices of the original ones, and
   * their corners are the simplification of the original corners.
   */
  lemma SimplifiedCorners(points: seq<Point>, g: seq<seq<Record>>, ncols: nat, tris: seq<nat>, n: nat)
    requires RecordsOk(g, ncols, |tris|) && 2 * n <= |g| && IndicesIn(tris, |points|)
    requires |Output(ColourLayout, g, ncols, tris, n)| <= |tris|
    ensures IndicesIn(Output(ColourLayout, g, ncols, tris, n), |points|)
    ensures Corners(points, Output(ColourLayout, g, ncols, tris, n)) == Output(ColourLayout, g, ncols, Corners(points, tris), n)
  {
    var out := Output(ColourLayout, g, ncols, tris, n);
    var clamp := Clamp(|points|);
    assert MapSeq(clamp, tris) == tris;
    OutputMap(clamp, ColourLayout, g, ncols, tris, n);
    assert |tris| > 0 ==> tris[0] < |points|;
    forall k | 0 <= k < |out| ensures out[k] < |points| {
      assert out[k] == clamp(out[k]);
    }
    CornersMap(points, out);
    CornersMap(points, tris);
    OutputMap(PointOf(points), ColourLayout, g, ncols, tris, n);
  }

  /**
   * The main triangles of the mesh of colour `m`: with SIMPLIFY and
   * triangles to eliminate, the simplified reference corners followed by
   * zero indices when the number of rows is odd, `ntriangles` reduced by
   * the eliminated count; otherwise the reference corners in raster order.
   */
  predicate MainOk(p: Picture, m: nat, points: seq<Point>, main: seq<nat>, simplify: bool)
    requires PictureOk(p) && m < |p.colors|
  {
    var t := GridTrace(p, m);
    var g := RecordGrid(p, m, Rows(p));
    var ncols, half := Cols(p), Rows(p) / 2;
    IndicesIn(main, |points|) && RecordsOk(g, ncols, |t.corners|) &&
    if simplify && TotalElim(g, ncols, half) > 0 then
      var out := Output(ColourLayout, g, ncols, t.corners, half);
      |main| + 3 * TotalElim(g, ncols, half) == |t.corners| &&
      |out| <= |main| && Corners(points, main[..|out|]) == out &&
      (forall k :: |out| <= k < |main| ==> main[k] == 0) &&
      (Rows(p) % 2 == 0 ==> |out| == |main|)
    else
      Corners(points, main) == t.corners
  }

  /**
   * The mesh of colour `m` before finalizing: the colour's points, its
   * main triangles as `MainOk` says, and its connector triangles kept apart.
   */
  predicate Reduced(p: Picture, m: nat, mesh: Mesh, simplify: bool)
    requires PictureOk(p) && m < |p.colors|
  {
    var t := GridTrace(p, m);
    mesh.dim == (if p.heights then 3 else 2) && mesh.color == p.colors[m] && mesh.points == t.created &&
    IndicesIn(mesh.conntri, |mesh.points|) && |mesh.conntri| == 3 * mesh.nconn &&
    Corners(mesh.points, mesh.conntri) == t.extrusion &&
    MainOk(p, m, mesh.points, mesh.triangles, simplify)
  }

  /** A marched mesh, left as it is, is reduced. */
  lemma MarchedReduced(p: Picture, m: nat, mesh: Mesh, simplify: bool)
    requires PictureOk(p) && m < |p.colors| && MeshAt(p, m, mesh, GridTrace(p, m))
    requires simplify ==> TotalElim(RecordGrid(p, m, Rows(p)), Cols(p), Rows(p) / 2) == 0
    ensures Reduced(p, m, mesh, simplify)
  {
    RecordGridOk(p, m);
  }

  /**
   * A rebuilt index list (the pass's output followed by zeros) addresses
   * points of the mesh, and its output part has the simplified corners.
   */
  lemma RebuiltIndices(points: seq<Point>, g: seq<seq<Record>>, ncols: nat, tris: seq<nat>, half: nat, newtris: seq<nat>)
    requires RecordsOk(g, ncols, |tris|) && 2 * half <= |g| && IndicesIn(tris, |points|) && |tris| > 0
    requires var out := Output(ColourLayout, g, ncols, tris, half);
      |out| <= |tris| && |out| <= |newtris| && newtris[..|out|] == out &&
      forall k :: |out| <= k < |newtris| ==> newtris[k] == 0
    ensures IndicesIn(newtris, |points|)
    ensures var out := Output(ColourLayout, g, ncols, tris, half);
      Corners(points, newtris[..|out|]) == Output(ColourLayout, g, ncols, Corners(points, tris), half)
  {
    var out := Output(ColourLayout, g, ncols, tris, half);
    SimplifiedCorners(points, g, ncols, tris, half);
    assert tris[0] < |points|;
    forall k | 0 <= k < |newtris| ensures newtris[k] < |points| {
      if k < |out| {
        assert newtris[k] == newtris[..|out|][k];
      }
    }
  }

  /** The rebuilt index list makes the main triangles of a simplified mesh. */
  lemma SimplifiedMain(p: Picture, m: nat, mesh: Mesh, newtris: seq<nat>)
    requires PictureOk(p) && m < |p.colors| && MeshAt(p, m, mesh, GridTrace(p, m))
    requires var g := RecordGrid(p, m, Rows(p));
      RecordsOk(g, Cols(p), |mesh.triangles|) && |g| == Rows(p) &&
      var elim := TotalElim(g, Cols(p), Rows(p) / 2);
      var out := Output(ColourLayout, g, Cols(p), mesh.triangles, Rows(p) / 2);
      elim > 0 && |newtris| == |mesh.triangles| - 3 * elim &&
      |out| <= |newtris| && newtris[..|out|] == out &&
      forall k :: |out| <= k < |newtris| ==> newtris[k] == 0
    ensures MainOk(p, m, mesh.points, newtris, true)
  {
    var g := RecordGrid(p, m, Rows(p));
    var ncols, half := Cols(p), Rows(p) / 2;
    var tris := mesh.triangles;
    RecordGridOk(p, m);
    OutputFits(ColourLayout, g, ncols, tris);
    RebuiltIndices(mesh.points, g, ncols, tris, half, newtris);
    OutputLength(ColourLayout, g, ncols, GridTrace(p, m).corners, half);
    OutputLength(ColourLayout, g, ncols, tris, half);
  }

  /**
   * SIMPLIFY on the mesh of colour `m`: the records are built from the
   * march's words, the eliminated triangles counted, and when there are
   * any the triangles rebuilt with runs replaced by quads.
   */
  method SimplifyMesh(p: Picture, m: nat, mesh: Mesh, words: seq<seq<CellWords>>) returns (mesh2: Mesh)
    requires PictureOk(p) && m < |p.colors| && words == WordGrid(p, Rows(p))
    requires MeshAt(p, m, mesh, GridTrace(p, m))
    ensures Reduced(p, m, mesh2, true)
  {
    RecordGridOk(p, m);
    var g := BuildRecords(p, m, words);
    var ncols := Cols(p);
    var elim := CountEliminated(g, ncols);
    if elim == 0 {
      MarchedReduced(p, m, mesh, true);
      return mesh;
    }
    var tris := Rebuild(ColourLayout, g, ncols, mesh.triangles, elim);
    SimplifiedMain(p, m, mesh, tris);
    mesh2 := mesh.(triangles := tris);
  }

  // ---------------------------------------------------------------------
  // The finished meshes.
  // ---------------------------------------------------------------------

  /**
   * A finished mesh of colour `m`: the colour's word, 3-tuples with
   * HEIGHTS, the points the cells created, the main triangles as `MainOk`
   * says followed by the connector triangles with the reference connector
   * corners, and nothing pending.
   */
  predicate ColourTessellated(mesh: Mesh, p: Picture, m: nat, simplify: bool)
    requires PictureOk(p) && m < |p.colors|
  {
    var t := GridTrace(p, m);
    var n := |mesh.triangles| - |t.extrusion|;
    mesh.dim == (if p.heights then 3 else 2) && mesh.color == p.colors[m] && mesh.points == t.created &&
    mesh.conntri == [] && mesh.nconn == 0 && 0 <= n &&
    IndicesIn(mesh.triangles, |mesh.points|) &&
    Corners(mesh.points, mesh.triangles[n..]) == t.extrusion &&
    MainOk(p, m, mesh.points, mesh.triangles[..n], simplify)
  }

  /** Appending the connectors of a reduced mesh finishes it; the first colour has none. */
  lemma AppendedTessellated(p: Picture, m: nat, mesh: Mesh, simplify: bool)
    requires PictureOk(p) && m < |p.colors| && Reduced(p, m, mesh, simplify)
    ensures ColourTessellated(Appended(mesh), p, m, simplify)
    ensures m == 0 ==> Appended(mesh) == mesh
  {
    var a := Appended(mesh);
    var main := mesh.triangles;
    assert a.triangles[..|main|] == main && a.triangles[|main|..] == mesh.conntri;
    if m == 0 {
      NoExtrusion(p, m, Rows(p), 0);
      assert mesh.conntri == [];
      assert main + [] == main;
    }
  }

  /** Finalizing reduced meshes finishes every one of them. */
  lemma FinalizedTessellated(p: Picture, meshes: seq<Mesh>, simplify: bool)
    requires PictureOk(p) && |meshes| == |p.colors|
    requires forall m :: 0 <= m < |meshes| ==> Reduced(p, m, meshes[m], simplify)
    ensures |Finalized(meshes)| == |meshes|
    ensures forall m :: 0 <= m < |meshes| ==> ColourTessellated(Finalized(meshes)[m], p, m, simplify)
  {
    forall m | 0 <= m < |meshes|
      ensures ColourTessellated(Finalized(meshes)[m], p, m, simplify)
    {
      AppendedTessellated(p, m, meshes[m], simplify);
    }
  }

  /** SIMPLIFY applied to every mesh, colour by colour. */
  method SimplifyAll(p: Picture, meshes: seq<Mesh>, words: seq<seq<CellWords>>) returns (r: seq<Mesh>)
    requires PictureOk(p) && Marched(p, meshes) && words == WordGrid(p, Rows(p))
    ensures |r| == |meshes| && forall m :: 0 <= m < |r| ==> Reduced(p, m, r[m], true)
  {
    r := meshes;
    for m := 0 to |meshes|
      invariant |r| == |meshes|
      invariant forall k :: 0 <= k < m ==> Reduced(p, k, r[k], true)
      invariant forall k :: m <= k < |r| ==> r[k] == meshes[k]
    {
      var mesh := SimplifyMesh(p, m, r[m], words);
      r := r[m := mesh];
    }
  }

  // ---------------------------------------------------------------------
  // The whole call.
  // ---------------------------------------------------------------------

  /**
   * The picture a call marches: its colour table is the ascending set of
   * pixel colours, and each pixel is the position of its colour there.
   */
  predicate Painted(p: Picture, tables: TableSet, data: seq<Byte>, width: nat, height: nat, cellsize: nat,
                    bpp: nat, flags: Flags)
  {
    p.tables == tables && p.width == width && p.height == height && p.cellsize == cellsize &&
    p.heights == (flags & HEIGHTS != 0) && p.connect == (flags & CONNECT != 0) &&
    |p.pixels| == width * height && |data| == Offset(width * height, bpp) &&
    Ascending(p.colors) && Elems(p.colors) == PixelColors(data, bpp, width * height) &&
    Indexes(data, bpp, p.colors, p.pixels) && PictureOk(p)
  }

  /**
   * `par_msquares_color_multi`: nothing when the image has more than 256
   * colours (where the source asserts), otherwise one finished mesh per
   * colour of the ascending colour table.
   */
  method ColorMulti(tables: TableSet, data: seq<Byte>, width: nat, height: nat, cellsize: nat, bpp: nat, flags: Flags)
      returns (r: Option<seq<Mesh>>, ghost p: Picture)
    requires TablesOk(tables) && SizesOk(width, height, cellsize)
    requires 1 <= bpp <= 4 && (flags & HEIGHTS != 0 ==> bpp == 4)
    requires flags & SNAP == 0 && flags & INVERT == 0 && flags & DUAL == 0
    requires |data| == Offset(width * height, bpp)
    ensures r.None? <==> |PixelColors(data, bpp, width * height)| > 256
    ensures r.Some? ==> Painted(p, tables, data, width, height, cellsize, bpp, flags) && |r.value| == |p.colors|
    ensures r.Some? ==> forall m :: 0 <= m < |p.colors| ==> ColourTessellated(r.value[m], p, m, flags & SIMPLIFY != 0)
  {
    var npixels := width * height;
    var found := Discover(data, bpp, npixels);
    if found.None? {
      return None, Picture(tables, width, height, cellsize, [], [], false, false);
    }
    var colors := found.value;
    var pixels := Remap(data, bpp, npixels, colors);
    var pic := Picture(tables, width, height, cellsize, pixels, colors, flags & HEIGHTS != 0, flags & CONNECT != 0);
    p := pic;
    assert Elems(colors) == PixelColors(data, bpp, npixels);
    var simplify := flags & SIMPLIFY != 0;
    var meshes, words := MarchGrid(pic, simplify);
    if simplify {
      meshes := SimplifyAll(pic, meshes, words);
    } else {
      forall m | 0 <= m < |meshes|
        ensures Reduced(pic, m, meshes[m], false)
      {
        MarchedReduced(pic, m, meshes[m], false);
      }
    }
    var finished := Finalize(meshes);
    FinalizedTessellated(pic, meshes, simplify);
    r := Some(finished);
  }
}

/**
 * The colour marcher, `par_msquares_color_multi`: every pixel holds the
 * position of its colour in the colour table, each cell is classified by
 * the canonical code of its four corner colours, and each corner hands
 * the quaternary table's triangles for that corner to the mesh of its
 * colour.  Points on the western and northern edges of a cell are welded,
 * per colour, to the coincident points of the neighbour; with CONNECT
 * every mesh but the first also gets extrusion points along the corner's
 * boundary edges and a pair of connector triangles per edge segment.
 *
 * The reference definitions below describe, per colour, what the cells
 * produce in raster order, independently of the per-colour masks, index
 * buffers and row buffers the marcher keeps.
 */
module ColourMarch {
  import opened Tables
  import opened Classify
  import opened Geometry
  import opened Meshes
  import opened Palette

  /**
   * What the march reads: the decoded tables, the image size and cell
   * size, each pixel's position in the colour table, the colour table,
   * and whether HEIGHTS and CONNECT are set.
   */
  datatype Picture = Picture(tables: TableSet, width: nat, height: nat, cellsize: nat,
                             pixels: seq<nat>, colors: seq<nat>, heights: bool, connect: bool)

  predicate PictureOk(p: Picture)
  {
    TablesOk(p.tables) && SizesOk(p.width, p.height, p.cellsize) && |p.pixels| == p.width * p.height &&
    forall i :: 0 <= i < |p.pixels| ==> p.pixels[i] < |p.colors|
  }

  /**
   * What the colour marcher needs of the sizes: a positive cell size and a
   * non-empty image.  Unlike `par_msquares_function` it does not assert
   * that the sizes are multiples of the cell size; the cells then cover
   * the image's north-west part.
   */
  predicate SizesOk(width: nat, height: nat, cellsize: nat)
  {
    cellsize > 0 && width > 0 && height > 0
  }

  function Cols(p: Picture): nat
    requires PictureOk(p)
  {
    p.width / p.cellsize
  }

  function Rows(p: Picture): nat
    requires PictureOk(p)
  {
    p.height / p.cellsize
  }

  predicate CellIn(p: Picture, row: nat, col: nat)
  {
    PictureOk(p) && row < Rows(p) && col < Cols(p)
  }

  /** The first pixel of a cell row's northern and southern grid lines lies inside the image. */
  lemma RowStartsInImage(p: Picture, row: nat)
    requires PictureOk(p) && row < Rows(p)
    ensures 0 <= NorthStart(p.width, p.cellsize, row) < |p.pixels|
    ensures 0 <= SouthStart(p.width, p.height, p.cellsize, row) < |p.pixels|
    ensures NorthStart(p.width, p.cellsize, row) + p.width <= |p.pixels|
    ensures SouthStart(p.width, p.height, p.cellsize, row) + p.width <= |p.pixels|
  {
    RowStartsBelow(p.width, p.height, p.cellsize, row);
  }

  /** The arithmetic of `RowStartsInImage`, on the sizes alone. */
  lemma RowStartsBelow(w: nat, h: nat, cs: nat, row: nat)
    requires SizesOk(w, h, cs) && row < h / cs
    ensures 0 <= NorthStart(w, cs, row) < w * h && NorthStart(w, cs, row) + w <= w * h
    ensures 0 <= SouthStart(w, h, cs, row) < w * h && SouthStart(w, h, cs, row) + w <= w * h
  {
    var nrows := h / cs;
    assert nrows * cs <= h by {
      assert h == nrows * cs + h % cs;
    }
    MulMonotone(row + 1, nrows, cs);
    assert row * cs + 1 <= h;
    MulMonotone(row * cs + 1, h, w);
    assert (row * cs + 1) * w == row * cs * w + w;
    assert (h - 1) * w + w == w * h;
  }

  /** Every corner sample the marcher reads lies inside the image. */
  lemma CornerInImage(p: Picture, row: nat, j: nat)
    requires PictureOk(p) && row < Rows(p) && j <= Cols(p) && Cols(p) > 0
    ensures 0 <= NorthStart(p.width, p.cellsize, row) + ColumnOffset(Cols(p), p.cellsize, j) < |p.pixels|
    ensures 0 <= SouthStart(p.width, p.height, p.cellsize, row) + ColumnOffset(Cols(p), p.cellsize, j) < |p.pixels|
  {
    var w, cs := p.width, p.cellsize;
    ColumnInRow(w, cs, Cols(p), j);
    RowStartsInImage(p, row);
  }

  /** A grid line's offset lies within the row. */
  lemma ColumnInRow(w: nat, cs: nat, ncols: nat, j: nat)
    requires cs > 0 && ncols == w / cs && 0 < ncols && j <= ncols
    ensures 0 <= ColumnOffset(ncols, cs, j) < w
  {
    assert ncols * cs <= w by {
      assert w == ncols * cs + w % cs;
    }
    if j < ncols {
      MulMonotone(j, ncols - 1, cs);
      assert (ncols - 1) * cs == ncols * cs - cs;
    } else {
      MulMonotone(1, ncols, cs);
    }
  }

  // ---------------------------------------------------------------------
  // Cells and corners.
  // ---------------------------------------------------------------------

  /**
   * The colours (`vals`) at the corners SW, SE, NE, NW of a cell, sampled
   * on the cell grid lines like the binary marcher's corners: the eastmost
   * line pulled back one pixel, the southmost row clamped to the last
   * pixel row.
   */
  function CornerValues(p: Picture, row: nat, col: nat): (v: seq<nat>)
    requires CellIn(p, row, col)
    ensures |v| == 4 && forall c :: 0 <= c < 4 ==> v[c] < |p.colors|
  {
    CornerInImage(p, row, col);
    CornerInImage(p, row, col + 1);
    var north := NorthStart(p.width, p.cellsize, row);
    var south := SouthStart(p.width, p.height, p.cellsize, row);
    var west := ColumnOffset(Cols(p), p.cellsize, col);
    var east := ColumnOffset(Cols(p), p.cellsize, col + 1);
    [p.pixels[south + west], p.pixels[south + east], p.pixels[north + east], p.pixels[north + west]]
  }

  /** The quaternary case of a cell: its canonical code shifted right by two. */
  function CellCode(p: Picture, row: nat, col: nat): (code: nat)
    requires CellIn(p, row, col)
    ensures code < 64
  {
    var v := CornerValues(p, row, col);
    MultiCode(v[0], v[1], v[2], v[3]) / 4
  }

  /** Slot lists whose entries are slots of a cell, the centre included. */
  predicate SlotList(l: seq<int>)
  {
    forall j :: 0 <= j < |l| ==> 0 <= l[j] < 9
  }

  /** The triangle slots (`trispecs`) the table gives corner `c` of a cell, three per triangle. */
  function CornerSlots(p: Picture, row: nat, col: nat, c: nat): (slots: seq<int>)
    requires CellIn(p, row, col) && c < 4
    ensures SlotList(slots) && |slots| % 3 == 0
  {
    var t := p.tables.quaternaryTriangles;
    var code := CellCode(p, row, col);
    assert |t[code]| == 4 && |t[code][c]| % 3 == 0;
    assert forall j :: 0 <= j < |t[code][c]| ==> 0 <= t[code][c][j] < 9;
    t[code][c]
  }

  /** The boundary slots (`edgespecs`) the table gives corner `c`: all among the corner's triangle slots. */
  function CornerEdges(p: Picture, row: nat, col: nat, c: nat): (edges: seq<int>)
    requires CellIn(p, row, col) && c < 4
    ensures SlotList(edges) && forall j :: 0 <= j < |edges| ==> edges[j] in CornerSlots(p, row, col, c)
  {
    var e := p.tables.quaternaryEdges;
    var code := CellCode(p, row, col);
    assert |e[code]| == 4;
    assert forall j :: 0 <= j < |e[code][c]| ==> 0 <= e[code][c][j] < 9 && e[code][c][j] in p.tables.quaternaryTriangles[code][c];
    e[code][c]
  }

  /** The slots of a list. */
  function SlotSet(l: seq<int>): set<int>
  {
    set x | x in l
  }

  /** The slots of a list that go into a cell mask (`currcell`): all but the centre. */
  function MaskOf(l: seq<int>): set<int>
  {
    set x | x in l && 0 <= x < 8
  }

  /** The mask bits corner `c` sets for colour `m`: its slots when it has colour `m`, none otherwise. */
  function CornerMask(p: Picture, m: nat, row: nat, col: nat, c: nat): set<int>
    requires CellIn(p, row, col) && c < 4
  {
    if CornerValues(p, row, col)[c] == m then MaskOf(CornerSlots(p, row, col, c)) else {}
  }

  /** The mask of colour `m` after the first `k` corners of a cell. */
  function MaskUpTo(p: Picture, m: nat, row: nat, col: nat, k: nat): set<int>
    requires CellIn(p, row, col) && k <= 4
  {
    if k == 0 then {} else MaskUpTo(p, m, row, col, k - 1) + CornerMask(p, m, row, col, k - 1)
  }

  /** The slots below 8 a cell emits a point for in the mesh of colour `m`, welded or not. */
  function Mask(p: Picture, m: nat, row: nat, col: nat): set<int>
    requires CellIn(p, row, col)
  {
    MaskUpTo(p, m, row, col, 4)
  }

  /** The mask of the western neighbour; none in column 0. */
  function WestMask(p: Picture, m: nat, row: nat, col: nat): set<int>
    requires CellIn(p, row, col)
  {
    if col == 0 then {} else Mask(p, m, row, col - 1)
  }

  /** The mask of the northern neighbour; none in row 0. */
  function NorthMask(p: Picture, m: nat, row: nat, col: nat): set<int>
    requires CellIn(p, row, col)
  {
    if row == 0 then {} else Mask(p, m, row - 1, col)
  }

  // ---------------------------------------------------------------------
  // Points.
  // ---------------------------------------------------------------------

  /** The alpha byte of a colour word (`color >> 24`). */
  function Alpha(color: nat): nat
  {
    color / 0x100_0000
  }

  /** The point the marcher creates in the mesh of colour `m`: its Z is the colour's alpha with HEIGHTS. */
  function MakePoint(p: Picture, m: nat, pos: Pos): Point
    requires m < |p.colors|
  {
    Point(pos, if p.heights then Alpha(p.colors[m]) else 0)
  }

  /** The least of `own` and the alphas of `colors[..n]`. */
  function LowestOf(colors: seq<nat>, own: nat, n: nat): nat
    requires n <= |colors|
  {
    if n == 0 then own
    else
      var low := LowestOf(colors, own, n - 1);
      if Alpha(colors[n - 1]) < low then Alpha(colors[n - 1]) else low
  }

  /** The height of the extrusion points of colour `m`: the least alpha of the colours up to `m`. */
  function MinAlpha(colors: seq<nat>, m: nat): nat
    requires m < |colors|
  {
    LowestOf(colors, Alpha(colors[m]), m)
  }

  /** The same as the source's loop computes it: the colour just before `m` is skipped. */
  function MinAlphaAsWritten(colors: seq<nat>, m: nat): nat
    requires m < |colors|
  {
    LowestOf(colors, Alpha(colors[m]), if m == 0 then 0 else m - 1)
  }

  /**
   * The skipped colour matters: with colour 0 at alpha 1 and colour 1 at
   * alpha 5, the source gives colour 1's extrusion points height 5, its own
   * alpha (a wall of zero height), where the least alpha up to it is 1.
   */
  lemma MinAlphaSkipsPrevious()
    ensures MinAlphaAsWritten([0x100_0000, 0x500_0000], 1) == 5
    ensures MinAlpha([0x100_0000, 0x500_0000], 1) == 1
  {
    assert Alpha(0x500_0000) == 5 && Alpha(0x100_0000) == 1;
  }

  /** An extrusion point of colour `m`: a copy of a boundary point, at the height of `MinAlpha` with HEIGHTS. */
  function ExtrusionPoint(p: Picture, m: nat, pos: Pos): Point
    requires m < |p.colors|
  {
    Point(pos, if p.heights then MinAlpha(p.colors, m) else 0)
  }

  /**
   * The points a corner of colour `m` creates for the first `n` entries of
   * its slot list: one per slot not seen before in the list (`usedpts`)
   * that is not welded to the western or northern neighbour.
   */
  function CornerFresh(p: Picture, m: nat, row: nat, col: nat, slots: seq<int>, west: set<int>, north: set<int>, n: nat): seq<Point>
    requires m < |p.colors| && SlotList(slots) && n <= |slots|
  {
    if n == 0 then []
    else
      CornerFresh(p, m, row, col, slots, west, north, n - 1) +
      if slots[n - 1] in slots[..n - 1] || Welded(slots[n - 1] as nat, west, north) then []
      else [MakePoint(p, m, SlotPos(row, col, slots[n - 1] as nat))]
  }

  /** The triangle corners of a slot list, in table order. */
  function TableCorners(p: Picture, m: nat, row: nat, col: nat, slots: seq<int>): (r: seq<Point>)
    requires m < |p.colors| && SlotList(slots)
    ensures |r| == |slots|
  {
    seq(|slots|, j requires 0 <= j < |slots| => MakePoint(p, m, SlotPos(row, col, slots[j] as nat)))
  }

  /** The extrusion points of the first `n` boundary slots, one per slot. */
  function Extrusions(p: Picture, m: nat, row: nat, col: nat, edges: seq<int>, n: nat): (r: seq<Point>)
    requires m < |p.colors| && SlotList(edges) && n <= |edges|
    ensures |r| == n
  {
    seq(n, e requires 0 <= e < n => ExtrusionPoint(p, m, SlotPos(row, col, edges[e] as nat)))
  }

  /**
   * The corners of the connector triangles of the first `n` boundary
   * slots: for each pair of consecutive boundary slots with points O0, O1
   * and extrusion points X0, X1, the triangles (O0, X0, X1) and (X1, O1, O0).
   */
  function ConnectorCorners(p: Picture, m: nat, row: nat, col: nat, edges: seq<int>, n: nat): (r: seq<Point>)
    requires m < |p.colors| && SlotList(edges) && n <= |edges|
    ensures |r| == if n == 0 then 0 else 6 * (n - 1)
  {
    if n <= 1 then []
    else
      var o0 := MakePoint(p, m, SlotPos(row, col, edges[n - 2] as nat));
      var o1 := MakePoint(p, m, SlotPos(row, col, edges[n - 1] as nat));
      var x0 := ExtrusionPoint(p, m, SlotPos(row, col, edges[n - 2] as nat));
      var x1 := ExtrusionPoint(p, m, SlotPos(row, col, edges[n - 1] as nat));
      ConnectorCorners(p, m, row, col, edges, n - 1) + [o0, x0, x1, x1, o1, o0]
  }

  // ---------------------------------------------------------------------
  // Traces: what the cells add to the mesh of one colour.
  // ---------------------------------------------------------------------

  /** What a march adds to a mesh: created points, triangle corners, the number of triangles, connector corners. */
  datatype Trace = Trace(created: seq<Point>, corners: seq<Point>, count: nat, extrusion: seq<Point>)

  const Empty := Trace([], [], 0, [])

  function Extend(t: Trace, u: Trace): Trace
  {
    Trace(t.created + u.created, t.corners + u.corners, t.count + u.count, t.extrusion + u.extrusion)
  }

  lemma ExtendAssoc(t: Trace, u: Trace, w: Trace)
    ensures Extend(Extend(t, u), w) == Extend(t, Extend(u, w))
  {
    assert (t.created + u.created) + w.created == t.created + (u.created + w.created);
    assert (t.corners + u.corners) + w.corners == t.corners + (u.corners + w.corners);
    assert (t.extrusion + u.extrusion) + w.extrusion == t.extrusion + (u.extrusion + w.extrusion);
  }

  /** Whether corner points of colour `m` get extrusion points and connectors: with CONNECT, all colours but the first. */
  predicate Extruded(p: Picture, m: nat)
  {
    p.connect && m != 0
  }

  /** What corner `c` of a cell adds to the mesh of colour `m` when the corner has that colour. */
  function CornerTrace(p: Picture, m: nat, row: nat, col: nat, c: nat): Trace
    requires CellIn(p, row, col) && m < |p.colors| && c < 4
  {
    var slots, edges := CornerSlots(p, row, col, c), CornerEdges(p, row, col, c);
    var made := CornerFresh(p, m, row, col, slots, WestMask(p, m, row, col), NorthMask(p, m, row, col), |slots|);
    Trace(made + (if Extruded(p, m) then Extrusions(p, m, row, col, edges, |edges|) else []),
          TableCorners(p, m, row, col, slots), |slots| / 3,
          if Extruded(p, m) then ConnectorCorners(p, m, row, col, edges, |edges|) else [])
  }

  /** What the first `k` corners of a cell add to the mesh of colour `m`. */
  function CellTraceUpTo(p: Picture, m: nat, row: nat, col: nat, k: nat): Trace
    requires CellIn(p, row, col) && m < |p.colors| && k <= 4
  {
    if k == 0 then Empty
    else
      Extend(CellTraceUpTo(p, m, row, col, k - 1),
        if CornerValues(p, row, col)[k - 1] == m then CornerTrace(p, m, row, col, k - 1) else Empty)
  }

  function CellTrace(p: Picture, m: nat, row: nat, col: nat): Trace
    requires CellIn(p, row, col) && m < |p.colors|
  {
    CellTraceUpTo(p, m, row, col, 4)
  }

  /** A position of the march: a row and a column, or just past the last row. */
  predicate Progress(p: Picture, row: nat, col: nat)
  {
    PictureOk(p) && row <= Rows(p) && col <= Cols(p) && (row == Rows(p) ==> col == 0)
  }

  /** What the cells before (`row`, `col`) add to the mesh of colour `m`, in raster order. */
  function DoneTrace(p: Picture, m: nat, row: nat, col: nat): Trace
    requires Progress(p, row, col) && m < |p.colors|
    decreases row, col
  {
    if col > 0 then Extend(DoneTrace(p, m, row, col - 1), CellTrace(p, m, row, col - 1))
    else if row > 0 then DoneTrace(p, m, row - 1, Cols(p))
    else Empty
  }

  /** The mesh of colour `m` the whole grid produces. */
  function GridTrace(p: Picture, m: nat): Trace
    requires PictureOk(p) && m < |p.colors|
  {
    DoneTrace(p, m, Rows(p), 0)
  }

  // ---------------------------------------------------------------------
  // Meshes and index buffers.
  // ---------------------------------------------------------------------

  /** The points an index list refers to. */
  function Corners(points: seq<Point>, s: seq<nat>): (r: seq<Point>)
    requires IndicesIn(s, |points|)
    ensures |r| == |s|
  {
    seq(|s|, j requires 0 <= j < |s| => points[s[j]])
  }

  lemma CornersAppend(points: seq<Point>, s: seq<nat>, d: seq<nat>)
    requires IndicesIn(s, |points|) && IndicesIn(d, |points|)
    ensures IndicesIn(s + d, |points|)
    ensures Corners(points, s + d) == Corners(points, s) + Corners(points, d)
  {
  }

  /** Appending the two connector triangles between slot points `i2`, `i3` and their extrusions `i1`, `i0`. */
  lemma ConnectorsAppend(points: seq<Point>, s: seq<nat>, i0: nat, i1: nat, i2: nat, i3: nat, base: seq<Point>)
    requires IndicesIn(s, |points|) && i0 < |points| && i1 < |points| && i2 < |points| && i3 < |points|
    requires Corners(points, s) == base
    ensures IndicesIn(s + [i2, i1, i0, i0, i3, i2], |points|)
    ensures Corners(points, s + [i2, i1, i0, i0, i3, i2]) ==
      base + [points[i2], points[i1], points[i0], points[i0], points[i3], points[i2]]
  {
    CornersAppend(points, s, [i2, i1, i0, i0, i3, i2]);
  }

  lemma CornersGrow(points: seq<Point>, points2: seq<Point>, s: seq<nat>)
    requires IndicesIn(s, |points|) && |points| <= |points2| && points2[..|points|] == points
    ensures IndicesIn(s, |points2|)
    ensures Corners(points2, s) == Corners(points, s)
  {
    forall j | 0 <= j < |s| ensures points2[s[j]] == points[s[j]] {
      assert points2[..|points|][s[j]] == points2[s[j]];
    }
  }

  /** What a mesh holds, read as a trace: its points, the corners of its triangles and of its connectors. */
  function Observed(mesh: Mesh): Trace
    requires IndicesIn(mesh.triangles, |mesh.points|) && IndicesIn(mesh.conntri, |mesh.points|)
  {
    Trace(mesh.points, Corners(mesh.points, mesh.triangles), |mesh.triangles| / 3, Corners(mesh.points, mesh.conntri))
  }

  /**
   * The mesh of colour `m` holds trace `t`: 3-tuples with HEIGHTS, the
   * colour's word, whole triangles addressing its points, `nconn`
   * connector triangles kept apart, and exactly the points and corners of `t`.
   */
  predicate MeshAt(p: Picture, m: nat, mesh: Mesh, t: Trace)
    requires m < |p.colors|
  {
    mesh.dim == (if p.heights then 3 else 2) && mesh.color == p.colors[m] &&
    IndicesIn(mesh.triangles, |mesh.points|) && IndicesIn(mesh.conntri, |mesh.points|) &&
    |mesh.triangles| % 3 == 0 && |mesh.conntri| == 3 * mesh.nconn &&
    Observed(mesh) == t
  }

  /**
   * The indices `inds` holds for the slots of `slots` (those below
   * `|inds|`) are points of the mesh of colour `m` at those slots of cell
   * (`row`, `col`).
   */
  predicate IndsOk(p: Picture, m: nat, points: seq<Point>, inds: seq<nat>, slots: set<int>, row: int, col: int)
    requires m < |p.colors| && |inds| <= 9
  {
    forall s :: 0 <= s < |inds| && s in slots ==> inds[s] < |points| && points[inds[s]] == MakePoint(p, m, SlotPos(row, col, s))
  }

  lemma IndsGrow(p: Picture, m: nat, points: seq<Point>, points2: seq<Point>, inds: seq<nat>, slots: set<int>, row: int, col: int)
    requires m < |p.colors| && |inds| <= 9 && IndsOk(p, m, points, inds, slots, row, col)
    requires |points| <= |points2| && points2[..|points|] == points
    ensures IndsOk(p, m, points2, inds, slots, row, col)
  {
    forall s | 0 <= s < |inds| && s in slots
      ensures inds[s] < |points2| && points2[inds[s]] == MakePoint(p, m, SlotPos(row, col, s))
    {
      assert points2[..|points|][inds[s]] == points2[inds[s]];
    }
  }

  /** Setting the index of slot `s` to a point at that slot extends the index facts to `s`. */
  lemma IndsSet(p: Picture, m: nat, points: seq<Point>, inds: seq<nat>, inds2: seq<nat>, slots: set<int>, row: int, col: int, s: int)
    requires m < |p.colors| && |inds| == 9 && |inds2| == 9 && IndsOk(p, m, points, inds, slots, row, col)
    requires forall t :: 0 <= t < 9 && t != s ==> inds2[t] == inds[t]
    requires 0 <= s < 9 && inds2[s] < |points| && points[inds2[s]] == MakePoint(p, m, SlotPos(row, col, s))
    ensures IndsOk(p, m, points, inds2, slots + {s}, row, col)
  {
  }

  /** The masks and index buffers of the western and northern neighbours, as the weld tests read them. */
  predicate NeighboursOk(p: Picture, m: nat, row: nat, col: nat, points: seq<Point>,
                         westcell: set<int>, westinds: seq<nat>, northcell: set<int>, northinds: seq<nat>)
    requires CellIn(p, row, col) && m < |p.colors|
  {
    |westinds| == 9 && |northinds| == 3 &&
    (col > 0 ==> westcell == WestMask(p, m, row, col) && IndsOk(p, m, points, westinds, westcell, row, col - 1)) &&
    (row > 0 ==> northcell == NorthMask(p, m, row, col) && IndsOk(p, m, points, northinds, northcell, row - 1, col))
  }

  lemma NeighboursGrow(p: Picture, m: nat, row: nat, col: nat, points: seq<Point>, points2: seq<Point>,
                       westcell: set<int>, westinds: seq<nat>, northcell: set<int>, northinds: seq<nat>)
    requires CellIn(p, row, col) && m < |p.colors|
    requires NeighboursOk(p, m, row, col, points, westcell, westinds, northcell, northinds)
    requires |points| <= |points2| && points2[..|points|] == points
    ensures NeighboursOk(p, m, row, col, points2, westcell, westinds, northcell, northinds)
  {
    if col > 0 {
      IndsGrow(p, m, points, points2, westinds, westcell, row, col - 1);
    }
    if row > 0 {
      IndsGrow(p, m, points, points2, northinds, northcell, row - 1, col);
    }
  }

  // ---------------------------------------------------------------------
  // One corner of one cell.
  // ---------------------------------------------------------------------

  /**
   * One slot of a corner's triangle list: the northern neighbour's point
   * when it emitted the coincident slot (tested first), else the western
   * neighbour's, else a new point.
   */
  method PlaceSlot(p: Picture, m: nat, row: nat, col: nat, s: int, points: seq<Point>, inds: seq<nat>,
                   westcell: set<int>, westinds: seq<nat>, northcell: set<int>, northinds: seq<nat>)
      returns (points2: seq<Point>, inds2: seq<nat>)
    requires CellIn(p, row, col) && m < |p.colors| && 0 <= s < 9 && |inds| == 9
    requires NeighboursOk(p, m, row, col, points, westcell, westinds, northcell, northinds)
    ensures points2 == points + if Welded(s, WestMask(p, m, row, col), NorthMask(p, m, row, col)) then [] else [MakePoint(p, m, SlotPos(row, col, s))]
    ensures |inds2| == 9 && forall t :: 0 <= t < 9 && t != s ==> inds2[t] == inds[t]
    ensures inds2[s] < |points2| && points2[inds2[s]] == MakePoint(p, m, SlotPos(row, col, s))
    ensures NorthPartner(s).Some? && NorthPartner(s).value in NorthMask(p, m, row, col) ==>
      inds2[s] == northinds[NorthPartner(s).value]
    ensures (!(NorthPartner(s).Some? && NorthPartner(s).value in NorthMask(p, m, row, col)) &&
             WestPartner(s).Some? && WestPartner(s).value in WestMask(p, m, row, col)) ==>
      inds2[s] == westinds[WestPartner(s).value]
    ensures !Welded(s, WestMask(p, m, row, col), NorthMask(p, m, row, col)) ==> inds2[s] == |points|
  {
    PartnerTablesAgree();
    var north := Entry(NorthToSouth, s);
    if row > 0 && north.Some? && north.value in northcell {
      NorthPartnerIsCoincidence(row, col, s, north.value);
      return points, inds[s := northinds[north.value]];
    }
    var west := Entry(WestToEast, s);
    if col > 0 && west.Some? && west.value in westcell {
      WestPartnerIsCoincidence(row, col, s, west.value);
      return points, inds[s := westinds[west.value]];
    }
    return points + [MakePoint(p, m, SlotPos(row, col, s))], inds[s := |points|];
  }

  /**
   * The point loop of a corner: each slot of its triangle list not seen
   * before in the list gets a point, and the slots below 8 go into the
   * cell's mask.
   */
  method PlaceCorner(p: Picture, m: nat, row: nat, col: nat, slots: seq<int>, points: seq<Point>, cell: set<int>, inds: seq<nat>,
                     westcell: set<int>, westinds: seq<nat>, northcell: set<int>, northinds: seq<nat>)
      returns (points2: seq<Point>, cell2: set<int>, inds2: seq<nat>)
    requires CellIn(p, row, col) && m < |p.colors| && SlotList(slots)
    requires |inds| == 9 && IndsOk(p, m, points, inds, cell, row, col)
    requires NeighboursOk(p, m, row, col, points, westcell, westinds, northcell, northinds)
    ensures points2 == points + CornerFresh(p, m, row, col, slots, WestMask(p, m, row, col), NorthMask(p, m, row, col), |slots|)
    ensures cell2 == cell + MaskOf(slots)
    ensures |inds2| == 9 && IndsOk(p, m, points2, inds2, cell2 + SlotSet(slots), row, col)
    ensures NeighboursOk(p, m, row, col, points2, westcell, westinds, northcell, northinds)
  {
    var used: set<int> := {};
    points2, cell2, inds2 := points, cell, inds;
    for t := 0 to |slots|
      invariant used == SlotSet(slots[..t]) && cell2 == cell + MaskOf(slots[..t])
      invariant points2 == points + CornerFresh(p, m, row, col, slots, WestMask(p, m, row, col), NorthMask(p, m, row, col), t)
      invariant |inds2| == 9 && IndsOk(p, m, points2, inds2, cell2 + used, row, col)
      invariant NeighboursOk(p, m, row, col, points2, westcell, westinds, northcell, northinds)
    {
      used, points2, cell2, inds2 := PlaceCornerSlot(p, m, row, col, slots, t, points, cell, used, points2, cell2, inds2,
                                                     westcell, westinds, northcell, northinds);
    }
    assert slots[..|slots|] == slots;
  }

  /** One iteration of the point loop of a corner. */
  method PlaceCornerSlot(p: Picture, m: nat, row: nat, col: nat, slots: seq<int>, t: nat, ghost points: seq<Point>, ghost cell: set<int>,
                         used: set<int>, points2: seq<Point>, cell2: set<int>, inds2: seq<nat>,
                         westcell: set<int>, westinds: seq<nat>, northcell: set<int>, northinds: seq<nat>)
      returns (used3: set<int>, points3: seq<Point>, cell3: set<int>, inds3: seq<nat>)
    requires CellIn(p, row, col) && m < |p.colors| && SlotList(slots) && t < |slots|
    requires used == SlotSet(slots[..t]) && cell2 == cell + MaskOf(slots[..t])
    requires points2 == points + CornerFresh(p, m, row, col, slots, WestMask(p, m, row, col), NorthMask(p, m, row, col), t)
    requires |inds2| == 9 && IndsOk(p, m, points2, inds2, cell2 + used, row, col)
    requires NeighboursOk(p, m, row, col, points2, westcell, westinds, northcell, northinds)
    ensures used3 == SlotSet(slots[..t + 1]) && cell3 == cell + MaskOf(slots[..t + 1])
    ensures points3 == points + CornerFresh(p, m, row, col, slots, WestMask(p, m, row, col), NorthMask(p, m, row, col), t + 1)
    ensures |inds3| == 9 && IndsOk(p, m, points3, inds3, cell3 + used3, row, col)
    ensures NeighboursOk(p, m, row, col, points3, westcell, westinds, northcell, northinds)
  {
    SlotSetsStep(slots, t, used, cell, cell2);
    var west, north := WestMask(p, m, row, col), NorthMask(p, m, row, col);
    CornerFreshNext(p, m, row, col, slots, west, north, t);
    ghost var before := CornerFresh(p, m, row, col, slots, west, north, t);
    used3, points3, cell3, inds3 := used, points2, cell2, inds2;
    var index := slots[t];
    if index !in used {
      ghost var made := if Welded(index as nat, west, north) then [] else [MakePoint(p, m, SlotPos(row, col, index as nat))];
      used3 := used + {index};
      if index < 8 {
        cell3 := cell2 + {index};
      }
      points3, inds3 := PlaceNewSlot(p, m, row, col, index, points2, inds2, cell2 + used, westcell, westinds, northcell, northinds);
      assert points3 == points + (before + made);
      assert (cell2 + used) + {index} == cell3 + used3;
    }
  }

  /** A slot not placed before gets its point, which its index then names. */
  method PlaceNewSlot(p: Picture, m: nat, row: nat, col: nat, index: int, points: seq<Point>, inds: seq<nat>, ghost known: set<int>,
                      westcell: set<int>, westinds: seq<nat>, northcell: set<int>, northinds: seq<nat>)
      returns (points2: seq<Point>, inds2: seq<nat>)
    requires CellIn(p, row, col) && m < |p.colors| && 0 <= index < 9
    requires |inds| == 9 && IndsOk(p, m, points, inds, known, row, col)
    requires NeighboursOk(p, m, row, col, points, westcell, westinds, northcell, northinds)
    ensures points2 == points + if Welded(index, WestMask(p, m, row, col), NorthMask(p, m, row, col)) then [] else [MakePoint(p, m, SlotPos(row, col, index))]
    ensures |inds2| == 9 && IndsOk(p, m, points2, inds2, known + {index}, row, col)
    ensures NeighboursOk(p, m, row, col, points2, westcell, westinds, northcell, northinds)
  {
    points2, inds2 := PlaceSlot(p, m, row, col, index, points, inds, westcell, westinds, northcell, northinds);
    IndsGrow(p, m, points, points2, inds, known, row, col);
    IndsSet(p, m, points2, inds, inds2, known, row, col, index);
    NeighboursGrow(p, m, row, col, points, points2, westcell, westinds, northcell, northinds);
  }

  /** The slots seen and the mask after one more entry of a slot list. */
  lemma SlotSetsStep(slots: seq<int>, t: nat, used: set<int>, cell: set<int>, cell2: set<int>)
    requires SlotList(slots) && t < |slots| && used == SlotSet(slots[..t]) && cell2 == cell + MaskOf(slots[..t])
    ensures slots[t] in used ==> SlotSet(slots[..t + 1]) == used && cell + MaskOf(slots[..t + 1]) == cell2
    ensures slots[t] !in used ==>
      SlotSet(slots[..t + 1]) == used + {slots[t]} &&
      cell + MaskOf(slots[..t + 1]) == (if slots[t] < 8 then cell2 + {slots[t]} else cell2)
    ensures slots[t] in slots[..t] <==> slots[t] in used
  {
    SlotSetsSnoc(slots, t);
    if slots[t] in used && slots[t] < 8 {
      assert slots[t] in MaskOf(slots[..t]);
    }
  }

  /** The slots and the mask bits of a slot list, one entry at a time. */
  lemma SlotSetsSnoc(slots: seq<int>, t: nat)
    requires t < |slots|
    ensures SlotSet(slots[..t + 1]) == SlotSet(slots[..t]) + {slots[t]}
    ensures MaskOf(slots[..t + 1]) == MaskOf(slots[..t]) + if 0 <= slots[t] < 8 then {slots[t]} else {}
    ensures slots[t] in slots[..t] <==> slots[t] in SlotSet(slots[..t])
  {
    assert slots[..t + 1] == slots[..t] + [slots[t]];
  }

  /** One more slot: a point unless the slot came before or is welded. */
  lemma CornerFreshNext(p: Picture, m: nat, row: nat, col: nat, slots: seq<int>, west: set<int>, north: set<int>, t: nat)
    requires m < |p.colors| && SlotList(slots) && t < |slots|
    ensures CornerFresh(p, m, row, col, slots, west, north, t + 1) ==
            CornerFresh(p, m, row, col, slots, west, north, t) +
            if slots[t] in SlotSet(slots[..t]) || Welded(slots[t] as nat, west, north) then [] else [MakePoint(p, m, SlotPos(row, col, slots[t] as nat))]
  {
    assert slots[..t + 1][..t] == slots[..t];
  }

  /** The triangle loop of a corner: the indices of its slots, in table order. */
  method EmitCorner(p: Picture, m: nat, row: nat, col: nat, slots: seq<int>, points: seq<Point>, inds: seq<nat>, tris: seq<nat>)
      returns (tris2: seq<nat>)
    requires m < |p.colors| && SlotList(slots) && |inds| == 9
    requires IndsOk(p, m, points, inds, SlotSet(slots), row, col) && IndicesIn(tris, |points|)
    ensures IndicesIn(tris2, |points|) && |tris2| == |tris| + |slots|
    ensures Corners(points, tris2) == Corners(points, tris) + TableCorners(p, m, row, col, slots)
  {
    tris2 := tris;
    for t := 0 to |slots|
      invariant IndicesIn(tris2, |points|) && |tris2| == |tris| + t
      invariant Corners(points, tris2) == Corners(points, tris) + TableCorners(p, m, row, col, slots)[..t]
    {
      assert slots[t] in SlotSet(slots);
      CornersAppend(points, tris2, [inds[slots[t]]]);
      tris2 := tris2 + [inds[slots[t]]];
      assert TableCorners(p, m, row, col, slots)[..t + 1] == TableCorners(p, m, row, col, slots)[..t] + [MakePoint(p, m, SlotPos(row, col, slots[t] as nat))];
    }
    assert TableCorners(p, m, row, col, slots)[..|slots|] == TableCorners(p, m, row, col, slots);
  }

  /**
   * The `minalpha` loop, with the colour just before `m` included: the
   * least alpha among the colours up to `m`.
   */
  method LowestAlpha(colors: seq<nat>, m: nat) returns (low: nat)
    requires m < |colors|
    ensures low == MinAlpha(colors, m)
    ensures forall k :: 0 <= k <= m ==> low <= Alpha(colors[k])
    ensures exists k :: 0 <= k <= m && low == Alpha(colors[k])
  {
    low := Alpha(colors[m]);
    ghost var at := m;
    for idx := 0 to m
      invariant low == LowestOf(colors, Alpha(colors[m]), idx)
      invariant low <= Alpha(colors[m]) && forall k :: 0 <= k < idx ==> low <= Alpha(colors[k])
      invariant 0 <= at <= m && low == Alpha(colors[at])
    {
      if Alpha(colors[idx]) < low {
        low := Alpha(colors[idx]);
        at := idx;
      }
    }
  }

  /**
   * The extrusion loop of a corner: an extrusion point per boundary slot
   * and, from the second on, the two connector triangles joining it to the
   * previous one.
   */
  method ConnectCorner(p: Picture, m: nat, row: nat, col: nat, edges: seq<int>, points: seq<Point>, inds: seq<nat>,
                       conn: seq<nat>, nconn: nat)
      returns (points2: seq<Point>, conn2: seq<nat>, nconn2: nat)
    requires m < |p.colors| && SlotList(edges) && |inds| == 9
    requires IndsOk(p, m, points, inds, SlotSet(edges), row, col)
    requires IndicesIn(conn, |points|) && |conn| == 3 * nconn
    ensures points2 == points + Extrusions(p, m, row, col, edges, |edges|)
    ensures IndicesIn(conn2, |points2|) && |conn2| == 3 * nconn2
    ensures Corners(points2, conn2) == Corners(points, conn) + ConnectorCorners(p, m, row, col, edges, |edges|)
  {
    var low := LowestAlpha(p.colors, m);
    points2, conn2, nconn2 := points, conn, nconn;
    for e := 0 to |edges|
      invariant points2 == points + Extrusions(p, m, row, col, edges, e)
      invariant IndicesIn(conn2, |points2|) && |conn2| == 3 * nconn2
      invariant Corners(points2, conn2) == Corners(points, conn) + ConnectorCorners(p, m, row, col, edges, e)
    {
      points2, conn2, nconn2 := ExtrudeSlot(p, m, row, col, edges, e, low, points, inds, conn, points2, conn2, nconn2);
    }
  }

  /** A boundary slot after the first adds the two connectors joining it to the previous one. */
  lemma ConnectorCornersStep(p: Picture, m: nat, row: nat, col: nat, edges: seq<int>, e: nat)
    requires m < |p.colors| && SlotList(edges) && 0 < e < |edges|
    ensures ConnectorCorners(p, m, row, col, edges, e + 1) == ConnectorCorners(p, m, row, col, edges, e) +
      [MakePoint(p, m, SlotPos(row, col, edges[e - 1] as nat)), ExtrusionPoint(p, m, SlotPos(row, col, edges[e - 1] as nat)),
       ExtrusionPoint(p, m, SlotPos(row, col, edges[e] as nat)), ExtrusionPoint(p, m, SlotPos(row, col, edges[e] as nat)),
       MakePoint(p, m, SlotPos(row, col, edges[e] as nat)), MakePoint(p, m, SlotPos(row, col, edges[e - 1] as nat))]
  {
  }

  /** One iteration of the extrusion loop: the slot's extrusion point and, after the first, two connectors. */
  method ExtrudeSlot(p: Picture, m: nat, row: nat, col: nat, edges: seq<int>, e: nat, low: nat,
                     ghost points: seq<Point>, inds: seq<nat>, ghost conn: seq<nat>,
                     points2: seq<Point>, conn2: seq<nat>, nconn2: nat)
      returns (points3: seq<Point>, conn3: seq<nat>, nconn3: nat)
    requires m < |p.colors| && SlotList(edges) && |inds| == 9 && e < |edges| && low == MinAlpha(p.colors, m)
    requires IndsOk(p, m, points, inds, SlotSet(edges), row, col)
    requires IndicesIn(conn, |points|)
    requires points2 == points + Extrusions(p, m, row, col, edges, e)
    requires IndicesIn(conn2, |points2|) && |conn2| == 3 * nconn2
    requires Corners(points2, conn2) == Corners(points, conn) + ConnectorCorners(p, m, row, col, edges, e)
    ensures points3 == points + Extrusions(p, m, row, col, edges, e + 1)
    ensures IndicesIn(conn3, |points3|) && |conn3| == 3 * nconn3
    ensures Corners(points3, conn3) == Corners(points, conn) + ConnectorCorners(p, m, row, col, edges, e + 1)
  {
    var index := edges[e];
    points3 := points2 + [Point(SlotPos(row, col, index as nat), if p.heights then low else 0)];
    assert Extrusions(p, m, row, col, edges, e + 1) == Extrusions(p, m, row, col, edges, e) + [ExtrusionPoint(p, m, SlotPos(row, col, index as nat))];
    CornersGrow(points2, points3, conn2);
    conn3, nconn3 := conn2, nconn2;
    if e > 0 {
      var i0, i1, i2, i3 := |points3| - 1, |points3| - 2, inds[edges[e - 1]], inds[edges[e]];
      ConnectorsStep(p, m, row, col, edges, e, points, inds, points3, conn2, Corners(points, conn));
      conn3 := conn2 + [i2, i1, i0, i0, i3, i2];
      nconn3 := nconn2 + 2;
    }
  }

  /** The two connectors joining boundary slot `e` to the one before it, by index. */
  lemma ConnectorsStep(p: Picture, m: nat, row: nat, col: nat, edges: seq<int>, e: nat, points: seq<Point>, inds: seq<nat>,
                       points3: seq<Point>, conn2: seq<nat>, base: seq<Point>)
    requires m < |p.colors| && SlotList(edges) && |inds| == 9 && 0 < e < |edges|
    requires IndsOk(p, m, points, inds, SlotSet(edges), row, col)
    requires points3 == points + Extrusions(p, m, row, col, edges, e + 1)
    requires IndicesIn(conn2, |points3|) && Corners(points3, conn2) == base + ConnectorCorners(p, m, row, col, edges, e)
    ensures var i0, i1, i2, i3 := |points3| - 1, |points3| - 2, inds[edges[e - 1]], inds[edges[e]];
      IndicesIn(conn2 + [i2, i1, i0, i0, i3, i2], |points3|) &&
      Corners(points3, conn2 + [i2, i1, i0, i0, i3, i2]) == base + ConnectorCorners(p, m, row, col, edges, e + 1)
  {
    var i0, i1 := |points3| - 1, |points3| - 2;
    assert edges[e - 1] in SlotSet(edges) && edges[e] in SlotSet(edges);
    var i2, i3 := inds[edges[e - 1]], inds[edges[e]];
    var ext := Extrusions(p, m, row, col, edges, e + 1);
    assert points3[i1] == ext[e - 1] == ExtrusionPoint(p, m, SlotPos(row, col, edges[e - 1] as nat));
    assert points3[i0] == ext[e] == ExtrusionPoint(p, m, SlotPos(row, col, edges[e] as nat));
    assert points3[i2] == points[i2] == MakePoint(p, m, SlotPos(row, col, edges[e - 1] as nat));
    assert points3[i3] == points[i3] == MakePoint(p, m, SlotPos(row, col, edges[e] as nat));
    ConnectorsAppend(points3, conn2, i0, i1, i2, i3, base + ConnectorCorners(p, m, row, col, edges, e));
    ConnectorCornersStep(p, m, row, col, edges, e);
  }

  /**
   * Corner `c` of a cell, in the mesh of its colour `m`: its points, its
   * triangles and, when extruded, its extrusion points and connectors are
   * exactly what `CornerTrace` says; the cell's mask gains the corner's
   * slots below 8, with their indices.
   */
  method MarchCorner(p: Picture, m: nat, row: nat, col: nat, c: nat, mesh: Mesh, cell: set<int>, inds: seq<nat>,
                     westcell: set<int>, westinds: seq<nat>, northcell: set<int>, northinds: seq<nat>, ghost t: Trace)
      returns (mesh2: Mesh, cell2: set<int>, inds2: seq<nat>)
    requires CellIn(p, row, col) && c < 4 && m == CornerValues(p, row, col)[c]
    requires MeshAt(p, m, mesh, t)
    requires |inds| == 9 && IndsOk(p, m, mesh.points, inds, cell, row, col)
    requires NeighboursOk(p, m, row, col, mesh.points, westcell, westinds, northcell, northinds)
    ensures MeshAt(p, m, mesh2, Extend(t, CornerTrace(p, m, row, col, c)))
    ensures |mesh.points| <= |mesh2.points| && mesh2.points[..|mesh.points|] == mesh.points
    ensures cell2 == cell + CornerMask(p, m, row, col, c)
    ensures |inds2| == 9 && IndsOk(p, m, mesh2.points, inds2, cell2, row, col)
  {
    var slots, edges := CornerSlots(p, row, col, c), CornerEdges(p, row, col, c);
    var points, tris;
    points, tris, cell2, inds2 := PlaceAndEmit(p, m, row, col, slots, mesh.points, mesh.triangles, mesh.conntri, cell, inds,
                                               westcell, westinds, northcell, northinds);
    if Extruded(p, m) {
      assert IndsOk(p, m, points, inds2, SlotSet(edges), row, col);
    }
    var points3, conn, nconn := ExtrudeCorner(p, m, row, col, c, points, inds2, tris, mesh.conntri, mesh.nconn);
    mesh2 := mesh.(points := points3, triangles := tris, conntri := conn, nconn := nconn);
    CornerAssembled(p, m, row, col, c, mesh, t, points, mesh2);
    IndsGrow(p, m, points, points3, inds2, cell2 + SlotSet(slots), row, col);
    assert IndsOk(p, m, points3, inds2, cell2, row, col);
  }

  /** The points and the triangles of a corner, before its extrusion. */
  method PlaceAndEmit(p: Picture, m: nat, row: nat, col: nat, slots: seq<int>, points: seq<Point>, tris: seq<nat>, ghost conn: seq<nat>,
                      cell: set<int>, inds: seq<nat>, westcell: set<int>, westinds: seq<nat>, northcell: set<int>, northinds: seq<nat>)
      returns (points2: seq<Point>, tris2: seq<nat>, cell2: set<int>, inds2: seq<nat>)
    requires CellIn(p, row, col) && m < |p.colors| && SlotList(slots)
    requires |inds| == 9 && IndsOk(p, m, points, inds, cell, row, col)
    requires NeighboursOk(p, m, row, col, points, westcell, westinds, northcell, northinds)
    requires IndicesIn(tris, |points|) && IndicesIn(conn, |points|)
    ensures points2 == points + CornerFresh(p, m, row, col, slots, WestMask(p, m, row, col), NorthMask(p, m, row, col), |slots|)
    ensures cell2 == cell + MaskOf(slots)
    ensures |inds2| == 9 && IndsOk(p, m, points2, inds2, cell2 + SlotSet(slots), row, col)
    ensures IndicesIn(tris2, |points2|) && |tris2| == |tris| + |slots|
    ensures Corners(points2, tris2) == Corners(points, tris) + TableCorners(p, m, row, col, slots)
    ensures IndicesIn(conn, |points2|) && Corners(points2, conn) == Corners(points, conn)
  {
    points2, cell2, inds2 := PlaceCorner(p, m, row, col, slots, points, cell, inds, westcell, westinds, northcell, northinds);
    CornersGrow(points, points2, tris);
    CornersGrow(points, points2, conn);
    assert IndsOk(p, m, points2, inds2, SlotSet(slots), row, col);
    tris2 := EmitCorner(p, m, row, col, slots, points2, inds2, tris);
  }

  /** The extrusion of a corner: its connectors when the colour is extruded, nothing otherwise. */
  method ExtrudeCorner(p: Picture, m: nat, row: nat, col: nat, c: nat, points: seq<Point>, inds: seq<nat>, tris: seq<nat>,
                       conn: seq<nat>, nconn: nat)
      returns (points2: seq<Point>, conn2: seq<nat>, nconn2: nat)
    requires CellIn(p, row, col) && c < 4 && m < |p.colors| && |inds| == 9
    requires Extruded(p, m) ==> IndsOk(p, m, points, inds, SlotSet(CornerEdges(p, row, col, c)), row, col)
    requires IndicesIn(tris, |points|) && IndicesIn(conn, |points|) && |conn| == 3 * nconn
    ensures points2 == points + if Extruded(p, m) then Extrusions(p, m, row, col, CornerEdges(p, row, col, c), |CornerEdges(p, row, col, c)|) else []
    ensures IndicesIn(tris, |points2|) && Corners(points2, tris) == Corners(points, tris)
    ensures IndicesIn(conn2, |points2|) && |conn2| == 3 * nconn2
    ensures Corners(points2, conn2) == Corners(points, conn) +
      if Extruded(p, m) then ConnectorCorners(p, m, row, col, CornerEdges(p, row, col, c), |CornerEdges(p, row, col, c)|) else []
  {
    points2, conn2, nconn2 := points, conn, nconn;
    if Extruded(p, m) {
      points2, conn2, nconn2 := ConnectCorner(p, m, row, col, CornerEdges(p, row, col, c), points, inds, conn, nconn);
      CornersGrow(points, points2, tris);
    } else {
      assert points2 == points + [];
    }
  }

  /** The mesh a corner's placement, triangles and extrusion leave behind. */
  lemma CornerAssembled(p: Picture, m: nat, row: nat, col: nat, c: nat, mesh: Mesh, t: Trace, points: seq<Point>, mesh2: Mesh)
    requires CellIn(p, row, col) && c < 4 && m < |p.colors| && MeshAt(p, m, mesh, t)
    requires mesh2.dim == mesh.dim && mesh2.color == mesh.color
    requires points == mesh.points + CornerFresh(p, m, row, col, CornerSlots(p, row, col, c), WestMask(p, m, row, col), NorthMask(p, m, row, col), |CornerSlots(p, row, col, c)|)
    requires IndicesIn(mesh2.triangles, |points|) && |mesh2.triangles| == |mesh.triangles| + |CornerSlots(p, row, col, c)|
    requires Corners(points, mesh2.triangles) == Corners(mesh.points, mesh.triangles) + TableCorners(p, m, row, col, CornerSlots(p, row, col, c))
    requires IndicesIn(mesh.conntri, |points|) && Corners(points, mesh.conntri) == Corners(mesh.points, mesh.conntri)
    requires mesh2.points == points + if Extruded(p, m) then Extrusions(p, m, row, col, CornerEdges(p, row, col, c), |CornerEdges(p, row, col, c)|) else []
    requires IndicesIn(mesh2.triangles, |mesh2.points|) && Corners(mesh2.points, mesh2.triangles) == Corners(points, mesh2.triangles)
    requires IndicesIn(mesh2.conntri, |mesh2.points|) && |mesh2.conntri| == 3 * mesh2.nconn
    requires Corners(mesh2.points, mesh2.conntri) == Corners(points, mesh.conntri) +
      if Extruded(p, m) then ConnectorCorners(p, m, row, col, CornerEdges(p, row, col, c), |CornerEdges(p, row, col, c)|) else []
    ensures MeshAt(p, m, mesh2, Extend(t, CornerTrace(p, m, row, col, c)))
    ensures |mesh.points| <= |points| <= |mesh2.points| && mesh2.points[..|mesh.points|] == mesh.points
    ensures mesh2.points[..|points|] == points
  {
    CornerMeshAt(p, m, row, col, c, mesh, t, mesh2);
  }

  /** A mesh that grew by a corner's points, triangles and connectors holds the corner's trace on top of its own. */
  lemma CornerMeshAt(p: Picture, m: nat, row: nat, col: nat, c: nat, mesh: Mesh, t: Trace, mesh2: Mesh)
    requires CellIn(p, row, col) && c < 4 && m < |p.colors| && MeshAt(p, m, mesh, t)
    requires mesh2.dim == mesh.dim && mesh2.color == mesh.color
    requires mesh2.points == mesh.points + CornerTrace(p, m, row, col, c).created
    requires IndicesIn(mesh2.triangles, |mesh2.points|) && IndicesIn(mesh2.conntri, |mesh2.points|)
    requires |mesh2.triangles| == |mesh.triangles| + |CornerSlots(p, row, col, c)|
    requires Corners(mesh2.points, mesh2.triangles) == t.corners + CornerTrace(p, m, row, col, c).corners
    requires |mesh2.conntri| == 3 * mesh2.nconn
    requires Corners(mesh2.points, mesh2.conntri) == t.extrusion + CornerTrace(p, m, row, col, c).extrusion
    ensures MeshAt(p, m, mesh2, Extend(t, CornerTrace(p, m, row, col, c)))
  {
    var n := |CornerSlots(p, row, col, c)|;
    assert |mesh2.triangles| / 3 == |mesh.triangles| / 3 + n / 3;
  }

  // ---------------------------------------------------------------------
  // The per-colour buffers of the march.
  // ---------------------------------------------------------------------

  /**
   * The marcher's local buffers, one lane per colour: the masks and slot
   * indices of the previous and the current cell (`prevcell`, `previnds`,
   * `currcell`, `currinds`), and the masks and southern indices of every
   * cell of the previous and the current row (`prevrowcells`,
   * `prevrowinds`, `currrowcells`, `currrowinds`, three indices per cell).
   */
  datatype Buffers = Buffers(prevcell: seq<set<int>>, previnds: seq<seq<nat>>, currcell: seq<set<int>>, currinds: seq<seq<nat>>,
                             prevrowcells: seq<seq<set<int>>>, prevrowinds: seq<seq<nat>>,
                             currrowcells: seq<seq<set<int>>>, currrowinds: seq<seq<nat>>)

  /** Every buffer has one lane per colour, and every cell lane nine indices. */
  predicate BuffersSized(p: Picture, b: Buffers)
  {
    var n := |p.colors|;
    |b.prevcell| == n && |b.previnds| == n && |b.currcell| == n && |b.currinds| == n &&
    |b.prevrowcells| == n && |b.prevrowinds| == n && |b.currrowcells| == n && |b.currrowinds| == n &&
    forall m :: 0 <= m < n ==> |b.currinds[m]| == 9
  }

  /**
   * A row buffer of colour `m` holds, for the first `upto` cells of row
   * `row`, the cell's mask and the indices of its southern slots 0 to 2.
   */
  predicate RowLaneOk(p: Picture, m: nat, points: seq<Point>, cells: seq<set<int>>, inds: seq<nat>, row: nat, upto: nat)
    requires PictureOk(p) && m < |p.colors|
  {
    |cells| == Cols(p) && |inds| == 3 * Cols(p) && upto <= Cols(p) && row < Rows(p) &&
    forall c :: 0 <= c < upto ==> cells[c] == Mask(p, m, row, c) && IndsOk(p, m, points, inds[3 * c..3 * c + 3], cells[c], row, c)
  }

  /**
   * What the weld tests of lane `m` read at column `col` of row `row`: the
   * western neighbour's mask and indices, the whole previous row, and the
   * current row up to column `done`.
   */
  predicate Around(p: Picture, m: nat, row: nat, col: nat, points: seq<Point>, westcell: set<int>, westinds: seq<nat>,
                   northcells: seq<set<int>>, northinds: seq<nat>, rowcells: seq<set<int>>, rowinds: seq<nat>, done: nat)
    requires PictureOk(p) && m < |p.colors| && row < Rows(p) && col <= Cols(p)
  {
    |westinds| == 9 &&
    (col > 0 ==> westcell == Mask(p, m, row, col - 1) && IndsOk(p, m, points, westinds, westcell, row, col - 1)) &&
    |northcells| == Cols(p) && |northinds| == 3 * Cols(p) &&
    (row > 0 ==> RowLaneOk(p, m, points, northcells, northinds, row - 1, Cols(p))) &&
    RowLaneOk(p, m, points, rowcells, rowinds, row, done)
  }

  lemma AroundGrow(p: Picture, m: nat, row: nat, col: nat, points: seq<Point>, points2: seq<Point>, westcell: set<int>, westinds: seq<nat>,
                   northcells: seq<set<int>>, northinds: seq<nat>, rowcells: seq<set<int>>, rowinds: seq<nat>, done: nat)
    requires PictureOk(p) && m < |p.colors| && row < Rows(p) && col <= Cols(p)
    requires Around(p, m, row, col, points, westcell, westinds, northcells, northinds, rowcells, rowinds, done)
    requires |points| <= |points2| && points2[..|points|] == points
    ensures Around(p, m, row, col, points2, westcell, westinds, northcells, northinds, rowcells, rowinds, done)
  {
    if col > 0 {
      IndsGrow(p, m, points, points2, westinds, westcell, row, col - 1);
    }
    forall c | 0 <= c < Cols(p) && row > 0
      ensures IndsOk(p, m, points2, northinds[3 * c..3 * c + 3], northcells[c], row - 1, c)
    {
      IndsGrow(p, m, points, points2, northinds[3 * c..3 * c + 3], northcells[c], row - 1, c);
    }
    forall c | 0 <= c < done
      ensures IndsOk(p, m, points2, rowinds[3 * c..3 * c + 3], rowcells[c], row, c)
    {
      IndsGrow(p, m, points, points2, rowinds[3 * c..3 * c + 3], rowcells[c], row, c);
    }
  }

  /** The weld tests of cell (`row`, `col`) read what they should from a lane's buffers. */
  lemma AroundNeighbours(p: Picture, m: nat, row: nat, col: nat, points: seq<Point>, westcell: set<int>, westinds: seq<nat>,
                         northcells: seq<set<int>>, northinds: seq<nat>, rowcells: seq<set<int>>, rowinds: seq<nat>, done: nat)
    requires CellIn(p, row, col) && m < |p.colors|
    requires Around(p, m, row, col, points, westcell, westinds, northcells, northinds, rowcells, rowinds, done)
    ensures NeighboursOk(p, m, row, col, points, westcell, westinds, northcells[col], northinds[3 * col..3 * col + 3])
  {
  }

  /** Lane `m` between cells: the mesh holds what the cells before (`row`, `col`) produce. */
  predicate LaneAt(p: Picture, m: nat, row: nat, col: nat, mesh: Mesh, b: Buffers)
    requires PictureOk(p) && row < Rows(p) && col <= Cols(p) && m < |p.colors| && BuffersSized(p, b)
  {
    MeshAt(p, m, mesh, DoneTrace(p, m, row, col)) &&
    Around(p, m, row, col, mesh.points, b.prevcell[m], b.previnds[m], b.prevrowcells[m], b.prevrowinds[m],
           b.currrowcells[m], b.currrowinds[m], col)
  }

  /**
   * Lane `m` inside cell (`row`, `col`) after `k` corners, with the row
   * buffer filled up to column `done`: the mesh also holds what those
   * corners produce, and the cell's mask and indices record their slots.
   */
  predicate LaneIn(p: Picture, m: nat, row: nat, col: nat, k: nat, mesh: Mesh, b: Buffers, done: nat)
    requires CellIn(p, row, col) && m < |p.colors| && k <= 4 && BuffersSized(p, b)
  {
    MeshAt(p, m, mesh, Extend(DoneTrace(p, m, row, col), CellTraceUpTo(p, m, row, col, k))) &&
    b.currcell[m] == MaskUpTo(p, m, row, col, k) && IndsOk(p, m, mesh.points, b.currinds[m], b.currcell[m], row, col) &&
    Around(p, m, row, col, mesh.points, b.prevcell[m], b.previnds[m], b.prevrowcells[m], b.prevrowinds[m],
           b.currrowcells[m], b.currrowinds[m], done)
  }

  /** Every lane between cells. */
  predicate LanesAt(p: Picture, row: nat, col: nat, meshes: seq<Mesh>, b: Buffers)
    requires PictureOk(p) && row < Rows(p) && col <= Cols(p)
  {
    |meshes| == |p.colors| && BuffersSized(p, b) &&
    forall m :: 0 <= m < |p.colors| ==> LaneAt(p, m, row, col, meshes[m], b)
  }

  /** Every lane inside a cell after `k` corners, the row buffers of the first `j` lanes filled with the cell. */
  predicate LanesIn(p: Picture, row: nat, col: nat, k: nat, j: nat, meshes: seq<Mesh>, b: Buffers)
    requires CellIn(p, row, col) && k <= 4
  {
    |meshes| == |p.colors| && BuffersSized(p, b) &&
    forall m :: 0 <= m < |p.colors| ==> LaneIn(p, m, row, col, k, meshes[m], b, if m < j then col + 1 else col)
  }

  /** With every current mask cleared, the lanes enter the cell. */
  lemma EnterCell(p: Picture, row: nat, col: nat, meshes: seq<Mesh>, b: Buffers)
    requires CellIn(p, row, col) && LanesAt(p, row, col, meshes, b)
    requires forall m :: 0 <= m < |b.currcell| ==> b.currcell[m] == {}
    ensures LanesIn(p, row, col, 0, 0, meshes, b)
  {
    forall m | 0 <= m < |p.colors|
      ensures LaneIn(p, m, row, col, 0, meshes[m], b, col)
    {
      var t := DoneTrace(p, m, row, col);
      assert Extend(t, Empty) == t;
    }
  }

  /** A corner of another colour leaves lane `m` as it is. */
  lemma LaneSkip(p: Picture, m: nat, row: nat, col: nat, k: nat, mesh: Mesh, b: Buffers, b2: Buffers)
    requires CellIn(p, row, col) && m < |p.colors| && k < 4 && CornerValues(p, row, col)[k] != m
    requires BuffersSized(p, b) && LaneIn(p, m, row, col, k, mesh, b, col)
    requires BuffersSized(p, b2) && b2.currcell[m] == b.currcell[m] && b2.currinds[m] == b.currinds[m]
    requires b2.prevcell == b.prevcell && b2.previnds == b.previnds && b2.prevrowcells == b.prevrowcells
    requires b2.prevrowinds == b.prevrowinds && b2.currrowcells == b.currrowcells && b2.currrowinds == b.currrowinds
    ensures LaneIn(p, m, row, col, k + 1, mesh, b2, col)
  {
    var t := Extend(DoneTrace(p, m, row, col), CellTraceUpTo(p, m, row, col, k));
    assert Extend(DoneTrace(p, m, row, col), CellTraceUpTo(p, m, row, col, k + 1)) == t;
  }

  /** A corner of colour `m`, as `MarchCorner` left it, moves lane `m` one corner on. */
  lemma LaneCorner(p: Picture, m: nat, row: nat, col: nat, k: nat, mesh: Mesh, b: Buffers, mesh2: Mesh, b2: Buffers)
    requires CellIn(p, row, col) && k < 4 && CornerValues(p, row, col)[k] == m
    requires BuffersSized(p, b) && LaneIn(p, m, row, col, k, mesh, b, col)
    requires MeshAt(p, m, mesh2, Extend(Extend(DoneTrace(p, m, row, col), CellTraceUpTo(p, m, row, col, k)), CornerTrace(p, m, row, col, k)))
    requires |mesh.points| <= |mesh2.points| && mesh2.points[..|mesh.points|] == mesh.points
    requires BuffersSized(p, b2) && b2.currcell[m] == b.currcell[m] + CornerMask(p, m, row, col, k)
    requires IndsOk(p, m, mesh2.points, b2.currinds[m], b2.currcell[m], row, col)
    requires b2.prevcell == b.prevcell && b2.previnds == b.previnds && b2.prevrowcells == b.prevrowcells
    requires b2.prevrowinds == b.prevrowinds && b2.currrowcells == b.currrowcells && b2.currrowinds == b.currrowinds
    ensures LaneIn(p, m, row, col, k + 1, mesh2, b2, col)
  {
    var d, u, w := DoneTrace(p, m, row, col), CellTraceUpTo(p, m, row, col, k), CornerTrace(p, m, row, col, k);
    assert CellTraceUpTo(p, m, row, col, k + 1) == Extend(u, w);
    ExtendAssoc(d, u, w);
    assert MeshAt(p, m, mesh2, Extend(d, CellTraceUpTo(p, m, row, col, k + 1)));
    assert b2.currcell[m] == MaskUpTo(p, m, row, col, k + 1);
    AroundGrow(p, m, row, col, mesh.points, mesh2.points, b.prevcell[m], b.previnds[m], b.prevrowcells[m], b.prevrowinds[m],
               b.currrowcells[m], b.currrowinds[m], col);
  }

  /**
   * One corner of a cell: the mesh of the corner's colour gets the
   * corner's points, triangles and connectors, the other meshes nothing.
   */
  method CornerStep(p: Picture, row: nat, col: nat, k: nat, vals: seq<nat>, meshes: seq<Mesh>, b: Buffers)
      returns (meshes2: seq<Mesh>, b2: Buffers)
    requires CellIn(p, row, col) && k < 4 && vals == CornerValues(p, row, col)
    requires LanesIn(p, row, col, k, 0, meshes, b) == true
    ensures LanesIn(p, row, col, k + 1, 0, meshes2, b2) == true
  {
    var m := vals[k];
    assert LaneIn(p, m, row, col, k, meshes[m], b, col);
    var mesh := meshes[m];
    AroundNeighbours(p, m, row, col, mesh.points, b.prevcell[m], b.previnds[m], b.prevrowcells[m], b.prevrowinds[m],
                     b.currrowcells[m], b.currrowinds[m], col);
    var mesh2, cell2, inds2 := MarchCorner(p, m, row, col, k, mesh, b.currcell[m], b.currinds[m],
      b.prevcell[m], b.previnds[m], b.prevrowcells[m][col], b.prevrowinds[m][3 * col..3 * col + 3],
      Extend(DoneTrace(p, m, row, col), CellTraceUpTo(p, m, row, col, k)));
    meshes2 := meshes[m := mesh2];
    b2 := b.(currcell := b.currcell[m := cell2], currinds := b.currinds[m := inds2]);
    forall m' | 0 <= m' < |p.colors|
      ensures LaneIn(p, m', row, col, k + 1, meshes2[m'], b2, col)
    {
      if m' == m {
        LaneCorner(p, m, row, col, k, mesh, b, mesh2, b2);
      } else {
        assert LaneIn(p, m', row, col, k, meshes[m'], b, col);
        LaneSkip(p, m', row, col, k, meshes[m'], b, b2);
      }
    }
  }

  /** Storing the cell's mask and southern indices in lane `m`'s current-row buffer extends it by one cell. */
  lemma LaneStash(p: Picture, m: nat, row: nat, col: nat, mesh: Mesh, b: Buffers, b2: Buffers)
    requires CellIn(p, row, col) && m < |p.colors|
    requires BuffersSized(p, b) && LaneIn(p, m, row, col, 4, mesh, b, col)
    requires BuffersSized(p, b2) && b2.currcell == b.currcell && b2.currinds == b.currinds
    requires b2.prevcell == b.prevcell && b2.previnds == b.previnds && b2.prevrowcells == b.prevrowcells && b2.prevrowinds == b.prevrowinds
    requires b2.currrowcells[m] == b.currrowcells[m][col := b.currcell[m]]
    requires b2.currrowinds[m] == b.currrowinds[m][3 * col := b.currinds[m][0]][3 * col + 1 := b.currinds[m][1]][3 * col + 2 := b.currinds[m][2]]
    ensures LaneIn(p, m, row, col, 4, mesh, b2, col + 1)
  {
    var cells, inds, cells2, inds2 := b.currrowcells[m], b.currrowinds[m], b2.currrowcells[m], b2.currrowinds[m];
    forall c | 0 <= c < col + 1
      ensures cells2[c] == Mask(p, m, row, c) && IndsOk(p, m, mesh.points, inds2[3 * c..3 * c + 3], cells2[c], row, c)
    {
      if c < col {
        assert inds2[3 * c..3 * c + 3] == inds[3 * c..3 * c + 3];
      } else {
        assert inds2[3 * c..3 * c + 3] == b.currinds[m][..3];
      }
    }
  }

  /** The row-buffer loop of a cell: lane `j` stores the cell. */
  method StashLane(p: Picture, row: nat, col: nat, j: nat, meshes: seq<Mesh>, b: Buffers) returns (b2: Buffers)
    requires CellIn(p, row, col) && j < |p.colors| && LanesIn(p, row, col, 4, j, meshes, b) == true
    ensures LanesIn(p, row, col, 4, j + 1, meshes, b2) == true
  {
    assert LaneIn(p, j, row, col, 4, meshes[j], b, col);
    var cells := b.currrowcells[j][col := b.currcell[j]];
    var inds := b.currrowinds[j][3 * col := b.currinds[j][0]][3 * col + 1 := b.currinds[j][1]][3 * col + 2 := b.currinds[j][2]];
    b2 := b.(currrowcells := b.currrowcells[j := cells], currrowinds := b.currrowinds[j := inds]);
    forall m | 0 <= m < |p.colors|
      ensures LaneIn(p, m, row, col, 4, meshes[m], b2, if m < j + 1 then col + 1 else col)
    {
      if m == j {
        LaneStash(p, m, row, col, meshes[m], b, b2);
      } else {
        assert LaneIn(p, m, row, col, 4, meshes[m], b, if m < j then col + 1 else col);
        assert b2.currrowcells[m] == b.currrowcells[m] && b2.currrowinds[m] == b.currrowinds[m];
      }
    }
  }

  /** After the stash the current cell becomes the previous one (`PAR_SWAP` of the cell buffers). */
  lemma LeaveCell(p: Picture, row: nat, col: nat, meshes: seq<Mesh>, b: Buffers)
    requires CellIn(p, row, col) && LanesIn(p, row, col, 4, |p.colors|, meshes, b)
    ensures LanesAt(p, row, col + 1, meshes, b.(prevcell := b.currcell, currcell := b.prevcell, previnds := b.currinds, currinds := b.previnds))
  {
    var b2 := b.(prevcell := b.currcell, currcell := b.prevcell, previnds := b.currinds, currinds := b.previnds);
    forall m | 0 <= m < |p.colors|
      ensures |b2.currinds[m]| == 9
    {
      assert LaneIn(p, m, row, col, 4, meshes[m], b, col + 1);
    }
    forall m | 0 <= m < |p.colors|
      ensures LaneAt(p, m, row, col + 1, meshes[m], b2)
    {
      assert LaneIn(p, m, row, col, 4, meshes[m], b, col + 1);
    }
  }

  /** Clearing the current masks does not touch what the lanes between cells depend on. */
  lemma ClearCells(p: Picture, row: nat, col: nat, meshes: seq<Mesh>, b: Buffers, cleared: seq<set<int>>)
    requires CellIn(p, row, col) && LanesAt(p, row, col, meshes, b) && |cleared| == |p.colors|
    requires forall m :: 0 <= m < |cleared| ==> cleared[m] == {}
    ensures LanesIn(p, row, col, 0, 0, meshes, b.(currcell := cleared))
  {
    var b2 := b.(currcell := cleared);
    forall m | 0 <= m < |p.colors|
      ensures LaneAt(p, m, row, col, meshes[m], b2)
    {
      assert LaneAt(p, m, row, col, meshes[m], b);
    }
    EnterCell(p, row, col, meshes, b2);
  }

  /**
   * One cell of the march: the current masks are cleared, the four
   * corners go to the meshes of their colours, every lane's row buffer
   * stores the cell, and the cell becomes the previous one.
   */
  method MarchCell(p: Picture, row: nat, col: nat, vals: seq<nat>, meshes: seq<Mesh>, b: Buffers)
      returns (meshes2: seq<Mesh>, b2: Buffers)
    requires CellIn(p, row, col) && vals == CornerValues(p, row, col)
    requires LanesAt(p, row, col, meshes, b) == true
    ensures LanesAt(p, row, col + 1, meshes2, b2) == true
  {
    var cleared := b.currcell;
    for m := 0 to |p.colors|
      invariant |cleared| == |p.colors| && forall i :: 0 <= i < m ==> cleared[i] == {}
    {
      cleared := cleared[m := {}];
    }
    ClearCells(p, row, col, meshes, b, cleared);
    meshes2, b2 := meshes, b.(currcell := cleared);
    for k := 0 to 4
      invariant LanesIn(p, row, col, k, 0, meshes2, b2) == true
    {
      meshes2, b2 := CornerStep(p, row, col, k, vals, meshes2, b2);
    }
    for j := 0 to |p.colors|
      invariant LanesIn(p, row, col, 4, j, meshes2, b2) == true
    {
      b2 := StashLane(p, row, col, j, meshes2, b2);
    }
    LeaveCell(p, row, col, meshes2, b2);
    b2 := b2.(prevcell := b2.currcell, currcell := b2.prevcell, previnds := b2.currinds, currinds := b2.previnds);
  }

  // ---------------------------------------------------------------------
  // Columns, rows and the grid.
  // ---------------------------------------------------------------------

  /** What SIMPLIFY keeps of a cell (`simplification_words`): its corner colours and each corner's triangle count. */
  datatype CellWords = CellWords(vals: seq<nat>, counts: seq<nat>)

  /** The words of a cell. */
  function Words(p: Picture, row: nat, col: nat): CellWords
    requires CellIn(p, row, col)
  {
    CellWords(CornerValues(p, row, col), seq(4, c requires 0 <= c < 4 => |CornerSlots(p, row, col, c)| / 3))
  }

  /** The words of the first `n` cells of a row. */
  function RowWords(p: Picture, row: nat, n: nat): seq<CellWords>
    requires PictureOk(p) && row < Rows(p) && n <= Cols(p)
  {
    seq(n, c requires 0 <= c < n => Words(p, row, c))
  }

  /** The words of the first `n` rows. */
  function WordGrid(p: Picture, n: nat): seq<seq<CellWords>>
    requires PictureOk(p) && n <= Rows(p)
  {
    seq(n, r requires 0 <= r < n => RowWords(p, r, Cols(p)))
  }

  /**
   * The state of the column loop: the lanes between cells, the running
   * pixel indices of the current grid line with their colours, and with
   * SIMPLIFY the words of the cells so far.
   */
  predicate ColumnState(p: Picture, simplify: bool, row: nat, col: nat, meshes: seq<Mesh>, b: Buffers,
                        northi: int, southi: int, nwval: nat, swval: nat, words: seq<CellWords>)
    requires PictureOk(p) && row < Rows(p) && col <= Cols(p)
  {
    LanesAt(p, row, col, meshes, b) &&
    (Cols(p) > 0 ==>
      northi == NorthStart(p.width, p.cellsize, row) + ColumnOffset(Cols(p), p.cellsize, col) &&
      southi == SouthStart(p.width, p.height, p.cellsize, row) + ColumnOffset(Cols(p), p.cellsize, col)) &&
    0 <= northi < |p.pixels| && 0 <= southi < |p.pixels| && nwval == p.pixels[northi] && swval == p.pixels[southi] &&
    (simplify ==> words == RowWords(p, row, col))
  }

  /**
   * The sampling step of the column loop: the running indices move to the
   * cell's eastern grid line (one pixel back on the last) and the four
   * corner colours are read.
   */
  method SampleCell(p: Picture, row: nat, col: nat, northi: int, southi: int, nwval: nat, swval: nat)
      returns (northi2: int, southi2: int, neval: nat, seval: nat, vals: seq<nat>)
    requires CellIn(p, row, col)
    requires northi == NorthStart(p.width, p.cellsize, row) + ColumnOffset(Cols(p), p.cellsize, col)
    requires southi == SouthStart(p.width, p.height, p.cellsize, row) + ColumnOffset(Cols(p), p.cellsize, col)
    requires 0 <= northi < |p.pixels| && 0 <= southi < |p.pixels| && nwval == p.pixels[northi] && swval == p.pixels[southi]
    ensures northi2 == NorthStart(p.width, p.cellsize, row) + ColumnOffset(Cols(p), p.cellsize, col + 1)
    ensures southi2 == SouthStart(p.width, p.height, p.cellsize, row) + ColumnOffset(Cols(p), p.cellsize, col + 1)
    ensures 0 <= northi2 < |p.pixels| && 0 <= southi2 < |p.pixels| && neval == p.pixels[northi2] && seval == p.pixels[southi2]
    ensures vals == CornerValues(p, row, col)
  {
    ColumnAdvance(Cols(p), p.cellsize, col);
    CornerInImage(p, row, col + 1);
    northi2 := northi + p.cellsize;
    southi2 := southi + p.cellsize;
    if col == Cols(p) - 1 {
      northi2 := northi2 - 1;
      southi2 := southi2 - 1;
    }
    neval := p.pixels[northi2];
    seval := p.pixels[southi2];
    vals := [swval, seval, neval, nwval];
  }

  /** The body of the column loop: sample, march the cell, keep its words. */
  method ColumnStep(p: Picture, simplify: bool, row: nat, col: nat, meshes: seq<Mesh>, b: Buffers,
                    northi: int, southi: int, nwval: nat, swval: nat, words: seq<CellWords>)
      returns (meshes2: seq<Mesh>, b2: Buffers, northi2: int, southi2: int, neval: nat, seval: nat, words2: seq<CellWords>)
    requires CellIn(p, row, col)
    requires ColumnState(p, simplify, row, col, meshes, b, northi, southi, nwval, swval, words) == true
    ensures ColumnState(p, simplify, row, col + 1, meshes2, b2, northi2, southi2, neval, seval, words2) == true
  {
    var vals;
    northi2, southi2, neval, seval, vals := SampleCell(p, row, col, northi, southi, nwval, swval);
    meshes2, b2 := MarchCell(p, row, col, vals, meshes, b);
    words2 := words;
    if simplify {
      var counts := seq(4, c requires 0 <= c < 4 => |CornerSlots(p, row, col, c)| / 3);
      words2 := words + [CellWords(vals, counts)];
      assert words2 == RowWords(p, row, col + 1);
    }
  }

  /** The column loop of one row. */
  method MarchColumns(p: Picture, simplify: bool, row: nat, meshes: seq<Mesh>, b: Buffers,
                      northi: int, southi: int, nwval: nat, swval: nat)
      returns (meshes2: seq<Mesh>, b2: Buffers, words: seq<CellWords>)
    requires PictureOk(p) && row < Rows(p)
    requires ColumnState(p, simplify, row, 0, meshes, b, northi, southi, nwval, swval, []) == true
    ensures LanesAt(p, row, Cols(p), meshes2, b2) == true
    ensures simplify ==> words == RowWords(p, row, Cols(p))
  {
    meshes2, b2, words := meshes, b, [];
    var ni, si, nw, sw := northi, southi, nwval, swval;
    for col := 0 to Cols(p)
      invariant ColumnState(p, simplify, row, col, meshes2, b2, ni, si, nw, sw, words) == true
    {
      meshes2, b2, ni, si, nw, sw, words := ColumnStep(p, simplify, row, col, meshes2, b2, ni, si, nw, sw, words);
    }
  }

  /** The lanes in row `row` do not read the current-row masks before the first cell: clearing them is harmless. */
  lemma ClearRow(p: Picture, row: nat, meshes: seq<Mesh>, b: Buffers, rows: seq<seq<set<int>>>)
    requires PictureOk(p) && row < Rows(p) && LanesAt(p, row, 0, meshes, b)
    requires |rows| == |p.colors| && forall m :: 0 <= m < |rows| ==> |rows[m]| == Cols(p)
    ensures LanesAt(p, row, 0, meshes, b.(currrowcells := rows))
  {
    forall m | 0 <= m < |p.colors|
      ensures LaneAt(p, m, row, 0, meshes[m], b.(currrowcells := rows))
    {
      assert LaneAt(p, m, row, 0, meshes[m], b);
    }
  }

  /** The meshes of a finished march hold the whole grid's trace, colour by colour. */
  predicate Marched(p: Picture, meshes: seq<Mesh>)
    requires PictureOk(p)
  {
    |meshes| == |p.colors| && forall m :: 0 <= m < |p.colors| ==> MeshAt(p, m, meshes[m], GridTrace(p, m))
  }

  /** After the last column, swapping the row buffers (`PAR_SWAP`) sets up the next row, or ends the march. */
  lemma NextRow(p: Picture, row: nat, meshes: seq<Mesh>, b: Buffers)
    requires PictureOk(p) && row < Rows(p) && LanesAt(p, row, Cols(p), meshes, b)
    ensures var b2 := b.(prevrowcells := b.currrowcells, currrowcells := b.prevrowcells,
                         prevrowinds := b.currrowinds, currrowinds := b.prevrowinds);
      (row + 1 < Rows(p) ==> LanesAt(p, row + 1, 0, meshes, b2)) && (row + 1 == Rows(p) ==> Marched(p, meshes))
  {
    var b2 := b.(prevrowcells := b.currrowcells, currrowcells := b.prevrowcells, prevrowinds := b.currrowinds, currrowinds := b.prevrowinds);
    forall m | 0 <= m < |p.colors|
      ensures MeshAt(p, m, meshes[m], DoneTrace(p, m, row + 1, 0))
      ensures row + 1 < Rows(p) ==> LaneAt(p, m, row + 1, 0, meshes[m], b2)
    {
      assert LaneAt(p, m, row, Cols(p), meshes[m], b);
    }
  }

  /**
   * One row of the march: the running indices start on the row's northern
   * and (clamped) southern pixel rows, the current-row masks are cleared
   * (`memset`), the columns are marched, and the row buffers swapped.
   */
  method MarchRow(p: Picture, simplify: bool, row: nat, meshes: seq<Mesh>, b: Buffers)
      returns (meshes2: seq<Mesh>, b2: Buffers, words: seq<CellWords>)
    requires PictureOk(p) && row < Rows(p)
    requires LanesAt(p, row, 0, meshes, b) == true
    ensures row + 1 < Rows(p) ==> LanesAt(p, row + 1, 0, meshes2, b2) == true
    ensures row + 1 == Rows(p) ==> Marched(p, meshes2)
    ensures simplify ==> words == RowWords(p, row, Cols(p))
  {
    var maxrow := (p.height - 1) * p.width;
    var northi := row * p.cellsize * p.width;
    var southi := Min(northi + p.cellsize * p.width, maxrow);
    RowStartsInImage(p, row);
    assert Cols(p) > 0 ==> ColumnOffset(Cols(p), p.cellsize, 0) == 0;
    var nwval, swval := p.pixels[northi], p.pixels[southi];
    var rows := seq(|p.colors|, m => seq(Cols(p), c => {}));
    ClearRow(p, row, meshes, b, rows);
    b2 := b.(currrowcells := rows);
    meshes2, b2, words := MarchColumns(p, simplify, row, meshes, b2, northi, southi, nwval, swval);
    NextRow(p, row, meshes2, b2);
    b2 := b2.(prevrowcells := b2.currrowcells, currrowcells := b2.prevrowcells, prevrowinds := b2.currrowinds, currrowinds := b2.prevrowinds);
  }

  /** An empty mesh of colour `m`, as the allocation loop sets it up. */
  function NewMesh(p: Picture, m: nat): (mesh: Mesh)
    requires m < |p.colors|
    ensures MeshAt(p, m, mesh, Empty)
  {
    Mesh(if p.heights then 3 else 2, [], [], 0, [], p.colors[m])
  }

  /**
   * The march of the whole grid, row by row, from empty meshes and cleared
   * buffers: every mesh ends up holding exactly its colour's trace, and
   * with SIMPLIFY the words of every cell are kept.
   */
  method MarchGrid(p: Picture, simplify: bool) returns (meshes: seq<Mesh>, words: seq<seq<CellWords>>)
    requires PictureOk(p)
    ensures Marched(p, meshes)
    ensures simplify ==> words == WordGrid(p, Rows(p))
  {
    var n := |p.colors|;
    meshes := [];
    for m := 0 to n
      invariant |meshes| == m && forall i :: 0 <= i < m ==> meshes[i] == NewMesh(p, i)
    {
      meshes := meshes + [NewMesh(p, m)];
    }
    var noinds := [0, 0, 0, 0, 0, 0, 0, 0, 0];
    var rowcells := seq(Cols(p), c => {});
    var rowinds := seq(3 * Cols(p), i => 0);
    var b := Buffers(seq(n, m => {}), seq(n, m => noinds), seq(n, m => {}), seq(n, m => noinds),
                     seq(n, m => rowcells), seq(n, m => rowinds), seq(n, m => rowcells), seq(n, m => rowinds));
    assert Rows(p) > 0 ==> LanesAt(p, 0, 0, meshes, b) by {
      forall m | 0 <= m < n && Rows(p) > 0
        ensures LaneAt(p, m, 0, 0, meshes[m], b)
      {
        assert DoneTrace(p, m, 0, 0) == Empty;
      }
    }
    assert Rows(p) == 0 ==> Marched(p, meshes) by {
      forall m | 0 <= m < n && Rows(p) == 0
        ensures MeshAt(p, m, meshes[m], GridTrace(p, m))
      {
        assert GridTrace(p, m) == Empty;
      }
    }
    words := [];
    for row := 0 to Rows(p)
      invariant row < Rows(p) ==> LanesAt(p, row, 0, meshes, b) == true
      invariant row == Rows(p) ==> Marched(p, meshes)
      invariant simplify ==> words == WordGrid(p, row)
    {
      var rowwords;
      meshes, b, rowwords := MarchRow(p, simplify, row, meshes, b);
      if simplify {
        words := words + [rowwords];
      }
    }
  }
}

/**
 * `par_msquares_function` as a whole: the march, the optional SIMPLIFY
 * pass with the removal of unreferenced points, the appending of the
 * extrusion triangles, and the DUAL recursion that marches the image twice,
 * once inverted, and merges the two meshes.
 */
module BinaryMesh {
  import opened Tables
  import opened Classify
  import opened Geometry
  import opened Meshes
  import opened Simplification
  import opened Compaction
  import opened BinaryMarch

  /** The march a call makes: INVERT and HEIGHTS come from the flags. */
  function MarchConfig(tables: TableSet, image: Image, flags: Flags, heightAt: Pos -> int): Config
  {
    Config(tables, image, flags & INVERT != 0, flags & HEIGHTS != 0, heightAt)
  }

  /** The points of a mesh that are not extrusion points. */
  function Unmarked(m: Mesh): set<nat>
    requires ConnectorsOk(m)
  {
    set i | 0 <= i < |m.points| && i !in Marked(m)
  }

  /** The first `len` triangle indices are not extrusion points. */
  predicate MainUnmarked(m: Mesh, len: nat)
    requires ConnectorsOk(m)
  {
    forall k :: 0 <= k < len && k < |m.triangles| ==> m.triangles[k] in Unmarked(m)
  }

  /**
   * What one march of `par_msquares_function` yields (no DUAL): a mesh of
   * 3-tuples with HEIGHTS and 2-tuples otherwise, whose triangle list is
   * the main triangles followed by the `nconn` extrusion triangles.  Every
   * point is one the marcher creates at its position, so with HEIGHTS its Z
   * is the height callback's value there.  The main triangles have the
   * corners of the reference march, after SIMPLIFY the corners of the
   * simplified reference (followed by zero indices when the number of rows
   * is odd, and with every point referenced); they use no extrusion point.
   * The extrusion triangles have the reference extrusion corners.  Without
   * SIMPLIFY the points that are not extrusion points are, in order, the
   * points the cells create.
   */
  predicate Tessellated(m: Mesh, cfg: Config, connect: bool, simplify: bool)
    requires ConfigOk(cfg)
  {
    var t := GridTrace(cfg, connect);
    var n := |m.triangles| - 3 * m.nconn;
    m.dim == (if cfg.heights then 3 else 2) && m.color == 0 && m.conntri == [] &&
    ConnectorsOk(m) && PointsOk(cfg, m.points) && 3 * m.nconn == |t.extrusion| &&
    Positions(m.points, m.triangles[n..]) == t.extrusion &&
    if simplify then
      var g := RecordGrid(cfg, connect, Rows(cfg));
      |g| == Rows(cfg) && RecordsOk(g, Cols(cfg), |t.corners|) &&
      var main := Output(BinaryLayout, g, Cols(cfg), t.corners, Rows(cfg) / 2);
      |main| <= n && Positions(m.points, m.triangles[..|main|]) == main &&
      MainUnmarked(m, |main|) &&
      n + 3 * TotalElim(g, Cols(cfg), Rows(cfg) / 2) == |t.corners| &&
      (Rows(cfg) % 2 == 0 ==> |main| == n) &&
      (forall k :: |main| <= k < n ==> m.triangles[k] == 0) &&
      (forall j :: 0 <= j < |m.points| ==> j in Elements(m.triangles))
    else
      Positions(m.points, m.triangles[..n]) == t.corners &&
      MainUnmarked(m, n) &&
      Kept(m.points, Unmarked(m), |m.points|) == t.created
  }

  // ---------------------------------------------------------------------
  // Helpers.
  // ---------------------------------------------------------------------

  /** Records that fit the emitted corners are records the SIMPLIFY pass can read. */
  lemma GridFitsRecordsOk(g: seq<seq<Record>>, ncols: nat, corners: seq<Pos>)
    requires GridFits(g, ncols, corners)
    ensures RecordsOk(g, ncols, |corners|)
  {
  }

  /** The position of point `i`, for any index. */
  function PosOf(points: seq<Point>): nat -> Pos
  {
    (i: nat) => if i < |points| then points[i].pos else Pos(0, 0)
  }

  lemma PositionsMap(points: seq<Point>, s: seq<nat>)
    requires IndicesIn(s, |points|)
    ensures Positions(points, s) == MapSeq(PosOf(points), s)
  {
  }

  /**
   * The simplified triangles only use indices of the original ones, and
   * their corners are the simplification of the original corners.
   */
  lemma SimplifiedPositions(points: seq<Point>, g: seq<seq<Record>>, ncols: nat, tris: seq<nat>, n: nat)
    requires RecordsOk(g, ncols, |tris|) && 2 * n <= |g| && IndicesIn(tris, |points|)
    requires |Output(BinaryLayout, g, ncols, tris, n)| <= |tris|
    ensures IndicesIn(Output(BinaryLayout, g, ncols, tris, n), |points|)
    ensures Positions(points, Output(BinaryLayout, g, ncols, tris, n)) ==
      Output(BinaryLayout, g, ncols, Positions(points, tris), n)
  {
    var out := Output(BinaryLayout, g, ncols, tris, n);
    var clamp := Clamp(|points|);
    assert MapSeq(clamp, tris) == tris;
    OutputMap(clamp, BinaryLayout, g, ncols, tris, n);
    assert |tris| > 0 ==> tris[0] < |points|;
    forall k | 0 <= k < |out| ensures out[k] < |points| {
      assert out[k] == clamp(out[k]);
    }
    PositionsMap(points, out);
    PositionsMap(points, tris);
    OutputMap(PosOf(points), BinaryLayout, g, ncols, tris, n);
  }

  /** Main triangles followed by connector pairs make a mesh whose last `nconn` triangles are the pairs. */
  lemma PairsAtEnd(m: Mesh, tris: seq<nat>, conn: seq<nat>)
    requires m.triangles == tris + conn && m.conntri == [] && m.nconn == |conn| / 3
    requires |tris| % 3 == 0 && |conn| % 6 == 0
    requires IndicesIn(tris, |m.points|) && IndicesIn(conn, |m.points|)
    ensures ConnectorsOk(m) && |m.triangles| - 3 * m.nconn == |tris|
    ensures m.triangles[..|tris|] == tris && m.triangles[|tris|..] == conn
  {
    var a, c := |tris| / 3, |conn| / 6;
    assert |tris| == 3 * a && |conn| == 6 * c;
    assert m.nconn == 2 * c && |m.triangles| == 3 * (a + 2 * c);
    assert NTri(m) == a + 2 * c;
  }

  lemma WholeTriangles(len: nat, newlen: nat, elim: nat)
    requires len % 3 == 0 && newlen == len - 3 * elim
    ensures newlen % 3 == 0
  {
    var a := len / 3;
    assert newlen == 3 * (a - elim);
  }

  /** The extrusion points of a mesh whose triangles end with `conn` are the ones its pairs mark. */
  lemma MarkedIsExtruded(m: Mesh, tris: seq<nat>, conn: seq<nat>)
    requires ConnectorsOk(m) && m.triangles == tris + conn && |tris| % 3 == 0 && 3 * m.nconn == |conn|
    ensures Marked(m) == Extruded(conn)
  {
    forall x | x in Extruded(conn) ensures x in Marked(m) {
      ExtrudedIsMarked(m, tris, conn, x);
    }
    forall x | x in Marked(m) ensures x in Extruded(conn) {
      MarkedIsExtrusion(m, tris, conn, x);
    }
  }

  lemma ExtrudedIsMarked(m: Mesh, tris: seq<nat>, conn: seq<nat>, x: nat)
    requires ConnectorsOk(m) && m.triangles == tris + conn && |tris| % 3 == 0 && 3 * m.nconn == |conn|
    requires x in Extruded(conn)
    ensures x in Marked(m)
  {
    var j :| 0 <= j < |conn| && (j % 6 == 3 || j % 6 == 4) && conn[j] == x;
    var k := j / 6;
    assert j == 6 * k + j % 6;
    PairCorner(m, tris, conn, k);
  }

  lemma MarkedIsExtrusion(m: Mesh, tris: seq<nat>, conn: seq<nat>, x: nat)
    requires ConnectorsOk(m) && m.triangles == tris + conn && |tris| % 3 == 0 && 3 * m.nconn == |conn|
    requires x in Marked(m)
    ensures x in Extruded(conn)
  {
    var first := NTri(m) - m.nconn;
    var k :| 0 <= k < m.nconn / 2 && (x == m.triangles[(first + 2 * k) * 3 + 3] || x == m.triangles[(first + 2 * k) * 3 + 4]);
    PairCorner(m, tris, conn, k);
  }

  /** The fourth and fifth corners of connector pair `k` in the mesh and in `conn`. */
  lemma PairCorner(m: Mesh, tris: seq<nat>, conn: seq<nat>, k: nat)
    requires ConnectorsOk(m) && m.triangles == tris + conn && |tris| % 3 == 0 && 3 * m.nconn == |conn|
    requires k < m.nconn / 2
    ensures var first := NTri(m) - m.nconn;
      m.triangles[(first + 2 * k) * 3 + 3] == conn[6 * k + 3] && (6 * k + 3) % 6 == 3 &&
      m.triangles[(first + 2 * k) * 3 + 4] == conn[6 * k + 4] && (6 * k + 4) % 6 == 4 &&
      6 * k + 4 < |conn|
  {
    var first := NTri(m) - m.nconn;
    assert 3 * first == |tris|;
    assert (first + 2 * k) * 3 + 3 == |tris| + 6 * k + 3;
  }

  // ---------------------------------------------------------------------
  // One march.
  // ---------------------------------------------------------------------

  /**
   * `par_msquares_function` without DUAL: march, with SIMPLIFY merge the
   * runs of full blocks and drop unreferenced points, then append the
   * extrusion triangles after the main ones.
   */
  method Tessellate(cfg: Config, connect: bool, simplify: bool) returns (m: Mesh)
    requires ConfigOk(cfg)
    ensures Tessellated(m, cfg, connect, simplify)
  {
    var points, tris, conn, edge, originals, grid := March(cfg, connect, simplify);
    var dim := if cfg.heights then 3 else 2;
    if simplify {
      var ncols := cfg.image.width / cfg.image.cellsize;
      GridFitsRecordsOk(grid, ncols, Positions(points, tris));
      var elim := CountEliminated(grid, ncols);
      var simplified := Rebuild(BinaryLayout, grid, ncols, tris, elim);
      SimplifiedIndices(cfg, connect, points, tris, conn, edge, originals, grid, simplified);
      var newpoints, newtris, newconn := Compact(points, simplified, conn);
      m := Mesh(dim, newpoints, newtris + newconn, |newconn| / 3, [], 0);
      SimplifiedTessellated(cfg, connect, points, tris, conn, edge, originals, grid, simplified, newpoints, newtris, newconn, m);
    } else {
      m := Mesh(dim, points, tris + conn, |conn| / 3, [], 0);
      PlainTessellated(cfg, connect, points, tris, conn, edge, originals, m);
    }
  }

  /** Without SIMPLIFY the mesh is the march's state. */
  lemma PlainTessellated(cfg: Config, connect: bool,
                         points: seq<Point>, tris: seq<nat>, conn: seq<nat>, edge: map<nat, nat>, originals: set<nat>, m: Mesh)
    requires ConfigOk(cfg) && Progress(cfg, Rows(cfg), 0)
    requires MarchState(cfg, connect, Rows(cfg), 0, points, tris, conn, edge, originals)
    requires m == Mesh(if cfg.heights then 3 else 2, points, tris + conn, |conn| / 3, [], 0)
    ensures Tessellated(m, cfg, connect, false)
  {
    var t := GridTrace(cfg, connect);
    PairsAtEnd(m, tris, conn);
    MarkedIsExtruded(m, tris, conn);
    assert Kept(m.points, Unmarked(m), |m.points|) == t.created by {
      KeptFrame(points, [], originals, Unmarked(m), |points|);
      assert points + [] == points;
    }
    if !connect {
      assert Positions(m.points, m.triangles[|m.triangles| - 3 * m.nconn..]) == [];
    }
    forall k | 0 <= k < |tris| && k < |m.triangles| ensures m.triangles[k] in Unmarked(m) {
      assert m.triangles[k] == tris[k];
    }
  }

  /** The rebuilt index list addresses points of the march. */
  lemma SimplifiedIndices(cfg: Config, connect: bool,
                          points: seq<Point>, tris: seq<nat>, conn: seq<nat>, edge: map<nat, nat>, originals: set<nat>,
                          grid: seq<seq<Record>>, simplified: seq<nat>)
    requires ConfigOk(cfg) && Progress(cfg, Rows(cfg), 0)
    requires MarchState(cfg, connect, Rows(cfg), 0, points, tris, conn, edge, originals)
    requires GridRecordsOk(cfg, connect, Rows(cfg), grid, Positions(points, tris))
    requires RecordsOk(grid, Cols(cfg), |tris|) && 3 * GridCount(grid, |grid|) == |tris|
    requires var main := Output(BinaryLayout, grid, Cols(cfg), tris, |grid| / 2);
      |simplified| == |tris| - 3 * TotalElim(grid, Cols(cfg), |grid| / 2) &&
      |main| <= |simplified| && simplified[..|main|] == main &&
      forall k :: |main| <= k < |simplified| ==> simplified[k] == 0
    ensures IndicesIn(simplified, |points|) && IndicesIn(conn, |points|)
  {
    var main := Output(BinaryLayout, grid, Cols(cfg), tris, |grid| / 2);
    OutputFits(BinaryLayout, grid, Cols(cfg), tris);
    SimplifiedPositions(points, grid, Cols(cfg), tris, |grid| / 2);
    forall k | 0 <= k < |simplified| ensures simplified[k] < |points| {
      if k < |main| {
        assert simplified[k] == main[k];
      } else {
        assert tris[0] < |points|;
      }
    }
  }

  /** With SIMPLIFY the mesh is the compacted, simplified march. */
  lemma SimplifiedTessellated(cfg: Config, connect: bool,
                              points: seq<Point>, tris: seq<nat>, conn: seq<nat>, edge: map<nat, nat>, originals: set<nat>,
                              grid: seq<seq<Record>>, simplified: seq<nat>,
                              newpoints: seq<Point>, newtris: seq<nat>, newconn: seq<nat>, m: Mesh)
    requires ConfigOk(cfg) && Progress(cfg, Rows(cfg), 0)
    requires MarchState(cfg, connect, Rows(cfg), 0, points, tris, conn, edge, originals)
    requires GridRecordsOk(cfg, connect, Rows(cfg), grid, Positions(points, tris))
    requires RecordsOk(grid, Cols(cfg), |tris|) && 3 * GridCount(grid, |grid|) == |tris|
    requires var main := Output(BinaryLayout, grid, Cols(cfg), tris, |grid| / 2);
      |simplified| == |tris| - 3 * TotalElim(grid, Cols(cfg), |grid| / 2) &&
      |main| <= |simplified| && simplified[..|main|] == main &&
      forall k :: |main| <= k < |simplified| ==> simplified[k] == 0
    requires IndicesIn(simplified, |points|) && IndicesIn(conn, |points|)
    requires |newtris| == |simplified| && |newconn| == |conn|
    requires forall k :: 0 <= k < |simplified| ==>
      newtris[k] == Rank(Elements(simplified + conn), simplified[k]) && newtris[k] < |newpoints| && newpoints[newtris[k]] == points[simplified[k]]
    requires forall k :: 0 <= k < |conn| ==>
      newconn[k] == Rank(Elements(simplified + conn), conn[k]) && newconn[k] < |newpoints| && newpoints[newconn[k]] == points[conn[k]]
    requires forall j :: 0 <= j < |newpoints| ==> j in Elements(newtris + newconn)
    requires newpoints == Kept(points, Elements(simplified + conn), |points|)
    requires m == Mesh(if cfg.heights then 3 else 2, newpoints, newtris + newconn, |newconn| / 3, [], 0)
    ensures Tessellated(m, cfg, connect, true)
  {
    FinishedState(cfg, connect, points, tris, conn, edge, originals);
    SimplifiedMain(cfg, connect, points, tris, conn, grid, simplified, newpoints, newtris);
    SimplifiedPairs(cfg, connect, points, tris, conn, newpoints, newtris, newconn, m);
    KeptPointsOk(cfg, points, Elements(simplified + conn), |points|);
    var half := |grid| / 2;
    SimplifiedOnOriginals(grid, Cols(cfg), tris, half, originals);
    SimplifiedPositions(points, grid, Cols(cfg), tris, half);
    MarkedIsExtruded(m, newtris, newconn);
    SimplifiedUnmarked(points, conn, simplified, originals, newtris, newconn, m, |Output(BinaryLayout, grid, Cols(cfg), tris, half)|);
    SimplifiedAssembled(cfg, connect, newpoints, newtris, newconn, m);
  }

  /** The simplified triangles only use indices the original triangles use, so they stay on the originals. */
  lemma SimplifiedOnOriginals(g: seq<seq<Record>>, ncols: nat, tris: seq<nat>, n: nat, originals: set<nat>)
    requires RecordsOk(g, ncols, |tris|) && 2 * n <= |g| && OnOriginals(tris, originals)
    requires |Output(BinaryLayout, g, ncols, tris, n)| <= |tris|
    ensures OnOriginals(Output(BinaryLayout, g, ncols, tris, n), originals)
  {
    var out := Output(BinaryLayout, g, ncols, tris, n);
    if |out| > 0 {
      var o := tris[0];
      var keep: nat -> nat := (i: nat) => if i in originals then i else o;
      assert MapSeq(keep, tris) == tris;
      OutputMap(keep, BinaryLayout, g, ncols, tris, n);
      assert MapSeq(keep, out) == out;
      forall k | 0 <= k < |out| ensures out[k] in originals {
        assert out[k] == MapSeq(keep, out)[k];
      }
    }
  }

  /**
   * After renumbering, the first `len` main indices, which were originals,
   * are no extrusion points: a copy and an original never share a rank.
   */
  lemma SimplifiedUnmarked(points: seq<Point>, conn: seq<nat>, simplified: seq<nat>, originals: set<nat>,
                           newtris: seq<nat>, newconn: seq<nat>, m: Mesh, len: nat)
    requires len <= |simplified| && OnOriginals(simplified[..len], originals)
    requires IndicesIn(conn, |points|) && PairsMarkCopies(conn, |points|, originals)
    requires |newtris| == |simplified| && |newconn| == |conn|
    requires forall k :: 0 <= k < |simplified| ==> newtris[k] == Rank(Elements(simplified + conn), simplified[k])
    requires forall k :: 0 <= k < |conn| ==> newconn[k] == Rank(Elements(simplified + conn), conn[k])
    requires ConnectorsOk(m) && m.triangles == newtris + newconn && Marked(m) == Extruded(newconn)
    ensures MainUnmarked(m, len)
  {
    var used := Elements(simplified + conn);
    forall k | 0 <= k < len && k < |m.triangles| ensures m.triangles[k] in Unmarked(m) {
      assert m.triangles[k] == newtris[k] && simplified[..len][k] == simplified[k];
      assert (simplified + conn)[k] == simplified[k];
      forall j | 0 <= j < |newconn| && (j % 6 == 3 || j % 6 == 4) ensures newconn[j] != newtris[k] {
        assert (simplified + conn)[|simplified| + j] == conn[j];
        assert conn[j] in Extruded(conn);
        RankInjective(used, simplified[k], conn[j]);
      }
    }
  }

  /** What a finished march leaves: its triangles and pairs are the reference corners and extrusion. */
  predicate MarchFinished(cfg: Config, connect: bool, points: seq<Point>, tris: seq<nat>, conn: seq<nat>)
    requires ConfigOk(cfg)
  {
    IndicesIn(tris, |points|) && IndicesIn(conn, |points|) && |tris| % 3 == 0 && |conn| % 6 == 0 &&
    GridTrace(cfg, connect).corners == Positions(points, tris) &&
    GridTrace(cfg, connect).extrusion == (if connect then Positions(points, conn) else []) &&
    (!connect ==> conn == [])
  }

  lemma FinishedState(cfg: Config, connect: bool, points: seq<Point>, tris: seq<nat>, conn: seq<nat>, edge: map<nat, nat>,
                      originals: set<nat>)
    requires ConfigOk(cfg) && Progress(cfg, Rows(cfg), 0)
    requires MarchState(cfg, connect, Rows(cfg), 0, points, tris, conn, edge, originals)
    ensures MarchFinished(cfg, connect, points, tris, conn)
  {
  }

  /** The mesh the two parts leave, with every point used, is tessellated. */
  lemma SimplifiedAssembled(cfg: Config, connect: bool, newpoints: seq<Point>, newtris: seq<nat>, newconn: seq<nat>, m: Mesh)
    requires ConfigOk(cfg) && PointsOk(cfg, newpoints)
    requires m == Mesh(if cfg.heights then 3 else 2, newpoints, newtris + newconn, |newconn| / 3, [], 0)
    requires forall j :: 0 <= j < |newpoints| ==> j in Elements(newtris + newconn)
    requires IndicesIn(newtris, |newpoints|)
    requires |RecordGrid(cfg, connect, Rows(cfg))| == Rows(cfg) &&
      RecordsOk(RecordGrid(cfg, connect, Rows(cfg)), Cols(cfg), |GridTrace(cfg, connect).corners|)
    requires var t, g := GridTrace(cfg, connect), RecordGrid(cfg, connect, Rows(cfg));
      var main := Output(BinaryLayout, g, Cols(cfg), t.corners, Rows(cfg) / 2);
      |main| <= |newtris| && Positions(newpoints, newtris[..|main|]) == main &&
      |newtris| + 3 * TotalElim(g, Cols(cfg), Rows(cfg) / 2) == |t.corners| &&
      (Rows(cfg) % 2 == 0 ==> |main| == |newtris|) &&
      forall k :: |main| <= k < |newtris| ==> newtris[k] == 0
    requires ConnectorsOk(m) && |m.triangles| - 3 * m.nconn == |newtris| && m.triangles[..|newtris|] == newtris
    requires MainUnmarked(m, |Output(BinaryLayout, RecordGrid(cfg, connect, Rows(cfg)), Cols(cfg), GridTrace(cfg, connect).corners,
      Rows(cfg) / 2)|)
    requires 3 * m.nconn == |GridTrace(cfg, connect).extrusion|
    requires Positions(m.points, m.triangles[|newtris|..]) == GridTrace(cfg, connect).extrusion
    ensures Tessellated(m, cfg, connect, true)
  {
    var main := Output(BinaryLayout, RecordGrid(cfg, connect, Rows(cfg)), Cols(cfg), GridTrace(cfg, connect).corners, Rows(cfg) / 2);
    assert m.triangles[..|main|] == newtris[..|main|];
    assert forall k :: |main| <= k < |newtris| ==> m.triangles[k] == newtris[k];
  }

  /** The simplified triangles, renumbered, are the simplification of the reference corners, then zeros. */
  lemma SimplifiedMain(cfg: Config, connect: bool, points: seq<Point>, tris: seq<nat>, conn: seq<nat>,
                       grid: seq<seq<Record>>, simplified: seq<nat>, newpoints: seq<Point>, newtris: seq<nat>)
    requires ConfigOk(cfg) && MarchFinished(cfg, connect, points, tris, conn)
    requires GridRecordsOk(cfg, connect, Rows(cfg), grid, Positions(points, tris))
    requires RecordsOk(grid, Cols(cfg), |tris|) && 3 * GridCount(grid, |grid|) == |tris|
    requires var main := Output(BinaryLayout, grid, Cols(cfg), tris, |grid| / 2);
      |simplified| == |tris| - 3 * TotalElim(grid, Cols(cfg), |grid| / 2) &&
      |main| <= |simplified| && simplified[..|main|] == main &&
      forall k :: |main| <= k < |simplified| ==> simplified[k] == 0
    requires IndicesIn(simplified, |points|)
    requires |newtris| == |simplified|
    requires forall k :: 0 <= k < |simplified| ==>
      newtris[k] == Rank(Elements(simplified + conn), simplified[k]) && newtris[k] < |newpoints| && newpoints[newtris[k]] == points[simplified[k]]
    ensures |newtris| % 3 == 0 && IndicesIn(newtris, |newpoints|)
    ensures RecordGrid(cfg, connect, Rows(cfg)) == grid && |grid| == Rows(cfg) &&
      RecordsOk(grid, Cols(cfg), |GridTrace(cfg, connect).corners|)
    ensures var t, g := GridTrace(cfg, connect), RecordGrid(cfg, connect, Rows(cfg));
      var main := Output(BinaryLayout, g, Cols(cfg), t.corners, Rows(cfg) / 2);
      |main| <= |newtris| && Positions(newpoints, newtris[..|main|]) == main &&
      |newtris| + 3 * TotalElim(g, Cols(cfg), Rows(cfg) / 2) == |t.corners| &&
      (Rows(cfg) % 2 == 0 ==> |main| == |newtris|) &&
      forall k :: |main| <= k < |newtris| ==> newtris[k] == 0
  {
    var t := GridTrace(cfg, connect);
    var ncols := Cols(cfg);
    var half := Rows(cfg) / 2;
    var mainIndices := Output(BinaryLayout, grid, ncols, tris, half);
    OutputFits(BinaryLayout, grid, ncols, tris);
    SimplifiedPositions(points, grid, ncols, tris, half);
    var main := Output(BinaryLayout, grid, ncols, t.corners, half);
    assert main == Positions(points, mainIndices);
    WholeTriangles(|tris|, |simplified|, TotalElim(grid, ncols, half));
    assert Positions(newpoints, newtris[..|main|]) == main by {
      forall k | 0 <= k < |main| ensures newpoints[newtris[k]].pos == main[k] {
        assert simplified[k] == mainIndices[k];
      }
    }
    forall k | |main| <= k < |newtris| ensures newtris[k] == 0 {
      assert newtris[k] == Rank(Elements(simplified + conn), 0);
    }
  }

  /** The renumbered pairs close the mesh and sit at the reference extrusion corners. */
  lemma SimplifiedPairs(cfg: Config, connect: bool, points: seq<Point>, tris: seq<nat>, conn: seq<nat>,
                        newpoints: seq<Point>, newtris: seq<nat>, newconn: seq<nat>, m: Mesh)
    requires ConfigOk(cfg) && MarchFinished(cfg, connect, points, tris, conn)
    requires |newtris| % 3 == 0 && IndicesIn(newtris, |newpoints|) && |newconn| == |conn|
    requires forall k :: 0 <= k < |conn| ==>
      newconn[k] < |newpoints| && newpoints[newconn[k]] == points[conn[k]]
    requires m == Mesh(if cfg.heights then 3 else 2, newpoints, newtris + newconn, |newconn| / 3, [], 0)
    ensures ConnectorsOk(m) && |m.triangles| - 3 * m.nconn == |newtris| && m.triangles[..|newtris|] == newtris
    ensures 3 * m.nconn == |GridTrace(cfg, connect).extrusion|
    ensures Positions(m.points, m.triangles[|newtris|..]) == GridTrace(cfg, connect).extrusion
  {
    PairsAtEnd(m, newtris, newconn);
    assert Positions(m.points, newconn) == Positions(points, conn);
    if !connect {
      assert newconn == [];
    }
  }

  // ---------------------------------------------------------------------
  // Merged lists.
  // ---------------------------------------------------------------------

  /**
   * The list a merge with merge flags `snap` makes of `parts`: unchanged
   * when `snap` is zero, otherwise mesh `i` at level `i`, with CONNECT its
   * extrusion points one level lower.
   */
  function Snapped(parts: seq<Mesh>, snap: Flags): (r: seq<Mesh>)
    requires snap & CONNECT != 0 ==> forall i :: 0 <= i < |parts| ==> ConnectorsOk(parts[i])
    ensures |r| == |parts|
  {
    if snap == 0 then parts
    else seq(|parts|, i requires 0 <= i < |parts| => Leveled(parts[i], i, snap & CONNECT != 0))
  }

  /** Levelling keeps the triangles, so the extrusion points stay marked. */
  lemma LeveledShape(m: Mesh, i: nat, connect: bool)
    requires connect ==> ConnectorsOk(m)
    ensures Leveled(m, i, connect).triangles == m.triangles && Leveled(m, i, connect).nconn == m.nconn
    ensures |Leveled(m, i, connect).points| == |m.points|
    ensures ConnectorsOk(m) ==> ConnectorsOk(Leveled(m, i, connect)) && Marked(Leveled(m, i, connect)) == Marked(m)
  {
  }

  /** A second levelling overrides the first: every Z is assigned again. */
  lemma LeveledTwice(m: Mesh, i: nat, j: nat, c: bool, d: bool)
    requires ConnectorsOk(m)
    ensures Leveled(Leveled(m, j, c), i, d) == Leveled(m, i, d)
  {
    LeveledShape(m, j, c);
  }

  /** What a merge of an already merged list and one more part yields. */
  lemma MergeStep(parts: seq<Mesh>, level: Flags, more: seq<Mesh>, snap: Flags, merged: seq<Mesh>)
    requires forall i :: 0 <= i < |parts| ==> ConnectorsOk(parts[i])
    requires forall i :: 0 <= i < |more| ==> ConnectorsOk(more[i])
    requires level != 0 ==> snap != 0
    requires forall i :: 0 <= i < |parts| ==> ConnectorsOk(Snapped(parts, level)[i])
    requires |merged| == |parts| + |more|
    requires snap == 0 ==> merged == Snapped(parts, level) + more
    requires snap != 0 ==> forall i :: 0 <= i < |merged| ==>
      merged[i] == Leveled((Snapped(parts, level) + more)[i], i, snap & CONNECT != 0)
    ensures merged == Snapped(parts + more, snap)
  {
    var all := parts + more;
    if snap != 0 {
      forall i | 0 <= i < |merged| ensures merged[i] == Snapped(all, snap)[i] {
        if i < |parts| && level != 0 {
          LeveledTwice(parts[i], i, i, level & CONNECT != 0, snap & CONNECT != 0);
        }
      }
    }
  }

  lemma FlattenTwo(a: seq<Mesh>, b: seq<Mesh>)
    ensures Flatten([a, b]) == a + b
  {
    assert [a, b][..1] == [a];
    assert [a][..0] == [];
    assert Flatten([a]) == a;
  }

  /** Levelling keeps every mesh's connectors well formed. */
  lemma SnappedOk(parts: seq<Mesh>, level: Flags)
    requires forall i :: 0 <= i < |parts| ==> ConnectorsOk(parts[i])
    ensures forall i :: 0 <= i < |parts| ==> ConnectorsOk(Snapped(parts, level)[i])
  {
    forall i | 0 <= i < |parts| ensures ConnectorsOk(Snapped(parts, level)[i]) {
      LeveledShape(parts[i], i, level & CONNECT != 0);
    }
  }

  // ---------------------------------------------------------------------
  // The DUAL recursion.
  // ---------------------------------------------------------------------

  /** With DUAL, whether the second march has extrusion triangles: CONNECT counts only with HEIGHTS. */
  function DualConnect(flags: Flags): bool
  {
    flags & HEIGHTS != 0 && flags & CONNECT != 0
  }

  /** With DUAL, the merge flags: SNAP and CONNECT, both dropped without HEIGHTS. */
  function DualMergeFlags(flags: Flags): Flags
  {
    if flags & HEIGHTS == 0 then 0 else flags & (SNAP | CONNECT)
  }

  /** The flags of the two marches of the DUAL recursion. */
  lemma DualFlags(flags: Flags)
    requires flags & DUAL != 0
    ensures var f := (flags ^ INVERT) & !DUAL & !CONNECT;
      f & DUAL == 0 && (f & INVERT != 0) == (flags & INVERT == 0) && f & CONNECT == 0 &&
      f & HEIGHTS == flags & HEIGHTS && f & SIMPLIFY == flags & SIMPLIFY
    ensures var f := ((flags ^ INVERT) & !DUAL & !CONNECT) ^ INVERT;
      var g := if DualConnect(flags) then f | CONNECT else f;
      g & DUAL == 0 && g & INVERT == flags & INVERT && (g & CONNECT != 0) == DualConnect(flags) &&
      g & HEIGHTS == flags & HEIGHTS && g & SIMPLIFY == flags & SIMPLIFY
  {
  }

  /** A tessellated mesh has well-formed connectors. */
  lemma TessellatedConnectors(m: Mesh, cfg: Config, connect: bool, simplify: bool)
    requires ConfigOk(cfg) && Tessellated(m, cfg, connect, simplify)
    ensures ConnectorsOk(m)
  {
  }

  /** The meshes of two one-mesh lists with well-formed connectors. */
  lemma FlattenPairOk(a: seq<Mesh>, b: seq<Mesh>)
    requires |a| == 1 && |b| == 1 && ConnectorsOk(a[0]) && ConnectorsOk(b[0])
    ensures Flatten([a, b]) == a + b
    ensures forall m :: m in Flatten([a, b]) ==> ConnectorsOk(m)
  {
    FlattenTwo(a, b);
    assert a + b == [a[0], b[0]];
  }

  /** Merging the two marches of the DUAL recursion levels them as `Snapped` says. */
  lemma DualMerged(p0: seq<Mesh>, p1: seq<Mesh>, snap: Flags, merged: seq<Mesh>)
    requires |p0| == 1 && |p1| == 1 && ConnectorsOk(p0[0]) && ConnectorsOk(p1[0])
    requires |merged| == 2
    requires snap == 0 ==> merged == p0 + p1
    requires snap != 0 ==> forall i :: 0 <= i < |merged| ==> merged[i] == Leveled((p0 + p1)[i], i, snap & CONNECT != 0)
    ensures merged == Snapped(p0 + p1, snap)
  {
    SnappedOk(p0, 0);
    MergeStep(p0, 0, p1, snap, merged);
  }

  /**
   * `par_msquares_function`.  Without DUAL one march gives one mesh.  With
   * DUAL the image is marched inverted without extrusion, then as given
   * (extruded only with CONNECT and HEIGHTS), and the two meshes are merged
   * in that order.  The ghost `parts` are the meshes before merging.
   */
  method Function(tables: TableSet, image: Image, flags: Flags, heightAt: Pos -> int)
      returns (meshes: seq<Mesh>, ghost parts: seq<Mesh>)
    requires TablesOk(tables) && DimensionsOk(image.width, image.height, image.cellsize)
    decreases if flags & DUAL != 0 then 2 else 0
    ensures flags & DUAL == 0 ==>
      |parts| == 1 && meshes == parts &&
      Tessellated(parts[0], MarchConfig(tables, image, flags, heightAt), flags & CONNECT != 0, flags & SIMPLIFY != 0)
    ensures flags & DUAL != 0 ==>
      |parts| == 2 &&
      Tessellated(parts[0], MarchConfig(tables, image, flags ^ INVERT, heightAt), false, flags & SIMPLIFY != 0) &&
      Tessellated(parts[1], MarchConfig(tables, image, flags, heightAt), DualConnect(flags), flags & SIMPLIFY != 0) &&
      ConnectorsOk(parts[0]) && ConnectorsOk(parts[1]) &&
      meshes == Snapped(parts, DualMergeFlags(flags))
  {
    if flags & DUAL != 0 {
      meshes, parts := Dual(tables, image, flags, heightAt);
    } else {
      var m := Tessellate(MarchConfig(tables, image, flags, heightAt), flags & CONNECT != 0, flags & SIMPLIFY != 0);
      meshes, parts := [m], [m];
    }
  }

  /**
   * The DUAL branch of `par_msquares_function`: the image marched inverted
   * without extrusion, then as given (extruded only with CONNECT and
   * HEIGHTS), and the two meshes merged in that order.
   */
  method Dual(tables: TableSet, image: Image, flags: Flags, heightAt: Pos -> int)
      returns (meshes: seq<Mesh>, ghost parts: seq<Mesh>)
    requires TablesOk(tables) && DimensionsOk(image.width, image.height, image.cellsize) && flags & DUAL != 0
    decreases 1
    ensures |parts| == 2
    ensures Tessellated(parts[0], MarchConfig(tables, image, flags ^ INVERT, heightAt), false, flags & SIMPLIFY != 0)
    ensures Tessellated(parts[1], MarchConfig(tables, image, flags, heightAt), DualConnect(flags), flags & SIMPLIFY != 0)
    ensures ConnectorsOk(parts[0]) && ConnectorsOk(parts[1])
    ensures meshes == Snapped(parts, DualMergeFlags(flags))
  {
    var connect := flags & CONNECT;
    var snap := flags & SNAP;
    var heights := flags & HEIGHTS;
    if heights == 0 {
      snap, connect := 0, 0;
    }
    DualFlags(flags);
    var f := (flags ^ INVERT) & !DUAL & !CONNECT;
    var inverted, p0 := Function(tables, image, f, heightAt);
    DualRun(tables, image, f, flags ^ INVERT, heightAt, false, flags & SIMPLIFY != 0, inverted, p0);
    f := f ^ INVERT;
    if connect != 0 {
      f := f | CONNECT;
    }
    assert (connect != 0) == DualConnect(flags) && snap | connect == DualMergeFlags(flags);
    var plain, p1 := Function(tables, image, f, heightAt);
    DualRun(tables, image, f, flags, heightAt, DualConnect(flags), flags & SIMPLIFY != 0, plain, p1);
    parts := p0 + p1;
    FlattenPairOk(inverted, plain);
    meshes := Merge([inverted, plain], snap | connect);
    DualMerged(p0, p1, snap | connect, meshes);
  }

  /**
   * A recursive call without DUAL is one march; its configuration depends
   * only on the INVERT and HEIGHTS bits.
   */
  lemma DualRun(tables: TableSet, image: Image, f: Flags, g: Flags, heightAt: Pos -> int, connect: bool, simplify: bool,
                meshes: seq<Mesh>, parts: seq<Mesh>)
    requires TablesOk(tables) && DimensionsOk(image.width, image.height, image.cellsize)
    requires f & DUAL == 0 && f & INVERT == g & INVERT && f & HEIGHTS == g & HEIGHTS
    requires (f & CONNECT != 0) == connect && (f & SIMPLIFY != 0) == simplify
    requires |parts| == 1 && meshes == parts &&
      Tessellated(parts[0], MarchConfig(tables, image, f, heightAt), f & CONNECT != 0, f & SIMPLIFY != 0)
    ensures meshes == parts && Tessellated(parts[0], MarchConfig(tables, image, g, heightAt), connect, simplify)
    ensures ConnectorsOk(parts[0])
  {
    assert MarchConfig(tables, image, f, heightAt) == MarchConfig(tables, image, g, heightAt);
  }

  // ---------------------------------------------------------------------
  // The multi-threshold driver.
  // ---------------------------------------------------------------------

  /**
   * The inside test of band `i` of `par_msquares_grayscale_multi`: at or
   * above threshold `i - 1` and below threshold `i`, with no lower bound
   * for the first band and no upper bound for the last.
   */
  function BandInside(data: seq<int>, thresholds: seq<int>, i: nat): int -> bool
  {
    loc => 0 <= loc < |data| &&
      (i == 0 || i - 1 >= |thresholds| || data[loc] >= thresholds[i - 1]) &&
      (i >= |thresholds| || data[loc] < thresholds[i])
  }

  /** The configuration of the march of band `i`: never inverted, heights as the flags say. */
  function BandConfig(tables: TableSet, width: nat, height: nat, cellsize: nat, data: seq<int>,
                      thresholds: seq<int>, i: nat, flags: Flags, heightAt: Pos -> int): Config
  {
    Config(tables, Image(width, height, cellsize, BandInside(data, thresholds, i)), false, flags & HEIGHTS != 0, heightAt)
  }

  /** CONNECT as the multi-threshold driver keeps it: only with HEIGHTS. */
  function GrayConnect(flags: Flags): Flags
  {
    if flags & HEIGHTS == 0 then 0 else flags & CONNECT
  }

  /** SNAP as the multi-threshold driver keeps it: only with HEIGHTS. */
  function GraySnap(flags: Flags): Flags
  {
    if flags & HEIGHTS == 0 then 0 else flags & SNAP
  }

  /** The flags of the merge after band `i` of `n + 1`: CONNECT after the first band, SNAP at the last. */
  function BandMergeFlags(flags: Flags, n: nat, i: nat): Flags
  {
    (if i > 0 then GrayConnect(flags) else 0) | (if i == n then GraySnap(flags) else 0)
  }

  /** Every mesh of a list of well-formed meshes is well formed. */
  lemma MembersOk(xs: seq<Mesh>, ys: seq<Mesh>)
    requires forall i :: 0 <= i < |xs| ==> ConnectorsOk(xs[i])
    requires forall i :: 0 <= i < |ys| ==> ConnectorsOk(ys[i])
    ensures forall m :: m in xs + ys ==> ConnectorsOk(m)
  {
  }

  /** The flags the bands are marched with. */
  lemma GrayFlags(flags: Flags, connect: Flags)
    requires connect == 0 || connect == CONNECT
    ensures var f := (flags & !INVERT & !DUAL & !CONNECT & !SNAP) | connect;
      f & DUAL == 0 && f & INVERT == 0 && (f & CONNECT != 0) == (connect != 0) &&
      f & HEIGHTS == flags & HEIGHTS && f & SIMPLIFY == flags & SIMPLIFY
  {
  }

  /** A nonzero CONNECT part keeps a merge flag set nonzero. */
  lemma MergeFlagsNonzero(flags: Flags, n: nat, i: nat)
    ensures i > 0 && GrayConnect(flags) != 0 ==> BandMergeFlags(flags, n, i) != 0
    ensures BandMergeFlags(flags, n, i) & CONNECT != 0 <==> i > 0 && GrayConnect(flags) != 0
  {
  }

  /** Meshes `0..n` of `parts` are the tessellations of their bands. */
  predicate BandsTessellated(parts: seq<Mesh>, n: nat, tables: TableSet, data: seq<int>, width: nat, height: nat,
                             cellsize: nat, thresholds: seq<int>, flags: Flags, heightAt: Pos -> int)
    requires n <= |parts| && TablesOk(tables) && DimensionsOk(width, height, cellsize)
  {
    forall i :: 0 <= i < n ==>
      Tessellated(parts[i], BandConfig(tables, width, height, cellsize, data, thresholds, i, flags, heightAt),
                  i > 0 && GrayConnect(flags) != 0, flags & SIMPLIFY != 0)
  }

  lemma BandsPrefix(parts: seq<Mesh>, more: seq<Mesh>, n: nat, tables: TableSet, data: seq<int>,
                                      width: nat, height: nat, cellsize: nat, thresholds: seq<int>, flags: Flags,
                                      heightAt: Pos -> int)
    requires n <= |parts| && TablesOk(tables) && DimensionsOk(width, height, cellsize)
    ensures BandsTessellated(parts + more, n, tables, data, width, height, cellsize, thresholds, flags, heightAt)
         == BandsTessellated(parts, n, tables, data, width, height, cellsize, thresholds, flags, heightAt)
  {
    assert forall i :: 0 <= i < n ==> (parts + more)[i] == parts[i];
  }

  lemma BandsSnoc(parts: seq<Mesh>, band: seq<Mesh>, tables: TableSet, data: seq<int>, width: nat, height: nat,
                  cellsize: nat, thresholds: seq<int>, flags: Flags, heightAt: Pos -> int)
    requires TablesOk(tables) && DimensionsOk(width, height, cellsize) && |band| == 1
    requires BandsTessellated(parts, |parts|, tables, data, width, height, cellsize, thresholds, flags, heightAt)
    requires Tessellated(band[0], BandConfig(tables, width, height, cellsize, data, thresholds, |parts|, flags, heightAt),
                         |parts| > 0 && GrayConnect(flags) != 0, flags & SIMPLIFY != 0)
    ensures BandsTessellated(parts + band, |parts| + 1, tables, data, width, height, cellsize, thresholds, flags, heightAt)
  {
    BandsPrefix(parts, band, |parts|, tables, data, width, height, cellsize, thresholds, flags, heightAt);
    assert (parts + band)[|parts|] == band[0];
  }

  lemma BandsAt(parts: seq<Mesh>, n: nat, k: nat, tables: TableSet, data: seq<int>, width: nat,
                                   height: nat, cellsize: nat, thresholds: seq<int>, flags: Flags, heightAt: Pos -> int)
    requires n <= |parts| && k < n && TablesOk(tables) && DimensionsOk(width, height, cellsize)
    requires BandsTessellated(parts, n, tables, data, width, height, cellsize, thresholds, flags, heightAt)
    ensures Tessellated(parts[k], BandConfig(tables, width, height, cellsize, data, thresholds, k, flags, heightAt),
                        k > 0 && GrayConnect(flags) != 0, flags & SIMPLIFY != 0)
  {
  }

  /** All bands of `parts` are tessellated. */
  lemma BandsAll(parts: seq<Mesh>, tables: TableSet, data: seq<int>, width: nat, height: nat,
                 cellsize: nat, thresholds: seq<int>, flags: Flags, heightAt: Pos -> int)
    requires TablesOk(tables) && DimensionsOk(width, height, cellsize)
    requires BandsTessellated(parts, |parts|, tables, data, width, height, cellsize, thresholds, flags, heightAt)
    ensures forall i :: 0 <= i < |parts| ==>
      Tessellated(parts[i], BandConfig(tables, width, height, cellsize, data, thresholds, i, flags, heightAt),
                  i > 0 && GrayConnect(flags) != 0, flags & SIMPLIFY != 0) == true
  {
    forall i | 0 <= i < |parts|
      ensures Tessellated(parts[i], BandConfig(tables, width, height, cellsize, data, thresholds, i, flags, heightAt),
                          i > 0 && GrayConnect(flags) != 0, flags & SIMPLIFY != 0) == true
    {
      BandsAt(parts, |parts|, i, tables, data, width, height, cellsize, thresholds, flags, heightAt);
    }
  }

  /**
   * The march of band `i == |parts|` with flags `f` (DUAL and INVERT clear,
   * CONNECT from the second band on): a list of one mesh, which extends
   * the tessellated bands `parts` by one.
   */
  method MarchBand(tables: TableSet, data: seq<int>, width: nat, height: nat, cellsize: nat,
                   thresholds: seq<int>, flags: Flags, f: Flags, heightAt: Pos -> int, i: nat, ghost parts: seq<Mesh>)
      returns (band: seq<Mesh>)
    requires TablesOk(tables) && DimensionsOk(width, height, cellsize) && i == |parts|
    requires f & DUAL == 0 && f & INVERT == 0 && f & HEIGHTS == flags & HEIGHTS && f & SIMPLIFY == flags & SIMPLIFY
    requires (f & CONNECT != 0) == (|parts| > 0 && GrayConnect(flags) != 0)
    requires BandsTessellated(parts, |parts|, tables, data, width, height, cellsize, thresholds, flags, heightAt)
    ensures |band| == 1 && ConnectorsOk(band[0])
    ensures BandsTessellated(parts + band, |parts| + 1, tables, data, width, height, cellsize, thresholds, flags, heightAt)
  {
    var image := Image(width, height, cellsize, BandInside(data, thresholds, i));
    ghost var p;
    band, p := Function(tables, image, f, heightAt);
    assert MarchConfig(tables, image, f, heightAt) == BandConfig(tables, width, height, cellsize, data, thresholds, |parts|, flags, heightAt);
    TessellatedConnectors(band[0], MarchConfig(tables, image, f, heightAt), f & CONNECT != 0, f & SIMPLIFY != 0);
    BandsSnoc(parts, band, tables, data, width, height, cellsize, thresholds, flags, heightAt);
  }

  /**
   * One merge of the multi-threshold driver: the list so far, the bands
   * `parts` merged with flags `level`, followed by one more band, merged
   * with flags `snap`.  A nonzero `level` is followed by a nonzero `snap`,
   * whose levels then override the earlier ones.
   */
  method MergeBand(meshes: seq<Mesh>, band: seq<Mesh>, snap: Flags, ghost parts: seq<Mesh>, ghost level: Flags)
      returns (merged: seq<Mesh>)
    requires forall k :: 0 <= k < |parts| ==> ConnectorsOk(parts[k])
    requires |band| == 1 && ConnectorsOk(band[0])
    requires meshes == Snapped(parts, level) && (level != 0 ==> snap != 0)
    ensures forall k :: 0 <= k < |parts + band| ==> ConnectorsOk((parts + band)[k])
    ensures merged == Snapped(parts + band, snap)
  {
    SnappedOk(parts, level);
    FlattenTwo(meshes, band);
    MembersOk(meshes, band);
    merged := Merge([meshes, band], snap);
    MergeStep(parts, level, band, snap, merged);
  }

  /**
   * The state of the multi-threshold driver before band `i`: the flags `f`
   * the next band is marched with, the bands `parts` marched so far, and
   * their merge `meshes`, levelled by `level`, the flags of the last merge.
   */
  predicate GrayState(tables: TableSet, data: seq<int>, width: nat, height: nat, cellsize: nat,
                      thresholds: seq<int>, flags: Flags, heightAt: Pos -> int, i: nat,
                      connect: Flags, snap: Flags, f: Flags, meshes: seq<Mesh>, parts: seq<Mesh>, level: Flags)
    requires TablesOk(tables) && DimensionsOk(width, height, cellsize)
  {
    connect == GrayConnect(flags) && snap == GraySnap(flags) &&
    |parts| == i &&
    f == (flags & !INVERT & !DUAL & !CONNECT & !SNAP) | (if i > 0 then connect else 0) &&
    (forall k :: 0 <= k < i ==> ConnectorsOk(parts[k])) &&
    BandsTessellated(parts, i, tables, data, width, height, cellsize, thresholds, flags, heightAt) &&
    level == (if i == 0 then 0 else BandMergeFlags(flags, |thresholds|, i - 1)) &&
    meshes == Snapped(parts, level)
  }

  /** One iteration of the multi-threshold driver: march band `i`, then merge it onto the list. */
  method AddBand(tables: TableSet, data: seq<int>, width: nat, height: nat, cellsize: nat,
                 thresholds: seq<int>, flags: Flags, heightAt: Pos -> int, i: nat,
                 connect: Flags, snap: Flags, f: Flags, mergeconf: Flags,
                 meshes: seq<Mesh>, ghost parts: seq<Mesh>, ghost level: Flags)
      returns (merged: seq<Mesh>, ghost parts': seq<Mesh>, ghost level': Flags)
    requires TablesOk(tables) && DimensionsOk(width, height, cellsize) && i <= |thresholds|
    requires GrayState(tables, data, width, height, cellsize, thresholds, flags, heightAt,
                       i, connect, snap, f, meshes, parts, level) == true
    requires mergeconf == (if i > 0 then connect else 0) | (if i == |thresholds| then snap else 0)
    ensures GrayState(tables, data, width, height, cellsize, thresholds, flags, heightAt,
                      i + 1, connect, snap, f | connect, merged, parts', level') == true
  {
    GrayFlags(flags, if i > 0 then connect else 0);
    var band := MarchBand(tables, data, width, height, cellsize, thresholds, flags, f, heightAt, i, parts);
    if i > 0 {
      MergeFlagsNonzero(flags, |thresholds|, i - 1);
    }
    merged := MergeBand(meshes, band, mergeconf, parts, level);
    parts', level' := parts + band, mergeconf;
    GrayFlags(flags, connect);
  }

  /**
   * `par_msquares_grayscale_multi`.  Band `i` of the `|thresholds| + 1`
   * bands is marched uninverted, with CONNECT from the second band on, and
   * merged onto the list so far; every merge but the last uses CONNECT
   * alone, the last adds SNAP, so the result is the bands levelled by the
   * last merge's flags.  The ghost `parts` are the bands' meshes.
   */
  method GrayscaleMulti(tables: TableSet, data: seq<int>, width: nat, height: nat, cellsize: nat,
                        thresholds: seq<int>, flags: Flags, heightAt: Pos -> int)
      returns (meshes: seq<Mesh>, ghost parts: seq<Mesh>)
    requires TablesOk(tables) && DimensionsOk(width, height, cellsize)
    ensures |parts| == |thresholds| + 1
    ensures forall i :: 0 <= i < |parts| ==> ConnectorsOk(parts[i])
    ensures forall i :: 0 <= i < |parts| ==>
      Tessellated(parts[i], BandConfig(tables, width, height, cellsize, data, thresholds, i, flags, heightAt),
                  i > 0 && GrayConnect(flags) != 0, flags & SIMPLIFY != 0) == true
    ensures meshes == Snapped(parts, BandMergeFlags(flags, |thresholds|, |thresholds|))
  {
    var connect := flags & CONNECT;
    var snap := flags & SNAP;
    var heights := flags & HEIGHTS;
    if heights == 0 {
      snap, connect := 0, 0;
    }
    var f := flags & !INVERT & !DUAL & !CONNECT & !SNAP;
    meshes, parts := [], [];
    ghost var level: Flags := 0;
    for i := 0 to |thresholds| + 1
      invariant GrayState(tables, data, width, height, cellsize, thresholds, flags, heightAt,
                          i, connect, snap, f, meshes, parts, level) == true
    {
      var mergeconf := if i > 0 then connect else 0;
      if i == |thresholds| {
        mergeconf := mergeconf | snap;
      }
      meshes, parts, level := AddBand(tables, data, width, height, cellsize, thresholds, flags, heightAt,
                                      i, connect, snap, f, mergeconf, meshes, parts, level);
      f := f | connect;
    }
    BandsAll(parts, tables, data, width, height, cellsize, thresholds, flags, heightAt);
  }
}

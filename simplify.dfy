/**
 * The SIMPLIFY pass shared by both marchers.  The cell grid is walked two
 * rows at a time; a column whose cells in both rows are full blocks belongs
 * to a run, a maximal horizontal stretch of such columns, and each run is
 * replaced by a single quad of two triangles spanning the north-west,
 * north-east, south-west and south-east corners of the run.  The
 * triangles of every other cell are copied, row cell first, then its south
 * cell.  Only the corner offsets and the winding of the quad differ
 * between the two marchers.
 */
module Simplification {
  /**
   * What the marcher recorded for one cell of one mesh: whether it is a
   * full block, the index of its first triangle and how many triangles it
   * emitted.
   */
  datatype Record = Record(block: bool, first: nat, count: nat)

  /** Binary marcher (`par_msquares_function`) or colour marcher (`par_msquares_color_multi`). */
  datatype Layout = BinaryLayout | ColourLayout

  /** A grid of `|g|` rows of `ncols` records. */
  predicate GridOk(g: seq<seq<Record>>, ncols: nat)
  {
    forall r :: 0 <= r < |g| ==> |g[r]| == ncols
  }

  /** A record addresses whole triangles of `tris`, and a full block holds exactly two triangles. */
  predicate CellOk(rec: Record, len: nat)
  {
    (rec.first + rec.count) * 3 <= len && (rec.block ==> rec.count == 2)
  }

  /** Every record of the grid addresses whole triangles among `len` indices. */
  predicate RecordsOk(g: seq<seq<Record>>, ncols: nat, len: nat)
  {
    GridOk(g, ncols) && forall r, c :: 0 <= r < |g| && 0 <= c < ncols ==> CellOk(g[r][c], len)
  }

  /** Column `c` of pair `p` (rows `2p` and `2p + 1`) is part of a run. */
  predicate Block(g: seq<seq<Record>>, ncols: nat, p: nat, c: nat)
    requires GridOk(g, ncols) && 2 * p + 1 < |g| && c < ncols
  {
    g[2 * p][c].block && g[2 * p + 1][c].block
  }

  /**
   * The first column of the run that column `c` belongs to: every column
   * from it to `c` is a block column and the column before it is not, so
   * runs are maximal.
   */
  function RunStart(g: seq<seq<Record>>, ncols: nat, p: nat, c: nat): (s: nat)
    requires GridOk(g, ncols) && 2 * p + 1 < |g| && c < ncols && Block(g, ncols, p, c)
    ensures s <= c
    ensures forall k :: s <= k <= c ==> Block(g, ncols, p, k)
    ensures s == 0 || !Block(g, ncols, p, s - 1)
  {
    if c > 0 && Block(g, ncols, p, c - 1) then RunStart(g, ncols, p, c - 1) else c
  }

  /** Offsets of the north-west, north-east, south-west and south-east corners within a block cell's two triangles. */
  function CornerOffsets(layout: Layout): (nat, nat, nat, nat)
  {
    match layout
    case BinaryLayout => (4, 0, 2, 1)
    case ColourLayout => (5, 2, 0, 1)
  }

  /** The two triangles replacing a run, in each marcher's winding. */
  function Quad<T>(layout: Layout, nw: T, ne: T, sw: T, se: T): seq<T>
  {
    match layout
    case BinaryLayout => [se, sw, nw, nw, ne, se]
    case ColourLayout => [nw, sw, se, se, ne, nw]
  }

  /** The quad of the run from column `s` to column `e` of pair `p`. */
  function RunQuad<T>(layout: Layout, g: seq<seq<Record>>, ncols: nat, tris: seq<T>, p: nat, s: nat, e: nat): seq<T>
    requires RecordsOk(g, ncols, |tris|) && 2 * p + 1 < |g| && s <= e < ncols
    requires Block(g, ncols, p, s) && Block(g, ncols, p, e)
  {
    var (nw, ne, sw, se) := CornerOffsets(layout);
    assert CellOk(g[2 * p][s], |tris|) && CellOk(g[2 * p][e], |tris|);
    assert CellOk(g[2 * p + 1][s], |tris|) && CellOk(g[2 * p + 1][e], |tris|);
    Quad(layout, tris[g[2 * p][s].first * 3 + nw], tris[g[2 * p][e].first * 3 + ne],
      tris[g[2 * p + 1][s].first * 3 + sw], tris[g[2 * p + 1][e].first * 3 + se])
  }

  /** The triangles (as index triples) a record addresses. */
  function CellTris<T>(tris: seq<T>, rec: Record): seq<T>
    requires (rec.first + rec.count) * 3 <= |tris|
  {
    tris[rec.first * 3..(rec.first + rec.count) * 3]
  }

  /** Column `c` ends the run before it. */
  predicate RunEndsAt(g: seq<seq<Record>>, ncols: nat, p: nat, c: nat)
    requires GridOk(g, ncols) && 2 * p + 1 < |g| && c < ncols
  {
    c > 0 && Block(g, ncols, p, c - 1) && !Block(g, ncols, p, c)
  }

  /**
   * What column `c` of pair `p` emits: the quad of the run it ends, if any,
   * then, unless it is in a run, the triangles of its row cell and of its
   * south cell.
   */
  function EmitCell<T>(layout: Layout, g: seq<seq<Record>>, ncols: nat, tris: seq<T>, p: nat, c: nat): seq<T>
    requires RecordsOk(g, ncols, |tris|) && 2 * p + 1 < |g| && c < ncols
  {
    assert CellOk(g[2 * p][c], |tris|) && CellOk(g[2 * p + 1][c], |tris|);
    (if RunEndsAt(g, ncols, p, c) then RunQuad(layout, g, ncols, tris, p, RunStart(g, ncols, p, c - 1), c - 1) else []) +
    (if Block(g, ncols, p, c) then [] else CellTris(tris, g[2 * p][c]) + CellTris(tris, g[2 * p + 1][c]))
  }

  /** What the first `n` columns of pair `p` emit. */
  function EmitPrefix<T>(layout: Layout, g: seq<seq<Record>>, ncols: nat, tris: seq<T>, p: nat, n: nat): seq<T>
    requires RecordsOk(g, ncols, |tris|) && 2 * p + 1 < |g| && n <= ncols
  {
    if n == 0 then [] else EmitPrefix(layout, g, ncols, tris, p, n - 1) + EmitCell(layout, g, ncols, tris, p, n - 1)
  }

  /** A run still open at the end of the pair. */
  predicate TailRun(g: seq<seq<Record>>, ncols: nat, p: nat)
    requires GridOk(g, ncols) && 2 * p + 1 < |g|
  {
    ncols > 0 && Block(g, ncols, p, ncols - 1)
  }

  /** What pair `p` emits: its columns, then the quad of a run reaching the eastern edge. */
  function PairOut<T>(layout: Layout, g: seq<seq<Record>>, ncols: nat, tris: seq<T>, p: nat): seq<T>
    requires RecordsOk(g, ncols, |tris|) && 2 * p + 1 < |g|
  {
    EmitPrefix(layout, g, ncols, tris, p, ncols) +
    if TailRun(g, ncols, p) then RunQuad(layout, g, ncols, tris, p, RunStart(g, ncols, p, ncols - 1), ncols - 1) else []
  }

  /** What the first `n` pairs emit. */
  function Output<T>(layout: Layout, g: seq<seq<Record>>, ncols: nat, tris: seq<T>, n: nat): seq<T>
    requires RecordsOk(g, ncols, |tris|) && 2 * n <= |g|
  {
    if n == 0 then [] else Output(layout, g, ncols, tris, n - 1) + PairOut(layout, g, ncols, tris, n - 1)
  }

  // ---------------------------------------------------------------------
  // Elimination counts.
  // ---------------------------------------------------------------------

  /** Triangles eliminated by the run column `c` ends: a run of width W is 4W triangles replaced by 2. */
  function ElimCell(g: seq<seq<Record>>, ncols: nat, p: nat, c: nat): nat
    requires GridOk(g, ncols) && 2 * p + 1 < |g| && c < ncols
  {
    if RunEndsAt(g, ncols, p, c) then 4 * (c - RunStart(g, ncols, p, c - 1)) - 2 else 0
  }

  function ElimPrefix(g: seq<seq<Record>>, ncols: nat, p: nat, n: nat): nat
    requires GridOk(g, ncols) && 2 * p + 1 < |g| && n <= ncols
  {
    if n == 0 then 0 else ElimPrefix(g, ncols, p, n - 1) + ElimCell(g, ncols, p, n - 1)
  }

  function PairElim(g: seq<seq<Record>>, ncols: nat, p: nat): nat
    requires GridOk(g, ncols) && 2 * p + 1 < |g|
  {
    ElimPrefix(g, ncols, p, ncols) +
    if TailRun(g, ncols, p) then 4 * (ncols - RunStart(g, ncols, p, ncols - 1)) - 2 else 0
  }

  /** Triangles eliminated by the first `n` pairs: `neliminated_triangles`. */
  function TotalElim(g: seq<seq<Record>>, ncols: nat, n: nat): nat
    requires GridOk(g, ncols) && 2 * n <= |g|
  {
    if n == 0 then 0 else TotalElim(g, ncols, n - 1) + PairElim(g, ncols, n - 1)
  }

  // ---------------------------------------------------------------------
  // Triangle counts.
  // ---------------------------------------------------------------------

  /** Triangles recorded for the first `n` cells of a row. */
  function RowCount(row: seq<Record>, n: nat): nat
    requires n <= |row|
  {
    if n == 0 then 0 else RowCount(row, n - 1) + row[n - 1].count
  }

  /** Triangles recorded for the first `n` rows. */
  function GridCount(g: seq<seq<Record>>, n: nat): nat
    requires n <= |g|
  {
    if n == 0 then 0 else GridCount(g, n - 1) + RowCount(g[n - 1], |g[n - 1]|)
  }

  lemma {:induction false} RowCountPrefix(row: seq<Record>, more: seq<Record>, n: nat)
    requires n <= |row|
    ensures RowCount(row + more, n) == RowCount(row, n)
  {
    if n > 0 {
      RowCountPrefix(row, more, n - 1);
      assert (row + more)[n - 1] == row[n - 1];
    }
  }

  lemma {:induction false} GridCountPrefix(g: seq<seq<Record>>, more: seq<seq<Record>>, n: nat)
    requires n <= |g|
    ensures GridCount(g + more, n) == GridCount(g, n)
  {
    if n > 0 {
      GridCountPrefix(g, more, n - 1);
      assert (g + more)[n - 1] == g[n - 1];
    }
  }

  /** The triangles of an open run: four per column. */
  function Pending(g: seq<seq<Record>>, ncols: nat, p: nat, n: nat): nat
    requires GridOk(g, ncols) && 2 * p + 1 < |g| && n <= ncols
  {
    if n > 0 && Block(g, ncols, p, n - 1) then 4 * (n - RunStart(g, ncols, p, n - 1)) else 0
  }

  /** How many indices column `c` emits. */
  lemma EmitCellLength<T>(layout: Layout, g: seq<seq<Record>>, ncols: nat, tris: seq<T>, p: nat, c: nat)
    requires RecordsOk(g, ncols, |tris|) && 2 * p + 1 < |g| && c < ncols
    ensures |EmitCell(layout, g, ncols, tris, p, c)| ==
      (if RunEndsAt(g, ncols, p, c) then 6 else 0) +
      (if Block(g, ncols, p, c) then 0 else 3 * (g[2 * p][c].count + g[2 * p + 1][c].count))
  {
    assert CellOk(g[2 * p][c], |tris|) && CellOk(g[2 * p + 1][c], |tris|);
  }

  /** An open run grows by four triangles per block column and is closed, with four times its width less two eliminated, by the first other column. */
  lemma PendingStep(g: seq<seq<Record>>, ncols: nat, p: nat, c: nat)
    requires GridOk(g, ncols) && 2 * p + 1 < |g| && c < ncols
    ensures Pending(g, ncols, p, c + 1) == if Block(g, ncols, p, c) then Pending(g, ncols, p, c) + 4 else 0
    ensures RunEndsAt(g, ncols, p, c) ==> ElimCell(g, ncols, p, c) + 2 == Pending(g, ncols, p, c)
    ensures !RunEndsAt(g, ncols, p, c) ==> ElimCell(g, ncols, p, c) == 0
    ensures !Block(g, ncols, p, c) && !RunEndsAt(g, ncols, p, c) ==> Pending(g, ncols, p, c) == 0
  {
    if Block(g, ncols, p, c) && c > 0 && Block(g, ncols, p, c - 1) {
      assert RunStart(g, ncols, p, c) == RunStart(g, ncols, p, c - 1);
    }
  }

  /**
   * Every triangle of the first `n` columns of a pair is emitted,
   * eliminated, or waiting in an open run.
   */
  lemma {:induction false} EmitPrefixLength<T>(layout: Layout, g: seq<seq<Record>>, ncols: nat, tris: seq<T>, p: nat, n: nat)
    requires RecordsOk(g, ncols, |tris|) && 2 * p + 1 < |g| && n <= ncols
    ensures |EmitPrefix(layout, g, ncols, tris, p, n)| + 3 * ElimPrefix(g, ncols, p, n) + 3 * Pending(g, ncols, p, n)
      == 3 * (RowCount(g[2 * p], n) + RowCount(g[2 * p + 1], n))
  {
    if n > 0 {
      var c := n - 1;
      EmitPrefixLength(layout, g, ncols, tris, p, c);
      EmitCellLength(layout, g, ncols, tris, p, c);
      PendingStep(g, ncols, p, c);
      assert CellOk(g[2 * p][c], |tris|) && CellOk(g[2 * p + 1][c], |tris|);
      assert EmitPrefix(layout, g, ncols, tris, p, n) == EmitPrefix(layout, g, ncols, tris, p, c) + EmitCell(layout, g, ncols, tris, p, c);
    }
  }

  /** A pair emits three indices per triangle of its two rows that it does not eliminate. */
  lemma PairOutLength<T>(layout: Layout, g: seq<seq<Record>>, ncols: nat, tris: seq<T>, p: nat)
    requires RecordsOk(g, ncols, |tris|) && 2 * p + 1 < |g|
    ensures |PairOut(layout, g, ncols, tris, p)| + 3 * PairElim(g, ncols, p)
      == 3 * (RowCount(g[2 * p], ncols) + RowCount(g[2 * p + 1], ncols))
  {
    EmitPrefixLength(layout, g, ncols, tris, p, ncols);
  }

  /**
   * The first `n` pairs emit three indices per triangle of their rows that
   * is not eliminated.
   */
  lemma {:induction false} OutputLength<T>(layout: Layout, g: seq<seq<Record>>, ncols: nat, tris: seq<T>, n: nat)
    requires RecordsOk(g, ncols, |tris|) && 2 * n <= |g|
    ensures |Output(layout, g, ncols, tris, n)| + 3 * TotalElim(g, ncols, n) == 3 * GridCount(g, 2 * n)
  {
    if n > 0 {
      OutputLength(layout, g, ncols, tris, n - 1);
      PairOutLength(layout, g, ncols, tris, n - 1);
      GridCountPair(g, ncols, n);
    }
  }

  lemma {:induction false} GridCountPair(g: seq<seq<Record>>, ncols: nat, n: nat)
    requires GridOk(g, ncols) && 0 < n && 2 * n <= |g|
    ensures GridCount(g, 2 * n) == GridCount(g, 2 * (n - 1)) + RowCount(g[2 * (n - 1)], ncols) + RowCount(g[2 * (n - 1) + 1], ncols)
  {
    var a, b := 2 * n - 2, 2 * n - 1;
    assert |g[a]| == ncols && |g[b]| == ncols;
    assert GridCount(g, b) == GridCount(g, a) + RowCount(g[a], ncols);
    assert GridCount(g, b + 1) == GridCount(g, b) + RowCount(g[b], ncols);
  }

  /** Running counts `d` that grow by each row's count are the grid's running counts. */
  lemma {:induction false} GridCountFromRows(g: seq<seq<Record>>, ncols: nat, d: seq<nat>, n: nat)
    requires GridOk(g, ncols) && n <= |g| && |d| == |g| + 1 && d[0] == 0
    requires forall r :: 0 <= r < |g| ==> d[r] + RowCount(g[r], ncols) == d[r + 1]
    ensures GridCount(g, n) == d[n]
  {
    if n > 0 {
      GridCountFromRows(g, ncols, d, n - 1);
      assert |g[n - 1]| == ncols;
    }
  }

  lemma {:induction false} GridCountMonotone(g: seq<seq<Record>>, m: nat, n: nat)
    requires m <= n <= |g|
    ensures GridCount(g, m) <= GridCount(g, n)
  {
    if m < n {
      GridCountMonotone(g, m, n - 1);
    }
  }

  /**
   * With the records covering all `|tris| / 3` triangles, the pass emits
   * no more than the `(ntris - neliminated) * 3` indices it allocates, and
   * exactly that many when the number of rows is even; with an odd number
   * the last row's triangles are dropped and the rest of the allocation is
   * left zero.
   */
  lemma OutputFits<T>(layout: Layout, g: seq<seq<Record>>, ncols: nat, tris: seq<T>)
    requires RecordsOk(g, ncols, |tris|) && 3 * GridCount(g, |g|) == |tris|
    ensures |Output(layout, g, ncols, tris, |g| / 2)| + 3 * TotalElim(g, ncols, |g| / 2) <= |tris|
    ensures |g| % 2 == 0 ==> |Output(layout, g, ncols, tris, |g| / 2)| == |tris| - 3 * TotalElim(g, ncols, |g| / 2)
  {
    OutputLength(layout, g, ncols, tris, |g| / 2);
    GridCountMonotone(g, 2 * (|g| / 2), |g|);
  }

  // ---------------------------------------------------------------------
  // The pass only moves entries.
  // ---------------------------------------------------------------------

  /** An index clamped below `n` (0 outside): the identity on indices the pass can read. */
  function Clamp(n: nat): nat -> nat
  {
    (i: nat) => if i < n then i else 0
  }

  /** `f` applied to every entry. */
  function MapSeq<T, U>(f: T -> U, s: seq<T>): (r: seq<U>)
    ensures |r| == |s| && forall j :: 0 <= j < |s| ==> r[j] == f(s[j])
  {
    seq(|s|, j requires 0 <= j < |s| => f(s[j]))
  }

  lemma MapSeqAppend<T, U>(f: T -> U, a: seq<T>, b: seq<T>)
    ensures MapSeq(f, a + b) == MapSeq(f, a) + MapSeq(f, b)
  {
  }

  lemma RunQuadMap<T, U>(f: T -> U, layout: Layout, g: seq<seq<Record>>, ncols: nat, tris: seq<T>, p: nat, s: nat, e: nat)
    requires RecordsOk(g, ncols, |tris|) && 2 * p + 1 < |g| && s <= e < ncols
    requires Block(g, ncols, p, s) && Block(g, ncols, p, e)
    ensures MapSeq(f, RunQuad(layout, g, ncols, tris, p, s, e)) == RunQuad(layout, g, ncols, MapSeq(f, tris), p, s, e)
  {
    assert CellOk(g[2 * p][s], |tris|) && CellOk(g[2 * p][e], |tris|);
    assert CellOk(g[2 * p + 1][s], |tris|) && CellOk(g[2 * p + 1][e], |tris|);
  }

  lemma CellTrisMap<T, U>(f: T -> U, tris: seq<T>, rec: Record)
    requires (rec.first + rec.count) * 3 <= |tris|
    ensures MapSeq(f, CellTris(tris, rec)) == CellTris(MapSeq(f, tris), rec)
  {
  }

  /** Mapping commutes with what one column emits. */
  lemma EmitCellMap<T, U>(f: T -> U, layout: Layout, g: seq<seq<Record>>, ncols: nat, tris: seq<T>, p: nat, c: nat)
    requires RecordsOk(g, ncols, |tris|) && 2 * p + 1 < |g| && c < ncols
    ensures MapSeq(f, EmitCell(layout, g, ncols, tris, p, c)) == EmitCell(layout, g, ncols, MapSeq(f, tris), p, c)
  {
    assert CellOk(g[2 * p][c], |tris|) && CellOk(g[2 * p + 1][c], |tris|);
    var quad := if RunEndsAt(g, ncols, p, c) then RunQuad(layout, g, ncols, tris, p, RunStart(g, ncols, p, c - 1), c - 1) else [];
    var cells := if Block(g, ncols, p, c) then [] else CellTris(tris, g[2 * p][c]) + CellTris(tris, g[2 * p + 1][c]);
    assert EmitCell(layout, g, ncols, tris, p, c) == quad + cells;
    MapSeqAppend(f, quad, cells);
    if RunEndsAt(g, ncols, p, c) {
      RunQuadMap(f, layout, g, ncols, tris, p, RunStart(g, ncols, p, c - 1), c - 1);
    }
    if !Block(g, ncols, p, c) {
      CellTrisMap(f, tris, g[2 * p][c]);
      CellTrisMap(f, tris, g[2 * p + 1][c]);
      MapSeqAppend(f, CellTris(tris, g[2 * p][c]), CellTris(tris, g[2 * p + 1][c]));
    }
  }

  lemma {:induction false} EmitPrefixMap<T, U>(f: T -> U, layout: Layout, g: seq<seq<Record>>, ncols: nat, tris: seq<T>, p: nat, n: nat)
    requires RecordsOk(g, ncols, |tris|) && 2 * p + 1 < |g| && n <= ncols
    ensures MapSeq(f, EmitPrefix(layout, g, ncols, tris, p, n)) == EmitPrefix(layout, g, ncols, MapSeq(f, tris), p, n)
  {
    if n > 0 {
      EmitPrefixMap(f, layout, g, ncols, tris, p, n - 1);
      EmitCellMap(f, layout, g, ncols, tris, p, n - 1);
      MapSeqAppend(f, EmitPrefix(layout, g, ncols, tris, p, n - 1), EmitCell(layout, g, ncols, tris, p, n - 1));
    }
  }

  /**
   * The pass only rearranges entries: applying `f` to every index before
   * or after simplifying gives the same result.  In particular the
   * positions of the simplified triangles are the simplification of the
   * positions of the original ones.
   */
  lemma {:induction false} OutputMap<T, U>(f: T -> U, layout: Layout, g: seq<seq<Record>>, ncols: nat, tris: seq<T>, n: nat)
    requires RecordsOk(g, ncols, |tris|) && 2 * n <= |g|
    ensures MapSeq(f, Output(layout, g, ncols, tris, n)) == Output(layout, g, ncols, MapSeq(f, tris), n)
  {
    if n > 0 {
      OutputMap(f, layout, g, ncols, tris, n - 1);
      OutputMapStep(f, layout, g, ncols, tris, n);
    }
  }

  /** One more pair of `OutputMap`. */
  lemma OutputMapStep<T, U>(f: T -> U, layout: Layout, g: seq<seq<Record>>, ncols: nat, tris: seq<T>, n: nat)
    requires RecordsOk(g, ncols, |tris|) && 0 < n && 2 * n <= |g|
    requires MapSeq(f, Output(layout, g, ncols, tris, n - 1)) == Output(layout, g, ncols, MapSeq(f, tris), n - 1)
    ensures MapSeq(f, Output(layout, g, ncols, tris, n)) == Output(layout, g, ncols, MapSeq(f, tris), n)
  {
    PairOutMap(f, layout, g, ncols, tris, n - 1);
    MapSeqAppend(f, Output(layout, g, ncols, tris, n - 1), PairOut(layout, g, ncols, tris, n - 1));
  }

  lemma PairOutMap<T, U>(f: T -> U, layout: Layout, g: seq<seq<Record>>, ncols: nat, tris: seq<T>, p: nat)
    requires RecordsOk(g, ncols, |tris|) && 2 * p + 1 < |g|
    ensures MapSeq(f, PairOut(layout, g, ncols, tris, p)) == PairOut(layout, g, ncols, MapSeq(f, tris), p)
  {
    EmitPrefixMap(f, layout, g, ncols, tris, p, ncols);
    var tail := if TailRun(g, ncols, p) then RunQuad(layout, g, ncols, tris, p, RunStart(g, ncols, p, ncols - 1), ncols - 1) else [];
    if TailRun(g, ncols, p) {
      RunQuadMap(f, layout, g, ncols, tris, p, RunStart(g, ncols, p, ncols - 1), ncols - 1);
    }
    MapSeqAppend(f, EmitPrefix(layout, g, ncols, tris, p, ncols), tail);
  }

  // ---------------------------------------------------------------------
  // The two passes.
  // ---------------------------------------------------------------------

  /** The counting loop over one pair of rows. */
  method PairEliminated(g: seq<seq<Record>>, ncols: nat, p: nat) returns (elim: nat)
    requires GridOk(g, ncols) && 2 * p + 1 < |g|
    ensures elim == PairElim(g, ncols, p)
  {
    elim := 0;
    var inRun := false;
    var start: nat := 0;
    for col := 0 to ncols
      invariant inRun == (col > 0 && Block(g, ncols, p, col - 1))
      invariant inRun ==> start == RunStart(g, ncols, p, col - 1)
      invariant elim == ElimPrefix(g, ncols, p, col)
    {
      if g[2 * p][col].block && g[2 * p + 1][col].block {
        if !inRun {
          inRun := true;
          start := col;
        }
      } else if inRun {
        inRun := false;
        elim := elim + (col - start) * 4 - 2;
      }
    }
    if inRun {
      elim := elim + (ncols - start) * 4 - 2;
    }
  }

  /** The first loop of the pass: how many triangles the runs eliminate. */
  method CountEliminated(g: seq<seq<Record>>, ncols: nat) returns (elim: nat)
    requires GridOk(g, ncols)
    ensures elim == TotalElim(g, ncols, |g| / 2)
  {
    elim := 0;
    var row := 0;
    while row < |g| - 1
      invariant row % 2 == 0 && row <= |g| && elim == TotalElim(g, ncols, row / 2)
    {
      var e := PairEliminated(g, ncols, row / 2);
      elim := elim + e;
      row := row + 2;
    }
  }

  /** Copies the triangles of one cell. */
  method CopyCell(tris: seq<nat>, rec: Record) returns (out: seq<nat>)
    requires (rec.first + rec.count) * 3 <= |tris|
    ensures out == CellTris(tris, rec)
  {
    out := [];
    var celltri := rec.first;
    for t := 0 to rec.count
      invariant celltri == rec.first + t
      invariant out == tris[rec.first * 3..celltri * 3]
    {
      out := out + [tris[celltri * 3], tris[celltri * 3 + 1], tris[celltri * 3 + 2]];
      assert tris[rec.first * 3..(celltri + 1) * 3] == tris[rec.first * 3..celltri * 3] + tris[celltri * 3..celltri * 3 + 3];
      celltri := celltri + 1;
    }
  }

  /** The quad for the run from `s` to `e`, read through the corner offsets. */
  method EmitQuad(layout: Layout, g: seq<seq<Record>>, ncols: nat, tris: seq<nat>, p: nat, s: nat, e: nat) returns (out: seq<nat>)
    requires RecordsOk(g, ncols, |tris|) && 2 * p + 1 < |g| && s <= e < ncols
    requires Block(g, ncols, p, s) && Block(g, ncols, p, e)
    ensures out == RunQuad(layout, g, ncols, tris, p, s, e)
  {
    assert CellOk(g[2 * p][s], |tris|) && CellOk(g[2 * p][e], |tris|);
    assert CellOk(g[2 * p + 1][s], |tris|) && CellOk(g[2 * p + 1][e], |tris|);
    var nwCorner, neCorner, swCorner, seCorner;
    if layout == BinaryLayout {
      nwCorner, neCorner, swCorner, seCorner := 4, 0, 2, 1;
    } else {
      nwCorner, neCorner, swCorner, seCorner := 5, 2, 0, 1;
    }
    var nw := tris[g[2 * p][s].first * 3 + nwCorner];
    var ne := tris[g[2 * p][e].first * 3 + neCorner];
    var sw := tris[g[2 * p + 1][s].first * 3 + swCorner];
    var se := tris[g[2 * p + 1][e].first * 3 + seCorner];
    if layout == BinaryLayout {
      out := [se, sw, nw, nw, ne, se];
    } else {
      out := [nw, sw, se, se, ne, nw];
    }
  }

  /** One column of the rebuilding loop. */
  method RebuildColumn(layout: Layout, g: seq<seq<Record>>, ncols: nat, tris: seq<nat>, p: nat, col: nat,
                       out: seq<nat>, inRun: bool, start: nat) returns (out2: seq<nat>, inRun2: bool, start2: nat)
    requires RecordsOk(g, ncols, |tris|) && 2 * p + 1 < |g| && col < ncols
    requires inRun == (col > 0 && Block(g, ncols, p, col - 1))
    requires inRun ==> start == RunStart(g, ncols, p, col - 1)
    requires out == EmitPrefix(layout, g, ncols, tris, p, col)
    ensures inRun2 == Block(g, ncols, p, col)
    ensures inRun2 ==> start2 == RunStart(g, ncols, p, col)
    ensures out2 == EmitPrefix(layout, g, ncols, tris, p, col + 1)
  {
    out2, inRun2, start2 := out, inRun, start;
    assert CellOk(g[2 * p][col], |tris|) && CellOk(g[2 * p + 1][col], |tris|);
    ghost var cell := EmitCell(layout, g, ncols, tris, p, col);
    assert EmitPrefix(layout, g, ncols, tris, p, col + 1) == out + cell;
    if g[2 * p][col].block && g[2 * p + 1][col].block {
      assert cell == [];
      if !inRun {
        inRun2 := true;
        start2 := col;
      }
    } else {
      var quad := [];
      if inRun {
        inRun2 := false;
        quad := EmitQuad(layout, g, ncols, tris, p, start, col - 1);
      }
      var north := CopyCell(tris, g[2 * p][col]);
      var south := CopyCell(tris, g[2 * p + 1][col]);
      assert cell == quad + (north + south);
      out2 := out + (quad + (north + south));
    }
  }

  /** The rebuilding loop over one pair of rows. */
  method RebuildPair(layout: Layout, g: seq<seq<Record>>, ncols: nat, tris: seq<nat>, p: nat) returns (out: seq<nat>)
    requires RecordsOk(g, ncols, |tris|) && 2 * p + 1 < |g|
    ensures out == PairOut(layout, g, ncols, tris, p)
  {
    out := [];
    var inRun := false;
    var start: nat := 0;
    for col := 0 to ncols
      invariant inRun == (col > 0 && Block(g, ncols, p, col - 1))
      invariant inRun ==> start == RunStart(g, ncols, p, col - 1)
      invariant out == EmitPrefix(layout, g, ncols, tris, p, col)
    {
      out, inRun, start := RebuildColumn(layout, g, ncols, tris, p, col, out, inRun, start);
    }
    if inRun {
      var quad := EmitQuad(layout, g, ncols, tris, p, start, ncols - 1);
      out := out + quad;
    }
  }

  /** `n` zero indices: the part of the allocation the pass leaves untouched. */
  function Zeros(n: nat): (z: seq<nat>)
    ensures |z| == n && forall k :: 0 <= k < n ==> z[k] == 0
  {
    seq(n, k => 0)
  }

  /**
   * The second loop of the pass: the new index array of `ntris - elim`
   * triangles, holding what the pairs emit followed by zeros.
   */
  method Rebuild(layout: Layout, g: seq<seq<Record>>, ncols: nat, tris: seq<nat>, elim: nat) returns (newtris: seq<nat>)
    requires RecordsOk(g, ncols, |tris|) && 3 * GridCount(g, |g|) == |tris|
    requires elim == TotalElim(g, ncols, |g| / 2)
    ensures |newtris| == |tris| - 3 * elim
    ensures |Output(layout, g, ncols, tris, |g| / 2)| <= |newtris|
    ensures newtris[..|Output(layout, g, ncols, tris, |g| / 2)|] == Output(layout, g, ncols, tris, |g| / 2)
    ensures forall k :: |Output(layout, g, ncols, tris, |g| / 2)| <= k < |newtris| ==> newtris[k] == 0
  {
    OutputFits(layout, g, ncols, tris);
    newtris := [];
    var row := 0;
    ghost var pair: nat := 0;
    while row < |g| - 1
      invariant row == 2 * pair && row <= |g| && newtris == Output(layout, g, ncols, tris, pair)
    {
      assert row / 2 == pair;
      var out := RebuildPair(layout, g, ncols, tris, row / 2);
      assert Output(layout, g, ncols, tris, pair + 1) == newtris + out;
      newtris := newtris + out;
      row, pair := row + 2, pair + 1;
    }
    assert pair == |g| / 2;
    ghost var emitted := newtris;
    newtris := newtris + Zeros(|tris| - 3 * elim - |newtris|);
    assert newtris[..|emitted|] == emitted;
  }
}

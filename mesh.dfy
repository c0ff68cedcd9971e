/**
 * Meshes and mesh lists: the accessors, `par_msquares_merge` (ordered
 * concatenation, SNAP levels and the lowering of extrusion points) and
 * `par_msquares_internal_finalize` (appending pending connector
 * triangles).
 */
module Meshes {
  import opened Geometry

  /** The option bits of the public API. */
  type Flags = bv8

  const INVERT: Flags := 1
  const DUAL: Flags := 2
  const HEIGHTS: Flags := 4
  const SNAP: Flags := 8
  const CONNECT: Flags := 16
  const SIMPLIFY: Flags := 32

  /**
   * A vertex: its nominal position and its Z coordinate.  Z is the height
   * callback's value or an alpha byte when the mesh has 3-tuples, 0 when it
   * has 2-tuples, and a level number after SNAP.
   */
  datatype Point = Point(pos: Pos, z: int)

  /**
   * `par_msquares_mesh`: `triangles` holds `ntriangles` 3-tuples of vertex
   * indices; `nconn` is `nconntriangles` and `conntri` the connector
   * triangles the colour marcher keeps apart until it finalizes.
   */
  datatype Mesh = Mesh(dim: nat, points: seq<Point>, triangles: seq<nat>, nconn: nat, conntri: seq<nat>, color: nat)

  /** Every index of `s` addresses one of `n` points. */
  predicate IndicesIn(s: seq<nat>, n: nat)
  {
    forall j :: 0 <= j < |s| ==> s[j] < n
  }

  /** `ntriangles`. */
  function NTri(m: Mesh): nat
  {
    |m.triangles| / 3
  }

  /** Whole triangles whose indices address points of the mesh. */
  predicate IndicesOk(m: Mesh)
  {
    |m.triangles| % 3 == 0 && |m.conntri| % 3 == 0 &&
    (forall k :: 0 <= k < |m.triangles| ==> m.triangles[k] < |m.points|) &&
    (forall k :: 0 <= k < |m.conntri| ==> m.conntri[k] < |m.points|)
  }

  /** The last `nconn` triangles are connector pairs, as the binary marcher leaves them. */
  predicate ConnectorsOk(m: Mesh)
  {
    IndicesOk(m) && m.nconn % 2 == 0 && m.nconn <= NTri(m)
  }

  /** `par_msquares_get_count`. */
  function GetCount(meshes: seq<Mesh>): (n: nat)
    ensures n == |meshes|
  {
    |meshes|
  }

  /** `par_msquares_get_mesh`: the source asserts the index is below the count. */
  function GetMesh(meshes: seq<Mesh>, mindex: nat): (m: Mesh)
    requires mindex < GetCount(meshes)
    ensures m in meshes && m == meshes[mindex]
  {
    meshes[mindex]
  }

  // ---------------------------------------------------------------------
  // Merge.
  // ---------------------------------------------------------------------

  /** The meshes of all lists, list after list, each list in its own order. */
  function Flatten(lists: seq<seq<Mesh>>): seq<Mesh>
  {
    if |lists| == 0 then [] else Flatten(lists[..|lists| - 1]) + lists[|lists| - 1]
  }

  /** The total number of meshes in the lists. */
  function TotalCount(lists: seq<seq<Mesh>>): nat
  {
    if |lists| == 0 then 0 else TotalCount(lists[..|lists| - 1]) + |lists[|lists| - 1]|
  }

  /** The merged list holds as many meshes as all lists together. */
  lemma {:induction false} FlattenLength(lists: seq<seq<Mesh>>)
    ensures |Flatten(lists)| == TotalCount(lists)
  {
    if |lists| > 0 {
      FlattenLength(lists[..|lists| - 1]);
    }
  }

  /** Mesh `j` of list `i` sits at offset `TotalCount(lists[..i]) + j` of the merged list. */
  lemma {:induction false} FlattenAt(lists: seq<seq<Mesh>>, i: nat, j: nat)
    requires i < |lists| && j < |lists[i]|
    ensures TotalCount(lists[..i]) + j < |Flatten(lists)|
    ensures Flatten(lists)[TotalCount(lists[..i]) + j] == lists[i][j]
  {
    var init := lists[..|lists| - 1];
    FlattenLength(init);
    assert Flatten(lists) == Flatten(init) + lists[|lists| - 1];
    if i < |lists| - 1 {
      FlattenAt(init, i, j);
      assert lists[..i] == init[..i];
    } else {
      assert lists[..i] == init;
    }
  }

  /**
   * The extrusion points of a mesh: the first two vertices of the second
   * triangle of each connector pair at the end of its triangle list.
   */
  function Marked(m: Mesh): set<nat>
    requires ConnectorsOk(m)
  {
    var first := NTri(m) - m.nconn;
    (set k | 0 <= k < m.nconn / 2 :: m.triangles[(first + 2 * k) * 3 + 3]) +
    (set k | 0 <= k < m.nconn / 2 :: m.triangles[(first + 2 * k) * 3 + 4])
  }

  /**
   * The mesh at position `i` of a snapped list: every point moves to level
   * `i`, except that with CONNECT the extrusion points of meshes after the
   * first move to level `i - 1`.
   */
  function Leveled(m: Mesh, i: nat, connect: bool): Mesh
    requires connect ==> ConnectorsOk(m)
  {
    m.(points := seq(|m.points|, j requires 0 <= j < |m.points| =>
      m.points[j].(z := if connect && i > 0 && j in Marked(m) then i - 1 else i)))
  }

  /** Sets the Z of every point to `level` (the SNAP loop over one mesh). */
  method SnapPoints(points: seq<Point>, level: int) returns (r: seq<Point>)
    ensures |r| == |points| && forall j :: 0 <= j < |r| ==> r[j] == points[j].(z := level)
  {
    r := points;
    for j := 0 to |r|
      invariant |r| == |points|
      invariant forall q :: 0 <= q < j ==> r[q] == points[q].(z := level)
      invariant forall q :: j <= q < |r| ==> r[q] == points[q]
    {
      r := r[j := r[j].(z := level)];
    }
  }

  /** Marks the extrusion points of a mesh, walking its connector pairs two triangles at a time. */
  method MarkExtrusion(m: Mesh) returns (markers: array<bool>)
    requires ConnectorsOk(m)
    ensures fresh(markers) && markers.Length == |m.points|
    ensures forall j :: 0 <= j < markers.Length ==> (markers[j] <==> j in Marked(m))
  {
    markers := new bool[|m.points|](_ => false);
    var first := NTri(m) - m.nconn;
    var tri := first;
    ghost var k := 0;
    while tri < NTri(m)
      invariant tri == first + 2 * k && k <= m.nconn / 2
      invariant forall j :: 0 <= j < markers.Length ==>
        (markers[j] <==> exists q :: 0 <= q < k && (j == m.triangles[(first + 2 * q) * 3 + 3] || j == m.triangles[(first + 2 * q) * 3 + 4]))
    {
      markers[m.triangles[tri * 3 + 3]] := true;
      markers[m.triangles[tri * 3 + 4]] := true;
      tri := tri + 2;
      k := k + 1;
    }
    forall j | 0 <= j < markers.Length
      ensures markers[j] <==> j in Marked(m)
    {
      if markers[j] {
        var q :| 0 <= q < k && (j == m.triangles[(first + 2 * q) * 3 + 3] || j == m.triangles[(first + 2 * q) * 3 + 4]);
      }
    }
  }

  /** Moves the marked points to `level`. */
  method LowerMarked(points: seq<Point>, markers: array<bool>, level: int) returns (r: seq<Point>)
    requires markers.Length == |points|
    ensures |r| == |points|
    ensures forall j :: 0 <= j < |r| ==> r[j] == if markers[j] then points[j].(z := level) else points[j]
  {
    r := points;
    for j := 0 to |r|
      invariant |r| == |points|
      invariant forall q :: 0 <= q < j ==> r[q] == if markers[q] then points[q].(z := level) else points[q]
      invariant forall q :: j <= q < |r| ==> r[q] == points[q]
    {
      if markers[j] {
        r := r[j := r[j].(z := level)];
      }
    }
  }

  /** Lowering the extrusion points of a snapped mesh gives the CONNECT level assignment. */
  method LowerExtrusion(m: Mesh, ghost original: Mesh, i: nat) returns (r: Mesh)
    requires 0 < i && ConnectorsOk(original) && m == Leveled(original, i, false)
    ensures r == Leveled(original, i, true)
  {
    assert m.triangles == original.triangles && m.nconn == original.nconn;
    var markers := MarkExtrusion(m);
    var pts := LowerMarked(m.points, markers, i - 1);
    r := m.(points := pts);
  }

  /**
   * `par_msquares_merge`: concatenates the lists in order; when `snap` is
   * non-zero gives every point of mesh `i` level `i`, and when `snap` also
   * holds CONNECT lowers the extrusion points of each mesh after the first
   * to the previous level.
   */
  method Merge(lists: seq<seq<Mesh>>, snap: Flags) returns (merged: seq<Mesh>)
    requires snap & CONNECT != 0 ==> forall m :: m in Flatten(lists) ==> ConnectorsOk(m)
    ensures |merged| == |Flatten(lists)| == TotalCount(lists)
    ensures snap == 0 ==> merged == Flatten(lists)
    ensures snap != 0 ==> forall i :: 0 <= i < |merged| ==>
      merged[i] == Leveled(Flatten(lists)[i], i, snap & CONNECT != 0)
  {
    FlattenLength(lists);
    merged := [];
    for i := 0 to |lists|
      invariant merged == Flatten(lists[..i])
    {
      assert lists[..i + 1][..i] == lists[..i];
      merged := merged + lists[i];
    }
    assert lists[..|lists|] == lists;
    if snap == 0 {
      return;
    }
    ghost var all := merged;
    merged := SnapLevels(merged);
    if snap & CONNECT == 0 {
      return;
    }
    merged := LowerLevels(all, merged);
  }

  /** The SNAP loop of `par_msquares_merge`: every point of mesh `i` gets level `i`. */
  method SnapLevels(meshes: seq<Mesh>) returns (merged: seq<Mesh>)
    ensures |merged| == |meshes| && forall k :: 0 <= k < |merged| ==> merged[k] == Leveled(meshes[k], k, false)
  {
    merged := meshes;
    for i := 0 to |merged|
      invariant |merged| == |meshes|
      invariant forall k :: 0 <= k < i ==> merged[k] == Leveled(meshes[k], k, false)
      invariant forall k :: i <= k < |merged| ==> merged[k] == meshes[k]
    {
      var pts := SnapPoints(merged[i].points, i);
      merged := merged[i := merged[i].(points := pts)];
    }
  }

  /**
   * The CONNECT loop of `par_msquares_merge`: the extrusion points of every
   * mesh after the first go down to the previous level.
   */
  method LowerLevels(ghost all: seq<Mesh>, snapped: seq<Mesh>) returns (merged: seq<Mesh>)
    requires |snapped| == |all|
    requires forall k :: 0 <= k < |all| ==> ConnectorsOk(all[k]) && snapped[k] == Leveled(all[k], k, false)
    ensures |merged| == |all| && forall k :: 0 <= k < |merged| ==> merged[k] == Leveled(all[k], k, true)
  {
    merged := snapped;
    var i := 1;
    while i < |merged|
      invariant 1 <= i && |merged| == |all|
      invariant forall k :: 1 <= k < i && k < |merged| ==> merged[k] == Leveled(all[k], k, true)
      invariant forall k :: (k == 0 || i <= k) && k < |merged| ==> merged[k] == snapped[k]
    {
      var lowered := LowerExtrusion(merged[i], all[i], i);
      merged := merged[i := lowered];
      i := i + 1;
    }
  }

  // ---------------------------------------------------------------------
  // Finalize.
  // ---------------------------------------------------------------------

  /** A mesh with its pending connector triangles appended to its triangles. */
  function Appended(m: Mesh): Mesh
  {
    m.(triangles := m.triangles + m.conntri, conntri := [], nconn := 0)
  }

  /**
   * `par_msquares_internal_finalize` as the source writes it: nothing
   * happens when there are fewer than two meshes or when mesh 1 has no
   * connector triangles; otherwise every mesh after the first gets its
   * connectors appended.
   */
  function FinalizedAsWritten(meshes: seq<Mesh>): seq<Mesh>
  {
    if |meshes| < 2 || meshes[1].nconn == 0 then meshes
    else seq(|meshes|, m requires 0 <= m < |meshes| => if m == 0 then meshes[0] else Appended(meshes[m]))
  }

  /** Every mesh after the first gets its pending connector triangles appended. */
  function Finalized(meshes: seq<Mesh>): seq<Mesh>
  {
    seq(|meshes|, m requires 0 <= m < |meshes| => if m == 0 then meshes[0] else Appended(meshes[m]))
  }

  /**
   * The finalize loop, appending each mesh's `conntri` after its
   * triangles and clearing it.  The source returns early when mesh 1 has
   * no connectors; this loop checks every mesh (see `FinalizeGuardLosesConnectors`).
   */
  method Finalize(meshes: seq<Mesh>) returns (r: seq<Mesh>)
    ensures r == Finalized(meshes)
  {
    r := meshes;
    var m := 1;
    while m < |r|
      invariant 1 <= m && |r| == |meshes| && (|r| > 0 ==> r[0] == meshes[0])
      invariant forall k :: 1 <= k < m && k < |r| ==> r[k] == Appended(meshes[k])
      invariant forall k :: m <= k < |r| ==> r[k] == meshes[k]
    {
      var mesh := r[m];
      var triangles := mesh.triangles + mesh.conntri;
      r := r[m := mesh.(triangles := triangles, conntri := [], nconn := 0)];
      m := m + 1;
    }
  }

  /**
   * After finalizing, each mesh after the first holds its old triangles
   * followed by its connectors, with nothing pending; points, colours and
   * the first mesh are untouched.
   */
  lemma FinalizedAppendsConnectors(meshes: seq<Mesh>)
    ensures |Finalized(meshes)| == |meshes|
    ensures forall m :: 1 <= m < |meshes| ==>
      Finalized(meshes)[m].triangles == meshes[m].triangles + meshes[m].conntri &&
      Finalized(meshes)[m].conntri == [] && Finalized(meshes)[m].nconn == 0 &&
      Finalized(meshes)[m].points == meshes[m].points && Finalized(meshes)[m].color == meshes[m].color
    ensures |meshes| > 0 ==> Finalized(meshes)[0] == meshes[0]
  {
  }

  /**
   * The source's early return makes no difference when mesh 1 has
   * connectors, or when no mesh has pending connectors at all.
   */
  lemma FinalizeGuardHarmless(meshes: seq<Mesh>)
    requires (|meshes| >= 2 && meshes[1].nconn > 0) || forall m :: 1 <= m < |meshes| ==> meshes[m].conntri == [] && meshes[m].nconn == 0
    ensures FinalizedAsWritten(meshes) == Finalized(meshes)
  {
    if !(|meshes| >= 2 && meshes[1].nconn > 0) {
      forall m | 1 <= m < |meshes|
        ensures Appended(meshes[m]) == meshes[m]
      {
        assert meshes[m].triangles + [] == meshes[m].triangles;
      }
    }
  }

  /**
   * The early return loses connectors: with three meshes where mesh 1 has
   * none and mesh 2 has a pair pending, the source's finalize leaves mesh
   * 2's connectors unappended.
   */
  lemma FinalizeGuardLosesConnectors()
    ensures var p := Point(Pos(0, 0), 0);
      var m0 := Mesh(3, [p], [0, 0, 0], 0, [], 0);
      var m2 := Mesh(3, [p], [0, 0, 0], 2, [0, 0, 0, 0, 0, 0], 2);
      var meshes := [m0, m0.(color := 1), m2];
      FinalizedAsWritten(meshes)[2].triangles == [0, 0, 0] &&
      Finalized(meshes)[2].triangles == [0, 0, 0, 0, 0, 0, 0, 0, 0]
  {
  }
}

/**
 * Removal of unreferenced points after simplification: every point some
 * triangle (or connector triangle) refers to is kept, in its old order,
 * and the indices are renumbered accordingly.
 */
module Compaction {
  import opened Meshes

  /** The values occurring in an index list. */
  function Elements(s: seq<nat>): set<nat>
  {
    set x | x in s
  }

  lemma ElementsSnoc(s: seq<nat>, x: nat)
    ensures Elements(s + [x]) == Elements(s) + {x}
  {
    assert forall y :: y in s + [x] <==> y in s || y == x;
  }

  lemma CardAddOne(a: set<nat>, x: nat)
    requires x !in a
    ensures |a + {x}| == |a| + 1
  {
    assert a * {x} == {};
  }

  /** The number of indices below `n` in `used`: the new index of point `n` when it is kept. */
  function Rank(used: set<nat>, n: nat): nat
  {
    if n == 0 then 0 else Rank(used, n - 1) + (if n - 1 in used then 1 else 0)
  }

  /** The points among the first `n` whose index is in `used`, in their old order. */
  function Kept(points: seq<Point>, used: set<nat>, n: nat): seq<Point>
    requires n <= |points|
  {
    if n == 0 then [] else Kept(points, used, n - 1) + (if n - 1 in used then [points[n - 1]] else [])
  }

  /** Kept points are numbered by their rank: the new list holds exactly the used points, in order. */
  lemma {:induction false} KeptRank(points: seq<Point>, used: set<nat>, n: nat)
    requires n <= |points|
    ensures |Kept(points, used, n)| == Rank(used, n)
    ensures forall i :: 0 <= i < n && i in used ==> Rank(used, i) < Rank(used, n) && Kept(points, used, n)[Rank(used, i)] == points[i]
  {
    if n > 0 {
      KeptRank(points, used, n - 1);
      RankMonotone(used, n - 1);
    }
  }

  /** Two distinct used indices get distinct new indices. */
  lemma RankInjective(used: set<nat>, i: nat, j: nat)
    requires i in used && j in used && i != j
    ensures Rank(used, i) != Rank(used, j)
  {
    if i < j {
      RankStrictlyIncreasing(used, i, j);
    } else {
      RankStrictlyIncreasing(used, j, i);
    }
  }

  /** A used index has a smaller new index than every index above it: the renumbering is strictly increasing. */
  lemma {:induction false} RankStrictlyIncreasing(used: set<nat>, i: nat, j: nat)
    requires i < j && i in used
    ensures Rank(used, i) < Rank(used, j)
  {
    if j > i + 1 {
      RankStrictlyIncreasing(used, i, j - 1);
    }
  }

  lemma RankMonotone(used: set<nat>, n: nat)
    ensures forall i :: 0 <= i < n && i in used ==> Rank(used, i) < Rank(used, n)
  {
    forall i | 0 <= i < n && i in used
      ensures Rank(used, i) < Rank(used, n)
    {
      RankStrictlyIncreasing(used, i, n);
    }
  }

  /** Every rank below `Rank(used, n)` is the rank of some used index below `n`: the renumbering leaves no gap. */
  lemma {:induction false} RankOnto(used: set<nat>, n: nat, r: nat)
    requires r < Rank(used, n)
    ensures exists i :: 0 <= i < n && i in used && Rank(used, i) == r
  {
    if r < Rank(used, n - 1) {
      RankOnto(used, n - 1, r);
    } else {
      assert n - 1 in used && Rank(used, n - 1) == r;
    }
  }

  /** Below a bound every used index lies under, the rank is the number of used indices. */
  lemma {:induction false} RankIsCardinality(used: set<nat>, n: nat)
    ensures Rank(used, n) == |set i | i in used && i < n|
  {
    if n == 0 {
      assert (set i | i in used && i < 0) == {};
    } else {
      RankIsCardinality(used, n - 1);
      var below := set i | i in used && i < n - 1;
      if n - 1 in used {
        assert (set i | i in used && i < n) == below + {n - 1};
      } else {
        assert (set i | i in used && i < n) == below;
      }
    }
  }

  /** Sets the markers of the indices of `s`, counting the ones set for the first time. */
  method MarkIndices(s: seq<nat>, markers: array<bool>, ghost before: seq<nat>, count: nat) returns (newcount: nat)
    requires forall k :: 0 <= k < |s| ==> s[k] < markers.Length
    requires forall i :: 0 <= i < markers.Length ==> (markers[i] <==> i in Elements(before))
    requires count == |Elements(before)|
    modifies markers
    ensures forall i :: 0 <= i < markers.Length ==> (markers[i] <==> i in Elements(before + s))
    ensures newcount == |Elements(before + s)|
  {
    newcount := count;
    assert before + s[..0] == before;
    for k := 0 to |s|
      invariant forall i :: 0 <= i < markers.Length ==> (markers[i] <==> i in Elements(before + s[..k]))
      invariant newcount == |Elements(before + s[..k])|
    {
      ghost var seen := Elements(before + s[..k]);
      assert before + s[..k + 1] == (before + s[..k]) + [s[k]];
      ElementsSnoc(before + s[..k], s[k]);
      if !markers[s[k]] {
        CardAddOne(seen, s[k]);
        newcount := newcount + 1;
        markers[s[k]] := true;
      } else {
        assert seen + {s[k]} == seen;
      }
      assert forall i :: 0 <= i < markers.Length ==> (markers[i] <==> i in seen + {s[k]});
    }
    assert s[..|s|] == s;
  }

  /**
   * The compaction pass of `par_msquares_function`: marks the points the
   * triangles and the connector triangles refer to, copies the marked
   * points in order and renumbers both index lists.  The kept points are
   * exactly the referenced ones in their old order, there are as many as
   * distinct referenced indices, each index is replaced by its rank among
   * the referenced ones (strictly increasing by `RankStrictlyIncreasing`)
   * and every triangle corner keeps its point.
   */
  method Compact(points: seq<Point>, tris: seq<nat>, conntris: seq<nat>)
      returns (newpoints: seq<Point>, newtris: seq<nat>, newconntris: seq<nat>)
    requires forall k :: 0 <= k < |tris| ==> tris[k] < |points|
    requires forall k :: 0 <= k < |conntris| ==> conntris[k] < |points|
    ensures newpoints == Kept(points, Elements(tris + conntris), |points|)
    ensures |newpoints| == |Elements(tris + conntris)|
    ensures |newtris| == |tris| && |newconntris| == |conntris|
    ensures forall k :: 0 <= k < |tris| ==>
      newtris[k] == Rank(Elements(tris + conntris), tris[k]) && newtris[k] < |newpoints| && newpoints[newtris[k]] == points[tris[k]]
    ensures forall k :: 0 <= k < |conntris| ==>
      newconntris[k] == Rank(Elements(tris + conntris), conntris[k]) && newconntris[k] < |newpoints| && newpoints[newconntris[k]] == points[conntris[k]]
    ensures forall j :: 0 <= j < |newpoints| ==> j in Elements(newtris + newconntris)
  {
    ghost var used := Elements(tris + conntris);
    var markers := new bool[|points|](_ => false);
    assert Elements([]) == {};
    var newnpts := MarkIndices(tris, markers, [], 0);
    assert [] + tris == tris;
    newnpts := MarkIndices(conntris, markers, tris, newnpts);
    var mapping;
    newpoints, mapping := KeepMarked(points, markers, used);
    IndicesUsed(tris, conntris);
    newtris := Remap(tris, mapping, used);
    newconntris := Remap(conntris, mapping, used);
    CompactedOk(points, tris, conntris, newpoints, newtris, newconntris);
  }

  /** Every index of either list is among the used ones. */
  lemma IndicesUsed(tris: seq<nat>, conntris: seq<nat>)
    ensures forall k :: 0 <= k < |tris| ==> tris[k] in Elements(tris + conntris)
    ensures forall k :: 0 <= k < |conntris| ==> conntris[k] in Elements(tris + conntris)
  {
    forall k | 0 <= k < |tris| ensures tris[k] in Elements(tris + conntris) {
      assert (tris + conntris)[k] == tris[k];
    }
    forall k | 0 <= k < |conntris| ensures conntris[k] in Elements(tris + conntris) {
      assert (tris + conntris)[|tris| + k] == conntris[k];
    }
  }

  /** What keeping the used points in order and renumbering by rank achieves. */
  lemma CompactedOk(points: seq<Point>, tris: seq<nat>, conntris: seq<nat>, newpoints: seq<Point>, newtris: seq<nat>, newconntris: seq<nat>)
    requires forall k :: 0 <= k < |tris| ==> tris[k] < |points|
    requires forall k :: 0 <= k < |conntris| ==> conntris[k] < |points|
    requires newpoints == Kept(points, Elements(tris + conntris), |points|)
    requires |newtris| == |tris| && forall k :: 0 <= k < |tris| ==> newtris[k] == Rank(Elements(tris + conntris), tris[k])
    requires |newconntris| == |conntris| && forall k :: 0 <= k < |conntris| ==> newconntris[k] == Rank(Elements(tris + conntris), conntris[k])
    ensures |newpoints| == |Elements(tris + conntris)|
    ensures forall k :: 0 <= k < |tris| ==> newtris[k] < |newpoints| && newpoints[newtris[k]] == points[tris[k]]
    ensures forall k :: 0 <= k < |conntris| ==> newconntris[k] < |newpoints| && newpoints[newconntris[k]] == points[conntris[k]]
    ensures forall j :: 0 <= j < |newpoints| ==> j in Elements(newtris + newconntris)
  {
    var used := Elements(tris + conntris);
    KeptRank(points, used, |points|);
    IndicesUsed(tris, conntris);
    UsedCount(points, tris, conntris);
    CompactedCovers(points, tris, conntris, newtris, newconntris);
  }

  /** All used indices lie below the number of points, so there are as many kept points as used indices. */
  lemma UsedCount(points: seq<Point>, tris: seq<nat>, conntris: seq<nat>)
    requires forall k :: 0 <= k < |tris| ==> tris[k] < |points|
    requires forall k :: 0 <= k < |conntris| ==> conntris[k] < |points|
    ensures Rank(Elements(tris + conntris), |points|) == |Elements(tris + conntris)|
  {
    var used := Elements(tris + conntris);
    forall i | i in used ensures i < |points| {
      var k :| 0 <= k < |tris + conntris| && (tris + conntris)[k] == i;
      if k >= |tris| {
        assert (tris + conntris)[k] == conntris[k - |tris|];
      }
    }
    assert used == set i | i in used && i < |points|;
    RankIsCardinality(used, |points|);
  }

  lemma CompactedCovers(points: seq<Point>, tris: seq<nat>, conntris: seq<nat>, newtris: seq<nat>, newconntris: seq<nat>)
    requires forall k :: 0 <= k < |tris| ==> tris[k] < |points|
    requires forall k :: 0 <= k < |conntris| ==> conntris[k] < |points|
    requires |newtris| == |tris| && forall k :: 0 <= k < |tris| ==> newtris[k] == Rank(Elements(tris + conntris), tris[k])
    requires |newconntris| == |conntris| && forall k :: 0 <= k < |conntris| ==> newconntris[k] == Rank(Elements(tris + conntris), conntris[k])
    ensures forall j :: 0 <= j < Rank(Elements(tris + conntris), |points|) ==> j in Elements(newtris + newconntris)
  {
    var all := tris + conntris;
    var renamed := newtris + newconntris;
    forall k | 0 <= k < |all| ensures all[k] < |points| && renamed[k] == Rank(Elements(all), all[k]) {
      if k >= |tris| {
        assert all[k] == conntris[k - |tris|] && renamed[k] == newconntris[k - |tris|];
      }
    }
    RemapCovers(Elements(all), all, renamed, |points|);
  }

  /** Renumbering every index by its rank hits every rank below the bound. */
  lemma RemapCovers(used: set<nat>, s: seq<nat>, t: seq<nat>, bound: nat)
    requires used == Elements(s) && forall k :: 0 <= k < |s| ==> s[k] < bound
    requires |t| == |s| && forall k :: 0 <= k < |s| ==> t[k] == Rank(used, s[k])
    ensures forall j :: 0 <= j < Rank(used, bound) ==> j in Elements(t)
  {
    forall j | 0 <= j < Rank(used, bound) ensures j in Elements(t) {
      RankOnto(used, bound, j);
      var i :| 0 <= i < bound && i in used && Rank(used, i) == j;
      var k :| 0 <= k < |s| && s[k] == i;
      assert t[k] == j;
    }
  }

  /** Copies the marked points in order, recording the new index of each. */
  method KeepMarked(points: seq<Point>, markers: array<bool>, ghost used: set<nat>)
      returns (newpoints: seq<Point>, mapping: array<nat>)
    requires markers.Length == |points|
    requires forall i :: 0 <= i < markers.Length ==> (markers[i] <==> i in used)
    ensures fresh(mapping) && mapping.Length == |points|
    ensures newpoints == Kept(points, used, |points|)
    ensures forall q :: 0 <= q < |points| && q in used ==> mapping[q] == Rank(used, q)
  {
    mapping := new nat[|points|](_ => 0);
    newpoints := [];
    var j: nat := 0;
    for i := 0 to |points|
      invariant newpoints == Kept(points, used, i) && j == Rank(used, i)
      invariant forall q :: 0 <= q < i && q in used ==> mapping[q] == Rank(used, q)
    {
      if markers[i] {
        newpoints := newpoints + [points[i]];
        mapping[i] := j;
        j := j + 1;
      }
    }
  }

  /** Replaces every index by its entry in `mapping`. */
  method Remap(s: seq<nat>, mapping: array<nat>, ghost used: set<nat>) returns (r: seq<nat>)
    requires forall k :: 0 <= k < |s| ==> s[k] < mapping.Length && s[k] in used
    requires forall q :: 0 <= q < mapping.Length && q in used ==> mapping[q] == Rank(used, q)
    ensures |r| == |s| && forall k :: 0 <= k < |s| ==> r[k] == Rank(used, s[k])
  {
    r := [];
    for k := 0 to |s|
      invariant |r| == k && forall q :: 0 <= q < k ==> r[q] == Rank(used, s[q])
    {
      r := r + [mapping[s[k]]];
    }
  }
}

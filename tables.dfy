/**
 * The marching-squares case tables and their decoder (`par_init_tables`).
 *
 * The source embeds three string literals made of digit runs: a run is a
 * count digit `n` followed by `n * width` slot digits.  BINARY_TABLE holds
 * one run of triangles (width 3) per 4-bit case; QUATERNARY_TABLE holds,
 * for each of the 64 canonical 4-colour cases, one triangle run per corner;
 * QUATERNARY_EDGES holds, with the same layout, one run of boundary-edge
 * slots (width 1) per corner.
 *
 * Slots name the nine nominal vertices of a cell: 0 SW, 1 S, 2 SE, 3 E,
 * 4 NE, 5 N, 6 NW, 7 W, 8 centre.
 */
module Tables {
  import opened Sequences

  /** Value of a decimal digit character (`*token - '0'`). */
  function Digit(ch: char): int
  {
    ch as int - '0' as int
  }

  /** `t` is one run: a count digit and `width` slot digits per unit, each below `bound`. */
  predicate RunOk(t: string, width: nat, bound: nat)
  {
    0 < |t| && 0 <= Digit(t[0]) <= 9 && |t| == 1 + width * Digit(t[0]) &&
    forall j :: 1 <= j < |t| ==> 0 <= Digit(t[j]) < bound
  }

  /** The triangle run and the boundary-edge run of one corner of a quaternary case. */
  datatype CornerRuns = CornerRuns(triangles: string, edges: string)

  /**
   * Both runs are well formed with slots below 9, and every boundary-edge
   * slot is one of the corner's triangle slots.
   */
  predicate CornerOk(r: CornerRuns)
  {
    RunOk(r.triangles, 3, 9) && RunOk(r.edges, 1, 9) &&
    forall j :: 1 <= j < |r.edges| ==> r.edges[j] in r.triangles[1..]
  }

  // ---------------------------------------------------------------------
  // Table data.  Each binary case is one line of BINARY_TABLE; each
  // quaternary corner is the run of QUATERNARY_TABLE (and of
  // QUATERNARY_EDGES) that belongs to that corner of that case.
  // ---------------------------------------------------------------------

  function BinaryCases0to3(code: nat): (r: string)
    requires 0 <= code < 4
    ensures RunOk(r, 3, 8)
  {
    match code
    case 0 => "0"
    case 1 => "1017"
    case 2 => "1123"
    case _ => "2023370"
  }

  function BinaryCases4to7(code: nat): (r: string)
    requires 4 <= code < 8
    ensures RunOk(r, 3, 8)
  {
    match code
    case 4 => "1756"
    case 5 => "2015560"
    case 6 => "2123756"
    case _ => "3023035056"
  }

  function BinaryCases8to11(code: nat): (r: string)
    requires 8 <= code < 12
    ensures RunOk(r, 3, 8)
  {
    match code
    case 8 => "1345"
    case 9 => "4013034045057"
    case 10 => "2124451"
    case _ => "3024045057"
  }

  function BinaryCases12to15(code: nat): (r: string)
    requires 12 <= code < 16
    ensures RunOk(r, 3, 8)
  {
    match code
    case 12 => "2734467"
    case 13 => "3013034046"
    case 14 => "3124146167"
    case _ => "2024460"
  }

  function CornerRuns0(): (r: CornerRuns)
    ensures CornerOk(r)
  {
    CornerRuns("2024046", "0")
  }

  function CornerRuns1(): (r: CornerRuns)
    ensures CornerOk(r)
  {
    CornerRuns("0", "0")
  }

  function CornerRuns2(): (r: CornerRuns)
    ensures CornerOk(r)
  {
    CornerRuns("3346360301", "213")
  }

  function CornerRuns3(): (r: CornerRuns)
    ensures CornerOk(r)
  {
    CornerRuns("1123", "231")
  }

  function CornerRuns4(): (r: CornerRuns)
    ensures CornerOk(r)
  {
    CornerRuns("3560502523", "235")
  }

  function CornerRuns5(): (r: CornerRuns)
    ensures CornerOk(r)
  {
    CornerRuns("1345", "253")
  }

  function CornerRuns6(): (r: CornerRuns)
    ensures CornerOk(r)
  {
    CornerRuns("2015056", "215")
  }

  function CornerRuns7(): (r: CornerRuns)
    ensures CornerOk(r)
  {
    CornerRuns("2124145", "251")
  }

  function CornerRuns8(): (r: CornerRuns)
    ensures CornerOk(r)
  {
    CornerRuns("4018087785756", "3185")
  }

  function CornerRuns9(): (r: CornerRuns)
    ensures CornerOk(r)
  {
    CornerRuns("2123138", "3381")
  }

  function CornerRuns10(): (r: CornerRuns)
    ensures CornerOk(r)
  {
    CornerRuns("2834845", "3583")
  }

  function CornerRuns11(): (r: CornerRuns)
    ensures CornerOk(r)
  {
    CornerRuns("3702724745", "257")
  }

  function CornerRuns12(): (r: CornerRuns)
    ensures CornerOk(r)
  {
    CornerRuns("1756", "275")
  }

  function CornerRuns13(): (r: CornerRuns)
    ensures CornerOk(r)
  {
    CornerRuns("2018087", "3187")
  }

  function CornerRuns14(): (r: CornerRuns)
    ensures CornerOk(r)
  {
    CornerRuns("2785756", "3785")
  }

  function CornerRuns15(): (r: CornerRuns)
    ensures CornerOk(r)
  {
    CornerRuns("4013034045057", "41357")
  }

  function CornerRuns16(): (r: CornerRuns)
    ensures CornerOk(r)
  {
    CornerRuns("2023037", "237")
  }

  function CornerRuns17(): (r: CornerRuns)
    ensures CornerOk(r)
  {
    CornerRuns("2734746", "273")
  }

  function CornerRuns18(): (r: CornerRuns)
    ensures CornerOk(r)
  {
    CornerRuns("1701", "217")
  }

  function CornerRuns19(): (r: CornerRuns)
    ensures CornerOk(r)
  {
    CornerRuns("3124146167", "271")
  }

  function CornerRuns20(): (r: CornerRuns)
    ensures CornerOk(r)
  {
    CornerRuns("4785756834845", "3783")
  }

  function CornerRuns21(): (r: CornerRuns)
    ensures CornerOk(r)
  {
    CornerRuns("4018087123138", "3387")
  }

  function CornerRuns22(): (r: CornerRuns)
    ensures CornerOk(r)
  {
    CornerRuns("4671612623635", "47135")
  }

  function CornerRuns23(): (r: CornerRuns)
    ensures CornerOk(r)
  {
    CornerRuns("4123138834845", "3581")
  }

  function QuaternaryCases0to7(code: nat): (r: seq<CornerRuns>)
    requires 0 <= code < 8
    ensures |r| == 4 && forall c :: 0 <= c < 4 ==> CornerOk(r[c])
  {
    match code
    case 0 => [CornerRuns0(), CornerRuns1(), CornerRuns1(), CornerRuns1()]
    case 1 => [CornerRuns2(), CornerRuns3(), CornerRuns1(), CornerRuns1()]
    case 2 => [CornerRuns2(), CornerRuns3(), CornerRuns1(), CornerRuns1()]
    case 3 => [CornerRuns2(), CornerRuns3(), CornerRuns1(), CornerRuns1()]
    case 4 => [CornerRuns4(), CornerRuns1(), CornerRuns5(), CornerRuns1()]
    case 5 => [CornerRuns6(), CornerRuns7(), CornerRuns1(), CornerRuns1()]
    case 6 => [CornerRuns8(), CornerRuns9(), CornerRuns10(), CornerRuns1()]
    case _ => [CornerRuns8(), CornerRuns9(), CornerRuns10(), CornerRuns1()]
  }

  function QuaternaryCases8to15(code: nat): (r: seq<CornerRuns>)
    requires 8 <= code < 16
    ensures |r| == 4 && forall c :: 0 <= c < 4 ==> CornerOk(r[c])
  {
    match code
    case 8 => [CornerRuns4(), CornerRuns1(), CornerRuns5(), CornerRuns1()]
    case 9 => [CornerRuns8(), CornerRuns9(), CornerRuns10(), CornerRuns1()]
    case 10 => [CornerRuns6(), CornerRuns7(), CornerRuns1(), CornerRuns1()]
    case 11 => [CornerRuns8(), CornerRuns9(), CornerRuns10(), CornerRuns1()]
    case 12 => [CornerRuns4(), CornerRuns1(), CornerRuns5(), CornerRuns1()]
    case 13 => [CornerRuns8(), CornerRuns9(), CornerRuns10(), CornerRuns1()]
    case 14 => [CornerRuns8(), CornerRuns9(), CornerRuns10(), CornerRuns1()]
    case _ => [CornerRuns6(), CornerRuns7(), CornerRuns1(), CornerRuns1()]
  }

  function QuaternaryCases16to23(code: nat): (r: seq<CornerRuns>)
    requires 16 <= code < 24
    ensures |r| == 4 && forall c :: 0 <= c < 4 ==> CornerOk(r[c])
  {
    match code
    case 16 => [CornerRuns11(), CornerRuns1(), CornerRuns1(), CornerRuns12()]
    case 17 => [CornerRuns13(), CornerRuns9(), CornerRuns10(), CornerRuns14()]
    case 18 => [CornerRuns15(), CornerRuns3(), CornerRuns1(), CornerRuns12()]
    case 19 => [CornerRuns15(), CornerRuns3(), CornerRuns1(), CornerRuns12()]
    case 20 => [CornerRuns16(), CornerRuns1(), CornerRuns17(), CornerRuns1()]
    case 21 => [CornerRuns18(), CornerRuns19(), CornerRuns1(), CornerRuns1()]
    case 22 => [CornerRuns13(), CornerRuns9(), CornerRuns20(), CornerRuns1()]
    case _ => [CornerRuns13(), CornerRuns9(), CornerRuns20(), CornerRuns1()]
  }

  function QuaternaryCases24to31(code: nat): (r: seq<CornerRuns>)
    requires 24 <= code < 32
    ensures |r| == 4 && forall c :: 0 <= c < 4 ==> CornerOk(r[c])
  {
    match code
    case 24 => [CornerRuns21(), CornerRuns1(), CornerRuns10(), CornerRuns14()]
    case 25 => [CornerRuns18(), CornerRuns22(), CornerRuns5(), CornerRuns1()]
    case 26 => [CornerRuns13(), CornerRuns23(), CornerRuns1(), CornerRuns14()]
    case 27 => [CornerRuns13(), CornerRuns9(), CornerRuns10(), CornerRuns14()]
    case 28 => [CornerRuns21(), CornerRuns1(), CornerRuns10(), CornerRuns14()]
    case 29 => [CornerRuns18(), CornerRuns22(), CornerRuns5(), CornerRuns1()]
    case 30 => [CornerRuns13(), CornerRuns9(), CornerRuns10(), CornerRuns14()]
    case _ => [CornerRuns13(), CornerRuns23(), CornerRuns1(), CornerRuns14()]
  }

  function QuaternaryCases32to39(code: nat): (r: seq<CornerRuns>)
    requires 32 <= code < 40
    ensures |r| == 4 && forall c :: 0 <= c < 4 ==> CornerOk(r[c])
  {
    match code
    case 32 => [CornerRuns11(), CornerRuns1(), CornerRuns1(), CornerRuns12()]
    case 33 => [CornerRuns15(), CornerRuns3(), CornerRuns1(), CornerRuns12()]
    case 34 => [CornerRuns13(), CornerRuns9(), CornerRuns10(), CornerRuns14()]
    case 35 => [CornerRuns15(), CornerRuns3(), CornerRuns1(), CornerRuns12()]
    case 36 => [CornerRuns21(), CornerRuns1(), CornerRuns10(), CornerRuns14()]
    case 37 => [CornerRuns13(), CornerRuns23(), CornerRuns1(), CornerRuns14()]
    case 38 => [CornerRuns18(), CornerRuns22(), CornerRuns5(), CornerRuns1()]
    case _ => [CornerRuns13(), CornerRuns9(), CornerRuns10(), CornerRuns14()]
  }

  function QuaternaryCases40to47(code: nat): (r: seq<CornerRuns>)
    requires 40 <= code < 48
    ensures |r| == 4 && forall c :: 0 <= c < 4 ==> CornerOk(r[c])
  {
    match code
    case 40 => [CornerRuns16(), CornerRuns1(), CornerRuns17(), CornerRuns1()]
    case 41 => [CornerRuns13(), CornerRuns9(), CornerRuns20(), CornerRuns1()]
    case 42 => [CornerRuns18(), CornerRuns19(), CornerRuns1(), CornerRuns1()]
    case 43 => [CornerRuns13(), CornerRuns9(), CornerRuns20(), CornerRuns1()]
    case 44 => [CornerRuns21(), CornerRuns1(), CornerRuns10(), CornerRuns14()]
    case 45 => [CornerRuns13(), CornerRuns9(), CornerRuns10(), CornerRuns14()]
    case 46 => [CornerRuns18(), CornerRuns22(), CornerRuns5(), CornerRuns1()]
    case _ => [CornerRuns13(), CornerRuns23(), CornerRuns1(), CornerRuns14()]
  }

  function QuaternaryCases48to55(code: nat): (r: seq<CornerRuns>)
    requires 48 <= code < 56
    ensures |r| == 4 && forall c :: 0 <= c < 4 ==> CornerOk(r[c])
  {
    match code
    case 48 => [CornerRuns11(), CornerRuns1(), CornerRuns1(), CornerRuns12()]
    case 49 => [CornerRuns15(), CornerRuns3(), CornerRuns1(), CornerRuns12()]
    case 50 => [CornerRuns15(), CornerRuns3(), CornerRuns1(), CornerRuns12()]
    case 51 => [CornerRuns13(), CornerRuns9(), CornerRuns10(), CornerRuns14()]
    case 52 => [CornerRuns21(), CornerRuns1(), CornerRuns10(), CornerRuns14()]
    case 53 => [CornerRuns13(), CornerRuns23(), CornerRuns1(), CornerRuns14()]
    case 54 => [CornerRuns13(), CornerRuns9(), CornerRuns10(), CornerRuns14()]
    case _ => [CornerRuns18(), CornerRuns22(), CornerRuns5(), CornerRuns1()]
  }

  function QuaternaryCases56to63(code: nat): (r: seq<CornerRuns>)
    requires 56 <= code < 64
    ensures |r| == 4 && forall c :: 0 <= c < 4 ==> CornerOk(r[c])
  {
    match code
    case 56 => [CornerRuns21(), CornerRuns1(), CornerRuns10(), CornerRuns14()]
    case 57 => [CornerRuns13(), CornerRuns9(), CornerRuns10(), CornerRuns14()]
    case 58 => [CornerRuns13(), CornerRuns23(), CornerRuns1(), CornerRuns14()]
    case 59 => [CornerRuns18(), CornerRuns22(), CornerRuns5(), CornerRuns1()]
    case 60 => [CornerRuns16(), CornerRuns1(), CornerRuns17(), CornerRuns1()]
    case 61 => [CornerRuns13(), CornerRuns9(), CornerRuns20(), CornerRuns1()]
    case 62 => [CornerRuns13(), CornerRuns9(), CornerRuns20(), CornerRuns1()]
    case _ => [CornerRuns18(), CornerRuns19(), CornerRuns1(), CornerRuns1()]
  }

  // ---------------------------------------------------------------------
  // The tables as the rest of the model sees them.
  // ---------------------------------------------------------------------

  /** The run of BINARY_TABLE for 4-bit case `code`. */
  function BinaryRun(code: nat): (r: string)
    requires code < 16
    ensures RunOk(r, 3, 8)
  {
    if code < 4 then BinaryCases0to3(code)
    else if code < 8 then BinaryCases4to7(code)
    else if code < 12 then BinaryCases8to11(code)
    else BinaryCases12to15(code)
  }

  /** The four corner runs of quaternary case `code`, in the order SW, SE, NE, NW. */
  function QuaternaryRuns(code: nat): (r: seq<CornerRuns>)
    requires code < 64
    ensures |r| == 4 && forall c :: 0 <= c < 4 ==> CornerOk(r[c])
  {
    if code < 8 then QuaternaryCases0to7(code)
    else if code < 16 then QuaternaryCases8to15(code)
    else if code < 24 then QuaternaryCases16to23(code)
    else if code < 32 then QuaternaryCases24to31(code)
    else if code < 40 then QuaternaryCases32to39(code)
    else if code < 48 then QuaternaryCases40to47(code)
    else if code < 56 then QuaternaryCases48to55(code)
    else QuaternaryCases56to63(code)
  }

  /** The values of the digits of `s`. */
  function Digits(s: string): (r: seq<int>)
    ensures |r| == |s|
    ensures forall j :: 0 <= j < |s| ==> r[j] == Digit(s[j])
  {
    if |s| == 0 then [] else [Digit(s[0])] + Digits(s[1..])
  }

  /** The slot list a run spells: the values of its digits after the count. */
  function Slots(t: string): (r: seq<int>)
    ensures |r| == if |t| == 0 then 0 else |t| - 1
    ensures forall j :: 0 <= j < |r| ==> r[j] == Digit(t[j + 1])
  {
    if |t| == 0 then [] else Digits(t[1..])
  }

  /** A well-formed run spells `width` slots per unit, each in `0 .. bound`. */
  lemma SlotsOfRun(t: string, width: nat, bound: nat)
    requires RunOk(t, width, bound)
    ensures |Slots(t)| == width * Digit(t[0])
    ensures forall j :: 0 <= j < |Slots(t)| ==> 0 <= Slots(t)[j] < bound
  {
    forall j | 0 <= j < |Slots(t)|
      ensures 0 <= Slots(t)[j] < bound
    {
      assert Slots(t)[j] == Digit(t[j + 1]);
    }
  }

  /** Every run of `runs` is well formed. */
  predicate RunsOk(runs: seq<string>, width: nat, bound: nat)
  {
    forall k :: 0 <= k < |runs| ==> RunOk(runs[k], width, bound)
  }

  /** The edge slots of corner run `k` are among the triangle slots of corner run `k`. */
  predicate EdgesOk(triangleRuns: seq<string>, edgeRuns: seq<string>)
  {
    |triangleRuns| == |edgeRuns| &&
    forall k, j :: 0 <= k < |edgeRuns| && 0 <= j < |Slots(edgeRuns[k])| ==>
      Slots(edgeRuns[k])[j] in Slots(triangleRuns[k])
  }

  /** The slot lists of a sequence of runs, in order. */
  function SlotLists(runs: seq<string>): seq<seq<int>>
  {
    seq(|runs|, k requires 0 <= k < |runs| => Slots(runs[k]))
  }

  /** The slot lists of the four corners of quaternary case `code`: runs `4 * code .. 4 * code + 4`. */
  function CaseLists(runs: seq<string>, code: nat): seq<seq<int>>
    requires 4 * code + 4 <= |runs|
  {
    seq(4, c requires 0 <= c < 4 => Slots(runs[4 * code + c]))
  }

  /** The 64 quaternary cases of four corners each. */
  function CornerLists(runs: seq<string>): seq<seq<seq<int>>>
    requires |runs| == 256
  {
    seq(64, code requires 0 <= code < 64 => CaseLists(runs, code))
  }

  /** The first-occurrence deduplication of each list. */
  function DedupLists(lists: seq<seq<int>>): seq<seq<int>>
  {
    seq(|lists|, k requires 0 <= k < |lists| => Dedup(lists[k]))
  }

  /** A corner's edge slots are among its triangle slots. */
  lemma EdgesAmongTriangles(r: CornerRuns)
    requires CornerOk(r)
    ensures forall j :: 0 <= j < |Slots(r.edges)| ==> Slots(r.edges)[j] in Slots(r.triangles)
  {
    forall j | 0 <= j < |Slots(r.edges)|
      ensures Slots(r.edges)[j] in Slots(r.triangles)
    {
      assert r.edges[j + 1] in r.triangles[1..];
      var k :| 0 <= k < |r.triangles[1..]| && r.triangles[1..][k] == r.edges[j + 1];
      assert Slots(r.triangles)[k] == Slots(r.edges)[j];
    }
  }

  /** Case 15 (all corners inside) is the two triangles (0, 2, 4) and (4, 6, 0); SIMPLIFY relies on it. */
  lemma FullCellTriangles()
    ensures Slots(BinaryRuns()[15]) == [0, 2, 4, 4, 6, 0]
  {
    var t := BinaryRuns()[15];
    assert t == "2024460";
    assert |Slots(t)| == 6;
    assert Slots(t)[0] == 0 && Slots(t)[1] == 2 && Slots(t)[2] == 4;
    assert Slots(t)[3] == 4 && Slots(t)[4] == 6 && Slots(t)[5] == 0;
  }

  /**
   * No binary case has more than six distinct slots, so every point list
   * fits the count-plus-six allocation of `sqrpts`.
   */
  lemma BinaryPointsAtMostSix()
    ensures forall code :: 0 <= code < 16 ==> |DedupLists(SlotLists(BinaryRuns()))[code]| <= 6
  {
    forall code | 0 <= code < 16
      ensures |DedupLists(SlotLists(BinaryRuns()))[code]| <= 6
    {
      assert DedupLists(SlotLists(BinaryRuns()))[code] == Dedup(Slots(BinaryRuns()[code]));
      if code < 4 {
        DedupShorter(Slots(BinaryCases0to3(code)));
      } else if code < 8 {
        PointsOf4to7(code);
      } else if code < 12 {
        PointsOf8to11(code);
      } else {
        PointsOf12to15(code);
      }
    }
  }

  /** A run whose slot digits all lie in `values` has at most `|values|` distinct slots. */
  lemma RunWithin(t: string, values: set<int>)
    requires forall j :: 1 <= j < |t| ==> Digit(t[j]) in values
    ensures |Dedup(Slots(t))| <= |values|
  {
    DedupWithin(Slots(t), values);
  }

  lemma PointsOf4to7(code: nat)
    requires 4 <= code < 8
    ensures |Dedup(Slots(BinaryCases4to7(code)))| <= 6
  {
    if code == 7 {
      RunWithin(BinaryCases4to7(code), {0, 2, 3, 5, 6});
    } else {
      DedupShorter(Slots(BinaryCases4to7(code)));
    }
  }

  lemma PointsOf8to11(code: nat)
    requires 8 <= code < 12
    ensures |Dedup(Slots(BinaryCases8to11(code)))| <= 6
  {
    if code == 9 {
      RunWithin(BinaryCases8to11(code), {0, 1, 3, 4, 5, 7});
    } else if code == 11 {
      RunWithin(BinaryCases8to11(code), {0, 2, 4, 5, 7});
    } else {
      DedupShorter(Slots(BinaryCases8to11(code)));
    }
  }

  lemma PointsOf12to15(code: nat)
    requires 12 <= code < 16
    ensures |Dedup(Slots(BinaryCases12to15(code)))| <= 6
  {
    if code == 13 {
      RunWithin(BinaryCases12to15(code), {0, 1, 3, 4, 6});
    } else if code == 14 {
      RunWithin(BinaryCases12to15(code), {1, 2, 4, 6, 7});
    } else {
      DedupShorter(Slots(BinaryCases12to15(code)));
    }
  }

  /**
   * Quaternary case 0 (one colour at all four corners) is the two
   * triangles (0, 2, 4) and (0, 4, 6), all on corner 0.
   */
  lemma UniformCellTriangles()
    ensures Slots(QuaternaryTriangleRuns()[0]) == [0, 2, 4, 0, 4, 6]
    ensures Slots(QuaternaryTriangleRuns()[1]) == []
    ensures Slots(QuaternaryTriangleRuns()[2]) == []
    ensures Slots(QuaternaryTriangleRuns()[3]) == []
  {
    var q := QuaternaryRuns(0);
    assert q == [CornerRuns0(), CornerRuns1(), CornerRuns1(), CornerRuns1()];
    var r := QuaternaryTriangleRuns();
    assert r[0] == q[0].triangles == "2024046";
    assert r[1] == q[1].triangles == "0";
    assert r[2] == q[2].triangles == "0";
    assert r[3] == q[3].triangles == "0";
    var t := r[0];
    assert |Slots(t)| == 6;
    assert Slots(t)[0] == 0 && Slots(t)[1] == 2 && Slots(t)[2] == 4;
    assert Slots(t)[3] == 0 && Slots(t)[4] == 4 && Slots(t)[5] == 6;
  }

  // ---------------------------------------------------------------------
  // The decoder.
  // ---------------------------------------------------------------------

  /** Concatenation of runs, as the source writes its literals. */
  function Concat(runs: seq<string>): string
  {
    if |runs| == 0 then "" else runs[0] + Concat(runs[1..])
  }

  /**
   * When the text left to read is runs `i..` concatenated, it starts with
   * run `i` and continues with runs `i + 1..`.
   */
  lemma RunAt(text: string, token: nat, runs: seq<string>, i: nat)
    requires i < |runs| && token <= |text| && text[token..] == Concat(runs[i..])
    ensures token + |runs[i]| <= |text|
    ensures text[token..token + |runs[i]|] == runs[i]
    ensures text[token + |runs[i]|..] == Concat(runs[i + 1..])
  {
    assert runs[i..][1..] == runs[i + 1..];
    assert text[token..token + |runs[i]|] == text[token..][..|runs[i]|];
    assert text[token + |runs[i]|..] == text[token..][|runs[i]|..];
  }

  /** BINARY_TABLE: the sixteen binary runs in case order. */
  function BinaryRuns(): (r: seq<string>)
    ensures |r| == 16 && forall code :: 0 <= code < 16 ==> r[code] == BinaryRun(code)
  {
    seq(16, code requires 0 <= code < 16 => BinaryRun(code))
  }

  lemma BinaryRunsOk()
    ensures RunsOk(BinaryRuns(), 3, 8)
  {
  }

  /**
   * Every quaternary corner run is well formed, and its edge slots are
   * among its triangle slots.
   */
  lemma QuaternaryRunsOk()
    ensures RunsOk(QuaternaryTriangleRuns(), 3, 9) && RunsOk(QuaternaryEdgeRuns(), 1, 9)
    ensures EdgesOk(QuaternaryTriangleRuns(), QuaternaryEdgeRuns())
  {
    forall k | 0 <= k < 256
      ensures CornerOk(CornerRuns(QuaternaryTriangleRuns()[k], QuaternaryEdgeRuns()[k]))
    {
      assert CornerOk(QuaternaryRuns(k / 4)[k % 4]);
    }
    forall k | 0 <= k < 256
      ensures forall j :: 0 <= j < |Slots(QuaternaryEdgeRuns()[k])| ==>
        Slots(QuaternaryEdgeRuns()[k])[j] in Slots(QuaternaryTriangleRuns()[k])
    {
      EdgesAmongTriangles(CornerRuns(QuaternaryTriangleRuns()[k], QuaternaryEdgeRuns()[k]));
    }
  }

  /** QUATERNARY_TABLE: triangle runs, corner `k % 4` of case `k / 4` at position `k`. */
  function QuaternaryTriangleRuns(): (r: seq<string>)
    ensures |r| == 256 && forall k :: 0 <= k < 256 ==> r[k] == QuaternaryRuns(k / 4)[k % 4].triangles
  {
    seq(256, k requires 0 <= k < 256 => QuaternaryRuns(k / 4)[k % 4].triangles)
  }

  /** QUATERNARY_EDGES: edge runs, corner `k % 4` of case `k / 4` at position `k`. */
  function QuaternaryEdgeRuns(): (r: seq<string>)
    ensures |r| == 256 && forall k :: 0 <= k < 256 ==> r[k] == QuaternaryRuns(k / 4)[k % 4].edges
  {
    seq(256, k requires 0 <= k < 256 => QuaternaryRuns(k / 4)[k % 4].edges)
  }

  /** The decoded tables: per binary case triangles and points, per quaternary case and corner triangles and edges. */
  datatype TableSet = TableSet(
    binaryTriangles: seq<seq<int>>,
    binaryPoints: seq<seq<int>>,
    quaternaryTriangles: seq<seq<seq<int>>>,
    quaternaryEdges: seq<seq<seq<int>>>)

  /**
   * What the binary marcher relies on: sixteen cases of whole triangles over
   * slots 0..7, each with its first-occurrence point list; case 15 is the
   * full square.
   */
  predicate BinaryTablesOk(triangles: seq<seq<int>>, points: seq<seq<int>>)
  {
    |triangles| == 16 && |points| == 16 &&
    (forall code :: 0 <= code < 16 ==>
      |triangles[code]| % 3 == 0 && points[code] == Dedup(triangles[code])) &&
    (forall code, j :: 0 <= code < 16 && 0 <= j < |triangles[code]| ==> 0 <= triangles[code][j] < 8) &&
    triangles[15] == [0, 2, 4, 4, 6, 0]
  }

  /**
   * What the colour marcher relies on: 64 cases of four corners with whole
   * triangles over slots 0..8 and edge slots among the corner's triangle
   * slots; case 0 is the full square, all on corner 0.
   */
  predicate QuaternaryTablesOk(triangles: seq<seq<seq<int>>>, edges: seq<seq<seq<int>>>)
  {
    |triangles| == 64 && |edges| == 64 &&
    (forall code :: 0 <= code < 64 ==> |triangles[code]| == 4 && |edges[code]| == 4) &&
    (forall code, c :: 0 <= code < 64 && 0 <= c < 4 ==> |triangles[code][c]| % 3 == 0) &&
    (forall code, c, j :: 0 <= code < 64 && 0 <= c < 4 && 0 <= j < |triangles[code][c]| ==>
      0 <= triangles[code][c][j] < 9) &&
    (forall code, c, j :: 0 <= code < 64 && 0 <= c < 4 && 0 <= j < |edges[code][c]| ==>
      0 <= edges[code][c][j] < 9 && edges[code][c][j] in triangles[code][c]) &&
    triangles[0] == [[0, 2, 4, 0, 4, 6], [], [], []]
  }

  predicate TablesOk(t: TableSet)
  {
    BinaryTablesOk(t.binaryTriangles, t.binaryPoints) &&
    QuaternaryTablesOk(t.quaternaryTriangles, t.quaternaryEdges)
  }

  /**
   * Reads the run that starts at `start` (the `ntris`/`nedges` count, then
   * `count * width` slots, each checked below `bound` like the source's
   * asserts) and returns its slots and the position just past it.
   */
  method ReadRun(text: string, start: nat, width: nat, bound: nat, ghost run: string)
    returns (slots: seq<int>, next: nat)
    requires start + |run| <= |text| && text[start..start + |run|] == run
    requires RunOk(run, width, bound)
    ensures slots == Slots(run) && next == start + |run|
  {
    assert text[start] == run[0];
    var n := Digit(text[start]);
    var token := start + 1;
    slots := [];
    var j := 0;
    while j < n * width
      invariant 0 <= j <= n * width && token == start + 1 + j
      invariant slots == Slots(run)[..j]
    {
      assert text[token] == run[1 + j];
      var pt := Digit(text[token]);
      assert 0 <= pt < bound;
      slots := slots + [pt];
      token := token + 1;
      j := j + 1;
    }
    next := token;
  }

  /**
   * Reads one binary run, building the point list with a slot bit mask as
   * the source does: a slot joins the points the first time it is seen.
   */
  method ReadBinaryRun(text: string, start: nat, ghost run: string)
    returns (triangles: seq<int>, points: seq<int>, next: nat)
    requires start + |run| <= |text| && text[start..start + |run|] == run
    requires RunOk(run, 3, 8)
    ensures triangles == Slots(run) && points == Dedup(Slots(run)) && next == start + |run|
  {
    assert text[start] == run[0];
    var ntris := Digit(text[start]);
    var token := start + 1;
    triangles := [];
    points := [];
    var mask: set<int> := {};
    var j := 0;
    while j < ntris * 3
      invariant 0 <= j <= ntris * 3 && token == start + 1 + j
      invariant triangles == Slots(run)[..j]
      invariant points == Dedup(triangles)
      invariant forall s :: s in mask <==> s in points
    {
      assert text[token] == run[1 + j];
      var midp := Digit(text[token]);
      if midp !in mask {
        mask := mask + {midp};
        points := points + [midp];
      }
      assert (triangles + [midp])[..|triangles|] == triangles;
      triangles := triangles + [midp];
      token := token + 1;
      j := j + 1;
    }
    next := token;
  }

  /** Appending one run extends the slot lists and their deduplications by one entry. */
  lemma ListsSnoc(runs: seq<string>, run: string, lists: seq<seq<int>>, points: seq<int>)
    requires lists == SlotLists(runs) && points == Dedup(Slots(run))
    ensures SlotLists(runs + [run]) == lists + [Slots(run)]
    ensures DedupLists(lists + [Slots(run)]) == DedupLists(lists) + [points]
  {
  }

  /** Reads binary case `i` from the text that holds runs `i..`. */
  method ReadBinaryCase(text: string, token: nat, runs: seq<string>, i: nat)
    returns (triangles: seq<int>, points: seq<int>, next: nat)
    requires i < |runs| && RunOk(runs[i], 3, 8)
    requires token <= |text| && text[token..] == Concat(runs[i..])
    ensures next <= |text| && text[next..] == Concat(runs[i + 1..])
    ensures triangles == Slots(runs[i]) && points == Dedup(triangles)
  {
    RunAt(text, token, runs, i);
    triangles, points, next := ReadBinaryRun(text, token, runs[i]);
  }

  /** The BINARY_TABLE loop over a literal made of sixteen runs. */
  method DecodeBinary(runs: seq<string>) returns (triangles: seq<seq<int>>, points: seq<seq<int>>, consumed: nat)
    requires |runs| == 16 && RunsOk(runs, 3, 8)
    ensures triangles == SlotLists(runs) && points == DedupLists(triangles)
    ensures consumed == |Concat(runs)|
  {
    var text := Concat(runs);
    var token: nat := 0;
    triangles, points := [], [];
    assert runs[0..] == runs;
    for i := 0 to 16
      invariant token <= |text| && text[token..] == Concat(runs[i..])
      invariant triangles == SlotLists(runs[..i]) && points == DedupLists(triangles)
    {
      var tris, pts, next := ReadBinaryCase(text, token, runs, i);
      ListsSnoc(runs[..i], runs[i], triangles, pts);
      assert runs[..i] + [runs[i]] == runs[..i + 1];
      triangles := triangles + [tris];
      points := points + [pts];
      token := next;
    }
    assert runs[16..] == [] && runs[..16] == runs;
    consumed := token;
  }

  /** Reads the four corner runs of quaternary case `i`. */
  method ReadCase(text: string, token: nat, runs: seq<string>, i: nat, width: nat)
    returns (corners: seq<seq<int>>, next: nat)
    requires |runs| == 256 && i < 64 && RunsOk(runs, width, 9)
    requires token <= |text| && text[token..] == Concat(runs[4 * i..])
    ensures next <= |text| && text[next..] == Concat(runs[4 * i + 4..])
    ensures corners == CaseLists(runs, i)
  {
    corners := [];
    next := token;
    for c := 0 to 4
      invariant next <= |text| && text[next..] == Concat(runs[4 * i + c..])
      invariant |corners| == c && forall d :: 0 <= d < c ==> corners[d] == Slots(runs[4 * i + d])
    {
      RunAt(text, next, runs, 4 * i + c);
      var slots, after := ReadRun(text, next, width, 9, runs[4 * i + c]);
      corners := corners + [slots];
      next := after;
    }
    CaseListsOf(runs, i, corners);
  }

  /** Four corner lists read one by one make up the case. */
  lemma CaseListsOf(runs: seq<string>, i: nat, corners: seq<seq<int>>)
    requires 4 * i + 4 <= |runs| && |corners| == 4
    requires forall d :: 0 <= d < 4 ==> corners[d] == Slots(runs[4 * i + d])
    ensures corners == CaseLists(runs, i)
  {
  }

  /**
   * The QUATERNARY_TABLE and QUATERNARY_EDGES loops: for each of the 64
   * cases, one run per corner (the source unrolls the four corners).
   */
  method DecodeQuaternary(runs: seq<string>, width: nat) returns (lists: seq<seq<seq<int>>>, consumed: nat)
    requires |runs| == 256 && RunsOk(runs, width, 9)
    ensures lists == CornerLists(runs)
    ensures consumed == |Concat(runs)|
  {
    var text := Concat(runs);
    var token: nat := 0;
    lists := [];
    assert runs[0..] == runs;
    for i := 0 to 64
      invariant token <= |text| && text[token..] == Concat(runs[4 * i..])
      invariant |lists| == i
      invariant forall q :: 0 <= q < i ==> lists[q] == CaseLists(runs, q)
    {
      var corners, next := ReadCase(text, token, runs, i, width);
      lists := lists + [corners];
      token := next;
    }
    assert runs[256..] == [];
    consumed := token;
  }

  /** Binary tables decoded from well-formed runs satisfy `BinaryTablesOk`, given the full square. */
  lemma BinaryDecodedOk(runs: seq<string>)
    requires |runs| == 16 && RunsOk(runs, 3, 8)
    requires Slots(runs[15]) == [0, 2, 4, 4, 6, 0]
    ensures BinaryTablesOk(SlotLists(runs), DedupLists(SlotLists(runs)))
  {
    forall code | 0 <= code < 16
      ensures |SlotLists(runs)[code]| % 3 == 0
      ensures forall j :: 0 <= j < |SlotLists(runs)[code]| ==> 0 <= SlotLists(runs)[code][j] < 8
    {
      SlotsOfRun(runs[code], 3, 8);
    }
  }

  /** One decoded corner: whole triangles below 9, edge slots below 9 and among the triangle slots. */
  lemma CornerDecodedOk(qruns: seq<string>, eruns: seq<string>, k: nat)
    requires k < |qruns| && RunOk(qruns[k], 3, 9)
    requires k < |eruns| && RunOk(eruns[k], 1, 9) && EdgesOk(qruns, eruns)
    ensures |Slots(qruns[k])| % 3 == 0
    ensures forall j :: 0 <= j < |Slots(qruns[k])| ==> 0 <= Slots(qruns[k])[j] < 9
    ensures forall j :: 0 <= j < |Slots(eruns[k])| ==>
      0 <= Slots(eruns[k])[j] < 9 && Slots(eruns[k])[j] in Slots(qruns[k])
  {
    SlotsOfRun(qruns[k], 3, 9);
    SlotsOfRun(eruns[k], 1, 9);
  }

  /** Quaternary tables decoded from well-formed runs satisfy `QuaternaryTablesOk`, given the full square. */
  lemma QuaternaryDecodedOk(qruns: seq<string>, eruns: seq<string>)
    requires |qruns| == 256 && RunsOk(qruns, 3, 9)
    requires |eruns| == 256 && RunsOk(eruns, 1, 9) && EdgesOk(qruns, eruns)
    requires Slots(qruns[0]) == [0, 2, 4, 0, 4, 6] && Slots(qruns[1]) == [] && Slots(qruns[2]) == [] && Slots(qruns[3]) == []
    ensures QuaternaryTablesOk(CornerLists(qruns), CornerLists(eruns))
  {
    QuaternaryCornersOk(qruns, eruns);
    CornerListsAt(qruns, 0, 0);
    CornerListsAt(qruns, 0, 1);
    CornerListsAt(qruns, 0, 2);
    CornerListsAt(qruns, 0, 3);
    assert CornerLists(qruns)[0] == [[0, 2, 4, 0, 4, 6], [], [], []];
  }

  /** Every decoded corner of both quaternary tables is well formed. */
  lemma QuaternaryCornersOk(qruns: seq<string>, eruns: seq<string>)
    requires |qruns| == 256 && RunsOk(qruns, 3, 9)
    requires |eruns| == 256 && RunsOk(eruns, 1, 9) && EdgesOk(qruns, eruns)
    ensures var tri, edges := CornerLists(qruns), CornerLists(eruns);
      (forall code :: 0 <= code < 64 ==> |tri[code]| == 4 && |edges[code]| == 4) &&
      (forall code, c :: 0 <= code < 64 && 0 <= c < 4 ==> |tri[code][c]| % 3 == 0) &&
      (forall code, c, j :: 0 <= code < 64 && 0 <= c < 4 && 0 <= j < |tri[code][c]| ==>
        0 <= tri[code][c][j] < 9) &&
      (forall code, c, j :: 0 <= code < 64 && 0 <= c < 4 && 0 <= j < |edges[code][c]| ==>
        0 <= edges[code][c][j] < 9 && edges[code][c][j] in tri[code][c])
  {
    var tri, edges := CornerLists(qruns), CornerLists(eruns);
    forall code, c | 0 <= code < 64 && 0 <= c < 4
      ensures |tri[code]| == 4 && |edges[code]| == 4
      ensures |tri[code][c]| % 3 == 0
      ensures forall j :: 0 <= j < |tri[code][c]| ==> 0 <= tri[code][c][j] < 9
      ensures forall j :: 0 <= j < |edges[code][c]| ==> 0 <= edges[code][c][j] < 9 && edges[code][c][j] in tri[code][c]
    {
      CornerListsAt(qruns, code, c);
      CornerListsAt(eruns, code, c);
      assert RunOk(qruns[4 * code + c], 3, 9) && RunOk(eruns[4 * code + c], 1, 9);
      CornerDecodedOk(qruns, eruns, 4 * code + c);
    }
  }

  /** Corner `c` of case `code` is run `4 * code + c`. */
  lemma CornerListsAt(runs: seq<string>, code: nat, c: nat)
    requires |runs| == 256 && code < 64 && c < 4
    ensures |CornerLists(runs)[code]| == 4 && CornerLists(runs)[code][c] == Slots(runs[4 * code + c])
  {
  }

  /** The tables the literals decode to. */
  function Decoded(): TableSet
  {
    TableSet(SlotLists(BinaryRuns()), DedupLists(SlotLists(BinaryRuns())),
             CornerLists(QuaternaryTriangleRuns()), CornerLists(QuaternaryEdgeRuns()))
  }

  /**
   * `par_init_tables`: decodes the three literals into the tables the
   * marchers read.  Each literal is read exactly to its end.
   */
  method InitTables() returns (t: TableSet, binaryConsumed: nat, quaternaryConsumed: nat, edgesConsumed: nat)
    ensures TablesOk(t) && t == Decoded()
    ensures t.binaryTriangles == SlotLists(BinaryRuns())
    ensures t.binaryPoints == DedupLists(t.binaryTriangles)
    ensures forall code :: 0 <= code < 16 ==> |t.binaryPoints[code]| <= 6
    ensures t.quaternaryTriangles == CornerLists(QuaternaryTriangleRuns())
    ensures t.quaternaryEdges == CornerLists(QuaternaryEdgeRuns())
    ensures binaryConsumed == |Concat(BinaryRuns())|
    ensures quaternaryConsumed == |Concat(QuaternaryTriangleRuns())|
    ensures edgesConsumed == |Concat(QuaternaryEdgeRuns())|
  {
    var bruns, qruns, eruns := BinaryRuns(), QuaternaryTriangleRuns(), QuaternaryEdgeRuns();
    BinaryRunsOk();
    QuaternaryRunsOk();
    var bt, bp, consumed := DecodeBinary(bruns);
    var qt, qconsumed := DecodeQuaternary(qruns, 3);
    var qe, econsumed := DecodeQuaternary(eruns, 1);
    DecodedOk();
    t := TableSet(bt, bp, qt, qe);
    binaryConsumed, quaternaryConsumed, edgesConsumed := consumed, qconsumed, econsumed;
  }

  /** The decoded literals meet what both marchers assume, and no binary point list exceeds six entries. */
  lemma DecodedOk()
    ensures TablesOk(Decoded())
    ensures forall code :: 0 <= code < 16 ==> |Decoded().binaryPoints[code]| <= 6
  {
    BinaryRunsOk();
    QuaternaryRunsOk();
    FullCellTriangles();
    UniformCellTriangles();
    BinaryDecodedOk(BinaryRuns());
    BinaryPointsAtMostSix();
    QuaternaryDecodedOk(QuaternaryTriangleRuns(), QuaternaryEdgeRuns());
  }
}

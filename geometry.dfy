/**
 * Nominal positions of the nine cell slots and the welding correspondences
 * between neighbouring cells.
 *
 * Positions are kept in half-cell units: slot `s` of the cell in row `row`
 * and column `col` sits at x2 = 2 * col + dx, y2 = 2 * row + dy, with y
 * growing southwards (row 0 is the top of the image, as in the marchers'
 * `vertsy`).  These integers are what the float `vertsx`/`vertsy` arrays
 * hold up to the factor `cellsize / 2 / max(width, height)`.
 */
module Geometry {
  import opened Wrappers

  datatype Pos = Pos(x2: int, y2: int)

  /** Offset (dx, dy) of each slot: 0 SW, 1 S, 2 SE, 3 E, 4 NE, 5 N, 6 NW, 7 W, 8 centre. */
  function SlotOffset(slot: nat): (int, int)
    requires slot < 9
  {
    [(0, 2), (1, 2), (2, 2), (2, 1), (2, 0), (1, 0), (0, 0), (0, 1), (1, 1)][slot]
  }

  /** Nominal position of slot `slot` of cell (`row`, `col`). */
  function SlotPos(row: int, col: int, slot: nat): Pos
    requires slot < 9
  {
    Pos(2 * col + SlotOffset(slot).0, 2 * row + SlotOffset(slot).1)
  }

  /** Within one cell the nine slots are at nine different positions. */
  lemma SlotsDistinct(row: int, col: int, s: nat, t: nat)
    requires s < 9 && t < 9 && s != t
    ensures SlotPos(row, col, s) != SlotPos(row, col, t)
  {
  }

  /**
   * The slot of the west neighbour a slot is welded to: 0 to 2, 7 to 3 and
   * 6 to 4 (the first three welding tests of the binary marcher).
   */
  function WestPartner(slot: nat): Option<nat>
  {
    if slot == 0 then Some(2) else if slot == 7 then Some(3) else if slot == 6 then Some(4) else None
  }

  /**
   * The slot of the north neighbour a slot is welded to: 4 to 2, 5 to 1 and
   * 6 to 0 (the last three welding tests of the binary marcher).
   */
  function NorthPartner(slot: nat): Option<nat>
  {
    if slot == 4 then Some(2) else if slot == 5 then Some(1) else if slot == 6 then Some(0) else None
  }

  /**
   * A slot and a slot of the west neighbour are at the same position exactly
   * when they are west partners: welding joins only coincident points, and
   * every coincidence across the western edge is a weld candidate.
   */
  lemma WestPartnerIsCoincidence(row: int, col: int, s: nat, t: nat)
    requires s < 9 && t < 9
    ensures SlotPos(row, col, s) == SlotPos(row, col - 1, t) <==> WestPartner(s) == Some(t)
  {
  }

  /** The same for the north neighbour, one row up. */
  lemma NorthPartnerIsCoincidence(row: int, col: int, s: nat, t: nat)
    requires s < 9 && t < 9
    ensures SlotPos(row, col, s) == SlotPos(row - 1, col, t) <==> NorthPartner(s) == Some(t)
  {
  }

  /** `west_to_east` of the colour marcher: the west partner of each slot, -1 for none. */
  const WestToEast: seq<int> := [2, -1, -1, -1, -1, -1, 4, 3, -1]

  /** `north_to_south` of the colour marcher: the north partner of each slot, -1 for none. */
  const NorthToSouth: seq<int> := [-1, -1, -1, -1, 2, 1, 0, -1, -1]

  /** Converts a partner table entry to an optional slot. */
  function Entry(table: seq<int>, slot: nat): Option<nat>
    requires slot < |table|
  {
    if table[slot] < 0 then None else Some(table[slot] as nat)
  }

  /**
   * The colour marcher's tables encode the same weld pairs as the binary
   * marcher's tests, and the centre slot 8 is never welded.
   */
  lemma PartnerTablesAgree()
    ensures forall s :: 0 <= s < 9 ==> Entry(WestToEast, s) == WestPartner(s)
    ensures forall s :: 0 <= s < 9 ==> Entry(NorthToSouth, s) == NorthPartner(s)
    ensures WestPartner(8) == None && NorthPartner(8) == None
  {
    forall s | 0 <= s < 9
      ensures Entry(WestToEast, s) == WestPartner(s) && Entry(NorthToSouth, s) == NorthPartner(s)
    {
      if s == 0 {} else if s == 1 {} else if s == 2 {} else if s == 3 {} else if s == 4 {}
      else if s == 5 {} else if s == 6 {} else if s == 7 {} else {}
    }
  }

  /** Slots on the eastern edge (2, 3, 4) are exactly the west partners, and those on the southern edge (0, 1, 2) the north partners. */
  lemma PartnersOnEdges(t: nat)
    requires t < 9
    ensures (exists s :: 0 <= s < 9 && WestPartner(s) == Some(t)) <==> SlotOffset(t).0 == 2
    ensures (exists s :: 0 <= s < 9 && NorthPartner(s) == Some(t)) <==> SlotOffset(t).1 == 2
  {
    if SlotOffset(t).0 == 2 {
      var s := if t == 2 then 0 else if t == 3 then 7 else 6;
      assert WestPartner(s) == Some(t);
    }
    if SlotOffset(t).1 == 2 {
      var s := if t == 2 then 4 else if t == 1 then 5 else 6;
      assert NorthPartner(s) == Some(t);
    }
  }

  /**
   * A slot reuses its neighbour's point when the neighbour emitted the coincident slot:
   * `west` and `north` are the slots the western and northern neighbours emitted.
   */
  predicate Welded(s: nat, west: set<int>, north: set<int>)
  {
    (WestPartner(s).Some? && WestPartner(s).value in west) || (NorthPartner(s).Some? && NorthPartner(s).value in north)
  }
}

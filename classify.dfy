/**
 * Per-cell classification: the binary 4-bit case code and the clamped
 * corner samples it is computed from, the canonical 4-colour case code
 * (`par_msquares_multi_code`), pixel colour packing (`par_msquares_argb`),
 * the colour comparator and the colour inside-test.
 */
module Classify {
  import opened Sequences

  /** A byte of pixel data. */
  type Byte = x: int | 0 <= x < 256

  /** 2^32: colours are unsigned 32-bit words. */
  const Word: nat := 0x1_0000_0000

  function Bit(b: bool): nat
  {
    if b then 1 else 0
  }

  function Min(a: int, b: int): int
  {
    if a > b then b else a
  }

  // ---------------------------------------------------------------------
  // Binary case code and corner samples.
  // ---------------------------------------------------------------------

  /**
   * The binary case of a cell: SW is bit 0, SE bit 1, NW bit 2, NE bit 3.
   * The code names the corner states exactly.
   */
  function BinaryCode(sw: bool, se: bool, nw: bool, ne: bool): (code: nat)
    ensures code < 16
    ensures (code % 2 == 1 <==> sw) && (code / 2 % 2 == 1 <==> se)
    ensures (code / 4 % 2 == 1 <==> nw) && (code / 8 == 1 <==> ne)
  {
    Bit(sw) + 2 * Bit(se) + 4 * Bit(nw) + 8 * Bit(ne)
  }

  /** Code 15, the only case SIMPLIFY merges, is the cell with all four corners inside. */
  lemma FullCode(sw: bool, se: bool, nw: bool, ne: bool)
    ensures BinaryCode(sw, se, nw, ne) == 15 <==> sw && se && nw && ne
  {
  }

  /** Pixel index where the north edge of cell row `row` starts (`northi`). */
  function NorthStart(width: nat, cellsize: nat, row: nat): nat
  {
    row * cellsize * width
  }

  /** Pixel index where the south edge of cell row `row` starts (`southi`), clamped to the last pixel row. */
  function SouthStart(width: nat, height: nat, cellsize: nat, row: nat): int
  {
    Min(row * cellsize * width + cellsize * width, (height - 1) * width)
  }

  /**
   * Offset along a row of vertical grid line `j` (0 ..= ncols): `cellsize`
   * pixels per column, the last line pulled back one pixel.
   */
  function ColumnOffset(ncols: nat, cellsize: nat, j: nat): int
  {
    if j == ncols then j * cellsize - 1 else j * cellsize
  }

  /** The grid dimensions the marcher asserts: positive, and multiples of the cell size. */
  predicate DimensionsOk(width: nat, height: nat, cellsize: nat)
  {
    cellsize > 0 && width > 0 && width % cellsize == 0 && height > 0 && height % cellsize == 0
  }

  lemma MulMonotone(a: nat, b: nat, c: nat)
    requires a <= b
    ensures a * c <= b * c
  {
  }

  /** Every corner sample the marcher reads lies inside the image. */
  lemma SamplesInImage(width: nat, height: nat, cellsize: nat, row: nat, j: nat)
    requires DimensionsOk(width, height, cellsize)
    requires row < height / cellsize && j <= width / cellsize
    ensures 0 <= NorthStart(width, cellsize, row) + ColumnOffset(width / cellsize, cellsize, j) < width * height
    ensures 0 <= SouthStart(width, height, cellsize, row) + ColumnOffset(width / cellsize, cellsize, j) < width * height
  {
    var ncols, nrows := width / cellsize, height / cellsize;
    assert ncols * cellsize == width;
    assert nrows * cellsize == height;
    MulMonotone(j, ncols, cellsize);
    assert 0 <= ColumnOffset(ncols, cellsize, j) < width;
    MulMonotone(row + 1, nrows, cellsize);
    assert row * cellsize <= height - 1;
    MulMonotone(row * cellsize, height - 1, width);
    assert (height - 1) * width + width == width * height;
  }

  /** The grid has at least one row and one column. */
  lemma GridNonEmpty(width: nat, height: nat, cellsize: nat)
    requires DimensionsOk(width, height, cellsize)
    ensures width / cellsize >= 1 && height / cellsize >= 1
  {
    assert (width / cellsize) * cellsize == width;
    assert (height / cellsize) * cellsize == height;
  }

  /**
   * Stepping a column moves the sample index `cellsize` pixels east, one
   * pixel less onto the last grid line: the marcher's running indices are
   * the grid-line offsets.
   */
  lemma ColumnAdvance(ncols: nat, cellsize: nat, col: nat)
    requires col < ncols
    ensures ColumnOffset(ncols, cellsize, col + 1) ==
      ColumnOffset(ncols, cellsize, col) + cellsize - (if col == ncols - 1 then 1 else 0)
  {
    assert (col + 1) * cellsize == col * cellsize + cellsize;
  }

  /** Below the last cell row, a row's south edge is the next row's north edge. */
  lemma SouthIsNextNorth(width: nat, height: nat, cellsize: nat, row: nat)
    requires DimensionsOk(width, height, cellsize) && row + 1 < height / cellsize
    ensures SouthStart(width, height, cellsize, row) == NorthStart(width, cellsize, row + 1)
  {
    var nrows := height / cellsize;
    assert nrows * cellsize == height;
    MulMonotone(row + 2, nrows, cellsize);
    MulMonotone((row + 1) * cellsize, height - 1, width);
    assert row * cellsize * width + cellsize * width == (row + 1) * cellsize * width;
  }

  /** The last cell row's south edge is clamped to the last pixel row. */
  lemma LastSouthClamped(width: nat, height: nat, cellsize: nat)
    requires DimensionsOk(width, height, cellsize)
    ensures SouthStart(width, height, cellsize, height / cellsize - 1) == (height - 1) * width
  {
    var nrows := height / cellsize;
    assert nrows * cellsize == height;
    assert (nrows - 1) * cellsize * width + cellsize * width == height * width;
  }

  // ---------------------------------------------------------------------
  // Canonical 4-colour case code.
  // ---------------------------------------------------------------------

  /**
   * The local indices `par_msquares_multi_code` assigns to the corners SW,
   * SE, NE, NW: each corner reuses the index of an earlier corner of equal
   * value (checking the nearest earlier corner first) and otherwise takes
   * the next fresh index.
   */
  function LocalIndices(sw: int, se: int, ne: int, nw: int): (code: seq<nat>)
    ensures |code| == 4 && code[0] == 0 && forall k :: 0 <= k < 4 ==> code[k] <= k
  {
    var c0, n0 := 0, 1;
    var (c1, n1) := if se == sw then (c0, n0) else (n0, n0 + 1);
    var (c2, n2) := if ne == se then (c1, n1) else if ne == sw then (c0, n1) else (n1, n1 + 1);
    var c3 := if nw == ne then c2 else if nw == se then c1 else if nw == sw then c0 else n2;
    [c0, c1, c2, c3]
  }

  /** `par_msquares_multi_code`: the four local indices packed two bits each, SW lowest. */
  function MultiCode(sw: int, se: int, ne: int, nw: int): (code: nat)
    ensures code % 4 == 0 && code / 4 < 64
    ensures forall k :: 0 <= k < 4 ==> LocalIndex(code, k) == LocalIndices(sw, se, ne, nw)[k]
  {
    var c := LocalIndices(sw, se, ne, nw);
    UnpackIndices(c[0], c[1], c[2], c[3]);
    c[0] + c[1] * 4 + c[2] * 16 + c[3] * 64
  }

  /** The two-bit local index of corner `corner` (0 SW, 1 SE, 2 NE, 3 NW) in a packed code. */
  function LocalIndex(code: nat, corner: nat): nat
    requires corner < 4
  {
    code / [1, 4, 16, 64][corner] % 4
  }

  lemma UnpackIndices(c0: nat, c1: nat, c2: nat, c3: nat)
    requires c0 < 4 && c1 < 4 && c2 < 4 && c3 < 4
    ensures var code := c0 + c1 * 4 + c2 * 16 + c3 * 64;
      LocalIndex(code, 0) == c0 && LocalIndex(code, 1) == c1 && LocalIndex(code, 2) == c2 && LocalIndex(code, 3) == c3
  {
    var code := c0 + c1 * 4 + c2 * 16 + c3 * 64;
    assert code / 4 == c1 + c2 * 4 + c3 * 16;
    assert code / 16 == c2 + c3 * 4;
    assert code / 64 == c3;
  }

  lemma DedupSnoc(l: seq<int>, x: int)
    ensures Dedup(l + [x]) == if x in Dedup(l) then Dedup(l) else Dedup(l) + [x]
  {
    assert (l + [x])[..|l|] == l;
  }

  /**
   * Local indices are handed out in first-appearance order: the local index
   * of each corner is the position of its value in the distinct corner
   * values listed in order of first appearance SW, SE, NE, NW.
   */
  lemma LocalIndicesFirstAppearance(sw: int, se: int, ne: int, nw: int)
    ensures var code, d := LocalIndices(sw, se, ne, nw), Dedup([sw, se, ne, nw]);
      forall k :: 0 <= k < 4 ==> code[k] < |d| && d[code[k]] == [sw, se, ne, nw][k]
  {
    assert [sw][..0] == [];
    DedupSnoc([sw], se);
    assert [sw] + [se] == [sw, se];
    DedupSnoc([sw, se], ne);
    assert [sw, se] + [ne] == [sw, se, ne];
    DedupSnoc([sw, se, ne], nw);
    assert [sw, se, ne] + [nw] == [sw, se, ne, nw];
  }

  /**
   * The packed code: SW has local index 0, and two corners have the same
   * local index exactly when their values are equal.
   */
  lemma MultiCodeSameIndex(sw: int, se: int, ne: int, nw: int)
    ensures var code, corners := MultiCode(sw, se, ne, nw), [sw, se, ne, nw];
      LocalIndex(code, 0) == 0 &&
      forall i, j :: 0 <= i < 4 && 0 <= j < 4 ==> (LocalIndex(code, i) == LocalIndex(code, j) <==> corners[i] == corners[j])
  {
    var corners := [sw, se, ne, nw];
    LocalIndicesFirstAppearance(sw, se, ne, nw);
    DedupProperties(corners);
  }

  // ---------------------------------------------------------------------
  // Colours.
  // ---------------------------------------------------------------------

  /** Byte `k` (0 lowest) of an unsigned word. */
  function ByteOf(word: nat, k: nat): Byte
    requires k < 4
  {
    word / [1, 0x100, 0x1_0000, 0x100_0000][k] % 0x100
  }

  /** The bytes shifted into a 32-bit word as the generic `argb` loop does: first byte highest, older bytes lost. */
  function Pack(bytes: seq<Byte>): (word: nat)
    ensures word < Word
  {
    if |bytes| == 0 then 0 else (Pack(bytes[..|bytes| - 1]) * 0x100 + bytes[|bytes| - 1]) % Word
  }

  /**
   * `par_msquares_argb` for 4-byte pixels (bytes R, G, B, A): the word
   * 0xAARRGGBB.
   */
  function Argb4(pixel: seq<Byte>): (word: nat)
    requires |pixel| == 4
    ensures word < Word
    ensures ByteOf(word, 0) == pixel[2] && ByteOf(word, 1) == pixel[1]
    ensures ByteOf(word, 2) == pixel[0] && ByteOf(word, 3) == pixel[3]
  {
    WordBytes(pixel[2], pixel[1], pixel[0], pixel[3]);
    pixel[2] as int + pixel[1] as int * 0x100 + pixel[0] as int * 0x1_0000 + pixel[3] as int * 0x100_0000
  }

  /** The four bytes of a word built from them, lowest first. */
  lemma WordBytes(b0: Byte, b1: Byte, b2: Byte, b3: Byte)
    ensures var w := b0 + b1 * 0x100 + b2 * 0x1_0000 + b3 * 0x100_0000;
      w < Word && ByteOf(w, 0) == b0 && ByteOf(w, 1) == b1 && ByteOf(w, 2) == b2 && ByteOf(w, 3) == b3
  {
    var w := b0 + b1 * 0x100 + b2 * 0x1_0000 + b3 * 0x100_0000;
    assert w / 0x100 == b1 + b2 * 0x100 + b3 * 0x1_0000;
    assert w / 0x1_0000 == b2 + b3 * 0x100;
    assert w / 0x100_0000 == b3;
  }

  /** The colour `par_msquares_argb` computes for a pixel of `bpp` bytes. */
  function PixelColor(pixel: seq<Byte>, bpp: nat): nat
    requires |pixel| == bpp
  {
    if bpp == 4 then Argb4(pixel) else Pack(pixel)
  }

  /**
   * `par_msquares_argb`: packs the pixel's `bpp` bytes into a colour word;
   * four-byte pixels take the A, R, G, B layout, others are shifted in
   * byte by byte.
   */
  method Argb(pixel: seq<Byte>, bpp: nat) returns (color: nat)
    requires |pixel| == bpp
    ensures color == PixelColor(pixel, bpp) && color < Word
  {
    if bpp == 4 {
      color := pixel[2] as int + pixel[1] as int * 0x100 + pixel[0] as int * 0x1_0000 + pixel[3] as int * 0x100_0000;
      return;
    }
    color := 0;
    for j := 0 to bpp
      invariant color == Pack(pixel[..j])
    {
      assert pixel[..j + 1][..j] == pixel[..j];
      color := (color * 0x100 + pixel[j]) % Word;
    }
    assert pixel[..bpp] == pixel;
  }

  /** With at most four bytes the shift loop loses nothing: byte `k` of the word is the `k`-th byte from the end. */
  lemma {:induction false} PackBytes(bytes: seq<Byte>)
    requires |bytes| <= 4
    ensures Pack(bytes) < Pow256(|bytes|)
    ensures forall k :: 0 <= k < |bytes| ==> ByteOf(Pack(bytes), k) == bytes[|bytes| - 1 - k]
  {
    if |bytes| > 0 {
      var init := bytes[..|bytes| - 1];
      PackBytes(init);
      var p := Pack(init);
      assert Pow256(3) == 0x100_0000;
      assert p * 0x100 + bytes[|bytes| - 1] < Pow256(|bytes|) <= Word;
      assert Pack(bytes) == p * 0x100 + bytes[|bytes| - 1];
      forall k | 0 <= k < |bytes|
        ensures ByteOf(Pack(bytes), k) == bytes[|bytes| - 1 - k]
      {
        if k > 0 {
          ShiftedByte(p, bytes[|bytes| - 1], k);
          assert ByteOf(p, k - 1) == init[|init| - 1 - (k - 1)];
        }
      }
    }
  }

  function Pow256(n: nat): nat
  {
    if n == 0 then 1 else 0x100 * Pow256(n - 1)
  }

  lemma ShiftedByte(p: nat, b: Byte, k: nat)
    requires 0 < k < 4 && p < 0x100_0000
    ensures ByteOf(p * 0x100 + b, k) == ByteOf(p, k - 1)
  {
  }

  /**
   * The colour `par_msquares_color` unpacks into its inside-test context:
   * bytes R, G, B, A of the word 0xAARRGGBB.
   */
  function ContextColor(color: nat): (rgba: seq<Byte>)
    ensures |rgba| == 4
  {
    [ByteOf(color, 2), ByteOf(color, 1), ByteOf(color, 0), ByteOf(color, 3)]
  }

  /** Unpacking undoes 4-byte packing, and packing is one to one: the context colour of a pixel's word is the pixel. */
  lemma ContextOfArgb4(pixel: seq<Byte>)
    requires |pixel| == 4
    ensures ContextColor(Argb4(pixel)) == pixel
  {
  }

  /** Two 4-byte pixels have the same colour word only if they are the same pixel. */
  lemma Argb4Injective(p: seq<Byte>, q: seq<Byte>)
    requires |p| == 4 && |q| == 4 && Argb4(p) == Argb4(q)
    ensures p == q
  {
    ContextOfArgb4(p);
    ContextOfArgb4(q);
  }

  /** `par_msquares_cmp`: the sign of the comparison of two colour words. */
  function Cmp(a: nat, b: nat): (r: int)
    ensures r == -1 <==> a < b
    ensures r == 0 <==> a == b
    ensures r == 1 <==> a > b
  {
    if a < b then -1 else if a > b then 1 else 0
  }

  /**
   * `color_inside`: pixel `location` is inside when its `bpp` bytes all
   * equal the context colour; the first differing byte ends the scan.
   */
  method ColorInside(data: seq<Byte>, location: nat, bpp: nat, color: seq<Byte>) returns (inside: bool)
    requires bpp <= |color| && (location + 1) * bpp <= |data|
    ensures inside <==> data[location * bpp..location * bpp + bpp] == color[..bpp]
  {
    var base := location * bpp;
    assert base + bpp == (location + 1) * bpp;
    for i := 0 to bpp
      invariant data[base..base + i] == color[..i]
    {
      if data[base + i] != color[i] {
        assert data[base..base + bpp][i] != color[..bpp][i];
        return false;
      }
      assert data[base..base + i + 1] == data[base..base + i] + [data[base + i]];
      assert color[..i + 1] == color[..i] + [color[i]];
    }
    return true;
  }

  /** A word below 2^32 is the sum of its four bytes. */
  lemma WordFromBytes(c: nat)
    requires c < Word
    ensures c == ByteOf(c, 0) + ByteOf(c, 1) * 0x100 + ByteOf(c, 2) * 0x1_0000 + ByteOf(c, 3) * 0x100_0000
  {
    var q1 := c / 0x100;
    var q2 := q1 / 0x100;
    var q3 := q2 / 0x100;
    assert c == q1 * 0x100 + c % 0x100;
    assert q1 == q2 * 0x100 + q1 % 0x100;
    assert q2 == q3 * 0x100 + q2 % 0x100;
    assert q3 < 0x100;
    assert c / 0x1_0000 == q2;
    assert c / 0x100_0000 == q3;
  }

  /** For 4-byte pixels the inside-test against colour `c` holds exactly when the pixel's colour word is `c`. */
  lemma ColorInsideIsArgbMatch(pixel: seq<Byte>, c: nat)
    requires |pixel| == 4 && c < Word
    ensures pixel == ContextColor(c) <==> Argb4(pixel) == c
  {
    ContextOfArgb4(pixel);
    if pixel == ContextColor(c) {
      WordFromBytes(c);
    }
  }
}

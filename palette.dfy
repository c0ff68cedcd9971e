/**
 * The colour table of `par_msquares_color_multi`: every distinct pixel
 * colour is looked up in a sorted table (`bsearch`) and, when missing,
 * appended and the table re-sorted (`qsort`), with at most 256 entries;
 * then every pixel is replaced by the position of its colour in the table.
 */
module Palette {
  import opened Wrappers
  import opened Classify

  /** Strictly ascending: sorted by `par_msquares_cmp`, without repetitions. */
  predicate Ascending(s: seq<nat>)
  {
    forall i, j :: 0 <= i < j < |s| ==> s[i] < s[j]
  }

  /** The entries of a table. */
  function Elems(s: seq<nat>): set<nat>
  {
    set x | x in s
  }

  /**
   * The first byte of pixel `i` when every pixel takes `bpp` bytes, that is
   * `i * bpp`, counted pixel by pixel.
   */
  function Offset(i: nat, bpp: nat): nat
  {
    if i == 0 then 0 else Offset(i - 1, bpp) + bpp
  }

  /** The byte offset of pixel `i` is `i * bpp`. */
  lemma {:induction false} OffsetIsProduct(i: nat, bpp: nat)
    ensures Offset(i, bpp) == i * bpp
  {
    if i > 0 {
      OffsetIsProduct(i - 1, bpp);
    }
  }

  /** Later pixels start no earlier. */
  lemma {:induction false} OffsetMonotone(i: nat, n: nat, bpp: nat)
    requires i <= n
    ensures Offset(i, bpp) <= Offset(n, bpp)
    decreases n - i
  {
    if i < n {
      OffsetMonotone(i + 1, n, bpp);
    }
  }

  /** The colour word of pixel `i` (`par_msquares_argb` on its `bpp` bytes). */
  function ColorOf(data: seq<Byte>, bpp: nat, i: nat): (c: nat)
    requires Offset(i + 1, bpp) <= |data|
    ensures c < Word
  {
    PixelColor(data[Offset(i, bpp)..Offset(i + 1, bpp)], bpp)
  }

  /** The colours of the first `n` pixels. */
  function PixelColors(data: seq<Byte>, bpp: nat, n: nat): set<nat>
    requires Offset(n, bpp) <= |data|
  {
    if n == 0 then {} else PixelColors(data, bpp, n - 1) + {ColorOf(data, bpp, n - 1)}
  }

  /** Every pixel's colour is among the pixel colours, and those of a prefix are among those of the whole. */
  lemma {:induction false} PixelColorsGrow(data: seq<Byte>, bpp: nat, i: nat, n: nat)
    requires i <= n && Offset(n, bpp) <= |data|
    ensures Offset(i, bpp) <= |data| && PixelColors(data, bpp, i) <= PixelColors(data, bpp, n)
    ensures i < n ==> Offset(i + 1, bpp) <= |data| && ColorOf(data, bpp, i) in PixelColors(data, bpp, n)
    decreases n - i
  {
    OffsetMonotone(i, n, bpp);
    if i < n {
      OffsetMonotone(i + 1, n, bpp);
      PixelColorsGrow(data, bpp, i + 1, n);
    }
  }

  /** A strictly ascending table holds as many distinct colours as entries. */
  lemma {:induction false} AscendingCard(s: seq<nat>)
    requires Ascending(s)
    ensures |Elems(s)| == |s|
  {
    if |s| > 0 {
      var init, last := s[..|s| - 1], s[|s| - 1];
      assert s == init + [last];
      AscendingPrefix(s, |s| - 1);
      AscendingCard(init);
      forall k | 0 <= k < |init|
        ensures init[k] != last
      {
        assert s[k] < s[|s| - 1];
      }
      SetOfSnoc(init, last);
      CardAddOne(Elems(init), last);
    }
  }

  lemma AscendingPrefix(s: seq<nat>, n: nat)
    requires Ascending(s) && n <= |s|
    ensures Ascending(s[..n])
  {
  }

  lemma CardAddOne(a: set<nat>, x: nat)
    requires x !in a
    ensures |a + {x}| == |a| + 1
  {
    assert a * {x} == {};
  }

  lemma SetOfSnoc(s: seq<nat>, x: nat)
    ensures Elems(s + [x]) == Elems(s) + {x}
  {
  }

  lemma {:induction false} SubsetCard(a: set<nat>, b: set<nat>)
    requires a <= b
    ensures |a| <= |b|
  {
    if a != {} {
      var x :| x in a;
      SubsetCard(a - {x}, b - {x});
    }
  }

  /**
   * `bsearch` with `par_msquares_cmp` over an ascending table: the position
   * of the colour, or nothing when the table lacks it.
   */
  method Search(colors: seq<nat>, c: nat) returns (r: Option<nat>)
    requires Ascending(colors)
    ensures r.Some? ==> r.value < |colors| && colors[r.value] == c
    ensures r.None? <==> c !in colors
  {
    var lo, hi := 0, |colors|;
    while lo < hi
      invariant 0 <= lo <= hi <= |colors|
      invariant forall i :: 0 <= i < lo ==> colors[i] < c
      invariant forall i :: hi <= i < |colors| ==> colors[i] > c
    {
      var mid := (lo + hi) / 2;
      var cmp := Cmp(c, colors[mid]);
      if cmp < 0 {
        hi := mid;
      } else if cmp > 0 {
        lo := mid + 1;
      } else {
        return Some(mid);
      }
    }
    return None;
  }

  /**
   * Appending a missing colour and re-sorting with `qsort`: since the table
   * was sorted, the result is the table with the colour at its place.
   */
  method Insert(colors: seq<nat>, c: nat) returns (r: seq<nat>)
    requires Ascending(colors) && c !in colors
    ensures Ascending(r) && |r| == |colors| + 1
    ensures forall x :: x in r <==> x in colors || x == c
  {
    var pos := 0;
    while pos < |colors| && colors[pos] < c
      invariant 0 <= pos <= |colors|
      invariant forall i :: 0 <= i < pos ==> colors[i] < c
    {
      pos := pos + 1;
    }
    r := colors[..pos] + [c] + colors[pos..];
    assert forall i :: pos <= i < |colors| ==> colors[i] > c by {
      forall i | pos <= i < |colors| ensures colors[i] > c {
        assert colors[i] != c;
        if i > pos {
          assert colors[pos] < colors[i];
        }
      }
    }
    assert forall x :: x in colors <==> x in colors[..pos] || x in colors[pos..] by {
      assert colors == colors[..pos] + colors[pos..];
    }
  }

  /**
   * The discovery loop: the table of distinct pixel colours, ascending, or
   * nothing when a 257th distinct colour shows up (the source's
   * `assert(ncolors < 256)` before an append).
   */
  method Discover(data: seq<Byte>, bpp: nat, npixels: nat) returns (r: Option<seq<nat>>)
    requires |data| == Offset(npixels, bpp)
    ensures r.Some? <==> |PixelColors(data, bpp, npixels)| <= 256
    ensures r.Some? ==> Ascending(r.value) && |r.value| <= 256
    ensures r.Some? ==> forall x :: x in r.value <==> x in PixelColors(data, bpp, npixels)
  {
    var colors: seq<nat> := [];
    for i := 0 to npixels
      invariant Offset(i, bpp) <= |data|
      invariant Ascending(colors) && |colors| <= 256
      invariant forall x :: x in colors <==> x in PixelColors(data, bpp, i)
    {
      OffsetMonotone(i + 1, npixels, bpp);
      var color := Argb(data[Offset(i, bpp)..Offset(i + 1, bpp)], bpp);
      assert color == ColorOf(data, bpp, i);
      assert PixelColors(data, bpp, i + 1) == PixelColors(data, bpp, i) + {color};
      var found := Search(colors, color);
      if found.None? {
        if |colors| == 256 {
          TooManyColors(data, bpp, npixels, i, colors);
          return None;
        }
        colors := Insert(colors, color);
      }
    }
    AscendingCard(colors);
    assert Elems(colors) == PixelColors(data, bpp, npixels);
    return Some(colors);
  }

  /** 256 known colours and a new one among the first `i + 1` pixels make more than 256 in the image. */
  lemma TooManyColors(data: seq<Byte>, bpp: nat, npixels: nat, i: nat, colors: seq<nat>)
    requires i < npixels && |data| == Offset(npixels, bpp) && Offset(i + 1, bpp) <= |data|
    requires Ascending(colors) && |colors| == 256
    requires forall x :: x in colors ==> x in PixelColors(data, bpp, i + 1)
    requires ColorOf(data, bpp, i) !in colors && ColorOf(data, bpp, i) in PixelColors(data, bpp, i + 1)
    ensures |PixelColors(data, bpp, npixels)| > 256
  {
    AscendingCard(colors);
    var c := ColorOf(data, bpp, i);
    var known := Elems(colors) + {c};
    CardAddOne(Elems(colors), c);
    PixelColorsGrow(data, bpp, i + 1, npixels);
    assert known <= PixelColors(data, bpp, i + 1);
    PixelColorsGrow(data, bpp, i + 1, npixels);
    SubsetCard(known, PixelColors(data, bpp, npixels));
  }

  /** Each of `pixels` is the position in `colors` of its pixel's colour. */
  predicate Indexes(data: seq<Byte>, bpp: nat, colors: seq<nat>, pixels: seq<nat>)
  {
    forall i :: 0 <= i < |pixels| ==> pixels[i] < |colors| && Offset(i + 1, bpp) <= |data| && colors[pixels[i]] == ColorOf(data, bpp, i)
  }

  /** In a strictly ascending table equal entries sit at one position. */
  lemma AscendingUnique(colors: seq<nat>, j: nat, k: nat)
    requires Ascending(colors) && j < |colors| && k < |colors| && colors[j] == colors[k]
    ensures j == k
  {
  }

  /** In a strictly ascending table a colour has one position: only one remapping fits. */
  lemma IndexesUnique(data: seq<Byte>, bpp: nat, colors: seq<nat>, p: seq<nat>, q: seq<nat>)
    requires Ascending(colors) && |p| == |q|
    requires Indexes(data, bpp, colors, p) && Indexes(data, bpp, colors, q)
    ensures p == q
  {
    forall i | 0 <= i < |p|
      ensures p[i] == q[i]
    {
      AscendingUnique(colors, p[i], q[i]);
    }
  }

  /**
   * The remapping loop: every pixel becomes the position of its colour in
   * the table, found with `bsearch`.
   */
  method Remap(data: seq<Byte>, bpp: nat, npixels: nat, colors: seq<nat>) returns (pixels: seq<nat>)
    requires |data| == Offset(npixels, bpp) && Ascending(colors)
    requires forall x :: x in colors <==> x in PixelColors(data, bpp, npixels)
    ensures |pixels| == npixels && Indexes(data, bpp, colors, pixels)
  {
    pixels := [];
    for i := 0 to npixels
      invariant |pixels| == i
      invariant Indexes(data, bpp, colors, pixels)
    {
      PixelColorsGrow(data, bpp, i, npixels);
      var color := Argb(data[Offset(i, bpp)..Offset(i + 1, bpp)], bpp);
      assert color == ColorOf(data, bpp, i);
      var found := Search(colors, color);
      pixels := pixels + [found.value];
    }
  }
}

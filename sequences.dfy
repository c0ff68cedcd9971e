/** Sequence facts shared by the modules: first-occurrence deduplication and prefixes. */
module Sequences {

  /** The distinct values of `l` in order of first occurrence. */
  function Dedup(l: seq<int>): seq<int>
  {
    if |l| == 0 then []
    else
      var d := Dedup(l[..|l| - 1]);
      if l[|l| - 1] in d then d else d + [l[|l| - 1]]
  }

  /** Position of the first occurrence of `x` in `l`. */
  function FirstIndex(l: seq<int>, x: int): (i: nat)
    requires x in l
    ensures i < |l| && l[i] == x && x !in l[..i]
  {
    if l[0] == x then 0 else 1 + FirstIndex(l[1..], x)
  }

  lemma {:induction false} FirstIndexAppend(l: seq<int>, y: int, x: int)
    requires x in l
    ensures FirstIndex(l + [y], x) == FirstIndex(l, x)
  {
    if l[0] != x {
      assert (l + [y])[1..] == l[1..] + [y];
      FirstIndexAppend(l[1..], y, x);
    }
  }

  /** Dedup keeps exactly the values of `l`, each once, ordered by first occurrence. */
  lemma {:induction false} DedupProperties(l: seq<int>)
    ensures forall x :: x in Dedup(l) <==> x in l
    ensures forall i, j :: 0 <= i < j < |Dedup(l)| ==> Dedup(l)[i] != Dedup(l)[j]
    ensures forall i, j :: 0 <= i < j < |Dedup(l)| ==>
      FirstIndex(l, Dedup(l)[i]) < FirstIndex(l, Dedup(l)[j])
  {
    if |l| > 0 {
      var p := l[..|l| - 1];
      var y := l[|l| - 1];
      assert l == p + [y];
      DedupProperties(p);
      var d := Dedup(p);
      forall x | x in p
        ensures FirstIndex(l, x) == FirstIndex(p, x)
      {
        FirstIndexAppend(p, y, x);
      }
      if y !in p {
        assert FirstIndex(l, y) == |p|;
      }
    }
  }

  /** A list of distinct values has as many distinct values as entries. */
  lemma {:induction false} DistinctCard(d: seq<int>)
    requires forall i, j :: 0 <= i < j < |d| ==> d[i] != d[j]
    ensures |set x | x in d| == |d|
  {
    if |d| > 0 {
      var p := d[..|d| - 1];
      DistinctCard(p);
      assert (set x | x in d) == (set x | x in p) + {d[|d| - 1]};
    }
  }

  /** The deduplicated list is no longer than the set of values that may occur in `l`. */
  lemma DedupWithin(l: seq<int>, values: set<int>)
    requires forall j :: 0 <= j < |l| ==> l[j] in values
    ensures |Dedup(l)| <= |values|
  {
    DedupProperties(l);
    DistinctCard(Dedup(l));
    var seen := set x | x in Dedup(l);
    assert seen <= values;
    assert values == seen + (values - seen);
  }

  /** Deduplication never lengthens a list. */
  lemma {:induction false} DedupShorter(l: seq<int>)
    ensures |Dedup(l)| <= |l|
  {
    if |l| > 0 {
      DedupShorter(l[..|l| - 1]);
    }
  }

  /** A prefix of a prefix is a prefix. */
  lemma PrefixTrans<T>(a: seq<T>, b: seq<T>, c: seq<T>)
    requires a <= b && b <= c
    ensures a <= c && c[..|a|] == a
  {
    assert a == c[..|a|] by {
      assert b[..|a|] == c[..|b|][..|a|];
    }
  }
}

/**
 * How one slice of raw samples is split over the bins of a frame (`IntegrateBase._integrate`):
 * the cut points inside the slice, the counts and sums they give each bin, and numpy's
 * `add.reduceat`, which the source uses for the sums.
 */
module Segments {
  import opened Sums
  import opened Edges

  /**
   * The cut points of the slice [s, t) relative to its start: every edge clamped to the slice.
   * On the bins the slice touches these are the source's `indices` (the touched edges minus
   * `item.start`, with the first forced to 0 and the last to `item.stop - item.start`).
   */
  function Cuts(e: seq<int>, s: int, t: int): (r: seq<int>)
    requires s <= t
    ensures |r| == |e|
    ensures forall k :: 0 <= k < |e| ==> 0 <= r[k] <= t - s
    ensures NonDecreasing(e) ==> NonDecreasing(r)
  {
    seq(|e|, k requires 0 <= k < |e| => Clamp(e[k], s, t) - s)
  }

  /**
   * A slice inside the frame adds, over all bins, exactly its own length to the counts and
   * exactly its own samples to the sums.
   */
  lemma {:induction false} SliceTotals(e: seq<int>, s: int, data: seq<int>)
    requires |e| >= 1 && NonDecreasing(e) && e[0] <= s && s + |data| <= e[|e| - 1]
    ensures Sum(Widths(Cuts(e, s, s + |data|))) == |data|
    ensures Sum(BinSums(data, Cuts(e, s, s + |data|))) == Sum(data)
  {
    var c := Cuts(e, s, s + |data|);
    WidthsTelescope(c);
    BinSumsTelescope(data, c);
    assert data[c[0]..c[|c| - 1]] == data;
  }

  /** A bin receives a share of the slice exactly when it overlaps it: e[b+1] > s and e[b] < t. */
  lemma UntouchedBins(e: seq<int>, s: int, data: seq<int>, b: nat)
    requires NonDecreasing(e) && b + 1 < |e| && |data| > 0
    ensures var c := Cuts(e, s, s + |data|);
      (c[b + 1] - c[b] > 0 <==> e[b] < e[b + 1] && e[b + 1] > s && e[b] < s + |data|)
    ensures e[b + 1] <= s || e[b] >= s + |data| ==>
      Widths(Cuts(e, s, s + |data|))[b] == 0 && BinSums(data, Cuts(e, s, s + |data|))[b] == 0
  {
  }

  /**
   * The bins the source's two searches select: with `first` the right-sided search of s among
   * the upper edges and `stop` the left-sided search of t among the lower edges, the slice
   * touches bins first..stop-1 (at least one), its cut points there are 0, the interior edges
   * minus s, and t - s, and every other bin gets an empty share.
   */
  lemma TouchedBins(e: seq<int>, s: int, t: int, first: nat, stop: nat)
    requires |e| >= 2 && NonDecreasing(e) && e[0] <= s < t <= e[|e| - 1]
    requires first <= |e| - 1
    requires forall j :: 0 < j <= first ==> e[j] <= s
    requires forall j :: first < j < |e| ==> e[j] > s
    requires stop <= |e| - 1
    requires forall j :: 0 <= j < stop ==> e[j] < t
    requires forall j :: stop <= j < |e| - 1 ==> e[j] >= t
    ensures first < stop
    ensures Cuts(e, s, t)[first] == 0 && Cuts(e, s, t)[stop] == t - s
    ensures forall k :: first < k < stop ==> Cuts(e, s, t)[k] == e[k] - s
    ensures forall b :: 0 <= b < |e| - 1 && (b < first || b >= stop) ==> Cuts(e, s, t)[b] == Cuts(e, s, t)[b + 1]
    ensures SliceIndices(e, s, t, first, stop) == Cuts(e, s, t)[first..stop + 1]
  {
    var n := |e| - 1;
    assert e[n] > s;
    assert e[first] <= s by {
      if first > 0 {
        assert e[first] <= s;
      }
    }
    assert e[first] < t;
    assert e[stop] >= t by {
      if stop < n {
        assert e[stop] >= t;
      }
    }
    forall k | first < k < stop
      ensures Cuts(e, s, t)[k] == e[k] - s
    {
      assert s < e[k] < t;
    }
    forall b | 0 <= b < n && (b < first || b >= stop)
      ensures Cuts(e, s, t)[b] == Cuts(e, s, t)[b + 1]
    {
      if b < first {
        assert e[b + 1] <= s;
      } else {
        assert e[b] >= t;
      }
    }
  }

  /**
   * The source's `indices` for the touched bins first..stop-1: the touched edges minus s, with
   * the first forced to 0 and the last to t - s.
   */
  function SliceIndices(e: seq<int>, s: int, t: int, first: nat, stop: nat): (r: seq<int>)
    requires first < stop < |e|
    ensures |r| == stop - first + 1 && r[0] == 0 && r[stop - first] == t - s
  {
    seq(stop - first + 1, k requires 0 <= k <= stop - first =>
      if k == 0 then 0 else if k == stop - first then t - s else e[first + k] - s)
  }

  /**
   * With `first` and `stop` as numpy's searches return them, the counts and sums the source
   * computes from `indices` for bins first..stop-1, and nothing for the others, are exactly each
   * bin's share of the slice.
   */
  lemma SearchedBins(e: seq<int>, n: nat, s: int, t: int, data: seq<int>, first: nat, stop: nat)
    requires |e| == n + 1 && n >= 1 && NonDecreasing(e) && e[0] <= s < t <= e[n] && |data| == t - s
    requires first <= n
    requires forall j :: 0 <= j < first ==> Precedes(e[1..][j], s, true)
    requires forall j :: first <= j < n ==> !Precedes(e[1..][j], s, true)
    requires stop <= n
    requires forall j :: 0 <= j < stop ==> Precedes(e[..n][j], t, false)
    requires forall j :: stop <= j < n ==> !Precedes(e[..n][j], t, false)
    ensures first < stop
    ensures NonDecreasing(SliceIndices(e, s, t, first, stop))
    ensures forall b :: 0 <= b < |e| - 1 ==>
      Widths(Cuts(e, s, t))[b] == if first <= b < stop then Widths(SliceIndices(e, s, t, first, stop))[b - first] else 0
    ensures forall b :: 0 <= b < |e| - 1 ==>
      BinSums(data, Cuts(e, s, t))[b]
        == if first <= b < stop then BinSums(data, SliceIndices(e, s, t, first, stop))[b - first] else 0
  {
    forall j | 0 < j <= first
      ensures e[j] <= s
    {
      assert e[1..][j - 1] == e[j];
    }
    forall j | first < j <= n
      ensures e[j] > s
    {
      assert e[1..][j - 1] == e[j];
    }
    forall j | 0 <= j < stop
      ensures e[j] < t
    {
      assert e[..n][j] == e[j];
    }
    forall j | stop <= j < n
      ensures e[j] >= t
    {
      assert e[..n][j] == e[j];
    }
    TouchedBins(e, s, t, first, stop);
    SliceShares(e, s, t, data, first, stop);
  }

  /** The shares of the touched bins come from `indices`; every other bin's share is empty. */
  lemma SliceShares(e: seq<int>, s: int, t: int, data: seq<int>, first: nat, stop: nat)
    requires NonDecreasing(e) && s < t && |data| == t - s && first < stop < |e|
    requires SliceIndices(e, s, t, first, stop) == Cuts(e, s, t)[first..stop + 1]
    requires forall b :: 0 <= b < |e| - 1 && (b < first || b >= stop) ==> Cuts(e, s, t)[b] == Cuts(e, s, t)[b + 1]
    ensures NonDecreasing(SliceIndices(e, s, t, first, stop))
    ensures forall b :: 0 <= b < |e| - 1 ==>
      Widths(Cuts(e, s, t))[b] == if first <= b < stop then Widths(SliceIndices(e, s, t, first, stop))[b - first] else 0
    ensures forall b :: 0 <= b < |e| - 1 ==>
      BinSums(data, Cuts(e, s, t))[b]
        == if first <= b < stop then BinSums(data, SliceIndices(e, s, t, first, stop))[b - first] else 0
  {
    var c := Cuts(e, s, t);
    var idx := SliceIndices(e, s, t, first, stop);
    assert NonDecreasing(idx) by {
      forall i, j | 0 <= i <= j < |idx|
        ensures idx[i] <= idx[j]
      {
        assert idx[i] == c[first + i] && idx[j] == c[first + j];
      }
    }
    forall b | 0 <= b < |e| - 1
      ensures Widths(c)[b] == if first <= b < stop then Widths(idx)[b - first] else 0
      ensures BinSums(data, c)[b] == if first <= b < stop then BinSums(data, idx)[b - first] else 0
    {
      ShareAt(c, idx, data, first, b);
    }
  }

  /** Bin b of a slice's cut points, read through a window `idx` of them starting at `first`. */
  lemma ShareAt(c: seq<int>, idx: seq<int>, data: seq<int>, first: nat, b: nat)
    requires |c| >= 1 && NonDecreasing(c) && 0 <= c[0] && c[|c| - 1] <= |data|
    requires |idx| >= 1 && NonDecreasing(idx) && 0 <= idx[0] && idx[|idx| - 1] <= |data|
    requires first + |idx| <= |c| && idx == c[first..first + |idx|] && b + 1 < |c|
    requires !(first <= b < first + |idx| - 1) ==> c[b] == c[b + 1]
    ensures Widths(c)[b] == if first <= b < first + |idx| - 1 then Widths(idx)[b - first] else 0
    ensures BinSums(data, c)[b] == if first <= b < first + |idx| - 1 then BinSums(data, idx)[b - first] else 0
  {
    if first <= b < first + |idx| - 1 {
      assert idx[b - first] == c[b] && idx[b - first + 1] == c[b + 1];
    }
  }

  /** One bin [lo, hi): its share of 0..d plus its share of d..d2 is its share of 0..d2. */
  lemma ShareExtends(x: seq<int>, lo: int, hi: int, d: int, d2: int)
    requires 0 <= lo <= hi && 0 <= d <= d2 <= |x|
    ensures (Clamp(hi, 0, d) - Clamp(lo, 0, d)) + (Clamp(hi, d, d2) - Clamp(lo, d, d2))
         == Clamp(hi, 0, d2) - Clamp(lo, 0, d2)
    ensures Sum(x[..d][Clamp(lo, 0, d)..Clamp(hi, 0, d)])
          + Sum(x[d..d2][Clamp(lo, d, d2) - d..Clamp(hi, d, d2) - d])
         == Sum(x[..d2][Clamp(lo, 0, d2)..Clamp(hi, 0, d2)])
  {
    var a1, b1 := Clamp(lo, 0, d), Clamp(hi, 0, d);
    var a2, b2 := Clamp(lo, d, d2), Clamp(hi, d, d2);
    var a3, b3 := Clamp(lo, 0, d2), Clamp(hi, 0, d2);
    SubSlice(x, 0, d, a1, b1);
    SubSlice(x, d, d2, a2 - d, b2 - d);
    SubSlice(x, 0, d2, a3, b3);
    if b3 <= d {
      assert a1 == a3 && b1 == b3 && a2 == d && b2 == d;
    } else if a3 >= d {
      assert a1 == d && b1 == d && a2 == a3 && b2 == b3;
    } else {
      assert a1 == a3 && b1 == d && a2 == d && b2 == b3;
      SumSplit(x, a3, d, b3);
    }
  }

  /**
   * Reading the frame's samples 0..d2 in two goes, first 0..d and then d..d2, leaves every bin
   * with the count and sum it gets from reading 0..d2 at once.
   */
  lemma PrefixExtends(x: seq<int>, e: seq<int>, b: nat, d: int, d2: int)
    requires NonDecreasing(e) && b + 1 < |e| && 0 <= e[0]
    requires 0 <= d <= d2 <= |x|
    ensures Widths(Cuts(e, 0, d))[b] + Widths(Cuts(e, d, d2))[b] == Widths(Cuts(e, 0, d2))[b]
    ensures BinSums(x[..d], Cuts(e, 0, d))[b] + BinSums(x[d..d2], Cuts(e, d, d2))[b]
         == BinSums(x[..d2], Cuts(e, 0, d2))[b]
  {
    ShareExtends(x, e[b], e[b + 1], d, d2);
  }

  /** Each bin's count after the first d raw samples of a frame with edges e have been integrated. */
  function ReadCounts(e: seq<int>, d: nat): (r: seq<int>)
    requires |e| >= 1
    ensures |r| == |e| - 1
  {
    Widths(Cuts(e, 0, d))
  }

  /** Each bin's sum after the first d raw samples x[..d] of a frame have been integrated. */
  function ReadSums(x: seq<int>, e: seq<int>, d: nat): (r: seq<int>)
    requires |e| >= 1 && NonDecreasing(e) && d <= |x|
    ensures |r| == |e| - 1
  {
    BinSums(x[..d], Cuts(e, 0, d))
  }

  /** Nothing has been added before the first sample is read. */
  lemma ReadNothing(x: seq<int>, e: seq<int>)
    requires |e| >= 1 && NonDecreasing(e)
    ensures forall b :: 0 <= b < |e| - 1 ==> ReadCounts(e, 0)[b] == 0 && ReadSums(x, e, 0)[b] == 0
  {
  }

  /**
   * Integrating the slice d..d2 on top of the counts c0 and sums r0 of the first d samples
   * gives the counts c1 and sums r1 of the first d2 samples.
   */
  lemma ReadExtends(x: seq<int>, e: seq<int>, d: nat, d2: nat, c0: seq<int>, c1: seq<int>, r0: seq<int>, r1: seq<int>)
    requires |e| >= 1 && NonDecreasing(e) && 0 <= e[0] && d <= d2 <= |x|
    requires c0 == ReadCounts(e, d) && r0 == ReadSums(x, e, d) && |c1| == |r1| == |e| - 1
    requires forall b :: 0 <= b < |c1| ==> c1[b] == c0[b] + Widths(Cuts(e, d, d2))[b]
    requires forall b :: 0 <= b < |r1| ==> r1[b] == r0[b] + BinSums(x[d..d2], Cuts(e, d, d2))[b]
    ensures c1 == ReadCounts(e, d2) && r1 == ReadSums(x, e, d2)
  {
    forall b | 0 <= b < |e| - 1
      ensures c1[b] == ReadCounts(e, d2)[b] && r1[b] == ReadSums(x, e, d2)[b]
    {
      PrefixExtends(x, e, b, d, d2);
    }
  }

  /** Once all of a frame's samples x have been read, each bin holds its width and its total. */
  lemma ReadComplete(x: seq<int>, e: seq<int>)
    requires |e| >= 1 && NonDecreasing(e) && e[0] == 0 && e[|e| - 1] == |x|
    ensures ReadCounts(e, |x|) == Widths(e)
    ensures ReadSums(x, e, |x|) == BinSums(x, e)
  {
    WholeFrameCuts(e);
    assert x[..|x|] == x;
  }

  /** Bin b of a frame read from the edges e[0]..e[last] of s: its width and the total of s between its edges. */
  lemma FrameBin(s: seq<int>, e: seq<int>, b: nat)
    requires |e| >= 1 && NonDecreasing(e) && 0 <= e[0] && e[|e| - 1] <= |s| && b + 1 < |e|
    ensures Widths(Rebase(e))[b] == e[b + 1] - e[b]
    ensures NonDecreasing(Rebase(e))
    ensures BinSums(s[e[0]..e[|e| - 1]], Rebase(e))[b] == Sum(s[e[b]..e[b + 1]])
  {
    var r := Rebase(e);
    var n := |e| - 1;
    RebaseSorted(e);
    var x := s[e[0]..e[n]];
    assert r[b] <= r[b + 1] && r[n] == e[n] - e[0];
    SubSlice(s, e[0], e[n], r[b], r[b + 1]);
    calc {
      BinSums(s[e[0]..e[|e| - 1]], Rebase(e))[b];
      BinSums(x, r)[b];
      Sum(x[r[b]..r[b + 1]]);
      { assert x[r[b]..r[b + 1]] == s[e[b]..e[b + 1]]; }
      Sum(s[e[b]..e[b + 1]]);
    }
  }

  /** Once the whole frame 0..e[last] has been read, the cut points are the edges themselves. */
  lemma WholeFrameCuts(e: seq<int>)
    requires |e| >= 1 && NonDecreasing(e) && e[0] == 0
    ensures Cuts(e, 0, e[|e| - 1]) == e
  {
  }

  /**
   * numpy.add.reduceat(data, idx) as called at integration.py:126: each entry sums from its index
   * up to the next one (the last up to the end), except that an index not below the next one
   * yields the single sample data[idx[i]].
   */
  function ReduceAt(data: seq<int>, idx: seq<int>): (r: seq<int>)
    requires forall i :: 0 <= i < |idx| ==> 0 <= idx[i] < |data|
    ensures |r| == |idx|
  {
    seq(|idx|, i requires 0 <= i < |idx| =>
      if i + 1 < |idx| then
        if idx[i] < idx[i + 1] then Sum(data[idx[i]..idx[i + 1]]) else data[idx[i]]
      else Sum(data[idx[i]..]))
  }

  /** On strictly increasing cut points reduceat computes the per-bin sums. */
  lemma ReduceAtOnStrictCuts(data: seq<int>, c: seq<int>)
    requires |c| >= 2 && c[0] == 0 && c[|c| - 1] == |data|
    requires forall i, j :: 0 <= i < j < |c| ==> c[i] < c[j]
    ensures NonDecreasing(c)
    ensures ReduceAt(data, c[..|c| - 1]) == BinSums(data, c)
  {
    var r := ReduceAt(data, c[..|c| - 1]);
    forall i | 0 <= i < |c| - 1 ensures r[i] == BinSums(data, c)[i] {
      if i + 1 == |c| - 1 {
        assert data[c[i]..] == data[c[i]..c[i + 1]];
      }
    }
  }

  /**
   * The zero-width bin [1, 1) inside a slice [0, 2) of two samples: its cut points are 0, 1, 1, 2.
   * As written reduceat gives that bin the slice's second sample although its count is 0, so
   * the slice's sums add up to more than the slice whenever that sample is not 0 (19 instead of
   * 12 for samples 5, 7); the per-bin sums give the bin 0 and add up to the slice.
   */
  lemma ReduceAtZeroWidthBin(d: seq<int>)
    requires |d| == 2
    ensures Cuts([0, 1, 1, 2], 0, 2) == [0, 1, 1, 2] && Widths([0, 1, 1, 2]) == [1, 0, 1]
    ensures ReduceAt(d, [0, 1, 1]) == [d[0], d[1], d[1]]
    ensures Sum(ReduceAt(d, [0, 1, 1])) == Sum(d) + d[1]
    ensures BinSums(d, [0, 1, 1, 2]) == [d[0], 0, d[1]]
    ensures Sum(BinSums(d, [0, 1, 1, 2])) == Sum(d)
  {
    ZeroWidthCuts();
    ReduceAtOfTwo(d);
    BinSumsOfTwo(d);
    SumOfTwo(d);
    SumOfThree(d[0], d[1], d[1]);
    SumOfThree(d[0], 0, d[1]);
  }

  lemma ZeroWidthCuts()
    ensures Cuts([0, 1, 1, 2], 0, 2) == [0, 1, 1, 2] && Widths([0, 1, 1, 2]) == [1, 0, 1]
  {
  }

  lemma ReduceAtOfTwo(d: seq<int>)
    requires |d| == 2
    ensures ReduceAt(d, [0, 1, 1]) == [d[0], d[1], d[1]]
  {
    assert d[0..1] == [d[0]] && d[1..] == [d[1]];
    SumOfTwo(d);
  }

  lemma BinSumsOfTwo(d: seq<int>)
    requires |d| == 2
    ensures BinSums(d, [0, 1, 1, 2]) == [d[0], 0, d[1]]
  {
    assert d[0..1] == [d[0]] && d[1..1] == [] && d[1..2] == [d[1]];
    SumOfTwo(d);
  }

  lemma SumOfOne(a: int)
    ensures Sum([a]) == a
  {
    assert [a][..0] == [];
  }

  lemma SumOfTwo(d: seq<int>)
    requires |d| == 2
    ensures Sum(d) == d[0] + d[1] && Sum([d[0]]) == d[0] && Sum([d[1]]) == d[1]
  {
    assert d[..1] == [d[0]];
    SumOfOne(d[0]);
    SumOfOne(d[1]);
  }

  lemma SumOfThree(a: int, b: int, c: int)
    ensures Sum([a, b, c]) == a + b + c
  {
    assert [a, b, c][..2] == [a, b] && [a, b][..1] == [a];
    SumOfOne(a);
  }
}

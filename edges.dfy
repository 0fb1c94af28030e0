/**
 * Bin edges: the positions in the underlying stream that bound the output samples of a frame,
 * the fixed-rate offset map that produces them, and numpy's `searchsorted` over them.
 */
module Edges {
  import opened Rounding
  import opened Sums

  predicate NonDecreasing(e: seq<int>)
  {
    forall i, j :: 0 <= i <= j < |e| ==> e[i] <= e[j]
  }

  /** Raw offset of output sample i when every output sample spans `ratio` raw samples. */
  function FixedOffset(i: int, ratio: real): int
  {
    RoundHalfEven(i as real * ratio)
  }

  function FixedOffsets(samples: seq<int>, ratio: real): (r: seq<int>)
    ensures |r| == |samples|
  {
    seq(|samples|, k requires 0 <= k < |samples| => FixedOffset(samples[k], ratio))
  }

  /** The output-sample indices whose offsets bound the bins of one frame. */
  function FrameSamples(frameIndex: int, samplesPerFrame: nat): (r: seq<int>)
    ensures |r| == samplesPerFrame + 1
  {
    seq(samplesPerFrame + 1, j => frameIndex * samplesPerFrame + j)
  }

  /** The edges shifted so that the first one is 0; every bin keeps its width. */
  function Rebase(e: seq<int>): (r: seq<int>)
    requires |e| > 0
    ensures |r| == |e| && r[0] == 0
    ensures forall k :: 0 <= k < |e| ==> e[0] + r[k] == e[k]
  {
    seq(|e|, k requires 0 <= k < |e| => e[k] - e[0])
  }

  /** Rebasing keeps the order of the edges, both ways. */
  lemma RebaseSorted(e: seq<int>)
    requires |e| > 0
    ensures NonDecreasing(Rebase(e)) <==> NonDecreasing(e)
  {
    var r := Rebase(e);
    if NonDecreasing(e) {
      forall i, j | 0 <= i <= j < |r|
        ensures r[i] <= r[j]
      {
        assert e[0] + r[i] == e[i] && e[0] + r[j] == e[j];
      }
    }
    if NonDecreasing(r) {
      forall i, j | 0 <= i <= j < |e|
        ensures e[i] <= e[j]
      {
        assert r[i] <= r[j];
      }
    }
  }

  lemma FixedOffsetZero(ratio: real)
    ensures FixedOffset(0, ratio) == 0
  {
    RoundOfInteger(0);
  }

  lemma ScaleMonotone(a: real, b: real, c: real)
    requires a <= b && c >= 0.0
    ensures a * c <= b * c
  {
    assert b * c - a * c == (b - a) * c;
  }

  lemma DivisionUndone(a: real, b: real)
    requires b > 0.0
    ensures (a / b) * b == a
  {
  }

  lemma FixedOffsetMonotone(i: int, j: int, ratio: real)
    requires i <= j && ratio >= 0.0
    ensures FixedOffset(i, ratio) <= FixedOffset(j, ratio)
  {
    assert i as real * ratio <= j as real * ratio by {
      assert j as real * ratio - i as real * ratio == (j - i) as real * ratio;
    }
    RoundMonotone(i as real * ratio, j as real * ratio);
  }

  /** With an integer step of n raw samples the offset of output sample i is exactly i * n. */
  lemma IntegerStepOffset(i: int, n: int)
    ensures FixedOffset(i, n as real) == i * n
  {
    assert i as real * n as real == (i * n) as real;
    RoundOfInteger(i * n);
  }

  lemma FrameEdgesSorted(frameIndex: int, samplesPerFrame: nat, ratio: real)
    requires ratio >= 0.0
    ensures NonDecreasing(FixedOffsets(FrameSamples(frameIndex, samplesPerFrame), ratio))
  {
    var s := FrameSamples(frameIndex, samplesPerFrame);
    forall i, j | 0 <= i <= j < |s|
      ensures FixedOffsets(s, ratio)[i] <= FixedOffsets(s, ratio)[j]
    {
      FixedOffsetMonotone(s[i], s[j], ratio);
    }
  }

  /**
   * For a stream of `length` raw samples the output has floor(length / ratio) samples, and the
   * edge of every one of them, the last included, lies inside the stream.
   */
  lemma EdgesWithinStream(length: nat, ratio: real, i: int)
    requires ratio > 0.0 && 0 <= i <= (length as real / ratio).Floor
    ensures 0 <= FixedOffset(i, ratio) <= length
  {
    FixedOffsetMonotone(0, i, ratio);
    FixedOffsetZero(ratio);
    var q := length as real / ratio;
    DivisionUndone(length as real, ratio);
    assert i as real <= q;
    ScaleMonotone(i as real, q, ratio);
    assert i as real * ratio <= length as real;
    RoundMonotone(i as real * ratio, length as real);
    RoundOfInteger(length);
  }

  /** numpy's side rule: 'right' places x after equal entries, 'left' before them. */
  predicate Precedes(a: int, x: int, right: bool)
  {
    if right then a <= x else a < x
  }

  /** numpy.searchsorted on a sorted sequence, by bisection. */
  method SearchSorted(e: seq<int>, x: int, right: bool) returns (k: nat)
    requires NonDecreasing(e)
    ensures k <= |e|
    ensures forall j :: 0 <= j < k ==> Precedes(e[j], x, right)
    ensures forall j :: k <= j < |e| ==> !Precedes(e[j], x, right)
  {
    var lo, hi := 0, |e|;
    while lo < hi
      invariant 0 <= lo <= hi <= |e|
      invariant forall j :: 0 <= j < lo ==> Precedes(e[j], x, right)
      invariant forall j :: hi <= j < |e| ==> !Precedes(e[j], x, right)
    {
      var mid := (lo + hi) / 2;
      if Precedes(e[mid], x, right) {
        lo := mid + 1;
      } else {
        hi := mid;
      }
    }
    k := lo;
  }

  function Widths(e: seq<int>): (r: seq<int>)
    requires |e| >= 1
    ensures |r| == |e| - 1
  {
    seq(|e| - 1, b requires 0 <= b < |e| - 1 => e[b + 1] - e[b])
  }

  /** The widths of consecutive bins add up to the distance from the first edge to the last. */
  lemma {:induction false} WidthsTelescope(e: seq<int>)
    requires |e| >= 1
    ensures Sum(Widths(e)) == e[|e| - 1] - e[0]
  {
    if |e| > 1 {
      var f := e[..|e| - 1];
      WidthsTelescope(f);
      assert Widths(e)[..|e| - 2] == Widths(f);
    }
  }

  /** The sum of the raw samples in each bin of `e`, for raw samples `x`. */
  function BinSums(x: seq<int>, e: seq<int>): (r: seq<int>)
    requires |e| >= 1 && NonDecreasing(e) && 0 <= e[0] && e[|e| - 1] <= |x|
    ensures |r| == |e| - 1
  {
    seq(|e| - 1, b requires 0 <= b < |e| - 1 => Sum(x[e[b]..e[b + 1]]))
  }

  /** Every raw sample between the first and last edge is counted in exactly one bin's sum. */
  lemma {:induction false} BinSumsTelescope(x: seq<int>, e: seq<int>)
    requires |e| >= 1 && NonDecreasing(e) && 0 <= e[0] && e[|e| - 1] <= |x|
    ensures Sum(BinSums(x, e)) == Sum(x[e[0]..e[|e| - 1]])
  {
    if |e| > 1 {
      var f := e[..|e| - 1];
      BinSumsTelescope(x, f);
      assert BinSums(x, e)[..|e| - 2] == BinSums(x, f);
      SumSplit(x, e[0], e[|e| - 2], e[|e| - 1]);
    }
  }
}

/** Sums over sequences of sample values, and clamping of positions to an interval. */
module Sums {

  function Sum(s: seq<int>): int
  {
    if |s| == 0 then 0 else Sum(s[..|s| - 1]) + s[|s| - 1]
  }

  lemma {:induction false} SumConcat(a: seq<int>, b: seq<int>)
    ensures Sum(a + b) == Sum(a) + Sum(b)
  {
    if |b| == 0 {
      assert a + b == a;
    } else {
      SumConcat(a, b[..|b| - 1]);
      assert (a + b)[..|a + b| - 1] == a + b[..|b| - 1];
    }
  }

  /** Summing two adjacent stretches is summing their union. */
  lemma SumSplit(s: seq<int>, i: int, j: int, k: int)
    requires 0 <= i <= j <= k <= |s|
    ensures Sum(s[i..j]) + Sum(s[j..k]) == Sum(s[i..k])
  {
    assert s[i..k] == s[i..j] + s[j..k];
    SumConcat(s[i..j], s[j..k]);
  }

  /** x moved into [lo, hi]. */
  function Clamp(x: int, lo: int, hi: int): (r: int)
    requires lo <= hi
    ensures lo <= r <= hi
    ensures lo <= x <= hi ==> r == x
  {
    if x < lo then lo else if x > hi then hi else x
  }

  /** A slice of a slice is a slice of the whole. */
  lemma SubSlice(s: seq<int>, i: int, j: int, a: int, b: int)
    requires 0 <= i <= j <= |s| && 0 <= a <= b <= j - i
    ensures s[i..j][a..b] == s[i + a..i + b]
  {
    var l, r := s[i..j][a..b], s[i + a..i + b];
    assert |l| == |r|;
    forall k | 0 <= k < |l|
      ensures l[k] == r[k]
    {
      assert l[k] == s[i..j][a + k] == s[i + a + k];
    }
  }
}

/**
 * The cell arithmetic of `Fold`: which time sub-bin and which phase bin a raw sample of a frame
 * falls in, and the per-cell counts and sums that folding accumulates.
 */
module FoldCells {
  import opened Sums
  import opened Edges

  /** The fractional part of a real. */
  function Frac(z: real): (f: real)
    ensures 0.0 <= f < 1.0
  {
    z - z.Floor as real
  }

  lemma ScaleFraction(n: nat, f: real)
    requires n > 0 && 0.0 <= f < 1.0
    ensures 0.0 <= Scale(n, f) < n as real
  {
    assert n as real - (n as real) * f == (n as real) * (1.0 - f);
  }

  function Scale(n: nat, f: real): real
  {
    (n as real) * f
  }

  /** Python's `x % n` on a float with a positive integer modulus: n times the fraction of x/n. */
  function FloorMod(x: real, n: nat): (r: real)
    requires n > 0
    ensures 0.0 <= r < n as real
  {
    ScaleFraction(n, Frac(x / n as real));
    Scale(n, Frac(x / n as real))
  }

  /** The phase bin of a phase in cycles: `((cycles * n) % n).astype(int)`. */
  function PhaseIndex(cycles: real, n: nat): (p: int)
    requires n > 0
    ensures 0 <= p < n
  {
    FloorMod(cycles * n as real, n).Floor
  }

  lemma FoldCancels(c: real, n: nat)
    requires n > 0
    ensures FloorMod(c * n as real, n) == Scale(n, Frac(c))
  {
    assert (c * n as real) / n as real == c;
  }

  /** The phase bin depends only on the fractional part of the phase: bin p holds [p/n, (p+1)/n). */
  lemma PhaseIndexOfFraction(cycles: real, n: nat)
    requires n > 0
    ensures PhaseIndex(cycles, n) == Scale(n, Frac(cycles)).Floor
  {
    FoldCancels(cycles, n);
  }

  /** A whole cycle later a sample falls in the same phase bin. */
  lemma PhaseIndexPeriodic(cycles: real, n: nat)
    requires n > 0
    ensures PhaseIndex(cycles + 1.0, n) == PhaseIndex(cycles, n)
  {
    PhaseIndexOfFraction(cycles, n);
    PhaseIndexOfFraction(cycles + 1.0, n);
    assert (cycles + 1.0).Floor == cycles.Floor + 1;
  }

  /** How many entries of u come before x under numpy's side rule: `searchsorted` as a count. */
  function Preceding(u: seq<int>, x: int, right: bool): (r: nat)
    ensures r <= |u|
  {
    if |u| == 0 then 0
    else Preceding(u[..|u| - 1], x, right) + (if Precedes(u[|u| - 1], x, right) then 1 else 0)
  }

  /** In a sorted sequence the preceding entries are exactly the first `Preceding` ones. */
  lemma {:induction false} PrecedingSplits(u: seq<int>, x: int, right: bool)
    requires NonDecreasing(u)
    ensures forall j :: 0 <= j < Preceding(u, x, right) ==> Precedes(u[j], x, right)
    ensures forall j :: Preceding(u, x, right) <= j < |u| ==> !Precedes(u[j], x, right)
  {
    if |u| > 0 {
      var v := u[..|u| - 1];
      assert NonDecreasing(v);
      PrecedingSplits(v, x, right);
      if Precedes(u[|u| - 1], x, right) {
        forall j | 0 <= j < |v|
          ensures Precedes(u[j], x, right)
        {
          assert u[j] <= u[|u| - 1];
        }
      }
    }
  }

  /** The bisection of `SearchSorted` and the count agree. */
  lemma SearchIsPreceding(u: seq<int>, x: int, right: bool, k: nat)
    requires NonDecreasing(u) && k <= |u|
    requires forall j :: 0 <= j < k ==> Precedes(u[j], x, right)
    requires forall j :: k <= j < |u| ==> !Precedes(u[j], x, right)
    ensures Preceding(u, x, right) == k
  {
    PrecedingSplits(u, x, right);
    var c := Preceding(u, x, right);
    if k < |u| {
      assert !Precedes(u[k], x, right);
    }
    if c < |u| {
      assert !Precedes(u[c], x, right);
    }
  }

  /**
   * The time sub-bin `np.searchsorted(offsets[1:], k, side)` of raw sample k of a frame with
   * edges e. The source calls it with numpy's default side, 'left'.
   */
  function SubBin(e: seq<int>, k: int, right: bool): (b: nat)
    requires |e| >= 1
    ensures b <= |e| - 1
  {
    Preceding(e[1..], k, right)
  }

  /** With side 'right' a raw sample lands in the sub-bin whose edges bracket it: [e[b], e[b+1]). */
  lemma SubBinContains(e: seq<int>, k: int)
    requires |e| >= 2 && NonDecreasing(e) && e[0] <= k < e[|e| - 1]
    ensures SubBin(e, k, true) < |e| - 1
    ensures e[SubBin(e, k, true)] <= k < e[SubBin(e, k, true) + 1]
  {
    var u := e[1..];
    assert NonDecreasing(u);
    PrecedingSplits(u, k, true);
    var b := SubBin(e, k, true);
    assert u[|u| - 1] == e[|e| - 1];
    assert b < |u|;
    assert e[b + 1] == u[b];
    if b > 0 {
      assert e[b] == u[b - 1];
    }
  }

  /** ... and in no other: the bracketing sub-bin is the one side 'right' finds. */
  lemma SubBinUnique(e: seq<int>, k: int, b: int)
    requires NonDecreasing(e) && 0 <= b < |e| - 1 && e[b] <= k < e[b + 1]
    ensures SubBin(e, k, true) == b
  {
    var u := e[1..];
    assert NonDecreasing(u);
    forall j | 0 <= j < b
      ensures Precedes(u[j], k, true)
    {
      assert u[j] == e[j + 1] && e[j + 1] <= e[b];
    }
    forall j | b <= j < |u|
      ensures !Precedes(u[j], k, true)
    {
      assert u[j] == e[j + 1] && e[b + 1] <= e[j + 1];
    }
    SearchIsPreceding(u, k, true, b);
  }

  /**
   * With side 'left' (as written) a raw sample on an inner edge e[b+1] lands in sub-bin b, the
   * bin that ends there; with side 'right' it lands in b + 1, the bin that starts there.
   */
  lemma SubBinOnEdge(e: seq<int>, b: nat)
    requires NonDecreasing(e) && b + 2 < |e| && e[b] < e[b + 1] < e[b + 2]
    ensures SubBin(e, e[b + 1], false) == b
    ensures SubBin(e, e[b + 1], true) == b + 1
  {
    var u, k := e[1..], e[b + 1];
    assert NonDecreasing(u);
    forall j | 0 <= j < b
      ensures Precedes(u[j], k, false)
    {
      assert u[j] == e[j + 1] && e[j + 1] <= e[b];
    }
    forall j | b <= j < |u|
      ensures !Precedes(u[j], k, false)
    {
      assert u[j] == e[j + 1] && e[b + 1] <= e[j + 1];
    }
    SearchIsPreceding(u, k, false, b);
    SubBinUnique(e, k, b + 1);
  }

  /** With one sub-bin per frame every sample of the frame is in sub-bin 0 under either side. */
  lemma SingleSubBin(e: seq<int>, k: int, right: bool)
    requires |e| == 2 && k < e[1]
    ensures SubBin(e, k, right) == 0
  {
    assert e[1..] == [e[1]];
    assert [e[1]][..0] == [];
  }

  /** A cell of the folded frame: a time sub-bin and a phase bin. */
  datatype Cell = Cell(sub: int, phase: int)

  /** How many samples land in cell c (`np.add.at(count, ..., 1)`). */
  function CellCount(cells: seq<Cell>, c: Cell): (r: nat)
    ensures r <= |cells|
  {
    if |cells| == 0 then 0
    else CellCount(cells[..|cells| - 1], c) + (if cells[|cells| - 1] == c then 1 else 0)
  }

  /** The total of the samples that land in cell c (`np.add.at(result, ..., raw)`). */
  function CellSum(cells: seq<Cell>, data: seq<int>, c: Cell): int
    requires |data| == |cells|
  {
    if |cells| == 0 then 0
    else CellSum(cells[..|cells| - 1], data[..|data| - 1], c) + (if cells[|cells| - 1] == c then data[|data| - 1] else 0)
  }

  /** One more sample adds to its own cell and to no other. */
  lemma CellAppend(cells: seq<Cell>, data: seq<int>, last: Cell, v: int)
    requires |data| == |cells|
    ensures forall c :: CellCount(cells + [last], c) == CellCount(cells, c) + (if last == c then 1 else 0)
    ensures forall c :: CellSum(cells + [last], data + [v], c) == CellSum(cells, data, c) + (if last == c then v else 0)
  {
    assert (cells + [last])[..|cells|] == cells;
    assert (data + [v])[..|data|] == data;
  }

  /** Folding two stretches one after the other adds their cell counts and sums. */
  lemma {:induction false} CellsConcat(a: seq<Cell>, b: seq<Cell>, da: seq<int>, db: seq<int>, c: Cell)
    requires |da| == |a| && |db| == |b|
    ensures CellCount(a + b, c) == CellCount(a, c) + CellCount(b, c)
    ensures CellSum(a + b, da + db, c) == CellSum(a, da, c) + CellSum(b, db, c)
  {
    if |b| == 0 {
      assert a + b == a && da + db == da;
    } else {
      CellsConcat(a, b[..|b| - 1], da, db[..|db| - 1], c);
      assert (a + b)[..|a + b| - 1] == a + b[..|b| - 1];
      assert (da + db)[..|da + db| - 1] == da + db[..|db| - 1];
    }
  }

  /** How many samples land in time sub-bin `sub`, whatever their phase. */
  function SubCount(cells: seq<Cell>, sub: int): (r: nat)
    ensures r <= |cells|
  {
    if |cells| == 0 then 0
    else SubCount(cells[..|cells| - 1], sub) + (if cells[|cells| - 1].sub == sub then 1 else 0)
  }

  function SubSum(cells: seq<Cell>, data: seq<int>, sub: int): int
    requires |data| == |cells|
  {
    if |cells| == 0 then 0
    else SubSum(cells[..|cells| - 1], data[..|data| - 1], sub) + (if cells[|cells| - 1].sub == sub then data[|data| - 1] else 0)
  }

  /** The counts of the first n phase bins of row `sub`, added up. */
  function RowCount(cells: seq<Cell>, sub: int, n: nat): nat
  {
    if n == 0 then 0 else RowCount(cells, sub, n - 1) + CellCount(cells, Cell(sub, n - 1))
  }

  function RowSum(cells: seq<Cell>, data: seq<int>, sub: int, n: nat): int
    requires |data| == |cells|
  {
    if n == 0 then 0 else RowSum(cells, data, sub, n - 1) + CellSum(cells, data, Cell(sub, n - 1))
  }

  /** One more sample adds to exactly one phase bin of its row. */
  lemma {:induction false} RowAppend(cells: seq<Cell>, data: seq<int>, sub: int, n: nat, last: Cell, v: int)
    requires |data| == |cells|
    ensures RowCount(cells + [last], sub, n)
         == RowCount(cells, sub, n) + (if last.sub == sub && 0 <= last.phase < n then 1 else 0)
    ensures RowSum(cells + [last], data + [v], sub, n)
         == RowSum(cells, data, sub, n) + (if last.sub == sub && 0 <= last.phase < n then v else 0)
  {
    if n > 0 {
      RowAppend(cells, data, sub, n - 1, last, v);
      var c := Cell(sub, n - 1);
      assert (cells + [last])[..|cells|] == cells;
      assert (data + [v])[..|data|] == data;
      assert CellCount(cells + [last], c) == CellCount(cells, c) + (if last == c then 1 else 0);
      assert CellSum(cells + [last], data + [v], c) == CellSum(cells, data, c) + (if last == c then v else 0);
    }
  }

  /** The phase bins of a row partition its sub-bin: the row adds up to the sub-bin's total. */
  lemma {:induction false} RowPartition(cells: seq<Cell>, data: seq<int>, sub: int, n: nat)
    requires |data| == |cells|
    requires forall i :: 0 <= i < |cells| ==> 0 <= cells[i].phase < n
    ensures RowCount(cells, sub, n) == SubCount(cells, sub)
    ensures RowSum(cells, data, sub, n) == SubSum(cells, data, sub)
  {
    if |cells| == 0 {
      RowEmpty(cells, data, sub, n);
    } else {
      var m := |cells| - 1;
      var front, dfront := cells[..m], data[..m];
      RowPartition(front, dfront, sub, n);
      RowAppend(front, dfront, sub, n, cells[m], data[m]);
      assert front + [cells[m]] == cells;
      assert dfront + [data[m]] == data;
    }
  }

  lemma {:induction false} RowEmpty(cells: seq<Cell>, data: seq<int>, sub: int, n: nat)
    requires |cells| == 0 && |data| == 0
    ensures RowCount(cells, sub, n) == 0 && RowSum(cells, data, sub, n) == 0
  {
    if n > 0 {
      RowEmpty(cells, data, sub, n - 1);
    }
  }

  /** When the samples of sub-bin `sub` are exactly those in [lo, hi), it holds hi - lo of them. */
  lemma {:induction false} SubRange(cells: seq<Cell>, data: seq<int>, sub: int, lo: int, hi: int)
    requires |data| == |cells| && 0 <= lo <= hi <= |cells|
    requires forall i :: 0 <= i < |cells| ==> (cells[i].sub == sub <==> lo <= i < hi)
    ensures SubCount(cells, sub) == hi - lo
    ensures SubSum(cells, data, sub) == Sum(data[lo..hi])
  {
    if |cells| > 0 {
      var m := |cells| - 1;
      var front, dfront := cells[..m], data[..m];
      if lo <= m < hi {
        SubRange(front, dfront, sub, lo, m);
        assert dfront[lo..m] == data[lo..m];
        assert data[lo..hi][..hi - lo - 1] == data[lo..m];
      } else if hi <= m {
        SubRange(front, dfront, sub, lo, hi);
        assert dfront[lo..hi] == data[lo..hi];
      } else {
        SubRange(front, dfront, sub, m, m);
      }
    }
  }

  /**
   * A frame folded with the bracketing sub-bin rule: the phase bins of row b hold, between
   * them, exactly the raw samples from edge b up to edge b + 1, as `Integrate` counts them.
   */
  lemma FrameRow(cells: seq<Cell>, data: seq<int>, e: seq<int>, b: int, n: nat)
    requires |e| >= 2 && NonDecreasing(e) && e[0] == 0 && 0 <= b < |e| - 1
    requires |cells| == |data| == e[|e| - 1]
    requires forall i :: 0 <= i < |cells| ==> cells[i].sub == SubBin(e, i, true) && 0 <= cells[i].phase < n
    ensures RowCount(cells, b, n) == e[b + 1] - e[b]
    ensures RowSum(cells, data, b, n) == Sum(data[e[b]..e[b + 1]])
  {
    RowPartition(cells, data, b, n);
    assert 0 <= e[b] <= e[b + 1] <= e[|e| - 1];
    forall i | 0 <= i < |cells|
      ensures cells[i].sub == b <==> e[b] <= i < e[b + 1]
    {
      SubBinContains(e, i);
      if e[b] <= i < e[b + 1] {
        SubBinUnique(e, i, b);
      }
    }
    SubRange(cells, data, b, e[b], e[b + 1]);
  }

  /**
   * What decides the cell of each raw sample of a frame: the frame's edges relative to its
   * first (the sub-bins), and the number of phase bins, the phase function, the time of the
   * frame's first raw sample and the raw sample rate (the phase bins).
   */
  datatype Binning = Binning(edges: seq<int>, nPhase: nat, phase: real -> real, start: real, rate: real)

  predicate Proper(g: Binning)
  {
    |g.edges| >= 1 && g.nPhase > 0 && g.rate > 0.0
  }

  /** The sub-bin of raw sample k: 0 with one sub-bin per frame, else where its edges bracket it. */
  function SubBinOf(g: Binning, k: int): int
    requires Proper(g)
  {
    if |g.edges| == 2 then 0 else SubBin(g.edges, k, true)
  }

  /** The phase bin of raw sample k: that of the phase at its time. */
  function PhaseBinOf(g: Binning, k: int): (p: int)
    requires Proper(g)
    ensures 0 <= p < g.nPhase
  {
    PhaseIndex(g.phase(g.start + k as real / g.rate), g.nPhase)
  }

  function CellOf(g: Binning, k: int): Cell
    requires Proper(g)
  {
    Cell(SubBinOf(g, k), PhaseBinOf(g, k))
  }

  /** The cells of raw samples s up to t of a frame, in order. */
  function CellsOf(g: Binning, s: int, t: int): (r: seq<Cell>)
    requires Proper(g) && s <= t
    ensures |r| == t - s
    decreases t - s
  {
    if s == t then [] else CellsOf(g, s, t - 1) + [CellOf(g, t - 1)]
  }

  /** The cells of adjacent stretches of a frame follow one another. */
  lemma {:induction false} CellsSplit(g: Binning, s: int, m: int, t: int)
    requires Proper(g) && s <= m <= t
    ensures CellsOf(g, s, t) == CellsOf(g, s, m) + CellsOf(g, m, t)
    decreases t - m
  {
    if m < t {
      CellsSplit(g, s, m, t - 1);
    }
  }

  /** The cell of the i-th sample of a stretch is that of raw sample s + i. */
  lemma {:induction false} CellsAt(g: Binning, s: int, t: int, i: int)
    requires Proper(g) && s <= t && 0 <= i < t - s
    ensures CellsOf(g, s, t)[i] == CellOf(g, s + i)
    decreases t - s
  {
    if i < t - s - 1 {
      CellsAt(g, s, t - 1, i);
    }
  }
}

/**
 * `Fold`: folds a stream by pulse phase. Each output sample is a row of `nPhase` phase bins;
 * every raw sample of a frame is added to the cell of its time sub-bin and its phase bin. The
 * sub-bins are the fixed-rate bins of an `Integrate` built for the same step.
 */
module Folding {
  import opened Common
  import opened Sums
  import opened Edges
  import opened Segments
  import opened Frames
  import opened Setup
  import opened Streams
  import opened Integration
  import opened FoldCells

  class Fold {
    const ih: RawStream
    /** The integrator whose rate, length and offsets the fold takes over. */
    const integrator: Integrate
    const nPhase: nat
    /** The phase, in cycles, at a time. */
    const phase: real -> real
    const average: bool
    const layout: Layout
    const samplesPerFrame: nat
    const length: nat
    const sampleRate: real
    /** The current frame: its edges relative to the first, and its cells' sums and counts. */
    var offsets: seq<int>
    var result: array2<int>
    var count: array2<int>
    /** The time of the frame's first raw sample. */
    var rawTime: real

    ghost predicate Valid()
      reads this, integrator, ih
    {
      && integrator.ih == ih && integrator.Valid() && integrator.mode.FixedRate?
      && integrator.samplesPerFrame == samplesPerFrame && nPhase > 0
    }

    ghost predicate FrameReady()
      reads this
    {
      && |offsets| == samplesPerFrame + 1 && offsets[0] == 0 && NonDecreasing(offsets)
      && result.Length0 == samplesPerFrame && result.Length1 == nPhase
      && count.Length0 == samplesPerFrame && count.Length1 == nPhase
      && result != count && nPhase > 0
    }

    /** What assigns the raw samples of the current frame to their cells. */
    function CurrentBinning(): (g: Binning)
      reads this
    {
      Binning(offsets, nPhase, phase, rawTime, ih.sampleRate)
    }

    constructor (ih: RawStream, nPhase: nat, phase: real -> real, step: Option<Step>, average: bool,
                 samplesPerFrame: nat, dtype: Option<Layout>)
      requires ih.Valid() && samplesPerFrame >= 1 && nPhase > 0
      requires IntegrateSetup(|ih.samples|, ih.sampleRate, ih.startTime, step, None).Success?
      ensures Valid() && fresh(integrator)
      ensures this.ih == ih && this.nPhase == nPhase && this.phase == phase && this.average == average
      ensures this.samplesPerFrame == samplesPerFrame && layout == OutputLayout(average, dtype)
      ensures var c := IntegrateSetup(|ih.samples|, ih.sampleRate, ih.startTime, step, None).value;
        length == c.length && sampleRate == c.sampleRate && integrator.mode == c.mode
    {
      var integ := new Integrate(ih, step, None, average, samplesPerFrame, None, 0);
      this.ih := ih;
      integrator := integ;
      this.nPhase := nPhase;
      this.phase := phase;
      this.average := average;
      this.samplesPerFrame := samplesPerFrame;
      layout := OutputLayout(average, dtype);
      length := integ.length;
      sampleRate := integ.sampleRate;
      offsets := [];
      result := new int[0, 0];
      count := new int[0, 0];
      rawTime := ih.startTime;
    }

    /**
     * The cells hold, each, the number and the total of the raw samples among `cells` (with
     * values `values`) that fall in it.
     */
    ghost predicate Holds(cells: seq<Cell>, values: seq<int>)
      reads this, result, count
    {
      && |values| == |cells|
      && (forall b, p {:trigger count[b, p]} :: 0 <= b < count.Length0 && 0 <= p < count.Length1 ==>
            count[b, p] == CellCount(cells, Cell(b, p)))
      && (forall b, p {:trigger result[b, p]} :: 0 <= b < result.Length0 && 0 <= p < result.Length1 ==>
            result[b, p] == CellSum(cells, values, Cell(b, p)))
    }

    /**
     * `_integrate`: adds raw samples s up to t of the frame (values `data`, the same stretch of
     * the frame's raw samples `x`) one by one to the cell of their sub-bin and phase bin, as
     * `np.add.at` does. Cells that hold the counts and sums of the frame's first s raw samples
     * end up holding those of its first t.
     */
    method FoldSlice(s: int, t: int, data: seq<int>, ghost x: seq<int>)
      requires FrameReady() && 0 <= s <= t <= |x| && t <= offsets[samplesPerFrame] && data == x[s..t]
      requires Holds(CellsOf(CurrentBinning(), 0, s), x[..s])
      modifies result, count
      ensures Holds(CellsOf(CurrentBinning(), 0, t), x[..t])
    {
      var k := s;
      while k < t
        invariant s <= k <= t
        invariant Holds(CellsOf(CurrentBinning(), 0, k), x[..k])
      {
        FoldOne(k, data[k - s], x);
        k := k + 1;
      }
    }

    /** One raw sample k of `_integrate`, of value v: its sub-bin, its phase bin, and the add. */
    method FoldOne(k: int, v: int, ghost x: seq<int>)
      requires FrameReady() && 0 <= k < |x| && k < offsets[samplesPerFrame] && x[k] == v
      requires Holds(CellsOf(CurrentBinning(), 0, k), x[..k])
      modifies result, count
      ensures Holds(CellsOf(CurrentBinning(), 0, k + 1), x[..k + 1])
    {
      ghost var g := CurrentBinning();
      var b := SearchSubBin(k);
      var p := PhaseIndex(phase(rawTime + k as real / ih.sampleRate), nPhase);
      assert Cell(b, p) == CellOf(g, k);
      AddAt(b, p, v, CellsOf(g, 0, k), x[..k]);
      assert x[..k + 1] == x[..k] + [v];
    }

    /** The sub-bin of raw sample k: `np.searchsorted(offsets[1:], k)`, or 0 with one sample per frame. */
    method SearchSubBin(k: int) returns (b: int)
      requires FrameReady() && 0 <= k < offsets[samplesPerFrame]
      ensures 0 <= b < samplesPerFrame && b == SubBinOf(CurrentBinning(), k)
    {
      b := 0;
      if samplesPerFrame > 1 {
        b := SearchSorted(offsets[1..], k, true);
        SearchIsPreceding(offsets[1..], k, true, b);
        SubBinContains(offsets, k);
      }
    }

    /** One element of `np.add.at`: raw value v and a count of one into cell (b, p). */
    method AddAt(b: int, p: int, v: int, ghost cells: seq<Cell>, ghost values: seq<int>)
      requires FrameReady() && Holds(cells, values) && 0 <= b < samplesPerFrame && 0 <= p < nPhase
      modifies result, count
      ensures Holds(cells + [Cell(b, p)], values + [v])
    {
      count[b, p] := count[b, p] + 1;
      result[b, p] := result[b, p] + v;
      CellAppend(cells, values, Cell(b, p), v);
    }

    /**
     * `ih.read(out=...)` into the current frame, piece by piece as the reader delivers: every
     * cell ends with the count and the total of the frame's raw samples that land in it.
     */
    method ReadAll(ghost x: seq<int>)
      requires ih.Valid() && FrameReady()
      requires ih.pos + offsets[samplesPerFrame] <= |ih.samples|
      requires x == ih.samples[ih.pos..ih.pos + offsets[samplesPerFrame]]
      requires forall b, p :: 0 <= b < samplesPerFrame && 0 <= p < nPhase ==> result[b, p] == 0 && count[b, p] == 0
      modifies ih, result, count
      ensures ih.Valid() && ih.pos == old(ih.pos) + offsets[samplesPerFrame]
      ensures Holds(CellsOf(CurrentBinning(), 0, offsets[samplesPerFrame]), x)
    {
      var n := offsets[samplesPerFrame];
      ghost var start := ih.pos;
      var done := 0;
      assert Holds(CellsOf(CurrentBinning(), 0, 0), x[..0]);
      while done < n
        invariant 0 <= done <= n
        invariant ih.Valid() && ih.pos == start + done
        invariant Holds(CellsOf(CurrentBinning(), 0, done), x[..done])
        decreases n - done
      {
        done := ReadNext(start, x, done);
      }
      assert x[..n] == x;
    }

    /** One piece of `ReadAll`: the next piece the reader delivers, folded into the frame. */
    method ReadNext(ghost start: int, ghost x: seq<int>, done: int) returns (next: int)
      requires ih.Valid() && FrameReady() && 0 <= start
      requires start + offsets[samplesPerFrame] <= |ih.samples|
      requires x == ih.samples[start..start + offsets[samplesPerFrame]]
      requires 0 <= done < offsets[samplesPerFrame] && ih.pos == start + done
      requires Holds(CellsOf(CurrentBinning(), 0, done), x[..done])
      modifies ih, result, count
      ensures ih.Valid() && done < next <= offsets[samplesPerFrame] && ih.pos == start + next
      ensures Holds(CellsOf(CurrentBinning(), 0, next), x[..next])
    {
      var n := offsets[samplesPerFrame];
      var data := ih.ReadPiece(n - done);
      SubSlice(ih.samples, start, start + n, done, done + |data|);
      FoldSlice(done, done + |data|, data, x);
      next := done + |data|;
    }

    /**
     * `_read_frame`: finds the time at the frame's first raw sample (for the phases), then reads
     * the frame as `IntegrateBase` does, folding every raw sample into its cell. The read
     * succeeds exactly when the frame's fixed-rate edges lie in the stream and the layout fits.
     * Row b of the result holds, spread over its phase bins, exactly the raw samples of the
     * integrator's output sample b.
     */
    method ReadFrame(frameIndex: int) returns (r: Result<seq<seq<Sample>>>, edges: seq<int>)
      requires Valid()
      modifies this, ih, integrator
      ensures Valid()
      ensures integrator.lastOffset == old(integrator.lastOffset) && integrator.lastPhase == old(integrator.lastPhase)
      ensures integrator.stopTime == old(integrator.stopTime)
      ensures var ratio := integrator.mode.ratio;
        r.Success? <==>
          && 0 <= FixedOffset(frameIndex * samplesPerFrame, ratio)
          && FixedOffset(frameIndex * samplesPerFrame + samplesPerFrame, ratio) <= |ih.samples|
          && LayoutFits(layout, average)
      ensures r.Success? ==>
        && edges == FixedOffsets(FrameSamples(frameIndex, samplesPerFrame), integrator.mode.ratio)
        && rawTime == ih.TimeAt(edges[0]) && ih.pos == edges[samplesPerFrame]
        && FrameReady() && offsets == Rebase(edges)
        && |r.value| == samplesPerFrame
        && (forall b :: 0 <= b < samplesPerFrame ==>
              && |r.value[b]| == nPhase
              && RowCount(CellsOf(CurrentBinning(), 0, offsets[samplesPerFrame]), b, nPhase) == edges[b + 1] - edges[b]
              && RowSum(CellsOf(CurrentBinning(), 0, offsets[samplesPerFrame]), ih.samples[edges[0]..edges[samplesPerFrame]], b, nPhase)
                 == Sum(ih.samples[edges[b]..edges[b + 1]]))
        && Holds(CellsOf(CurrentBinning(), 0, offsets[samplesPerFrame]), ih.samples[edges[0]..edges[samplesPerFrame]])
        && forall b, p :: 0 <= b < samplesPerFrame && 0 <= p < nPhase ==>
             r.value[b][p] == Finalize(result[b, p], count[b, p], average)
    {
      var samples := FrameSamples(frameIndex, samplesPerFrame);
      var ratio := integrator.mode.ratio;
      FrameEdgesSorted(frameIndex, samplesPerFrame, ratio);
      FixedOffsetMonotone(frameIndex * samplesPerFrame, frameIndex * samplesPerFrame + samplesPerFrame, ratio);
      assert samples[0] == frameIndex * samplesPerFrame;
      var first := integrator.GetOffset(frameIndex * samplesPerFrame);
      var ok := ih.Seek(first.value);
      if !ok {
        r, edges := Failure(SeekOutOfRange), [];
        return;
      }
      rawTime := ih.Time();
      var got := integrator.GetOffsets(samples);
      edges := got.value;
      r := FoldFrame(edges);
    }

    /**
     * The `IntegrateBase._read_frame` part of `ReadFrame` once the edges are known: seeks to the
     * first edge, sets up cells of `samplesPerFrame` rows by `nPhase` phase bins, reads up to
     * the last edge and finalizes every cell.
     */
    method FoldFrame(edges: seq<int>) returns (r: Result<seq<seq<Sample>>>)
      requires Valid() && |edges| == samplesPerFrame + 1 && NonDecreasing(edges)
      modifies this`offsets, this`result, this`count, ih
      ensures Valid() && rawTime == old(rawTime)
      ensures r.Success? <==> 0 <= edges[0] && edges[samplesPerFrame] <= |ih.samples| && LayoutFits(layout, average)
      ensures r.Success? ==>
        && ih.pos == edges[samplesPerFrame]
        && FrameReady() && offsets == Rebase(edges)
        && |r.value| == samplesPerFrame
        && (forall b :: 0 <= b < samplesPerFrame ==>
              && |r.value[b]| == nPhase
              && RowCount(CellsOf(CurrentBinning(), 0, offsets[samplesPerFrame]), b, nPhase) == edges[b + 1] - edges[b]
              && RowSum(CellsOf(CurrentBinning(), 0, offsets[samplesPerFrame]), ih.samples[edges[0]..edges[samplesPerFrame]], b, nPhase)
                 == Sum(ih.samples[edges[b]..edges[b + 1]]))
        && Holds(CellsOf(CurrentBinning(), 0, offsets[samplesPerFrame]), ih.samples[edges[0]..edges[samplesPerFrame]])
        && forall b, p :: 0 <= b < samplesPerFrame && 0 <= p < nPhase ==>
             r.value[b][p] == Finalize(result[b, p], count[b, p], average)
    {
      RebaseSorted(edges);
      var ok := ih.Seek(edges[0]);
      if !ok {
        r := Failure(SeekOutOfRange);
        return;
      }
      offsets := Rebase(edges);
      var n := offsets[samplesPerFrame];
      if !LayoutFits(layout, average) {
        r := Failure(FieldMismatch);
        return;
      }
      result := new int[samplesPerFrame, nPhase]((_, _) => 0);
      count := new int[samplesPerFrame, nPhase]((_, _) => 0);
      if ih.pos + n > |ih.samples| {
        r := Failure(EndOfStream);
        return;
      }
      ghost var x := ih.samples[edges[0]..edges[samplesPerFrame]];
      ReadAll(x);
      FrameRows(edges, x);
      var rows := Finish();
      r := Success(rows);
    }

    /** The frame's output: every cell's total, or its total and count, as the layout says. */
    method Finish() returns (rows: seq<seq<Sample>>)
      requires FrameReady()
      ensures |rows| == samplesPerFrame && forall b :: 0 <= b < samplesPerFrame ==> |rows[b]| == nPhase
      ensures forall b, p :: 0 <= b < samplesPerFrame && 0 <= p < nPhase ==>
        rows[b][p] == Finalize(result[b, p], count[b, p], average)
    {
      var sums, counts := result, count;
      rows := seq(samplesPerFrame, b requires 0 <= b < samplesPerFrame reads sums, counts =>
        seq(nPhase, p requires 0 <= p < nPhase reads sums, counts =>
          if b < sums.Length0 && p < sums.Length1 && b < counts.Length0 && p < counts.Length1
          then Finalize(sums[b, p], counts[b, p], average) else Finalize(0, 0, average)));
    }

    /** Every row of the frame adds up, over its phase bins, to the integrator's output sample. */
    lemma FrameRows(edges: seq<int>, x: seq<int>)
      requires FrameReady() && |edges| == samplesPerFrame + 1 && NonDecreasing(edges)
      requires 0 <= edges[0] && edges[samplesPerFrame] <= |ih.samples| && offsets == Rebase(edges)
      requires x == ih.samples[edges[0]..edges[samplesPerFrame]]
      ensures forall b :: 0 <= b < samplesPerFrame ==>
        && RowCount(CellsOf(CurrentBinning(), 0, offsets[samplesPerFrame]), b, nPhase) == edges[b + 1] - edges[b]
        && RowSum(CellsOf(CurrentBinning(), 0, offsets[samplesPerFrame]), x, b, nPhase) == Sum(ih.samples[edges[b]..edges[b + 1]])
    {
      var n := offsets[samplesPerFrame];
      var cells := CellsOf(CurrentBinning(), 0, n);
      forall i | 0 <= i < n
        ensures cells[i].sub == SubBin(offsets, i, true) && 0 <= cells[i].phase < nPhase
      {
        CellsAt(CurrentBinning(), 0, n, i);
        if samplesPerFrame == 1 {
          SingleSubBin(offsets, i, true);
        }
      }
      forall b | 0 <= b < samplesPerFrame
        ensures RowCount(cells, b, nPhase) == edges[b + 1] - edges[b]
        ensures RowSum(cells, x, b, nPhase) == Sum(ih.samples[edges[b]..edges[b + 1]])
      {
        FrameRow(cells, x, offsets, b, nPhase);
        FrameBin(ih.samples, edges, b);
      }
    }
  }
}

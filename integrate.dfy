/**
 * The integration engine (`IntegrateBase` and `Integrate`): a stream whose output sample i sums
 * the raw samples between two edges in the underlying stream, read one frame of
 * `samplesPerFrame` output samples at a time. The edges come from a fixed raw-samples-per-output
 * ratio, or from a phase function, in which case they are found by an iterative search that
 * continues from the last edge it resolved.
 */
module Integration {
  import opened Common
  import opened Sums
  import opened Edges
  import opened Segments
  import opened Frames
  import opened Setup
  import opened PhaseSolver
  import opened Streams

  class Integrate {
    const ih: RawStream
    const length: nat
    const sampleRate: real
    const mode: Mode
    const average: bool
    const layout: Layout
    const samplesPerFrame: nat
    /** Cap on the passes of one phase search; the source has none and loops until it settles. */
    const maxPasses: nat
    /** Where the last phase search ended, and the phase there: where the next one starts. */
    var lastOffset: int
    var lastPhase: real
    /** The current frame: its edges relative to the first, and its running sums and counts. */
    var offsets: seq<int>
    var result: array<int>
    var count: array<int>
    /** The memoized stop time. */
    var stopTime: Option<real>

    /** The phase at each raw offset, as the search evaluates it. */
    function RawPhase(): (int -> real)
      requires mode.PhaseDriven?
    {
      o => mode.phase(ih.TimeAt(o))
    }

    ghost predicate Valid()
      reads this, ih
    {
      && ih.Valid()
      && samplesPerFrame >= 1
      && (mode.FixedRate? ==> mode.ratio > 0.0 && length == (|ih.samples| as real / mode.ratio).Floor)
      && (mode.PhaseDriven? ==> lastPhase == RawPhase()(lastOffset))
    }

    /** The state one frame is accumulated in. */
    ghost predicate FrameReady()
      reads this
    {
      && |offsets| == samplesPerFrame + 1 && offsets[0] == 0 && NonDecreasing(offsets)
      && result.Length == samplesPerFrame && count.Length == samplesPerFrame && result != count
    }

    /** Phase search targets: the phase of output sample i is the start phase plus i steps. */
    function PhaseTargets(samples: seq<int>): (r: seq<real>)
      requires mode.PhaseDriven?
    {
      Targets(mode.start, mode.step, samples)
    }

    /** Every found offset is one whose correction toward its target rounds to zero. */
    ghost predicate Settled(samples: seq<int>, found: seq<int>)
      requires mode.PhaseDriven?
    {
      && |found| == |samples|
      && forall j :: 0 <= j < |samples| ==>
           Correction(PhaseTargets(samples)[j], RawPhase()(found[j]), mode.scale) == 0
    }

    /** The phase at raw offset o is the phase the output sample just past the end starts at. */
    ghost predicate EndsAtStop(o: int)
      requires mode.PhaseDriven?
    {
      Correction(mode.start + length as real * mode.step, RawPhase()(o), mode.scale) == 0
    }

    /**
     * The constructor for a reader `ih` that `IntegrateSetup` accepts; the setup's failures are
     * the constructor's exceptions. The phase search starts at offset 0 with the stream's
     * start (its time, or with a phase function its phase).
     */
    constructor (ih: RawStream, step: Option<Step>, phase: Option<real -> real>, average: bool,
                 samplesPerFrame: nat, dtype: Option<Layout>, maxPasses: nat)
      requires ih.Valid() && samplesPerFrame >= 1
      requires IntegrateSetup(|ih.samples|, ih.sampleRate, ih.startTime, step, phase).Success?
      ensures Valid()
      ensures this.ih == ih && this.average == average
      ensures this.samplesPerFrame == samplesPerFrame && this.maxPasses == maxPasses
      ensures var c := IntegrateSetup(|ih.samples|, ih.sampleRate, ih.startTime, step, phase).value;
        length == c.length && sampleRate == c.sampleRate && mode == c.mode
      ensures layout == OutputLayout(average, dtype)
      ensures lastOffset == 0 && stopTime == None
      ensures lastPhase == if phase.Some? then phase.value(ih.startTime) else ih.startTime
    {
      var setup := IntegrateSetup(|ih.samples|, ih.sampleRate, ih.startTime, step, phase);
      var c := setup.value;
      assert ih.TimeAt(0) == ih.startTime;
      this.ih := ih;
      this.average := average;
      this.samplesPerFrame := samplesPerFrame;
      this.maxPasses := maxPasses;
      length := c.length;
      sampleRate := c.sampleRate;
      mode := c.mode;
      layout := OutputLayout(average, dtype);
      lastOffset := 0;
      lastPhase := if phase.Some? then phase.value(ih.startTime) else ih.startTime;
      offsets := [];
      result := new int[0];
      count := new int[0];
      stopTime := None;
    }

    /**
     * `_integrate`: adds the slice [s, t) of the frame (raw samples `data`) to the bins it
     * overlaps. Each bin b gains the length and the sum of its part of the slice.
     */
    method IntegrateSlice(s: int, t: int, data: seq<int>)
      requires FrameReady()
      requires 0 <= s < t <= offsets[samplesPerFrame] && |data| == t - s
      modifies result, count
      ensures forall b :: 0 <= b < samplesPerFrame ==>
        && count[b] == old(count[b]) + Widths(Cuts(offsets, s, t))[b]
        && result[b] == old(result[b]) + BinSums(data, Cuts(offsets, s, t))[b]
    {
      var n := samplesPerFrame;
      assert NonDecreasing(offsets[1..]) && NonDecreasing(offsets[..n]);
      var first := SearchSorted(offsets[1..], s, true);
      var stop := SearchSorted(offsets[..n], t, false);
      SearchedBins(offsets, n, s, t, data, first, stop);
      var indices := SliceIndices(offsets, s, t, first, stop);
      var sums := BinSums(data, indices);
      var widths := Widths(indices);
      AddShares(first, widths, sums);
    }

    /** numpy's in-place `+=` on the slice of bins starting at `first`. */
    method AddShares(first: nat, widths: seq<int>, sums: seq<int>)
      requires result != count && result.Length == count.Length
      requires |widths| == |sums| && first + |widths| <= result.Length
      modifies result, count
      ensures forall b :: 0 <= b < result.Length ==>
        count[b] == old(count[b]) + (if first <= b < first + |widths| then widths[b - first] else 0)
      ensures forall b :: 0 <= b < result.Length ==>
        result[b] == old(result[b]) + (if first <= b < first + |sums| then sums[b - first] else 0)
    {
      var k := 0;
      while k < |widths|
        invariant 0 <= k <= |widths|
        invariant forall b :: 0 <= b < result.Length ==>
          count[b] == old(count[b]) + (if first <= b < first + k then widths[b - first] else 0)
        invariant forall b :: 0 <= b < result.Length ==>
          result[b] == old(result[b]) + (if first <= b < first + k then sums[b - first] else 0)
      {
        result[first + k] := result[first + k] + sums[k];
        count[first + k] := count[first + k] + widths[k];
        k := k + 1;
      }
    }

    /**
     * `ih.read(out=...)` into the current frame: reads the frame's raw samples from the
     * reader's position in the pieces the reader delivers, integrating each piece as it comes.
     * Every bin ends with as count its width and as sum the total of its raw samples.
     */
    method ReadAll(ghost x: seq<int>)
      requires ih.Valid() && FrameReady()
      requires ih.pos + offsets[samplesPerFrame] <= |ih.samples|
      requires x == ih.samples[ih.pos..ih.pos + offsets[samplesPerFrame]]
      requires forall b :: 0 <= b < samplesPerFrame ==> result[b] == 0 && count[b] == 0
      modifies ih, result, count
      ensures ih.Valid() && ih.pos == old(ih.pos) + offsets[samplesPerFrame]
      ensures forall b :: 0 <= b < samplesPerFrame ==>
        count[b] == Widths(offsets)[b] && result[b] == BinSums(x, offsets)[b]
    {
      var n := offsets[samplesPerFrame];
      ghost var start := ih.pos;
      ReadNothing(x, offsets);
      assert count[..] == ReadCounts(offsets, 0) && result[..] == ReadSums(x, offsets, 0);
      var done := 0;
      while done < n
        invariant 0 <= done <= n
        invariant ih.Valid() && ih.pos == start + done
        invariant count[..] == ReadCounts(offsets, done) && result[..] == ReadSums(x, offsets, done)
        decreases n - done
      {
        done := ReadNext(start, x, done);
      }
      ReadComplete(x, offsets);
      assert count[..] == Widths(offsets) && result[..] == BinSums(x, offsets);
    }

    /** One piece of `ReadAll`: the next piece the reader delivers, integrated into the frame. */
    method ReadNext(ghost start: int, ghost x: seq<int>, done: int) returns (next: int)
      requires ih.Valid() && FrameReady()
      requires 0 <= start && start + offsets[samplesPerFrame] <= |ih.samples|
      requires x == ih.samples[start..start + offsets[samplesPerFrame]]
      requires 0 <= done < offsets[samplesPerFrame] && ih.pos == start + done
      requires count[..] == ReadCounts(offsets, done) && result[..] == ReadSums(x, offsets, done)
      modifies ih, result, count
      ensures ih.Valid() && done < next <= offsets[samplesPerFrame] && ih.pos == start + next
      ensures count[..] == ReadCounts(offsets, next) && result[..] == ReadSums(x, offsets, next)
    {
      var n := offsets[samplesPerFrame];
      var data := ih.ReadPiece(n - done);
      SubSlice(ih.samples, start, start + n, done, done + |data|);
      next := done + |data|;
      ReadSlice(done, next, data, x);
    }

    /** `_integrate` of the frame's raw samples s..t on top of those before s. */
    method ReadSlice(s: int, t: int, data: seq<int>, ghost x: seq<int>)
      requires FrameReady() && 0 <= s < t <= offsets[samplesPerFrame] && t <= |x| && data == x[s..t]
      requires count[..] == ReadCounts(offsets, s) && result[..] == ReadSums(x, offsets, s)
      modifies result, count
      ensures count[..] == ReadCounts(offsets, t) && result[..] == ReadSums(x, offsets, t)
    {
      ghost var c0, r0 := count[..], result[..];
      IntegrateSlice(s, t, data);
      ghost var c1, r1 := count[..], result[..];
      assert forall b :: 0 <= b < |c1| ==> c1[b] == c0[b] + Widths(Cuts(offsets, s, t))[b];
      assert forall b :: 0 <= b < |r1| ==> r1[b] == r0[b] + BinSums(data, Cuts(offsets, s, t))[b];
      ReadExtends(x, offsets, s, t, c0, c1, r0, r1);
    }

    /**
     * `_get_offsets` with a phase function: starting from the last resolved offset, moves every
     * offset by its rounded correction and re-evaluates the phase only where the correction was
     * not zero, until no correction is left. Fails when no phase was ever evaluated (the source
     * then reads an unset variable) or, in this model, after `maxPasses` passes. On success the
     * state continues from the last offset and the phase there.
     */
    method ResolvePhase(samples: seq<int>) returns (r: Result<seq<int>>)
      requires Valid() && mode.PhaseDriven?
      modifies this`lastOffset, this`lastPhase
      ensures Valid()
      ensures r.Success? ==> |samples| > 0 && Settled(samples, r.value) && lastOffset == r.value[|samples| - 1]
      ensures r.Failure? ==> lastOffset == old(lastOffset) && lastPhase == old(lastPhase)
      ensures r.Failure? ==> r.error == NoPhaseEvaluated || r.error == NotConverged
      ensures r == Failure(NoPhaseEvaluated) <==>
        !Pending(Begin(PhaseTargets(samples), old(lastOffset), old(lastPhase), mode.scale).check)
    {
      var targets := PhaseTargets(samples);
      var phaseAt := RawPhase();
      var search := Begin(targets, lastOffset, lastPhase, mode.scale);
      BeginConsistent(phaseAt, targets, lastOffset, lastPhase, mode.scale);
      var passes := 0;
      while Pending(search.check)
        invariant Consistent(phaseAt, targets, mode.scale, search)
        invariant passes <= maxPasses
        invariant passes == 0 ==> search == Begin(targets, lastOffset, lastPhase, mode.scale)
        invariant passes > 0 ==> |samples| > 0 && Pending(Begin(targets, lastOffset, lastPhase, mode.scale).check)
        invariant lastOffset == old(lastOffset) && lastPhase == old(lastPhase)
        decreases maxPasses - passes
      {
        if passes == maxPasses {
          return Failure(NotConverged);
        }
        PassConsistent(phaseAt, targets, mode.scale, search);
        search := Pass(phaseAt, targets, mode.scale, search);
        passes := passes + 1;
      }
      if passes == 0 {
        return Failure(NoPhaseEvaluated);
      }
      SettledIsNear(phaseAt, targets, mode.scale, search);
      LastPhaseIsAtLastOffset(phaseAt, targets, mode.scale, search);
      lastOffset := search.offsets[|samples| - 1];
      lastPhase := LastPhase(search);
      r := Success(search.offsets);
    }

    /** `_get_offsets`: the raw offsets of the given output samples. */
    method GetOffsets(samples: seq<int>) returns (r: Result<seq<int>>)
      requires Valid()
      modifies this`lastOffset, this`lastPhase
      ensures Valid()
      ensures mode.FixedRate? ==>
        r == Success(FixedOffsets(samples, mode.ratio)) && lastOffset == old(lastOffset) && lastPhase == old(lastPhase)
      ensures mode.PhaseDriven? && r.Success? ==>
        |samples| > 0 && Settled(samples, r.value) && lastOffset == r.value[|samples| - 1]
      ensures r.Failure? ==> lastOffset == old(lastOffset) && lastPhase == old(lastPhase)
    {
      if mode.FixedRate? {
        r := Success(FixedOffsets(samples, mode.ratio));
      } else {
        r := ResolvePhase(samples);
      }
    }

    /** `_get_offsets` of a single output sample. */
    method GetOffset(sample: int) returns (r: Result<int>)
      requires Valid()
      modifies this`lastOffset, this`lastPhase
      ensures Valid()
      ensures mode.FixedRate? ==>
        r == Success(FixedOffset(sample, mode.ratio)) && lastOffset == old(lastOffset) && lastPhase == old(lastPhase)
      ensures mode.PhaseDriven? && r.Success? ==>
        Correction(mode.start + sample as real * mode.step, RawPhase()(r.value), mode.scale) == 0
        && lastOffset == r.value
      ensures r.Failure? ==> lastOffset == old(lastOffset) && lastPhase == old(lastPhase)
    {
      var all := GetOffsets([sample]);
      if all.Failure? {
        return Failure(all.error);
      }
      if mode.PhaseDriven? {
        assert PhaseTargets([sample])[0] == mode.start + sample as real * mode.step;
      }
      r := Success(all.value[0]);
    }

    /**
     * `_read_frame`: resolves the frame's edges and integrates the raw samples between them.
     * Without a phase function the edges are the fixed-rate offsets of the frame's samples and
     * the read succeeds exactly when they lie in the stream and the output layout fits.
     */
    method ReadFrame(frameIndex: int) returns (r: Result<seq<Sample>>, edges: seq<int>)
      requires Valid()
      modifies this, ih
      ensures Valid()
      ensures stopTime == old(stopTime)
      ensures mode.FixedRate? ==>
        && edges == FixedOffsets(FrameSamples(frameIndex, samplesPerFrame), mode.ratio)
        && lastOffset == old(lastOffset) && lastPhase == old(lastPhase)
        && (r.Success? <==> 0 <= edges[0] && edges[samplesPerFrame] <= |ih.samples| && LayoutFits(layout, average))
      ensures mode.PhaseDriven? && r.Success? ==> Settled(FrameSamples(frameIndex, samplesPerFrame), edges)
      ensures mode.PhaseDriven? && r.Success? ==> |edges| == samplesPerFrame + 1 && lastOffset == edges[samplesPerFrame]
      ensures r.Success? ==>
        && |edges| == samplesPerFrame + 1 && NonDecreasing(edges)
        && 0 <= edges[0] && edges[samplesPerFrame] <= |ih.samples|
        && ih.pos == edges[samplesPerFrame]
        && FrameReady() && offsets == Rebase(edges)
        && |r.value| == samplesPerFrame
        && forall b :: 0 <= b < samplesPerFrame ==>
             && count[b] == edges[b + 1] - edges[b]
             && result[b] == Sum(ih.samples[edges[b]..edges[b + 1]])
             && r.value[b] == Finalize(result[b], count[b], average)
    {
      var samples := FrameSamples(frameIndex, samplesPerFrame);
      if mode.FixedRate? {
        FrameEdgesSorted(frameIndex, samplesPerFrame, mode.ratio);
      }
      var got := GetOffsets(samples);
      if got.Failure? {
        r, edges := Failure(got.error), [];
        return;
      }
      edges := got.value;
      r := IntegrateFrame(edges);
    }

    /**
     * The body of `_read_frame` once the edges are known: seeks to the first edge, sets up the
     * frame, reads up to the last edge and finalizes each output sample. It succeeds exactly
     * when the edges are sorted, lie in the stream and the output layout fits.
     */
    method IntegrateFrame(edges: seq<int>) returns (r: Result<seq<Sample>>)
      requires Valid() && |edges| == samplesPerFrame + 1
      modifies this`offsets, this`result, this`count, ih
      ensures Valid()
      ensures r.Success? <==>
        0 <= edges[0] && edges[samplesPerFrame] <= |ih.samples| && LayoutFits(layout, average) && NonDecreasing(edges)
      ensures r.Success? ==>
        && ih.pos == edges[samplesPerFrame]
        && FrameReady() && offsets == Rebase(edges)
        && |r.value| == samplesPerFrame
        && forall b :: 0 <= b < samplesPerFrame ==>
             && count[b] == edges[b + 1] - edges[b]
             && result[b] == Sum(ih.samples[edges[b]..edges[b + 1]])
             && r.value[b] == Finalize(result[b], count[b], average)
    {
      RebaseSorted(edges);
      var ok := ih.Seek(edges[0]);
      if !ok {
        r := Failure(SeekOutOfRange);
        return;
      }
      offsets := Rebase(edges);
      var n := offsets[samplesPerFrame];
      if !LayoutFits(layout, average) {
        r := Failure(FieldMismatch);
        return;
      }
      if !NonDecreasing(offsets) {
        r := Failure(UnsortedEdges);
        return;
      }
      result := new int[samplesPerFrame](_ => 0);
      count := new int[samplesPerFrame](_ => 0);
      if ih.pos + n > |ih.samples| {
        r := Failure(EndOfStream);
        return;
      }
      ghost var x := ih.samples[edges[0]..edges[samplesPerFrame]];
      ReadAll(x);
      forall b | 0 <= b < samplesPerFrame
        ensures count[b] == edges[b + 1] - edges[b]
        ensures result[b] == Sum(ih.samples[edges[b]..edges[b + 1]])
      {
        FrameBin(ih.samples, edges, b);
      }
      var sums, counts := result[..], count[..];
      r := Success(seq(samplesPerFrame, b requires 0 <= b < samplesPerFrame => Finalize(sums[b], counts[b], average)));
    }

    /**
     * `stop_time`: the time at the raw offset of the sample just past the end, found by seeking
     * there and reading the reader's time; the reader's position is restored whatever happens,
     * and a value once found is kept.
     */
    method StopTime() returns (r: Result<real>)
      requires Valid()
      modifies this`lastOffset, this`lastPhase, this`stopTime, ih
      ensures Valid() && ih.pos == old(ih.pos)
      ensures old(stopTime).Some? ==>
        r == Success(old(stopTime).value) && lastOffset == old(lastOffset) && lastPhase == old(lastPhase)
      ensures old(stopTime).None? && mode.FixedRate? ==>
        r == Success(ih.TimeAt(FixedOffset(length, mode.ratio)))
      ensures old(stopTime).None? && mode.PhaseDriven? && r.Success? ==>
        && r.value == ih.TimeAt(lastOffset) && 0 <= lastOffset <= |ih.samples|
        && EndsAtStop(lastOffset)
      ensures stopTime == if r.Success? then Some(r.value) else old(stopTime)
    {
      if stopTime.Some? {
        return Success(stopTime.value);
      }
      if mode.FixedRate? {
        EdgesWithinStream(|ih.samples|, mode.ratio, length);
      }
      var raw := GetOffset(length);
      if raw.Failure? {
        return Failure(raw.error);
      }
      var saved := ih.Tell();
      var ok := ih.Seek(raw.value);
      if ok {
        r := Success(ih.Time());
      } else {
        r := Failure(SeekOutOfRange);
      }
      ok := ih.Seek(saved);
      if r.Success? {
        stopTime := Some(r.value);
      }
    }
  }
}

/**
 * `Stack`: a stream of pulse profiles. It integrates the stream over phase bins of 1/nPhase
 * cycle with a phase-driven `Integrate`, and regroups every nPhase consecutive bins into one
 * profile, so that each output sample is one cycle.
 */
module Stacking {
  import opened Common
  import opened Sums
  import opened Edges
  import opened Frames
  import opened Setup
  import opened PhaseSolver
  import opened Streams
  import opened Integration

  /** Bins of 1/n cycle come at n per cycle, so n of them make one profile per cycle. */
  lemma ProfileRate(n: nat)
    requires n > 0
    ensures (1.0 / (1.0 / n as real)) / n as real == 1.0
  {
    var m := n as real;
    assert 1.0 / (1.0 / m) == m;
  }

  /** A profile holds nPhase phase bins; the bins past the last whole profile are dropped. */
  lemma WholeProfiles(binCount: nat, n: nat)
    requires n > 0
    ensures (binCount / n) * n <= binCount < (binCount / n + 1) * n
  {
  }

  class Stack {
    const ih: RawStream
    /** The integration in phase bins that the profiles are cut from. */
    const phased: Integrate
    const nPhase: nat
    const samplesPerFrame: nat
    const length: nat
    const sampleRate: real

    ghost predicate Valid()
      reads this, phased, ih
    {
      && phased.ih == ih && phased.Valid() && phased.mode.PhaseDriven?
      && nPhase > 0 && samplesPerFrame >= 1 && phased.samplesPerFrame == samplesPerFrame * nPhase
    }

    /**
     * `Stack.__init__`: the phased integration has `nPhase` bins per cycle and `nPhase` times as
     * many samples per frame; the profiles number the phased length divided by `nPhase`,
     * rounded down, and come at the phased rate divided by `nPhase`: one per cycle.
     */
    constructor (ih: RawStream, nPhase: nat, phase: real -> real, average: bool, samplesPerFrame: nat,
                 dtype: Option<Layout>, maxPasses: nat)
      requires ih.Valid() && samplesPerFrame >= 1 && nPhase > 0
      requires IntegrateSetup(|ih.samples|, ih.sampleRate, ih.startTime,
                              Some(Interval(1.0 / nPhase as real)), Some(phase)).Success?
      ensures Valid() && fresh(phased)
      ensures this.ih == ih && this.nPhase == nPhase && this.samplesPerFrame == samplesPerFrame
      ensures phased.mode.phase == phase && phased.mode.step == 1.0 / nPhase as real
      ensures phased.average == average && phased.layout == OutputLayout(average, dtype)
      ensures length == phased.length / nPhase && length * nPhase <= phased.length < (length + 1) * nPhase
      ensures sampleRate == phased.sampleRate / nPhase as real && sampleRate == 1.0
    {
      var p := new Integrate(ih, Some(Interval(1.0 / nPhase as real)), Some(phase), average,
                             samplesPerFrame * nPhase, dtype, maxPasses);
      this.ih := ih;
      phased := p;
      this.nPhase := nPhase;
      this.samplesPerFrame := samplesPerFrame;
      length := p.length / nPhase;
      sampleRate := p.sampleRate / nPhase as real;
      WholeProfiles(p.length, nPhase);
      ProfileRate(nPhase);
    }

    /**
     * `_read_frame`: reads the phased integration's frame of `samplesPerFrame * nPhase` bins
     * directly and reshapes it into `samplesPerFrame` profiles of `nPhase` bins. Laid end to
     * end, the profiles are the phased frame: bin k holds the raw samples between the phased
     * edges k and k + 1.
     */
    method ReadFrame(frameIndex: int) returns (r: Result<seq<seq<Sample>>>, edges: seq<int>)
      requires Valid()
      modifies phased, ih
      ensures Valid()
      ensures phased.stopTime == old(phased.stopTime)
      ensures r.Success? ==> |edges| == samplesPerFrame * nPhase + 1 && phased.lastOffset == edges[samplesPerFrame * nPhase]
      ensures r.Success? ==>
        && |edges| == samplesPerFrame * nPhase + 1 && NonDecreasing(edges)
        && phased.Settled(FrameSamples(frameIndex, samplesPerFrame * nPhase), edges)
        && 0 <= edges[0] && edges[samplesPerFrame * nPhase] <= |ih.samples|
        && ih.pos == edges[samplesPerFrame * nPhase]
        && |r.value| == samplesPerFrame
        && (forall i :: 0 <= i < samplesPerFrame ==> |r.value[i]| == nPhase)
        && phased.FrameReady()
        && |Flatten(r.value)| == samplesPerFrame * nPhase
        && forall k :: 0 <= k < samplesPerFrame * nPhase ==>
             && Flatten(r.value)[k] == Finalize(phased.result[k], phased.count[k], phased.average)
             && phased.count[k] == edges[k + 1] - edges[k]
             && phased.result[k] == Sum(ih.samples[edges[k]..edges[k + 1]])
    {
      var out: Result<seq<Sample>>;
      out, edges := phased.ReadFrame(frameIndex);
      if out.Failure? {
        return Failure(out.error), edges;
      }
      r := Success(Rows(out.value, samplesPerFrame, nPhase));
      RowsRoundTrip(out.value, samplesPerFrame, nPhase);
    }

    /** `stop_time`: the phased integration's stop time. */
    method StopTime() returns (r: Result<real>)
      requires Valid()
      modifies phased`lastOffset, phased`lastPhase, phased`stopTime, ih
      ensures Valid() && ih.pos == old(ih.pos)
      ensures old(phased.stopTime).Some? ==> r == Success(old(phased.stopTime).value)
      ensures old(phased.stopTime).None? && r.Success? ==>
        && r.value == ih.TimeAt(phased.lastOffset) && 0 <= phased.lastOffset <= |ih.samples|
        && phased.EndsAtStop(phased.lastOffset)
    {
      r := phased.StopTime();
    }
  }
}

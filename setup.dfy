/**
 * The arithmetic of `Integrate.__init__`: how the step turns into a sample rate, an output
 * length and the parameters `_get_offsets` works with, with or without a phase function.
 */
module Setup {
  import opened Common
  import opened Rounding
  import opened Edges

  /** A step given as a number of raw samples, or as an interval of time (or, with a phase function, of phase). */
  datatype Step = Samples(n: int) | Interval(width: real)

  /** How `_get_offsets` maps output samples to raw offsets. */
  datatype Mode =
    | FixedRate(ratio: real)   // raw samples per output sample
    | PhaseDriven(phase: real -> real, start: real, step: real, scale: real)
      // phase of a time, phase at the stream start, phase per output sample, and the factor
      // (raw samples per output sample over the step) that turns a phase gap into raw samples

  datatype Config = Config(length: nat, sampleRate: real, mode: Mode)

  /** Python's int() of a float: truncation toward zero. */
  function Trunc(x: real): (r: int)
    ensures x >= 0.0 ==> r as real <= x < r as real + 1.0
    ensures x < 0.0 ==> r as real - 1.0 < x <= r as real
  {
    if x >= 0.0 then x.Floor else -((-x).Floor)
  }

  /**
   * Raw samples per output sample without a phase function: the step in samples, the step in
   * time times the raw rate, or with no step the whole stream.
   */
  function StepRatio(rawLength: nat, rawRate: real, step: Option<Step>): real
  {
    match step
    case None => rawLength as real
    case Some(Samples(n)) => n as real
    case Some(Interval(w)) => w * rawRate
  }

  /** `Integrate.__init__` without a phase function: fixed raw samples per output sample. */
  function FixedSetup(rawLength: nat, rawRate: real, step: Option<Step>): (r: Result<Config>)
    ensures r.Success? ==>
      && r.value.mode == FixedRate(StepRatio(rawLength, rawRate, step))
      && r.value.mode.ratio > 0.0
      && r.value.length == (rawLength as real / r.value.mode.ratio).Floor > 0
      && r.value.sampleRate == rawRate / r.value.mode.ratio
    ensures r == Failure(InvalidStep) <==> StepRatio(rawLength, rawRate, step) <= 0.0
    ensures r == Failure(ZeroLength) <==>
      StepRatio(rawLength, rawRate, step) > 0.0 && (rawLength as real / StepRatio(rawLength, rawRate, step)).Floor <= 0
  {
    var ratio := StepRatio(rawLength, rawRate, step);
    if ratio <= 0.0 then Failure(InvalidStep)
    else
      var length := (rawLength as real / ratio).Floor;
      if length <= 0 then Failure(ZeroLength)
      else Success(Config(length, rawRate / ratio, FixedRate(ratio)))
  }

  /** The number of whole steps of w between the phases at the stream's start and stop. */
  function PhaseLength(rawLength: nat, rawRate: real, rawStart: real, phi: real -> real, w: real): int
    requires rawRate > 0.0 && w > 0.0
  {
    Trunc((phi(rawStart + rawLength as real / rawRate) - phi(rawStart)) / w)
  }

  /** An empty stream starts and stops at the same phase, so it holds no whole step. */
  lemma EmptyStreamNoSteps(rawLength: nat, rawRate: real, rawStart: real, phi: real -> real, w: real)
    requires rawRate > 0.0 && w > 0.0
    ensures rawLength == 0 ==> PhaseLength(rawLength, rawRate, rawStart, phi, w) == 0
  {
    if rawLength == 0 {
      assert rawStart + rawLength as real / rawRate == rawStart;
    }
  }

  /** `Integrate.__init__` with a phase function and a step of w in phase. */
  function PhaseSetup(rawLength: nat, rawRate: real, rawStart: real, phi: real -> real, w: real): (r: Result<Config>)
    requires rawRate > 0.0
    ensures r.Success? ==>
      && w > 0.0
      && r.value.mode.PhaseDriven? && r.value.mode.phase == phi && r.value.mode.start == phi(rawStart)
      && r.value.mode.step == w && r.value.sampleRate == 1.0 / w
      && r.value.length == PhaseLength(rawLength, rawRate, rawStart, phi, w) > 0
      && r.value.mode.scale == (rawLength as real / r.value.length as real) / w
      && r.value.mode.scale > 0.0
    ensures r == Failure(InvalidStep) <==> w <= 0.0
    ensures r == Failure(ZeroLength) <==> w > 0.0 && PhaseLength(rawLength, rawRate, rawStart, phi, w) <= 0
  {
    if w <= 0.0 then Failure(InvalidStep)
    else
      var length := PhaseLength(rawLength, rawRate, rawStart, phi, w);
      if length <= 0 then Failure(ZeroLength)
      else
        var scale := (rawLength as real / length as real) / w;
        EmptyStreamNoSteps(rawLength, rawRate, rawStart, phi, w);
        assert scale > 0.0 by {
          assert rawLength as real / length as real > 0.0;
        }
        Success(Config(length, 1.0 / w, PhaseDriven(phi, phi(rawStart), w, scale)))
  }

  /**
   * `Integrate.__init__` for a stream of `rawLength` samples at `rawRate`, starting at time
   * `rawStart`. Without a step the whole stream is one output sample. The length is the number
   * of whole steps in the stream (in time, or in phase between the stream's start and stop).
   * A phase function needs a step in phase.
   */
  function IntegrateSetup(rawLength: nat, rawRate: real, rawStart: real, step: Option<Step>,
                          phase: Option<real -> real>): (r: Result<Config>)
    requires rawRate > 0.0
    ensures r.Success? ==> r.value.length > 0
    ensures r.Success? ==> (r.value.mode.FixedRate? <==> phase.None?)
    // without a phase function
    ensures phase.None? && step.None? && r.Success? ==> r.value.mode.ratio == rawLength as real
    ensures phase.None? && step.Some? && step.value.Samples? && r.Success? ==>
      r.value.mode.ratio == step.value.n as real
    ensures phase.None? && step.Some? && step.value.Interval? && r.Success? ==>
      r.value.mode.ratio == step.value.width * rawRate
    ensures r.Success? && r.value.mode.FixedRate? ==>
      && r.value.mode.ratio > 0.0
      && r.value.length == (rawLength as real / r.value.mode.ratio).Floor
      && r.value.sampleRate == rawRate / r.value.mode.ratio
    ensures phase.None? ==> (r == Failure(InvalidStep) <==> StepRatio(rawLength, rawRate, step) <= 0.0)
    ensures phase.None? ==>
      (r == Failure(ZeroLength) <==>
         StepRatio(rawLength, rawRate, step) > 0.0 && (rawLength as real / StepRatio(rawLength, rawRate, step)).Floor <= 0)
    // with a phase function
    ensures r.Success? && r.value.mode.PhaseDriven? ==>
      && step == Some(Interval(r.value.mode.step))
      && r.value.mode.phase == phase.value
      && r.value.mode.start == phase.value(rawStart)
      && r.value.mode.step > 0.0 && r.value.mode.scale > 0.0
      && r.value.sampleRate == 1.0 / r.value.mode.step
      && r.value.length == Trunc((phase.value(rawStart + rawLength as real / rawRate) - phase.value(rawStart)) / r.value.mode.step)
      && r.value.mode.scale == (rawLength as real / r.value.length as real) / r.value.mode.step
    ensures phase.Some? && step.Some? && step.value.Interval? ==>
      (r == Failure(InvalidStep) <==> step.value.width <= 0.0)
    ensures phase.Some? && step.Some? && step.value.Interval? ==>
      (r == Failure(ZeroLength) <==>
         step.value.width > 0.0
         && Trunc((phase.value(rawStart + rawLength as real / rawRate) - phase.value(rawStart)) / step.value.width) <= 0)
    ensures phase.Some? && !(step.Some? && step.value.Interval?) ==> r == Failure(UnitMismatch)
  {
    match phase
    case None => FixedSetup(rawLength, rawRate, step)
    case Some(phi) =>
      match step
      case Some(Interval(w)) => PhaseSetup(rawLength, rawRate, rawStart, phi, w)
      case _ => Failure(UnitMismatch)
  }

  /** Without a phase function, the edge of every output sample, the last included, lies in the stream. */
  lemma FixedEdgesInStream(rawLength: nat, rawRate: real, rawStart: real, step: Option<Step>, i: int)
    requires rawRate > 0.0
    requires IntegrateSetup(rawLength, rawRate, rawStart, step, None).Success?
    requires 0 <= i <= IntegrateSetup(rawLength, rawRate, rawStart, step, None).value.length
    ensures 0 <= FixedOffset(i, IntegrateSetup(rawLength, rawRate, rawStart, step, None).value.mode.ratio) <= rawLength
  {
    var c := IntegrateSetup(rawLength, rawRate, rawStart, step, None).value;
    EdgesWithinStream(rawLength, c.mode.ratio, i);
  }

  lemma FloorOfQuotient(m: nat, n: nat)
    requires n > 0
    ensures (m as real / n as real).Floor == m / n
  {
    var q, r := m / n, m % n;
    assert m == q * n + r;
    assert (q * n) as real == q as real * n as real;
    assert m as real / n as real == q as real + r as real / n as real;
    assert 0.0 <= r as real / n as real < 1.0;
  }

  /**
   * An integer step of n raw samples gives floor(rawLength / n) output samples at rawRate / n,
   * and output sample i starts at raw sample i * n.
   */
  lemma IntegerStepSetup(rawLength: nat, rawRate: real, rawStart: real, n: nat, i: int)
    requires rawRate > 0.0 && 0 < n <= rawLength
    ensures IntegrateSetup(rawLength, rawRate, rawStart, Some(Samples(n)), None)
         == Success(Config(rawLength / n, rawRate / n as real, FixedRate(n as real)))
    ensures FixedOffset(i, n as real) == i * n
  {
    FloorOfQuotient(rawLength, n);
    assert rawLength / n >= 1;
    IntegerStepOffset(i, n);
  }

  /** Without a step the whole stream becomes one output sample spanning every raw sample. */
  lemma WholeStreamSetup(rawLength: nat, rawRate: real, rawStart: real)
    requires rawRate > 0.0 && rawLength > 0
    ensures var c := IntegrateSetup(rawLength, rawRate, rawStart, None, None);
      c.Success? && c.value.length == 1
      && FixedOffset(0, c.value.mode.ratio) == 0 && FixedOffset(1, c.value.mode.ratio) == rawLength
  {
    FloorOfQuotient(rawLength, rawLength);
    FixedOffsetZero(rawLength as real);
    IntegerStepOffset(1, rawLength);
  }

  /**
   * Ten raw samples in three output samples (10/3 raw samples each): with rounding half to even
   * the edges are 0, 3, 7, 10, so the bins hold 3, 4 and 3 samples.
   */
  lemma TenSamplesInThreeBins()
    ensures FixedOffsets(FrameSamples(0, 3), 10.0 / 3.0) == [0, 3, 7, 10]
    ensures Widths([0, 3, 7, 10]) == [3, 4, 3]
  {
    var s := FrameSamples(0, 3);
    assert s == [0, 1, 2, 3];
    assert (10.0 / 3.0).Floor == 3;
    assert (2.0 * (10.0 / 3.0)).Floor == 6;
    assert (3.0 * (10.0 / 3.0)).Floor == 10;
    RoundOfInteger(0);
  }
}

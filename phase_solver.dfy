/**
 * The phase-driven offset search of `Integrate._get_offsets` (integration.py:218-234), one loop
 * pass at a time. For every requested output sample it looks for the raw offset whose phase is
 * within half an estimated raw sample of the sample's target phase, starting from the offset
 * and phase where the previous search ended.
 */
module PhaseSolver {
  import opened Rounding

  /** The rounded number of raw samples by which `phase` falls short of `target`. */
  function Correction(target: real, phase: real, scale: real): int
  {
    RoundHalfEven((target - phase) * scale)
  }

  /** A correction of 0 means the phase lies within half an estimated raw sample of the target. */
  lemma ZeroCorrectionIsNear(target: real, phase: real, scale: real)
    ensures Correction(target, phase, scale) == 0 <==> -0.5 <= (target - phase) * scale <= 0.5
  {
    RoundsToZero((target - phase) * scale);
  }

  /** Target phase of each requested output sample: start + sample * step. */
  function Targets(start: real, step: real, samples: seq<int>): (r: seq<real>)
    ensures |r| == |samples|
  {
    seq(|samples|, i requires 0 <= i < |samples| => start + samples[i] as real * step)
  }

  /**
   * One state of the loop: the offsets, the pending corrections (`check`; non-zero is `mask`),
   * the phase at each offset, and the phases evaluated in the latest pass (`ih_phase`).
   */
  datatype Search = Search(offsets: seq<int>, check: seq<int>, phases: seq<real>, evaluated: seq<real>)

  predicate Sized(s: Search, n: nat)
  {
    |s.offsets| == n && |s.check| == n && |s.phases| == n
  }

  /** Before the loop: every offset is the last one found, its phase the last one found. */
  function Begin(targets: seq<real>, lastOffset: int, lastPhase: real, scale: real): (s: Search)
    ensures Sized(s, |targets|) && s.evaluated == []
  {
    var n := |targets|;
    Search(seq(n, _ => lastOffset),
           seq(n, i requires 0 <= i < n => Correction(targets[i], lastPhase, scale)),
           seq(n, _ => lastPhase),
           [])
  }

  /** `np.any(mask)`. */
  predicate Pending(check: seq<int>)
  {
    exists i :: 0 <= i < |check| && check[i] != 0
  }

  /** `np.nonzero(mask)`: the positions of the pending corrections, in increasing order. */
  function PendingIndices(check: seq<int>): (r: seq<nat>)
    ensures forall j :: 0 <= j < |r| ==> r[j] < |check| && check[r[j]] != 0
    ensures forall j, k :: 0 <= j < k < |r| ==> r[j] < r[k]
    ensures forall i :: 0 <= i < |check| && check[i] != 0 ==> i in r
  {
    if |check| == 0 then []
    else
      var n := |check|;
      PendingIndices(check[..n - 1]) + (if check[n - 1] != 0 then [n - 1] else [])
  }

  /**
   * `self.phase(ih_time)` for `offsets[mask]`: the phases of the still-pending offsets, in order.
   * The last of them belongs to the last pending element.
   */
  function MaskedPhases(phaseAt: int -> real, offsets: seq<int>, check: seq<int>): (r: seq<real>)
    requires |offsets| == |check|
    ensures |r| > 0 <==> Pending(check)
    ensures |r| > 0 ==> exists i :: 0 <= i < |check| && check[i] != 0 && r[|r| - 1] == phaseAt(offsets[i])
                                    && forall j :: i < j < |check| ==> check[j] == 0
  {
    if |check| == 0 then []
    else
      var n := |check|;
      var front := MaskedPhases(phaseAt, offsets[..n - 1], check[..n - 1]);
      assert Pending(check[..n - 1]) ==> Pending(check);
      front + (if check[n - 1] != 0 then [phaseAt(offsets[n - 1])] else [])
  }

  /** One more element: appended to both the pending positions and the evaluated phases when it is pending. */
  lemma MaskedPhasesStep(phaseAt: int -> real, offsets: seq<int>, check: seq<int>)
    requires |offsets| == |check| > 0
    ensures var n := |check|;
      MaskedPhases(phaseAt, offsets, check) ==
        MaskedPhases(phaseAt, offsets[..n - 1], check[..n - 1]) + (if check[n - 1] != 0 then [phaseAt(offsets[n - 1])] else [])
    ensures var n := |check|;
      PendingIndices(check) == PendingIndices(check[..n - 1]) + (if check[n - 1] != 0 then [n - 1] else [])
  {
  }

  /** Exactly the pending offsets are evaluated, each once, in the order of their positions. */
  lemma {:induction false} MaskedPhasesInOrder(phaseAt: int -> real, offsets: seq<int>, check: seq<int>)
    requires |offsets| == |check|
    ensures |MaskedPhases(phaseAt, offsets, check)| == |PendingIndices(check)|
    ensures forall j :: 0 <= j < |PendingIndices(check)| ==>
      MaskedPhases(phaseAt, offsets, check)[j] == phaseAt(offsets[PendingIndices(check)[j]])
  {
    if |check| > 0 {
      var n := |check|;
      var os, cs := offsets[..n - 1], check[..n - 1];
      MaskedPhasesInOrder(phaseAt, os, cs);
      MaskedPhasesStep(phaseAt, offsets, check);
      var m, f := MaskedPhases(phaseAt, offsets, check), MaskedPhases(phaseAt, os, cs);
      var p, q := PendingIndices(check), PendingIndices(cs);
      forall j | 0 <= j < |p| ensures m[j] == phaseAt(offsets[p[j]])
      {
        if j < |q| {
          assert m[j] == f[j] && p[j] == q[j] && os[q[j]] == offsets[q[j]];
        }
      }
    }
  }

  /**
   * One pass of the loop body (integration.py:224-230): every offset moves by its correction,
   * and only the pending ones get a new phase and a new correction.
   */
  function Pass(phaseAt: int -> real, targets: seq<real>, scale: real, s: Search): (r: Search)
    requires Sized(s, |targets|)
    ensures Sized(r, |targets|)
    ensures forall i :: 0 <= i < |targets| ==> r.offsets[i] == s.offsets[i] + s.check[i]
    ensures forall i :: 0 <= i < |targets| && s.check[i] != 0 ==>
      r.phases[i] == phaseAt(r.offsets[i]) && r.check[i] == Correction(targets[i], r.phases[i], scale)
    ensures forall i :: 0 <= i < |targets| && s.check[i] == 0 ==>
      r.offsets[i] == s.offsets[i] && r.phases[i] == s.phases[i] && r.check[i] == 0
    ensures r.evaluated == MaskedPhases(phaseAt, r.offsets, s.check)
  {
    var n := |targets|;
    var moved := seq(n, i requires 0 <= i < n => s.offsets[i] + s.check[i]);
    Search(moved,
           seq(n, i requires 0 <= i < n =>
             if s.check[i] != 0 then Correction(targets[i], phaseAt(moved[i]), scale) else 0),
           seq(n, i requires 0 <= i < n => if s.check[i] != 0 then phaseAt(moved[i]) else s.phases[i]),
           MaskedPhases(phaseAt, moved, s.check))
  }

  /** The search is consistent when each known phase is the phase at its offset and each correction is the one for that phase. */
  predicate Consistent(phaseAt: int -> real, targets: seq<real>, scale: real, s: Search)
  {
    && Sized(s, |targets|)
    && forall i :: 0 <= i < |targets| ==>
         s.phases[i] == phaseAt(s.offsets[i]) && s.check[i] == Correction(targets[i], s.phases[i], scale)
  }

  lemma BeginConsistent(phaseAt: int -> real, targets: seq<real>, lastOffset: int, lastPhase: real, scale: real)
    requires lastPhase == phaseAt(lastOffset)
    ensures Consistent(phaseAt, targets, scale, Begin(targets, lastOffset, lastPhase, scale))
  {
  }

  /**
   * A pass keeps the search consistent; an element whose correction was already 0 is neither
   * moved nor evaluated again.
   */
  lemma PassConsistent(phaseAt: int -> real, targets: seq<real>, scale: real, s: Search)
    requires Consistent(phaseAt, targets, scale, s)
    ensures Consistent(phaseAt, targets, scale, Pass(phaseAt, targets, scale, s))
    ensures forall i :: 0 <= i < |targets| && s.check[i] == 0 ==>
      Pass(phaseAt, targets, scale, s).offsets[i] == s.offsets[i] && Pass(phaseAt, targets, scale, s).check[i] == 0
  {
    var r := Pass(phaseAt, targets, scale, s);
    forall i | 0 <= i < |targets|
      ensures r.phases[i] == phaseAt(r.offsets[i]) && r.check[i] == Correction(targets[i], r.phases[i], scale)
    {
      if s.check[i] == 0 {
        assert r.offsets[i] == s.offsets[i];
      }
    }
  }

  /** When nothing is pending in a consistent search, every offset's phase is within half an estimated raw sample of its target. */
  lemma SettledIsNear(phaseAt: int -> real, targets: seq<real>, scale: real, s: Search)
    requires Consistent(phaseAt, targets, scale, s) && !Pending(s.check)
    ensures forall i :: 0 <= i < |targets| ==> -0.5 <= (targets[i] - phaseAt(s.offsets[i])) * scale <= 0.5
  {
    forall i | 0 <= i < |targets|
      ensures -0.5 <= (targets[i] - phaseAt(s.offsets[i])) * scale <= 0.5
    {
      ZeroCorrectionIsNear(targets[i], phaseAt(s.offsets[i]), scale);
    }
  }

  /** `self._last_phase = ih_phase[-1]` (integration.py:233): the last phase evaluated in the final pass. */
  function LastPhaseAsWritten(s: Search): real
    requires |s.evaluated| > 0
  {
    s.evaluated[|s.evaluated| - 1]
  }

  /** The phase at the last offset, which is what the next search measures its first corrections from. */
  function LastPhase(s: Search): (p: real)
    requires |s.phases| > 0
  {
    s.phases[|s.phases| - 1]
  }

  lemma LastPhaseIsAtLastOffset(phaseAt: int -> real, targets: seq<real>, scale: real, s: Search)
    requires Consistent(phaseAt, targets, scale, s) && |targets| > 0
    ensures LastPhase(s) == phaseAt(s.offsets[|targets| - 1])
  {
  }

  /** A phase that is 0 up to raw offset 1, 1 at offset 2, and equal to the offset beyond. */
  function KinkedPhase(o: int): real
  {
    if o < 2 then 0.0 else if o == 2 then 1.0 else o as real
  }

  lemma KinkedFirstPass()
    ensures var s1 := Pass(KinkedPhase, [1.0, 3.0], 1.0, Begin([1.0, 3.0], 0, 0.0, 1.0));
      s1.offsets == [1, 3] && s1.check == [1, 0]
  {
    RoundOfInteger(0); RoundOfInteger(1); RoundOfInteger(3);
    var s0 := Begin([1.0, 3.0], 0, 0.0, 1.0);
    assert s0.check == [1, 3] && s0.offsets == [0, 0];
    var s1 := Pass(KinkedPhase, [1.0, 3.0], 1.0, s0);
    assert s1.offsets == [1, 3];
  }

  lemma KinkedSecondPass(s1: Search)
    requires Sized(s1, 2) && s1.offsets == [1, 3] && s1.check == [1, 0]
    ensures var s2 := Pass(KinkedPhase, [1.0, 3.0], 1.0, s1);
      s2.offsets == [2, 3] && s2.check == [0, 0] && s2.evaluated == [1.0] && s2.phases[1] == s1.phases[1]
  {
    RoundOfInteger(0);
    var s2 := Pass(KinkedPhase, [1.0, 3.0], 1.0, s1);
    assert s2.offsets == [2, 3];
    assert MaskedPhases(KinkedPhase, [2], [1]) == [1.0];
    assert [2, 3][..1] == [2] && [1, 0][..1] == [1];
  }

  /**
   * Targets 1 and 3 (scale 1) from offset 0 with phase 0, for KinkedPhase: the last element
   * settles in the first pass at offset 3 (phase 3), the first one only in the second pass at
   * offset 2 (phase 1). As written the stored phase is then 1 while the stored offset is 3, so a
   * later search for target 1 finds a correction of 0 at offset 3 and never moves; measured
   * from the phase at offset 3 the correction is -2.
   */
  lemma LastPhaseAsWrittenMismatch()
    ensures var s2 := Pass(KinkedPhase, [1.0, 3.0], 1.0, Pass(KinkedPhase, [1.0, 3.0], 1.0, Begin([1.0, 3.0], 0, 0.0, 1.0)));
      && !Pending(s2.check)
      && s2.offsets == [2, 3]
      && |s2.evaluated| > 0 && LastPhaseAsWritten(s2) == 1.0 && KinkedPhase(3) == 3.0
      && LastPhase(s2) == 3.0
      && Correction(1.0, LastPhaseAsWritten(s2), 1.0) == 0
      && Correction(1.0, KinkedPhase(3), 1.0) == -2
  {
    RoundOfInteger(0); RoundOfInteger(-2);
    KinkedSearch();
  }

  /** The two passes of the search for targets 1 and 3 from offset 0 with KinkedPhase. */
  lemma KinkedSearch()
    ensures var s2 := Pass(KinkedPhase, [1.0, 3.0], 1.0, Pass(KinkedPhase, [1.0, 3.0], 1.0, Begin([1.0, 3.0], 0, 0.0, 1.0)));
      s2.check == [0, 0] && s2.offsets == [2, 3] && s2.evaluated == [1.0] && s2.phases[1] == 3.0
  {
    var s0 := Begin([1.0, 3.0], 0, 0.0, 1.0);
    BeginConsistent(KinkedPhase, [1.0, 3.0], 0, 0.0, 1.0);
    KinkedFirstPass();
    var s1 := Pass(KinkedPhase, [1.0, 3.0], 1.0, s0);
    PassConsistent(KinkedPhase, [1.0, 3.0], 1.0, s0);
    KinkedSecondPass(s1);
    assert s1.phases[1] == KinkedPhase(3);
  }
}

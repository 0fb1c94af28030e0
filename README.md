# Integration, folding and stacking of sample streams

This project models the integration engine of `scintillometry/integration.py` and proves
properties of the model. The engine turns a time-ordered stream of raw samples into a shorter
stream. Each output sample sums, or averages, the raw samples between two bin edges in the
underlying stream, and records how many there were.

- `Integrate` places the edges in one of two ways. It uses a fixed number of raw samples per
  output sample, rounded half to even. Or it uses a phase function, and then an iterative search
  finds each edge, carrying on from the edge where the previous search stopped.
- `Fold` splits each output sample further into `nPhase` phase bins. Every raw sample of a frame
  is added, one at a time, to the cell of its time sub-bin and its phase bin.
- `Stack` integrates over bins of `1/nPhase` cycle and regroups every `nPhase` bins into one
  pulse profile.

Frames are read one at a time. `_read_frame` resolves the edges and seeks to the first edge. It
rebases the edges so that the first is 0, and zeroes the sum and count buffers. It then reads
exactly up to the last edge. The reader delivers that read in pieces of its own choosing, and
`_integrate` adds each piece to the bins it overlaps. In averaging mode each sum is finally
divided by its count.

Module layout, following the source:

| file | module | models |
|---|---|---|
| `common.dfy` | `Common` | option, result and error values |
| `rounding.dfy` | `Rounding` | numpy's round-half-to-even |
| `sums.dfy` | `Sums` | sums of sample values, clipping |
| `edges.dfy` | `Edges` | fixed-rate offsets, frame edges, `searchsorted`, per-bin widths and sums |
| `setup.dfy` | `Setup` | the arithmetic of `Integrate.__init__` |
| `frames.dfy` | `Frames` | output dtype, finalisation of a frame, reshaping into rows |
| `segments.dfy` | `Segments` | how `IntegrateBase._integrate` splits one slice over the bins; `np.add.reduceat` |
| `phase_solver.dfy` | `PhaseSolver` | one pass of the phase-driven search of `_get_offsets` |
| `stream.dfy` | `Streams` | the underlying reader: seek, tell, time and piecewise reads |
| `integrate.dfy` | `Integration` | class `Integrate` (with `IntegrateBase`) |
| `fold_cells.dfy` | `FoldCells` | the phase bin, the time sub-bin and the cell arithmetic of `Fold._integrate` |
| `fold.dfy` | `Folding` | class `Fold` |
| `stack.dfy` | `Stacking` | class `Stack` |

The objects whose fields the source updates in place are classes:
- `Integrate`: `_last_offset`, `_last_phase`, `_offsets`, `_result`, `_count` and the memoised stop time;
- `Fold`: the same buffers as two-dimensional arrays, and `_raw_time`;
- `RawStream`: the reader's position.

`_integrate` and `Fold._integrate` add into `array`s in place. The search loop of `_get_offsets`
and the piecewise read are `while` loops. Fixed-rate offsets, the constructor arithmetic, the
reshape and the search's single pass are functions.

The `_FakeOutput` callback sink becomes `RawStream.ReadPiece`. Each call delivers the next
stretch of raw samples, of a length chosen by the reader's `chunk` function (at least one
sample, at most what is left). The frame's read loop integrates each stretch as it comes, so
the calls cover `[0, offsets[-1])` without gaps or overlaps, whatever `chunk` is.

Two consequences of the code worth stating:
- Fixed-rate edges are rounded half to even, so ten raw samples in three bins get edges
  0, 3, 7, 10, and the bins hold 3, 4 and 3 samples.
- `Stack._read_frame` calls the phased integration's `_read_frame`, which already divides by
  the counts in averaging mode, so stacked frames are finalised exactly like phased frames.

## Model

| member | source | states |
|---|---|---|
| Rounding.RoundHalfEven | scintillometry/integration.py:215-216 | `np.round`: the result is within half a unit of its argument, and an exact tie goes to the even neighbour |
| Rounding.RoundOfInteger | scintillometry/integration.py:215-216 | an integral value rounds to itself |
| Rounding.RoundMonotone | scintillometry/integration.py:215-216 | rounding never reverses the order of two values |
| Rounding.RoundsToZero | scintillometry/integration.py:220-222 | exactly the values in [-0.5, 0.5] round to 0, so the mask `check != 0` is false just there |
| Edges.FixedOffsetZero | scintillometry/integration.py:212-216 | the fixed-rate offset of output sample 0 is raw offset 0 |
| Edges.FixedOffsetMonotone | scintillometry/integration.py:212-216 | fixed-rate offsets are non-decreasing in the output sample index |
| Edges.IntegerStepOffset | scintillometry/integration.py:178-181 | with an integer step of n raw samples, output sample i starts exactly at raw sample i * n |
| Edges.FrameEdgesSorted | scintillometry/integration.py:68-70 | the `samples_per_frame + 1` edges of a frame (output samples frameIndex * spf .. frameIndex * spf + spf) are non-decreasing |
| Edges.FrameSamples | scintillometry/integration.py:68-69 | a frame needs `samples_per_frame + 1` output sample indices |
| Edges.Rebase | scintillometry/integration.py:72 | after `offsets -= offsets[0]` the first edge is 0 and every edge is its original minus the first |
| Edges.RebaseSorted | scintillometry/integration.py:72 | rebasing keeps the edges' order, in both directions |
| Edges.EdgesWithinStream | scintillometry/integration.py:190 | for floor(length / ratio) output samples, every edge, the closing one included, lies in [0, length] |
| Edges.SearchSorted | scintillometry/integration.py:115-116 | `np.searchsorted` by bisection: every entry before the result precedes x under the side rule, no entry from the result on does |
| Edges.WidthsTelescope | scintillometry/integration.py:127 | the bin widths (`np.diff`) add up to the last edge minus the first |
| Edges.BinSumsTelescope | scintillometry/integration.py:126 | the per-bin sums add up to the sum of every raw sample from the first edge to the last |
| Setup.Trunc | scintillometry/integration.py:190 | Python's `int()` of a float truncates toward zero, for either sign |
| Setup.IntegrateSetup | scintillometry/integration.py:173-200 | `Integrate.__init__`: fixed-rate mode exactly when there is no phase function. Its ratio is the step in samples, the step in time times the raw rate, or the stream's length without a step, with length floor(rawLength / ratio) and rate rawRate / ratio. A phase-driven setup has the given step w, rate 1 / w, start phase phi(start), length int((phi(stop) - phi(start)) / w) and scale (rawLength / length) / w. Each mode fails with an invalid step exactly when the ratio or w is not positive, and with zero length exactly when the length would be 0 or less; the source fails only on a zero step or a zero length (see Left out). A phase function without a step in phase fails with a unit mismatch |
| Setup.FixedSetup | scintillometry/integration.py:175-190 | without a phase function: ratio, length and rate from the step; it fails with an invalid step exactly when the ratio is not positive and with zero length exactly when the floored length is not positive (the source fails only on a zero step or a zero length; see Left out) |
| Setup.PhaseSetup | scintillometry/integration.py:183-200 | with a phase function: step w, rate 1 / w, length from the phases at the stream's start and stop, a positive scale (rawLength / length) / w; it fails with an invalid step exactly when w is not positive and with zero length exactly when the truncated length is not positive (the source fails only on a zero step or a zero length; see Left out) |
| Setup.FixedEdgesInStream | scintillometry/integration.py:204-207 | without a phase function, the offset of every output sample up to `shape[0]` lies in the stream, so the seek of `stop_time` succeeds |
| Setup.IntegerStepSetup | scintillometry/integration.py:178-183 | an integer step of n raw samples gives rawLength / n output samples at rawRate / n, with output sample i at raw sample i * n |
| Setup.WholeStreamSetup | scintillometry/integration.py:175-176 | without a step the whole stream is one output sample, with edges 0 and rawLength |
| Setup.TenSamplesInThreeBins | scintillometry/integration.py:215-216 | ten raw samples in three output samples give edges 0, 3, 7, 10 and widths 3, 4, 3 |
| Frames.OutputLayout | scintillometry/integration.py:47-51 | without a dtype, averaging keeps the input's element type and summing gets a `(data, count)` record; a given dtype is kept |
| Frames.DefaultLayoutFits | scintillometry/integration.py:82-88 | the default dtype always suits the averaging mode |
| Frames.Finalize | scintillometry/integration.py:93-94 | averaging gives sum / count (value times count is the sum), or NaN (None) exactly when the count is 0; summing gives the sum and the count unchanged |
| Frames.TotalsGiveAverage | scintillometry/integration.py:93-94 | where the count is not 0, data / count of the summed record is the averaged value |
| Frames.Rows | scintillometry/integration.py:376 | `reshape` gives `rows` rows, each `width` long |
| Frames.RowsAt | scintillometry/integration.py:376 | row i, column j of the reshaped frame is element i * width + j of the flat frame |
| Frames.RowsRoundTrip | scintillometry/integration.py:376 | flattening the reshaped rows gives the frame back |
| Segments.Cuts | scintillometry/integration.py:121-123 | the cut points of a slice lie in [0, stop - start] and stay sorted when the edges are |
| Segments.SliceTotals | scintillometry/integration.py:126-127 | one slice adds its own length to the counts and its own samples to the sums, in total over all bins |
| Segments.UntouchedBins | scintillometry/integration.py:109-114 | a bin gets a non-empty share exactly when it overlaps the slice (`offsets[b+1] > start` and `offsets[b] < stop`); a bin outside the slice gets nothing |
| Segments.TouchedBins | scintillometry/integration.py:115-123 | with the two searches' `start` and `stop`, the slice touches bins start..stop-1 (at least one), and `indices` are the cut points of exactly those bins |
| Segments.SliceIndices | scintillometry/integration.py:121-123 | `indices` has one entry more than the touched bins, starting at 0 and ending at stop - start |
| Segments.SearchedBins | scintillometry/integration.py:115-127 | for the bins the searches select, the counts and sums computed from `indices` are each bin's share of the slice; every other bin gets 0 |
| Segments.SliceShares | scintillometry/integration.py:121-127 | the shares of the touched bins come from `indices`, and every other bin's share is empty |
| Segments.PrefixExtends | scintillometry/integration.py:126-127 | for one bin, its share of raw samples 0..d plus its share of d..d2 is its share of 0..d2 |
| Segments.ReadNothing | scintillometry/integration.py:80-85 | before anything is read every bin holds count 0 and sum 0 |
| Segments.ReadExtends | scintillometry/integration.py:92 | integrating the next piece d..d2 on top of the state after d samples gives the state after d2 samples |
| Segments.ReadComplete | scintillometry/integration.py:92 | after the whole frame has been read every bin holds its width and the total of its raw samples |
| Segments.WholeFrameCuts | scintillometry/integration.py:121-123 | for a slice covering the whole frame, the cut points are the edges themselves |
| Segments.FrameBin | scintillometry/integration.py:72-92 | bin b of a frame read from edge 0 to the last edge has width edges[b+1] - edges[b] and the total of the stream's samples between those edges |
| Segments.ReduceAt | scintillometry/integration.py:126 | `np.add.reduceat` gives one entry per index |
| Segments.ReduceAtOnStrictCuts | scintillometry/integration.py:126 | on strictly increasing cut points, reduceat gives exactly the per-bin sums |
| Segments.ReduceAtZeroWidthBin | scintillometry/integration.py:126 | a zero-width bin inside a slice gets a sample from reduceat, so the sums exceed the slice; the per-bin sums give it 0 |
| PhaseSolver.ZeroCorrectionIsNear | scintillometry/integration.py:220-222 | a correction is 0 exactly when the phase lies within half an estimated raw sample of the target |
| PhaseSolver.Targets | scintillometry/integration.py:218 | one target phase per requested output sample |
| PhaseSolver.Begin | scintillometry/integration.py:219-222 | the search starts with no phase evaluated and one offset, correction and phase per target |
| PhaseSolver.PendingIndices | scintillometry/integration.py:222 | `mask`'s true positions: every pending position, each once, in increasing order, and nothing else |
| PhaseSolver.MaskedPhases | scintillometry/integration.py:226-227 | phases are evaluated exactly when some correction is pending, and the last one evaluated is the phase at the last pending element's offset |
| PhaseSolver.MaskedPhasesInOrder | scintillometry/integration.py:226-227 | exactly the pending offsets are evaluated, one phase each, in the order of their positions |
| PhaseSolver.Pass | scintillometry/integration.py:224-230 | one pass moves every offset by its correction; a pending element gets the phase at its new offset and the correction from that phase, a settled one keeps its offset and phase with correction 0; the evaluated phases are those of the pending elements at their new offsets, in order |
| PhaseSolver.BeginConsistent | scintillometry/integration.py:219-222 | the initial corrections are measured from the phase at the starting offset |
| PhaseSolver.PassConsistent | scintillometry/integration.py:224-230 | after a pass every phase is the phase at its offset and every correction is the one for that phase; an element whose correction was 0 keeps its offset and stays settled |
| PhaseSolver.SettledIsNear | scintillometry/integration.py:223-230 | when the loop exits, every offset's phase is within half an estimated raw sample of its target |
| PhaseSolver.LastPhaseIsAtLastOffset | scintillometry/integration.py:232-233 | the stored phase is the phase at the stored last offset |
| PhaseSolver.LastPhaseAsWrittenMismatch | scintillometry/integration.py:233 | as written, the stored phase can differ from the phase at the stored offset; the next search then sees a correction of 0 where the true one is -2 |
| Streams.RawStream.Tell | scintillometry/integration.py:205 | `ih.tell()` returns the current position |
| Streams.RawStream.Seek | scintillometry/integration.py:71 | `ih.seek` moves to exactly the positions inside the stream and refuses the others, keeping the position |
| Streams.RawStream.ReadPiece | scintillometry/integration.py:92 | one piece of a read: the next 1..n samples from the position, and the position advances past them |
| Integration.Integrate.constructor | scintillometry/integration.py:173-200 | takes length, rate and mode from the setup; the search starts at offset 0 and the stream's start time, or its phase |
| Integration.Integrate.IntegrateSlice | scintillometry/integration.py:98-128 | `_integrate` with the corrected per-bin sums of finding 1: each bin's count grows by its overlap with the slice and its sum by the samples in that overlap (line 126's reduceat differs on a zero-width inner bin); nothing else changes |
| Integration.Integrate.AddShares | scintillometry/integration.py:126-127 | `+=` on bins first..first+len-1 adds the given widths and sums there and leaves the other bins unchanged |
| Integration.Integrate.ReadAll | scintillometry/integration.py:91-92 | reading a frame in the reader's own pieces leaves every bin with its width and, with the corrected sums of finding 1, the total of its raw samples, and the position at the last edge |
| Integration.Integrate.ReadNext | scintillometry/integration.py:92 | one more piece moves the position forward and keeps the state equal to that after the samples read so far, built on the corrected sums of finding 1 |
| Integration.Integrate.ReadSlice | scintillometry/integration.py:98-127 | integrating samples s..t on top of the state after s samples gives the state after t samples, with the corrected sums of finding 1 |
| Integration.Integrate.ResolvePhase | scintillometry/integration.py:218-233 | on success, every offset's rounded correction toward its target is 0 and the stored last offset is the last one, with the phase there stored beside it (the corrected line 233 of finding 3); it fails with no phase evaluated exactly when the first corrections are all 0, and a failure leaves the stored state unchanged |
| Integration.Integrate.GetOffsets | scintillometry/integration.py:212-234 | fixed-rate offsets without a phase function, with the stored state unchanged; with one, settled offsets, searched from the stored offset and the phase at it (the corrected line 233 of finding 3) |
| Integration.Integrate.GetOffset | scintillometry/integration.py:234 | a single sample gives a single offset: the fixed-rate one, or one whose correction toward the sample's target phase is 0, searched from the corrected stored phase of finding 3 |
| Integration.Integrate.ReadFrame | scintillometry/integration.py:56-96 | `_read_frame`: in fixed-rate mode the edges are the frame's offsets, and the read succeeds exactly when they lie in the stream and the dtype fits; on success each output sample is the finalised sum over exactly the raw samples between its edges, with its width as count (the corrected sums of finding 1). A phase-driven read leaves the stored offset at the frame's last edge, where the next frame's search starts; a fixed-rate read leaves it alone; the stop-time memo is kept |
| Integration.Integrate.IntegrateFrame | scintillometry/integration.py:71-96 | seeks to the first edge, rebases, reads up to the last edge, and succeeds exactly when the edges lie in the stream, the dtype fits and (a guard the source does not have) the edges are sorted; then every bin holds its width and its total (the corrected sums of finding 1), finalised |
| Integration.Integrate.StopTime | scintillometry/integration.py:202-210 | `stop_time`: the time at the offset of the sample just past the end, memoised; the reader's position is restored on every path |
| FoldCells.FloorMod | scintillometry/integration.py:313-314 | Python's float `%` with a positive modulus n lies in [0, n) |
| FoldCells.PhaseIndex | scintillometry/integration.py:313-314 | the phase bin always lies in [0, nPhase) |
| FoldCells.PhaseIndexOfFraction | scintillometry/integration.py:313-314 | the phase bin is floor(nPhase times the fractional part of the phase in cycles) |
| FoldCells.PhaseIndexPeriodic | scintillometry/integration.py:313-314 | a whole cycle later a sample falls in the same phase bin |
| FoldCells.PrecedingSplits | scintillometry/integration.py:309 | in sorted edges, the entries that precede x under the side rule are exactly the first `Preceding` ones |
| FoldCells.SearchIsPreceding | scintillometry/integration.py:309 | the bisection's index equals the count of preceding edges |
| FoldCells.SubBinContains | scintillometry/integration.py:309 | with side 'right' a raw sample lands in the sub-bin whose edges bracket it |
| FoldCells.SubBinUnique | scintillometry/integration.py:309 | the bracketing sub-bin is the only one side 'right' can give |
| FoldCells.SubBinOnEdge | scintillometry/integration.py:309 | for any inner edge e[b+1] strictly between its neighbours, side 'left' (as written) puts the raw sample on it in sub-bin b, while side 'right' puts it in b + 1 |
| FoldCells.SingleSubBin | scintillometry/integration.py:306-307 | with one sample per frame every raw sample is in sub-bin 0 |
| FoldCells.CellAppend | scintillometry/integration.py:317-318 | one more raw sample adds 1 and its value to its own cell and nothing to any other |
| FoldCells.CellsConcat | scintillometry/integration.py:317-318 | folding two stretches one after the other adds their per-cell counts and sums |
| FoldCells.RowAppend | scintillometry/integration.py:317-318 | one more raw sample adds to exactly one phase bin of its row |
| FoldCells.RowPartition | scintillometry/integration.py:313-318 | the phase bins of a row partition its sub-bin: they add up to the sub-bin's count and total |
| FoldCells.SubRange | scintillometry/integration.py:309 | a sub-bin holding exactly the raw samples lo..hi-1 counts hi - lo of them and sums them |
| FoldCells.FrameRow | scintillometry/integration.py:303-318 | with the bracketing sub-bin rule, row b holds over its phase bins exactly the raw samples from edge b to edge b + 1 |
| FoldCells.PhaseBinOf | scintillometry/integration.py:312-314 | the phase bin of raw sample k, from the phase at its time, lies in [0, nPhase) |
| FoldCells.CellsOf | scintillometry/integration.py:305 | one cell per raw sample of the stretch |
| FoldCells.CellsSplit | scintillometry/integration.py:303-318 | the cells of adjacent stretches of a frame follow one another |
| FoldCells.CellsAt | scintillometry/integration.py:305-314 | the i-th cell of a stretch is the cell of its i-th raw sample |
| Folding.Fold.constructor | scintillometry/integration.py:278-290 | builds a fixed-rate integrator for the same step and takes over its length and rate |
| Folding.Fold.FoldSlice | scintillometry/integration.py:303-318 | `_integrate`: cells holding the counts and sums of the frame's first s raw samples end up holding those of its first t |
| Folding.Fold.FoldOne | scintillometry/integration.py:305-318 | one raw sample goes into the cell of its phase bin and of its sub-bin under the corrected side 'right' (finding 2; line 309 uses 'left') |
| Folding.Fold.SearchSubBin | scintillometry/integration.py:306-309 | the sub-bin is 0 with one sample per frame, and otherwise the one whose edges bracket the sample: the corrected side 'right' of finding 2, where line 309 uses 'left' |
| Folding.Fold.AddAt | scintillometry/integration.py:317-318 | one element of `np.add.at`: count plus 1 and sum plus the value in that cell |
| Folding.Fold.ReadAll | scintillometry/integration.py:91-92 | reading a frame in the reader's own pieces leaves every cell with the count and total of the raw samples that fall in it |
| Folding.Fold.ReadNext | scintillometry/integration.py:92 | one more piece moves the position forward and keeps every cell equal to the fold of the samples read so far |
| Folding.Fold.ReadFrame | scintillometry/integration.py:292-298 | finds the time of the frame's first raw sample, and then succeeds exactly when the frame's fixed-rate edges lie in the stream and the dtype fits; with the corrected side 'right' sub-bins (finding 2), row b then holds exactly the integrator's output sample b, spread over its phase bins; the integrator's stored offset, phase and stop-time memo are untouched |
| Folding.Fold.FoldFrame | scintillometry/integration.py:71-96 | `IntegrateBase._read_frame` for folding: every cell holds its count and total, and every cell is finalised; with the corrected side 'right' sub-bins (finding 2), row b adds up to the raw samples between edges b and b + 1 |
| Folding.Fold.Finish | scintillometry/integration.py:93-94 | the frame's output: every cell's finalised sum, in `samples_per_frame` rows of `nPhase` |
| Folding.Fold.FrameRows | scintillometry/integration.py:303-318 | with the corrected side 'right' sub-bins (finding 2), every row of a folded frame adds up, over its phase bins, to the integrator's output sample: count edges[b+1] - edges[b] and the total of those raw samples |
| Stacking.Stack.constructor | scintillometry/integration.py:359-371 | the phased integration has bins of 1/nPhase cycle and nPhase times as many samples per frame; there are `phased.length // nPhase` profiles at `phased.sample_rate / nPhase` |
| Stacking.Stack.ReadFrame | scintillometry/integration.py:373-376 | a stacked frame is the phased frame reshaped: `samples_per_frame` profiles of nPhase bins that, laid end to end, are the phased frame, each bin the finalised total between its phased edges (the corrected sums of finding 1); the phased integration's stored offset ends at the frame's last edge and its stop-time memo is kept |
| Stacking.Stack.StopTime | scintillometry/integration.py:378-380 | the stop time is the phased integration's |

## Left out

- Units (astropy `Quantity` and `Time`) and floating point: rates, times and phases are exact reals, and the phase function is an arbitrary `real -> real`. No float rounding error is modelled, only numpy's explicit round-half-to-even.
- Sample values are unbounded integers with one scalar per position, so dtype overflow is not modelled. Multi-dimensional `sample_shape` and the broadcasting of counts (integration.py:84-85, 127-128) are not modelled either.
- `_FakeOutput`'s shape mimicry (integration.py:16-36) is not modelled. Only its role as the sink of one read is kept, as the piecewise read loop.
- `BaseTaskBase` (its `read`, `seek`, `tell` and `time`) is not part of this model. `RawStream` stands in for it with the behaviour the engine relies on.
- Integration.Integrate.ResolvePhase: the source's loop has no bound. The model stops after `maxPasses` passes with `NotConverged`, so a search needing more passes is not modelled.
- Integration.Integrate.ResolvePhase: on success it stores the phase at the last offset, the corrected line 233 of finding 3, not `ih_phase[-1]`. `Valid()` keeps the stored phase equal to the phase at the stored offset, which holds only for that corrected state.
- Integration.Integrate.GetOffsets: with a phase function, its settled offsets are searched from the corrected stored phase (finding 3). The source's searches after one where the last element settled early start from a stale phase, and the model does not promise what they return.
- Integration.Integrate.GetOffset: the same as Integration.Integrate.GetOffsets; the single offset is searched from the corrected stored phase of finding 3.
- Integration.Integrate.IntegrateFrame: fails with `UnsortedEdges` when the resolved edges decrease somewhere. The source has no such check and goes on to search unsorted edges, giving meaningless sums and possibly negative counts. The guard is there because `searchsorted` is only specified on sorted edges. Fixed-rate edges are always sorted (`Edges.FrameEdgesSorted`), so only phase-driven frames can reach it.
- Integration.Integrate.IntegrateSlice: adds the corrected per-bin sums of finding 1, where integration.py:126 uses `np.add.reduceat`, which gives a zero-width bin inside the slice the sample at its index instead of 0. So do Integration.Integrate.ReadSlice, Integration.Integrate.ReadNext, Integration.Integrate.ReadAll, Integration.Integrate.ReadFrame, Integration.Integrate.IntegrateFrame and Stacking.Stack.ReadFrame. Their contracts give every bin the total of its own raw samples. In the source, a zero-width inner bin gets a stray sample (an infinite average over a zero count), depending on how the reader splits the read. The as-written sums are modelled only by `Segments.ReduceAt` and `Segments.ReduceAtZeroWidthBin`.
- Setup.IntegrateSetup: fails with `InvalidStep` on a negative step and with `ZeroLength` on a negative length, and so do Setup.FixedSetup and Setup.PhaseSetup. integration.py:173-200 checks neither. It fails only on a zero step (`int` of an infinite length) or a zero length (the division at line 197). A negative step there builds an object with a negative shape; with a phase function that decreases over the stream, it builds a working one. The model refuses both, because its offsets, bins and phase search are stated for a positive step and a positive length.
- Folding.Fold.SearchSubBin: implements the corrected side 'right' of finding 2, where integration.py:309 uses numpy's default 'left'. So do Folding.Fold.FoldOne, Folding.Fold.FoldSlice, Folding.Fold.ReadAll, Folding.Fold.ReadNext, Folding.Fold.ReadFrame, Folding.Fold.FoldFrame, Folding.Fold.FrameRows, FoldCells.CellsOf and FoldCells.CellsAt, which place samples with `SubBinOf`. In the source, with more than one sample per frame, the raw sample on each inner edge goes to the earlier row, so its rows do not match the integrator's output samples as these contracts state. The as-written rule is modelled only by `FoldCells.SubBin` with side 'left' and `FoldCells.SubBinOnEdge`.
- Integration.Integrate.ReadFrame: with a phase function, the contract does not say when the read succeeds. It states only what a successful read returns, because that depends on whether the search settles.
- Integration.Integrate.StopTime: with a phase function, the contract does not say when the lookup succeeds. It states what a successful one returns.
- Stacking.Stack.StopTime: the same as Integration.Integrate.StopTime.
- Folding.Fold.ReadFrame: the integrator is always fixed-rate (the source builds it without a phase function), so the phase-driven branch of `Fold._get_offsets` (integration.py:300-301) never arises.
- The phase search's error when no phase was evaluated stands for the exception the source raises at integration.py:232-233, where `offsets` is still a scalar and `ih_phase` is unbound.
- The averaging mode's NaN for an empty bin is `None`.

## Findings

| source | as written | input that shows it | evidently intended | confidence | as-written member | corrected member |
|---|---|---|---|---|---|---|
| scintillometry/integration.py:126 | `np.add.reduceat(data, indices[:-1])` gives a zero-width bin inside the slice the sample `data[i]` instead of 0 | slice [0, 2) with samples 5, 7 and edges 0, 1, 1, 2: the sums are 5, 7, 7 (19) while the counts are 1, 0, 1 | each bin gets the total of its own samples: 5, 0, 7 (12) | not executed; high | Segments.ReduceAtZeroWidthBin | Segments.SearchedBins |
| scintillometry/integration.py:309 | `np.searchsorted(self._offsets[1:], raw_items)` uses side 'left', so a raw sample exactly on an inner edge goes to the earlier time sub-bin | edges 0, 2, 4: raw sample 2 lands in sub-bin 0, although `Integrate` counts it in bin 1 | side 'right', so that row b holds the raw samples from edge b up to edge b + 1, as `_integrate` bins them | not executed; high | FoldCells.SubBinOnEdge | Folding.Fold.FrameRows |
| scintillometry/integration.py:233 | `self._last_phase = ih_phase[-1]` is the last phase evaluated in the final pass, which belongs to the last still-pending element, not to `offsets[-1]` | targets 1 and 3 from offset 0 with a phase of 0 below offset 2, 1 at 2 and the offset itself beyond: the last element settles at 3 in the first pass, the first at 2 in the second, so the stored phase is 1 while the stored offset is 3 | the phase at `offsets[-1]`, which the next search measures its first corrections from | not executed; medium | PhaseSolver.LastPhaseAsWrittenMismatch | PhaseSolver.LastPhaseIsAtLastOffset |

# Artificial ECG: a verified model of the synthesis and analysis core

This project models the numerical core of an artificial-ECG generator. The
generator is a Python and PyQt application. The model covers five parts:

- **Cycle synthesis** (`cycle_model.dfy`, module `Cycle`).
  - One heart cycle is sampled at 2048 Hz on an `np.arange` grid.
  - Each pulse of the insertion-ordered wave dictionary (P, Q, R, S, ST, T) is an asymmetric Gaussian: amplitude, mean, left spread and right spread.
  - `construct_cycle` writes each pulse over a zero array as two slice assignments. It stores the pulse's sample edges back into slots 4 to 7 of its parameter list.
  - `get_t_lims` derives the limits a pulse may not cross from its neighbours' stored edges.
  - `find_range_mu`, `find_range_b1` and `find_range_b2` scan for the slider ranges that keep a pulse inside those limits.
  - `fh_normalization` rescales every timing slot to a new heart rate.
- **Sequences** (`cycle_sequence.dfy`, module `Sequence`; `legacy_sequence.dfy`, module `LegacySequence`).
  - One cycle is tiled `n` times with the duplicated seam sample dropped.
  - `alternate_t` re-synthesises the T wave of every beat in place, with a scale factor that alternates between `1 + alt/a` and 1.
  - The older sequence class shares the wave dictionary with its cycle. Its `construct_cycle` reads an attribute it never sets.
- **Filters** (`filtering.dfy`, module `Filtering`): the exponential filter and the running moving average.
- **Phase portraits** (`phase_space.dfy`, module `Phase`).
  - The phase window keeps the list of opened cycles and their concatenation.
  - It differentiates each cycle with a seven-point stencil over three-sample zero padding.
  - It plots the signal against itself delayed by `tau` samples.
- **Dominant cycle** (`dominant_cycle.dfy`, module `Dominant`).
  - Each cycle's portrait is min-max scaled.
  - The symmetric Hausdorff distance of every pair of portraits is tabulated.
  - The dominant cycle is the numpy argmin of the column sums.
- **Main window** (`main_window.dfy`, module `Shell`).
  - `open_file` tokenises the text of a signal file.
  - The heart-rate spinbox handler rescales, rebuilds the cycle model, recomputes the slider ranges and re-synthesises.

Three modules are shared:

- `common.dfy` (`Common`): numpy's `ceil`, `min`, `max` and `argmin`, plus the `Result` and `Error` types. `Error` covers the Python exceptions the code can raise: KeyError, IndexError, AttributeError, ZeroDivisionError, ValueError and TypeError.
- `slices.dfy` (`Slices`): Python slice semantics and slice assignment.
- `sample_grid.dfy` (`SampleGrid`): the sampling grid and numpy's nearest-sample `argmin`.

Objects that the Python code updates in place are classes:

- `WaveTable` is the wave dictionary, shared by reference between models.
- `CycleModel`, `CycleSequence`, the legacy `LegacySequence`, `PhaseWindow` and `MainWindow`.

Every `for` loop of the source is a `while` loop carrying invariants (the list comprehensions of `open_file` are the recursive functions `Shell.StripSpaces` and `Shell.DropEmpty`):

- the loop over the dictionary in `construct_cycle` and in `fh_normalization`;
- the four range scans;
- the beat loop of `alternate_t`;
- both filter loops;
- both loops of `compute_derivative`;
- the normalisation and distance-table loops.

Each of these methods is proved against a specification function. Properties of that function are then proved as lemmas.

Arithmetic is exact: `int` and `real`. Python's exceptions are `Err` values, and the model also states what was already changed when one of them is raised. Two examples:

- `construct_cycle` raises IndexError at the first pulse with fewer than eight slots, after writing the slots that pulse does have.
- `fh_normalization` leaves the pulses before such a pulse rescaled.

The repository holds two copies of several files. The model follows the newer copy. The older copies are identical in every modelled statement except the ones modelled separately (`CycleSequence.py` and the older `add_cycle`). Their lines map as follows:

| newer | older |
|---|---|
| `calculations/CycleModel.py:9-131` | `CycleModel.py:7-119` |
| `ui/PhaseWindow.py:175-215` | `PhaseWindow.py:169-231` |
| `ui/MainWindow.py:326-332` | `MainWindow.py:319-325` |
| `ui/MainWindow.py:443-453` | `MainWindow.py:418-428` |

## Model

| member | source | states |
|---|---|---|
| Common.Ceil | calculations/CycleModel.py:51 | `np.ceil(x).astype(int)` is the least integer not below x |
| Common.SeqMinIsMin | DominantCycleWindows.py:87 | numpy's `min` is an element of the array and no element is below it |
| Common.SeqMaxIsMax | DominantCycleWindows.py:88 | numpy's `max` is an element of the array and no element is above it |
| Common.ArgMinIsFirstMin | DominantCycleWindows.py:108 | `argmin` holds the smallest element and every earlier element is strictly larger (ties go to the first index) |
| Common.ArgMinUnique | DominantCycleWindows.py:108 | any index that is a first minimiser is the `argmin`, so the previous lemma characterises it completely |
| Slices.Bound | calculations/CycleModel.py:31-32 | a Python slice bound is clamped into [0, n], and a bound already in range is kept |
| Slices.Slice | calculations/CycleModel.py:31-32 | `s[lo:hi]` with in-range bounds is exactly the sub-sequence `s[lo..hi]` |
| Slices.Apply | calculations/CycleModel.py:34-35 | slice assignment keeps the length; a sample the slice hits takes the written value and every other sample keeps its value |
| Slices.ApplyAllSnoc | calculations/CycleModel.py:34-35 | the fold of writes applies the last write on top of the earlier ones |
| Slices.ApplyAllUntouched | calculations/CycleModel.py:34-35 | a sample no write hits keeps its old value |
| Slices.ApplyAllLastWins | calculations/CycleModel.py:34-35 | writes overwrite rather than add: the last write that hits a sample decides its value |
| Slices.ApplyAllIdempotent | calculations/CycleModel.py:34-35 | repeating the same writes changes nothing more |
| Slices.AssignInPlace | calculations/CycleModel.py:34 | the in-place array assignment leaves the array equal to `Apply` of its old contents |
| SampleGrid.ArangeSpans | calculations/CycleModel.py:13 | `np.arange(0, stop, Ts)` is non-empty, every point lies below `stop`, and the last point is less than one period short of it |
| SampleGrid.GridLength | calculations/CycleModel.py:12-13 | a cycle of 60000/Fh ms plus one period has at least two samples |
| SampleGrid.NearestIsClosest | calculations/CycleModel.py:24-25 | `(np.abs(time - x)).argmin()` is a sample no other sample is closer to, and every earlier sample is strictly farther |
| SampleGrid.NearestOfSample | calculations/CycleModel.py:24-25 | a time that is exactly a grid time finds that sample |
| SampleGrid.NearestMonotone | calculations/CycleModel.py:57 | the nearest sample never moves left when the time moves right, which the range scans rely on |
| Cycle.LongPrefix | calculations/CycleModel.py:19-30 | the pulses before the first one with fewer than eight slots all have eight, and the pulse at that position has fewer |
| Cycle.IndexOf | calculations/CycleModel.py:39-45 | `list(waves).index(w)` is the first position holding the name; the name is absent exactly when there is none |
| Cycle.WaveTable.constructor | calculations/CycleModel.py:14 | the dictionary holds the given pulses, with distinct names |
| Cycle.LocateSlots | calculations/CycleModel.py:22-30 | a pulse of four slots or fewer is untouched; otherwise slot 4 gets `argmin` of mu−3·b1, slots 5 and 6 get `floor(mu/Ts)`, and slot 7 gets `argmin` of mu+3·b2; a pulse with four to seven slots gets those of these slots it has; all other slots are kept |
| Cycle.LocatedAt | calculations/CycleModel.py:19-30 | after k passes of the loop the first k pulses are located and the rest are untouched |
| Cycle.LocateStep | calculations/CycleModel.py:19-30 | one pass replaces the k-th pulse, still untouched, by its located copy |
| Cycle.LocatedNames | calculations/CycleModel.py:29-30 | writing the slots keeps every name in place and the names distinct |
| Cycle.LocatedEdges | calculations/CycleModel.py:29-30 | a located pulse stores its left edge in slot 4 and its right edge in slot 7 |
| Cycle.SynthesisStep | calculations/CycleModel.py:19-35 | synthesising one more pulse applies its rising and falling slice writes on top of the cycle so far |
| Cycle.SynthesisUpToStep | calculations/CycleModel.py:19-35 | the same step for the pulses before the first short one, which are well formed |
| Cycle.WritePulse | calculations/CycleModel.py:34-35 | the two slice assignments of one pulse leave the array equal to both writes applied to its old contents |
| Cycle.SynthesisUncovered | calculations/CycleModel.py:18 | a sample no pulse covers keeps the 0 of `np.zeros` |
| Cycle.SynthesisLaterWins | calculations/CycleModel.py:34-35 | where several pulses cover a sample, the last of them in dictionary order sets it to its own Gaussian value |
| Cycle.CoveredRangeIsStoredIndices | calculations/CycleModel.py:26-35 | for a pulse whose centre index lies inside the grid (−1 to n−1), the samples it writes are exactly [slot 4, slot 5] and (slot 6, slot 7), as the slots it stores say; its falling half never writes the right edge, and once the right edge lies past the centre the pulse does not write it at all |
| Cycle.SynthesiseInto | calculations/CycleModel.py:17-35 | the loop succeeds iff every pulse has eight slots; then every pulse is located and the array is the synthesis of all pulses; otherwise IndexError, with the first k+1 pulses located and the first k pulses written |
| Cycle.TLimsAreNeighbourEdges | calculations/CycleModel.py:38-46 | on a synthesised dictionary, the limits of pulse i are the stored right edge of the pulse before it (the last pulse, by Python's index −1, for a first pulse not named P) and the left edge of the pulse after it; P starts at 0 and T ends at the last sample; a missing right neighbour raises IndexError |
| Cycle.LeftFitsMonotone | calculations/CycleModel.py:56-62 | moving the mean right or narrowing the left spread keeps a fitting left edge fitting |
| Cycle.RightFitsMonotone | calculations/CycleModel.py:66-72 | moving the mean left or narrowing the right spread keeps a fitting right edge fitting |
| Cycle.LeftFitsNarrower | calculations/CycleModel.py:86-92 | every left spread narrower than a fitting one fits |
| Cycle.RightFitsNarrower | calculations/CycleModel.py:107-113 | every right spread narrower than a fitting one fits |
| Cycle.ScanMeanDown | calculations/CycleModel.py:55-63 | the downward scan returns the lowest mean of the unbroken run of fitting means that reaches down from the current one (stopping at 1); if the current mean does not fit, it returns the current mean |
| Cycle.ScanMeanUp | calculations/CycleModel.py:65-73 | the upward scan returns the highest mean of the unbroken run of fitting means that reaches up from the current one, below the last whole millisecond; if the current mean does not fit, it returns the current mean |
| Cycle.ScanLeftSpread | calculations/CycleModel.py:85-93 | the widest fitting left spread below the axis end, with every narrower spread fitting; if the current spread does not fit, it returns the current spread |
| Cycle.ScanRightSpread | calculations/CycleModel.py:106-114 | the same for the right spread against the right limit |
| Cycle.MeanRangeSound | calculations/CycleModel.py:55-73 | every mean between the two scan results keeps both edges inside the limits |
| Cycle.ScanMean | calculations/CycleModel.py:55-73 | the two scans' results, each on its own side: downwards, when the mean fits on the left, every mean from the lower end up fits there and one lower does not (or the end is 1), and when it does not fit the lower end stays at the mean; upwards likewise against the right limit and the last whole millisecond; when the mean fits on both sides, every mean of the range does |
| Cycle.Rescale | calculations/CycleModel.py:122-131 | slots 1 to 7 (mean, spreads, stored edges) are multiplied by Fh/Fh_new; the amplitude, the name and any further slots are kept |
| Cycle.NormalizedAt | calculations/CycleModel.py:120-131 | after k passes of the loop the first k pulses are rescaled and the rest are untouched |
| Cycle.NormalizeStep | calculations/CycleModel.py:120-131 | one pass replaces the k-th pulse, still untouched, by its rescaled copy |
| Cycle.NormalizedNames | calculations/CycleModel.py:125-131 | rescaling keeps the names in place and distinct |
| Cycle.NormalizedSpreads | calculations/CycleModel.py:126-127 | rescaling by a non-zero factor keeps every spread non-zero |
| Cycle.RescaledSpreads | calculations/CycleModel.py:126-127 | one rescaled pulse keeps both spreads non-zero |
| Cycle.RescaleIdentity | calculations/CycleModel.py:119-131 | rescaling to the same heart rate changes no pulse |
| Cycle.RescaleRoundTrip | calculations/CycleModel.py:119-131 | rescaling from Fh to Fh_new and back restores every pulse |
| Cycle.NormalizeInto | calculations/CycleModel.py:119-131 | the loop succeeds iff every pulse has eight slots, otherwise raises IndexError; in both cases the pulses before the first short one are rescaled and the rest are untouched |
| Cycle.CycleModel.constructor | calculations/CycleModel.py:9-14 | the model keeps the heart rate and shares the given dictionary; its grid has `GridLength(Fh)` samples |
| Cycle.CycleModel.TimeAxisSpansCycle | calculations/CycleModel.py:12-13 | the time axis is the sample grid, and its last sample reaches the cycle length 60000/Fh |
| Cycle.CycleModel.ConstructCycle | calculations/CycleModel.py:17-35 | a fresh amplitude array; success iff every pulse has eight slots, and then the dictionary is located and the array is the synthesis; otherwise IndexError, with the pulses up to the failing one located and the array holding the writes of the pulses before it |
| Cycle.CycleModel.FindRangeMu | calculations/CycleModel.py:49-75 | KeyError for an unknown name, IndexError for a pulse without both spreads, the limits' IndexError when a neighbour or its stored edge is missing; success exactly otherwise, with the range `ScanMean` states: each end maximal on its own side when the mean fits on that side, and equal to `ceil(mu)` when it does not |
| Cycle.CycleModel.FindRangeB1 | calculations/CycleModel.py:78-95 | the same errors (a left spread needs three slots); the range starts at 1; when `ceil(b1)` fits and lies below the last whole millisecond, it ends at the widest left spread from which every narrower one fits, and otherwise it ends at `ceil(b1)` |
| Cycle.CycleModel.FindRangeB2 | calculations/CycleModel.py:98-116 | the same for the right spread against the right limit, ending at `ceil(b2)` when that spread does not fit |
| Cycle.CycleModel.FhNormalization | calculations/CycleModel.py:119-131 | a zero new rate leaves the dictionary as it is and gives IndexError if the first pulse is short, ZeroDivisionError if it is long, and success if there is none; otherwise success iff every pulse is long, IndexError otherwise, and the leading long pulses are rescaled in place; non-zero spreads stay non-zero |
| Sequence.RepeatAt | calculations/CycleSequence.py:12 | sample r of block q of `np.tile(s, k)` is sample r of s |
| Sequence.Tiled | calculations/CycleSequence.py:12 | the tiled sequence has (K−1)·n+1 samples and ends in the appended 0 |
| Sequence.TiledAt | calculations/CycleSequence.py:12 | sample r of beat q is sample r of the cycle, for every sample but the cycle's last |
| Sequence.TiledOnce | calculations/CycleSequence.py:12 | one beat reproduces the cycle exactly iff the cycle ends in 0 |
| Sequence.SequenceAxisExact | calculations/CycleSequence.py:8-12 | the sequence axis `np.arange(0, new_t0·n + Ts, Ts)` has exactly one time per tiled sample, on the cycle's grid |
| Sequence.BeatOffsetExact | calculations/CycleSequence.py:25-26 | `int(t_i·new_t0/Ts)` is exactly i whole cycles of K−1 samples |
| Sequence.BeatCentreExact | calculations/CycleSequence.py:33-34 | the centre `mu + t_i·new_t0` is the cycle's mean shifted by the beat offset |
| Sequence.BeatWindow | calculations/CycleSequence.py:25-34 | a beat's rising write covers [slot 4, slot 5] and its falling write (slot 6, slot 7), both shifted by the beat offset |
| Sequence.BeatWritesExact | calculations/CycleSequence.py:25-34 | the writes the loop computes from the toggled scale and `t_i·new_t0` are beat i's writes |
| Sequence.BeatOffsets | calculations/CycleSequence.py:25-26 | beat offsets are non-negative, and each beat ends at or before the start of every later beat |
| Sequence.AlternatedStep | calculations/CycleSequence.py:24-35 | one more beat applies that beat's two writes on top |
| Sequence.AlternatedIsWrites | calculations/CycleSequence.py:24-35 | alternation is the in-order fold of all beats' slice writes |
| Sequence.AlternatedValue | calculations/CycleSequence.py:24-35 | inside beat i's T window the sample holds what beat i wrote; later beats never reach back into it |
| Sequence.BeatPulse | calculations/CycleSequence.py:33-34 | beat i writes the cycle's own T pulse read i·(K−1) samples earlier, scaled by λ_i |
| Sequence.AlternatedPulse | calculations/CycleSequence.py:24-35 | after alternation, beat i's T window holds λ_i times the original T pulse |
| Sequence.ShiftedGauss | calculations/CycleSequence.py:33-34 | a pulse of amplitude a·λ centred k samples later is λ times the original pulse read k samples earlier |
| Sequence.AlternationUntouched | calculations/CycleSequence.py:24-35 | samples outside every beat's T window keep their value |
| Sequence.AlternationIdempotent | calculations/CycleSequence.py:24-35 | alternating twice with the same level gives the same sequence as once |
| Sequence.ScalesAlternate | calculations/CycleSequence.py:23-35 | the `lmbd_prev` toggle gives 1 + alt/a on even beats and 1 on odd beats |
| Sequence.NextScale | calculations/CycleSequence.py:27-30 | one toggle step yields the scale of the next beat |
| Sequence.RewriteBeat | calculations/CycleSequence.py:25-34 | one beat's two in-place slice assignments apply that beat's writes |
| Sequence.RewriteBeats | calculations/CycleSequence.py:23-35 | the beat loop leaves the array equal to the alternation of its old contents |
| Sequence.CycleSequence.FromCycle | calculations/CycleSequence.py:6-12 | a fresh amplitude array tiled from the cycle, and an axis of the same length |
| Sequence.CycleSequence.FromArrays | calculations/CycleSequence.py:15-17 | the given arrays are kept as given, with no cycle behind them |
| Sequence.CycleSequence.AlternateT | calculations/CycleSequence.py:20-35 | AttributeError without a cycle, KeyError without a T wave, IndexError for a T with fewer than four slots (or fewer than eight when there is a beat), ZeroDivisionError for a zero amplitude; no beats leaves the array as it is; otherwise the array is the alternation of its old contents; on every error the array is unchanged |
| LegacySequence.UpsertLookup | CycleSequence.py:13-14 | after `waves[w] = data` the name finds exactly the new pulse, and the table grows only for a new name |
| LegacySequence.UpsertOthers | CycleSequence.py:13-14 | every other name keeps its position and its pulse |
| LegacySequence.UpsertDistinct | CycleSequence.py:14 | the keys stay distinct |
| LegacySequence.UpsertIdempotent | CycleSequence.py:14 | assigning the same value twice is assigning it once |
| LegacySequence.NewSequence | CycleSequence.py:5-11 | AttributeError exactly when the cycle has not been synthesised; otherwise a new sequence sharing the cycle's heart rate, dictionary and amplitude array, with an axis of n nominal beats plus one period |
| LegacySequence.LegacySequence.constructor | CycleSequence.py:5-11 | on a synthesised cycle: shares the cycle's heart rate, dictionary and amplitude array; the axis spans n nominal beats plus one period |
| LegacySequence.LegacySequence.UpdateWave | CycleSequence.py:13-14 | the shared dictionary is updated in place, so the cycle sees the change |
| LegacySequence.LegacySequence.ConstructCycle | CycleSequence.py:16-17 | always AttributeError: the method reads `self.time`, which the class never sets |
| LegacySequence.LegacySequence.ConstructSequence | CycleSequence.py:29-30 | a fresh array holding the shared cycle tiled `n` times |
| LegacySequence.LegacyAxisMismatch | CycleSequence.py:9-11 | at 70 beats/min, two tiled beats have 3513 samples but the nominal axis has 3512 |
| Filtering.ExpFilteredPrefix | FilteringAlgorithms.py:9-10 | the filter is causal: filtering a prefix gives the prefix of the output |
| Filtering.ExpFilteredRecurrence | FilteringAlgorithms.py:8-10 | y[0] = x[0] and y[k] = y[k−1] + alpha·(x[k] − y[k−1]) |
| Filtering.ExpFilter | FilteringAlgorithms.py:4-11 | IndexError exactly on an empty signal; otherwise the loop returns the filtered signal |
| Filtering.ExpFilterPassThrough | FilteringAlgorithms.py:10 | alpha = 1 passes the signal through |
| Filtering.ExpFilterHolds | FilteringAlgorithms.py:10 | alpha = 0 holds the first sample |
| Filtering.ExpFilterBounded | FilteringAlgorithms.py:10 | with 0 ≤ alpha ≤ 1 output k stays within any band that holds the inputs up to k |
| Filtering.WindowBins | FilteringAlgorithms.py:17 | the window is the least whole number of samples covering `winwidth` ms, at least 1 |
| Filtering.MovingAverageStep | FilteringAlgorithms.py:22-23 | each output sample is the previous one plus 1/W times the entering sample minus the sample `lag` places back, with Python's negative-index wrap |
| Filtering.MovingAverage | FilteringAlgorithms.py:13-24 | IndexError exactly when the window is longer than the signal; otherwise the output of the code as written |
| Filtering.AccumulateWindow | FilteringAlgorithms.py:22-23 | the loop completes the output from its first W samples |
| Filtering.WindowTotal | FilteringAlgorithms.py:21-23 | with lag W the running total is the sum of the last W samples |
| Filtering.AsWrittenTotal | FilteringAlgorithms.py:23 | with the lag as written (W+1) the running total is a window of W+1 samples minus the signal's last sample |
| Filtering.MovingAverageCorrected | FilteringAlgorithms.py:13-24 | IndexError on the same inputs; otherwise zeros before sample W−1 and from there the mean of the last W samples |
| Filtering.WindowMeans | FilteringAlgorithms.py:21-23 | the corrected recurrence gives the mean of the last W samples at every k ≥ W−1 |
| Filtering.MovingAverageLagCounterexample | FilteringAlgorithms.py:23 | a concrete signal on which the code as written and the window mean differ |
| Phase.FlattenAppend | ui/PhaseWindow.py:232-233 | appending a cycle appends its samples to the concatenation |
| Phase.FlattenSingle | ui/PhaseWindow.py:49-50 | the concatenation of one cycle is the cycle |
| Phase.FlattenSameShape | ui/PhaseWindow.py:193 | cycle lists of equal shape concatenate to equal lengths |
| Phase.TimeAxisUniform | ui/PhaseWindow.py:183-186 | the plot axis starts at 0 and advances by 2 ms per sample |
| Phase.PaddedAt | ui/PhaseWindow.py:209 | inside the three zeros on either side, the padded cycle is the cycle |
| Phase.DeriveCycle | ui/PhaseWindow.py:210-214 | the inner loop fills the derivative of one cycle |
| Phase.ComputeDerivative | ui/PhaseWindow.py:204-215 | every cycle is differentiated on its own |
| Phase.DerivativeShape | ui/PhaseWindow.py:192-193 | the concatenated derivative has one value per signal sample |
| Phase.DerivativeLocal | ui/PhaseWindow.py:212-214 | the derivative at j reads only samples j−3 to j+3 of the same cycle |
| Phase.IntendedExactOnLines | ui/PhaseWindow.py:213-214 | the intended stencil gives the exact slope of a straight line |
| Phase.DerivativeFloorCounterexample | ui/PhaseWindow.py:213-214 | on the ramp 0..9 the code as written gives −19/30 at sample 3 where the slope is 1 |
| Phase.PseudophasePairs | ui/PhaseWindow.py:197-200 | `z[0:N−tau]` and `z[tau:N]` both have N−tau samples, pairing every sample with the one tau later |
| Phase.PseudophaseShortSignal | ui/PhaseWindow.py:198-200 | when N < tau < 2N the negative bound `N − tau` wraps: the first half has 2N − tau samples and the second is empty, so the plotted halves differ in length |
| Phase.PhaseWindow.constructor | ui/PhaseWindow.py:13-172 | one cycle, tau = 8, and all three plots drawn from it, the derivative by the stencil as written |
| Phase.PhaseWindow.UpdateTimeDomain | ui/PhaseWindow.py:182-188 | the time plot gets the 500 Hz axis of the signal's length; the other series are kept |
| Phase.PhaseWindow.UpdatePhaseDomain | ui/PhaseWindow.py:191-194 | the derivative of every cycle by the stencil as written (with its floor division), and its concatenation, one point per sample |
| Phase.PhaseWindow.UpdatePseudophaseDomain | ui/PhaseWindow.py:197-201 | the two delayed halves of the signal |
| Phase.PhaseWindow.OnUpdate | ui/PhaseWindow.py:175-179 | all three plots redrawn from the cycles, the derivative as the program computes it |
| Phase.PhaseWindow.UpdateTau | ui/PhaseWindow.py:218-221 | a new slider value redraws only the pseudophase plot |
| Phase.PhaseWindow.AppendAfterNone | PhaseWindow.py:243-244 | a cycle appended to a list that already holds a None is kept in the list, the concatenation raises TypeError, and the plots stay as they were |
| Phase.PhaseWindow.AppendCycle | ui/PhaseWindow.py:232-234 | a cycle appended to a list of cycles extends the list and the signal, and every plot is redrawn |
| Phase.PhaseWindow.AddCycle | ui/PhaseWindow.py:228-234 | a read error propagates and a cancelled dialog changes nothing; a read cycle always joins the list, and it extends the signal unless the list already holds a None, when TypeError is raised |
| Phase.PhaseWindow.AddCycleUnchecked | PhaseWindow.py:241-245 | in the older copy a cancelled dialog appends None to the list and the concatenation raises TypeError, leaving the plots as they were; every later read cycle is appended too and raises TypeError again |
| Dominant.DistSymmetric | DominantCycleWindows.py:71-73 | the Euclidean distance is symmetric |
| Dominant.DistMetric | DominantCycleWindows.py:71-73 | it is never negative and zero from a point to itself |
| Dominant.InvertedIsReverse | DominantCycleWindows.py:75-80 | reducing the matrix down its columns (`inverted`) is the directed distance from B to A |
| Dominant.HausdorffDistance | DominantCycleWindows.py:75-80 | ValueError for an empty portrait; otherwise the directed distance A→B, or B→A when inverted |
| Dominant.DirectedCovers | DominantCycleWindows.py:77 | every point of A has a point of B within the directed distance, and some point of A is at least that far from all of B |
| Dominant.DirectedSelf | DominantCycleWindows.py:77 | a portrait is at directed distance 0 from itself |
| Dominant.DirectedNonNegative | DominantCycleWindows.py:77 | a directed distance is never negative |
| Dominant.NormalizeUnit | DominantCycleWindows.py:87-90 | min-max scaling lands in [0, 1] and sends exactly the minimum to 0 and the maximum to 1 |
| Dominant.NormalizeMonotone | DominantCycleWindows.py:89-90 | min-max scaling keeps the order of the samples |
| Dominant.LinearNormalization | DominantCycleWindows.py:82-92 | ValueError iff some cycle or derivative is empty; otherwise every cycle and derivative is scaled |
| Dominant.TableMetric | DominantCycleWindows.py:96-105 | the distance table is symmetric, zero on the diagonal and non-negative |
| Dominant.EntryMetric | DominantCycleWindows.py:103-105 | one entry `max(h_ij, h_ji)` is symmetric, non-negative and zero on the diagonal |
| Dominant.DominantIsMostCentral | DominantCycleWindows.py:108 | the chosen cycle has the least total distance to all others, and every earlier cycle has strictly more |
| Dominant.AnalyzeCyclePhase | DominantCycleWindows.py:94-108 | ValueError iff there is no cycle or an empty one; otherwise the argmin of the column sums of the distance table |
| Dominant.FillTable | DominantCycleWindows.py:96-105 | the double loop fills exactly the distance table |
| Dominant.FillRow | DominantCycleWindows.py:100-105 | the inner loop fills row i and leaves the other rows alone |
| Dominant.Symmetric | DominantCycleWindows.py:103-105 | the larger of the two directed distances |
| Shell.DeleteChar | ui/MainWindow.py:449 | `replace(c, '')` leaves no c and never lengthens the text |
| Shell.Split | ui/MainWindow.py:449 | `split(' ')` gives at least one piece and no piece holds the separator |
| Shell.SplitJoin | ui/MainWindow.py:449 | joining the pieces with the separator restores the text |
| Shell.JoinSplit | ui/MainWindow.py:449 | splitting separator-free pieces joined by the separator gives them back |
| Shell.ConcatSplit | ui/MainWindow.py:449 | splitting only removes the separators |
| Shell.DropEmpty | ui/MainWindow.py:451 | filtering out `''` leaves no empty piece and never adds one |
| Shell.DropEmptyAppend | ui/MainWindow.py:451 | the filter distributes over concatenation and keeps the order |
| Shell.DropEmptyKeeps | ui/MainWindow.py:451 | a list without empty pieces passes unchanged |
| Shell.ConcatDropEmpty | ui/MainWindow.py:451 | empty pieces contribute nothing to the text |
| Shell.StripAfterSplit | ui/MainWindow.py:450 | removing spaces from pieces split at spaces changes nothing |
| Shell.TokensAreWords | ui/MainWindow.py:449-451 | no token is empty or holds a space or a newline |
| Shell.TokensConcat | ui/MainWindow.py:449-451 | the tokens together are the file's text without its spaces and newlines |
| Shell.TokensOfJoined | ui/MainWindow.py:449-451 | words written with single spaces between them read back as the same tokens |
| Shell.NewlineJoinsDigits | ui/MainWindow.py:449 | a newline is deleted rather than splitting: "1\n2" gives the one token "12" |
| Shell.SplitSpaced | ui/MainWindow.py:449 | `" 7  8 ".split(' ')` gives an empty piece at either end and between the two spaces |
| Shell.RepeatedSpacesIgnored | ui/MainWindow.py:449-451 | runs of spaces and spaces at either end produce no tokens |
| Shell.ParseAll | ui/MainWindow.py:452 | success iff every token converts to a number, otherwise ValueError; each value is the number divided by 10000 |
| Shell.OpenFile | ui/MainWindow.py:443-453 | None exactly when the dialog is cancelled; otherwise the values of the file's tokens divided by 10000, or ValueError if a token is not a number |
| Shell.FirstError | ui/MainWindow.py:371-399 | the searches succeed iff all of them do; otherwise the error is that of the first one that fails |
| Shell.MainWindow.UpdateSliders | ui/MainWindow.py:365-399 | the slider ranges of the active pulse are computed without error iff its name is known, it has the mean and both spreads, and both its limits exist; otherwise the error is KeyError for an unknown name, IndexError for a pulse without both spreads, or the limits' own error |
| Shell.MainWindow.OnUpdate | ui/MainWindow.py:316-319 | the displayed cycle is synthesised; success iff every pulse has eight slots |
| Shell.MainWindow.UpdateFh | ui/MainWindow.py:326-332 | a short pulse raises IndexError with the leading pulses rescaled and the old model kept; otherwise a fresh model at the new rate shares the rescaled dictionary, and the cycle is re-synthesised exactly when the slider ranges can be computed, the update stopping with their error otherwise |

## Left out

- The widgets, plots, layouts, labels, colours, tables and dialogs of the windows, and `Run.py`. They hold no computation beyond the one modelled here.
- `generate_noise`: it draws from `np.random.uniform`, which cannot be specified here.
- `exp` and `sqrt` are parameters (`exp: real -> real`). `sqrt` is characterised by a predicate: non-negative, squaring back, 0 at 0. Gaussian values are therefore stated symbolically.
- Floating point is not modelled: arithmetic is exact. Rounding in `np.arange`, in `Fh/Fh_new` and in the derivative's 1/60 is not captured. `int(...)` of a beat offset is modelled as a floor, which agrees with truncation because beat offsets are non-negative.
- Reading the file and the file dialog: `open_file` receives the dialog's result as the file's text, or None when cancelled. The string-to-float conversion is a parameter `parse`, so which strings numpy accepts is not modelled.
- The commented-out Lagrange derivative in the phase window: it is dead code.
- The newer `calculations/FilteringAlgorithms.py` is not part of this model, so neither is its `sliding_average`, which the newer filter window calls (ui/FilterWindow.py:144). The moving average modelled is the older `moving_average` of FilteringAlgorithms.py:13-24.
- `on_update` mirroring the cycle into an open sequence window (`to_sequence`): that window is not part of this model.
- Cycle.CycleModel.constructor: requires Fh > 0. A zero rate raises ZeroDivisionError and a negative one gives an empty grid. Both are out of reach of the spinbox, which is limited to 30–150 (ui/MainWindow.py:163-164).
- Shell.MainWindow.UpdateFh: requires Fh_new > 0, for the same reason, and non-zero spreads, as Cycle.CycleModel.ConstructCycle does.
- Cycle.CycleModel.ConstructCycle: requires every pulse's spreads to be non-zero. A zero spread makes numpy return NaN with a warning, not raise. The same requirement is on Sequence.CycleSequence.AlternateT and Shell.MainWindow.UpdateFh.
- Shell.MainWindow.OnUpdate: requires every pulse's spreads to be non-zero, because it runs construct_cycle, where a zero spread gives NaN rather than an exception.
- Sequence.CycleSequence.AlternateT: reads the stored slot indices with a floor, where the source would raise TypeError on a float index left in slots 4–7 by `fh_normalization` without a following `construct_cycle`. It also requires non-zero spreads, for the reason given for Cycle.CycleModel.ConstructCycle.
- Filtering.MovingAverage: requires `winwidth > 0`. A window of zero samples would divide by zero.
- Dominant.LinearNormalization: requires that no non-empty cycle or derivative is constant. A constant one makes numpy divide by zero and return NaN.
- Dominant.AnalyzeCyclePhase: requires that no non-empty cycle or derivative is constant, because it normalises them first and a constant one gives NaN rather than an exception.
- Phase.PhaseWindow.UpdateTau: requires the value to lie in the slider's range 1–50 (ui/PhaseWindow.py:154-155).
- Shell.MainWindow.UpdateSliders: states whether the three searches succeed and which error is raised, not the ranges; the slider values and labels it sets are widget state.
- Behaviours of the code that a reader might not expect, all modelled as the code has them:
  - Non-numeric tokens in a signal file raise ValueError; only empty tokens are dropped.
  - Alternation on a sequence built from arrays raises AttributeError.
  - The heart rate is not validated beyond the spinbox's range.
  - The derivative fills samples 0 to K−7, with the stencil centred on each, and leaves the last six at 0.
  - Beat 0 gets the scale `1 + alt/a`.
- The phase window plots the derivative the code computes, with the floor division listed under Findings; the corrected stencil is proved separately and is not what the window shows.

## Findings

| source | as written | input that shows it | evidently intended | confidence | as-written member | corrected member |
|---|---|---|---|---|---|---|
| ui/PhaseWindow.py:213-214 | the line break after `45*temp_z[k+1] //` makes Python read `(45·z[k+1] // −45)·z[k−1]`, a floor division, instead of subtracting `45·z[k−1]` | the ramp 0, 1, …, 9: sample 3 is −19/30 where the slope is 1 | the seven-point stencil `(z[k+3] − 9z[k+2] + 45z[k+1] − 45z[k−1] + 9z[k−2] − z[k−3])/60`, exact on straight lines | high, not executed | Phase.DerivativeFloorCounterexample | Phase.IntendedExactOnLines |
| FilteringAlgorithms.py:23 | the running total subtracts `z0[k−1−W]`, a sample W+1 places back, and wraps to the end of the signal at k = W | signal 3, 0, 0, 0, 0 with `winwidth` = 1 ms (W = 3): sample 3 is 1 where the mean of samples 1–3 is 0 | subtract `z0[k−W]`, so that every sample from W−1 on is the mean of the last W samples | high, not executed | Filtering.MovingAverageLagCounterexample | Filtering.MovingAverageCorrected |

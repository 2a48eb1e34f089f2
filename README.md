# Radar clutter detection: running statistics and clutter marking

This project models the computational core of `tall_clutter` in
`cmac/radar_clutter.py`. That function finds fixed ground clutter, such as
wind-turbine returns, in a sequence of X-SAPR radar volumes:

1. It streams the reflectivity volumes through `_RunningStats`, a
   per-gate Welford accumulator over two-dimensional (ray by gate) masked
   arrays. The first readable volume is pushed twice, and each later volume
   is pushed if its shape matches the first.
2. It selects the gates whose standard-deviation-to-mean ratio lies
   strictly between two thresholds (`np.argwhere`).
3. It widens every selected gate into a disk of the given radius on a
   padded buffer (`_clutter_marker`).
4. It wraps the result as the `xsapr_clutter` field (`_clutter_to_dict`).

Modules, in dependency order:

- `Wrappers` (`wrappers.dfy`): `Option` and `Result`.
- `Grids` (`grids.dfy`): grid coordinates, shapes and grid extensionality.
- `Welford` (`welford.dfy`): per-gate arithmetic over the reals.
  - A gate's history is the sequence of present values it has received.
  - `Tracks` states that a count, a mean and a sum of squares describe that
    history.
  - Welford's step preserves `Tracks`.
- `StatsGrid` (`stats_grid.dfy`): the accumulator's five arrays as a value,
  one `Acc` per gate.
  - `Push` follows `push` as written, branch for branch.
  - `Mean` and `Variance` follow `mean()` and `variance()` gate by gate.
    Where the source returns the scalar 0.0, they return a grid of zeros
    (see "## Left out").
  - `TracksAll` relates a state to the frames pushed so far.
  - The module also holds the finding below and the corrected push.
- `RunningStatsClass` (`running_stats.dfy`): the class `RunningStats`.
  - Its five fields are `array2`s updated in place.
  - Each method is specified against the `StatsGrid` value that `Grid()`
    reads back.
- `ClutterSelect` (`clutter_select.dfy`): the threshold selection.
- `ClutterMarker` (`clutter_marker.dfy`): a reference definition of disk
  dilation (`Dilate`), its properties, and the imperative marker on a
  padded `array2` proved equal to it.
- `ClutterField` (`clutter_field.dfy`): the field dictionary and the path
  from ratio grid to field.
- `Streaming` (`streaming.dfy`): the streaming loop.
  - Corrupt files are `None`.
  - `Stream` is the loop over a `RunningStats` object.
  - `Streamed` is the value it is proved equal to.

Missing (masked) gate values are `None`, and present ones are
`Some(value)` with `value` a `real`.

Where the code and the design notes disagree, the model follows the code:

- `variance()` on a new or cleared accumulator raises, because `n` is still
  the Python integer 0, which has no `max`. It does not return 0.
- The first `push` of a frame with no present gate takes the update
  branch. On a grid of more than one gate, `np.dstack` then raises.

## Model

| member | source | states |
|---|---|---|
| Welford.Single | cmac/radar_clutter.py:159-161 | a history of one value has that value as its mean and a zero sum of squared deviations |
| Welford.WelfordStep | cmac/radar_clutter.py:163-166 | moving the mean by `(v-m)/(n+1)` and growing `s` by `(v-m)*(v-m')` turns the state for history `h` into the state for `h+[v]`; this includes a gate whose first value arrives late |
| Welford.SampleVarianceNonNeg | cmac/radar_clutter.py:175-177 | the sample variance `s/(n-1)` of a history of two or more values is never negative |
| StatsGrid.Fresh | cmac/radar_clutter.py:135-140 | a new accumulator has the given shape with every count, mean and sum zero |
| StatsGrid.Cleared | cmac/radar_clutter.py:142-144 | `clear` zeroes every count and keeps every mean and sum |
| StatsGrid.FillN | cmac/radar_clutter.py:156-157 | the divisor is at least 1 at every gate, so the update never divides by zero |
| StatsGrid.AddCounts | cmac/radar_clutter.py:150-155 | the raised counts keep the frame's shape; what happens at each gate is stated by `StatsGrid.AddCountsRaises` |
| StatsGrid.AddCountsRaises | cmac/radar_clutter.py:150-155 | at every gate the count goes up by 1 where the value is present and stays where it is masked; the means and sums are untouched |
| StatsGrid.UncountedMaxIsOne | cmac/radar_clutter.py:155-159 | with no gate counted yet, the largest raised count is exactly 1 iff some gate of the frame is present |
| StatsGrid.InitGate | cmac/radar_clutter.py:159-161 | the first-push branch at one gate: the mean becomes the value (0 at a masked gate), `new_m` equals `old_m`, `old_s` becomes 0, and `new_s` and the count are left alone |
| StatsGrid.InitAll | cmac/radar_clutter.py:159-161 | the first-push branch over the grid keeps the frame's shape; its effect on the history is stated by `StatsGrid.GateInitTracks` and `StatsGrid.FirstPushTracks` |
| StatsGrid.UpdateGate | cmac/radar_clutter.py:163-169 | the update branch at one gate leaves the count, ends with `new_m`/`new_s` equal to `old_m`/`old_s`, keeps the mean and sum at a masked gate, and turns a gate's first value into its mean with the sum unchanged |
| StatsGrid.UpdateAll | cmac/radar_clutter.py:163-169 | the update branch over the grid keeps the frame's shape; its effect on the history is stated by `StatsGrid.GateUpdateTracks` and `StatsGrid.PushTracks` |
| StatsGrid.DstackFails | cmac/radar_clutter.py:163-166 | a push on an object already pushed to never fails; on a state with no gate counted, it fails iff the object was never pushed to, the frame has no present gate and the grid is not a single gate |
| StatsGrid.Push | cmac/radar_clutter.py:146-169 | a push raises a gate's count by exactly 1 where the value is present and leaves it unchanged where it is masked; afterwards `new_m` equals `old_m` |
| StatsGrid.FirstPushTracks | cmac/radar_clutter.py:159-161 | from a state with no gate counted, a frame with a present gate takes the first-push branch, and the result describes that frame |
| StatsGrid.GateInitTracks | cmac/radar_clutter.py:159-161 | at a gate never counted, the first-push branch gives the value as the mean (0 where masked) and a zero sum of squares |
| StatsGrid.GateUpdateTracks | cmac/radar_clutter.py:163-169 | the update branch at one gate extends the tracked history by the gate's value; a masked value (a NaN term dropped by `nansum`) leaves it unchanged |
| StatsGrid.PushTracks | cmac/radar_clutter.py:146-169 | a push keeps the state describing all frames pushed, unless the first-push branch is taken after some gate was already counted |
| StatsGrid.PushSyncsSums | cmac/radar_clutter.py:163-169 | once some gate is counted twice, `new_s` equals `old_s` at every gate |
| StatsGrid.SettledPush | cmac/radar_clutter.py:159-163 | once some gate is counted twice, every later push takes the update branch |
| StatsGrid.SettledPushAll | cmac/radar_clutter.py:131-133 | from a tracking state with a gate counted twice, any further frames keep the state describing all the frames |
| StatsGrid.Mean | cmac/radar_clutter.py:171-173 | `mean()` is zero at every gate when no gate has been counted |
| StatsGrid.Variance | cmac/radar_clutter.py:175-177 | `variance()` is zero at every gate when no gate has been counted twice |
| StatsGrid.GateVariance | cmac/radar_clutter.py:177 | one gate's `new_s / (n - 1)` is missing (a division by zero) exactly when the gate was counted once |
| StatsGrid.MeanIsAverage | cmac/radar_clutter.py:171-173 | in a tracking state, `mean()` gives each gate the average of its history, and 0 for an empty history |
| StatsGrid.VarianceIsSample | cmac/radar_clutter.py:175-177 | in a tracking state with a gate counted twice, `variance()` gives each gate the sample variance of its history; a gate seen once divides by zero (no value); a gate never seen gives 0 |
| StatsGrid.InitBranchLosesMean | cmac/radar_clutter.py:159-161 | on a 1-by-2 grid, pushing `[5, masked]` then `[masked, 7]` leaves gate 0 counted once with mean 0, so the state no longer describes the frames |
| StatsGrid.PushCorrected | cmac/radar_clutter.py:146-169 | the corrected push raises counts exactly as `push` does and leaves `new_m`/`new_s` equal to `old_m`/`old_s` |
| StatsGrid.PushCorrectedTracks | cmac/radar_clutter.py:159-169 | the corrected push keeps the state describing all frames from any tracking state |
| StatsGrid.PushCorrectedStarts | cmac/radar_clutter.py:159-161 | from a new or cleared state, whatever its means and sums hold, the corrected push describes exactly the one frame |
| StatsGrid.PushAllCorrectedTracks | cmac/radar_clutter.py:131-133 | corrected pushes of any frames onto a new accumulator describe all those frames |
| StatsGrid.TracksDetermine | cmac/radar_clutter.py:131-133 | two states of one shape that describe the same frames, each with `new_s` equal to `old_s`, are equal |
| StatsGrid.SettledIsCorrected | cmac/radar_clutter.py:131-133 | a settled state of a new accumulator's shape that describes the frames equals the corrected accumulator over those frames |
| RunningStatsClass.RunningStats.constructor | cmac/radar_clutter.py:135-140 | the new object reads back as `Fresh`, with `n` still the scalar 0 |
| RunningStatsClass.RunningStats.Clear | cmac/radar_clutter.py:142-144 | the new state is `Cleared` of the old one; `n` is the scalar 0 again |
| RunningStatsClass.RunningStats.ZeroCounts | cmac/radar_clutter.py:144 | the loop leaves every count at 0 |
| RunningStatsClass.RunningStats.CountPresent | cmac/radar_clutter.py:150-155 | the loop over the count array adds 1 exactly at the present gates |
| RunningStatsClass.RunningStats.MaxCount | cmac/radar_clutter.py:159 | the result is the largest count, and it equals 1 exactly when the first-push branch is taken |
| RunningStatsClass.RunningStats.InitCells | cmac/radar_clutter.py:159-161 | the loops leave the arrays holding the first-push branch of the grid |
| RunningStatsClass.RunningStats.UpdateCells | cmac/radar_clutter.py:163-169 | the loops leave the arrays holding the update branch of the grid |
| RunningStatsClass.RunningStats.Push | cmac/radar_clutter.py:146-169 | the push fails exactly when `np.dstack` raises, and the counts are raised anyway; otherwise the arrays hold `StatsGrid.Push` of the old state |
| RunningStatsClass.RunningStats.Mean | cmac/radar_clutter.py:171-173 | zeros while `n` is the scalar 0, otherwise `StatsGrid.Mean` of the arrays |
| RunningStatsClass.RunningStats.Variance | cmac/radar_clutter.py:175-177 | fails exactly while `n` is the scalar 0; otherwise it is a grid of the accumulator's shape |
| ClutterSelect.Select | cmac/radar_clutter.py:116-118 | every listed coordinate lies in the grid and has a present ratio strictly between the thresholds; completeness, order and uniqueness are stated by the lemmas below |
| ClutterSelect.SelectMembers | cmac/radar_clutter.py:116-118 | a coordinate is selected iff it lies in the grid and its ratio is present and strictly between the two thresholds |
| ClutterSelect.SelectRowMajor | cmac/radar_clutter.py:116-118 | the selection is listed in strictly increasing row-major order |
| ClutterSelect.SelectNoDuplicates | cmac/radar_clutter.py:116-118 | every selected coordinate is listed once |
| ClutterSelect.SelectInGrid | cmac/radar_clutter.py:116-119 | every selected coordinate lies in the ratio grid's shape, as `_clutter_marker` needs |
| ClutterMarker.Dilate | cmac/radar_clutter.py:184-207 | the marker grid has the given shape, and every entry is 0 or 1 |
| ClutterMarker.DilateIff | cmac/radar_clutter.py:194-203 | a cell is 1 iff some listed coordinate lies within the disk `dx²+dy² ≤ radius²` around it |
| ClutterMarker.ListedFlagged | cmac/radar_clutter.py:197-203 | every listed coordinate is itself marked |
| ClutterMarker.RadiusZeroExact | cmac/radar_clutter.py:194-196 | with radius 0, exactly the listed coordinates are marked |
| ClutterMarker.SetIndependence | cmac/radar_clutter.py:197-203 | the marker grid depends only on the set of listed coordinates, not on their order or on duplicates |
| ClutterMarker.MonotoneRadius | cmac/radar_clutter.py:194-196 | a cell marked at one radius is marked at every larger radius |
| ClutterMarker.PadValue | cmac/radar_clutter.py:191-192 | the padded buffer holds 0 exactly inside the original grid and -999 in the padding |
| ClutterMarker.Stamp | cmac/radar_clutter.py:199-203 | stamping one gate changes no cell outside its window, leaves 0 or 1 inside it, and never clears a cell that was nonzero |
| ClutterMarker.Painted | cmac/radar_clutter.py:197-203 | after any number of stamps a padded cell holds 0, 1 or -999, and a cell inside the grid holds 0 or 1 |
| ClutterMarker.DiskInWindow | cmac/radar_clutter.py:194-203 | every disk offset lies within `-radius..radius` on both axes, so the disk fits the window |
| ClutterMarker.PaintedInner | cmac/radar_clutter.py:191-205 | after stamping every coordinate, an inner cell of the padded buffer is 1 iff the dilation marks the matching grid cell; padding is never read back |
| ClutterMarker.StampWindow | cmac/radar_clutter.py:199-203 | ORing the disk into one window changes exactly that window, staying inside the padded buffer |
| ClutterMarker.ClutterMarker | cmac/radar_clutter.py:184-207 | padding, stamping every coordinate in place and cropping yields exactly `Dilate`, with the ratio grid's mask attached |
| ClutterField.ToDict | cmac/radar_clutter.py:210-220 | the field holds the marker grid together with the units, standard name, long name and notes constants |
| ClutterField.MaskOf | cmac/radar_clutter.py:115 | the mask has the ratio grid's shape and is set exactly at the gates whose ratio is masked |
| ClutterField.MarkClutter | cmac/radar_clutter.py:114-121 | the field is the dilation of the threshold selection, masked where the ratio is masked |
| ClutterField.MarkedIff | cmac/radar_clutter.py:116-119 | a field cell is 1 iff some grid cell whose ratio is strictly between the thresholds lies within the radius of it |
| Streaming.FirstVolume | cmac/radar_clutter.py:76-78 | there is no first volume iff every file is corrupt, and the first volume is one of the files |
| Streaming.Step | cmac/radar_clutter.py:76-81 | a file adds only copies of its own data: two for the first readable file, and for a later one exactly one iff its shape matches the first |
| Streaming.Pushed | cmac/radar_clutter.py:72-81 | nothing is pushed without a readable file; otherwise at least two frames are pushed and the first two are both the first volume's data |
| Streaming.Streamed | cmac/radar_clutter.py:72-85 | the outcome has no accumulator iff every file is corrupt, and fails, with the `np.dstack` error, iff the first push of the first volume raises |
| Streaming.FirstVolumeIsFirst | cmac/radar_clutter.py:76-78 | the volume that fixes `first_shape` is the first readable one, and every file before it is corrupt |
| Streaming.FirstVolumePrefix | cmac/radar_clutter.py:76-77 | once a readable volume has been seen, later files do not change the first volume |
| Streaming.BeforeFirst | cmac/radar_clutter.py:72-85 | while every file is corrupt, nothing is pushed |
| Streaming.PushedIsFirstThenMatching | cmac/radar_clutter.py:76-81 | the pushed frames are the first volume, followed by every readable volume of its shape in file order, the first volume included |
| Streaming.DoublePush | cmac/radar_clutter.py:76-81 | the first readable volume is pushed twice in a row, before any other volume |
| Streaming.PushedShapes | cmac/radar_clutter.py:80-81 | every pushed frame has the first volume's shape, and nothing is pushed without a readable file |
| Streaming.FirstPushFails | cmac/radar_clutter.py:159-166 | the first push raises iff the volume has no present gate and more than one gate |
| Streaming.DriverTracks | cmac/radar_clutter.py:72-85 | when the first volume has a present gate, the loop succeeds; its state describes every pushed frame, and some gate is counted twice |
| Streaming.DriverMatchesCorrected | cmac/radar_clutter.py:72-85 | when the first volume has a present gate, the loop's state equals the corrected accumulator over the same frames |
| Streaming.Stream | cmac/radar_clutter.py:70-85 | the loop over files fails, finds no readable file, or yields an object whose arrays hold `Streamed`, matching the reference outcome in each case; a returned object has `n` as an array, so its `variance()` succeeds |
| Streaming.Start | cmac/radar_clutter.py:76-79 | a new object receives the first readable volume; the push succeeds iff `np.dstack` does not raise, and either way `n` is an array afterwards |
| Streaming.PushIfMatching | cmac/radar_clutter.py:80-81 | a volume of the first shape is pushed, which leaves `n` an array; any other volume leaves the state, including whether `n` is an array, unchanged |

## Left out

- Reading and writing radar files, replacing the radar object's fields, and the diagnostics printed on a corrupt file. These are file I/O and a foreign object. A file is a `Volume` or, when corrupt, `None`.
- The parallel branch (`use_dask`, lines 89-112). It runs a parallel library that is not part of this model, and its `nanstd` uses divisor n rather than n-1.
- `standard_deviation` and the ratio `stdev / mean` (lines 86-88, 179-181). These involve square roots and NaN/inf arithmetic, so the ratio grid is an input to the selection. A NaN or infinite ratio is treated as masked (`None`).
- Floating-point rounding: all arithmetic is over `real`.
- Mask propagation through `np.dstack` and `nansum`: a masked gate contributes nothing.
- `deepcopy` and `del`.
- Volumes with no rays or no gates: every readable volume is assumed to have a non-empty shape that its data matches (`Streaming.Readable`).
- Ordering across volumes: the order-independence of the final mean and variance is not proved. `MeanIsAverage` and `VarianceIsSample` express them over the ordered history.
- RunningStatsClass.RunningStats: the shape is fixed at construction, with at least one ray and one gate. The source starts from scalar zeros and lets numpy broadcast them; the model records "still the scalar 0" in `counted` (for `n`) and `started` (for `old_m`).
- RunningStatsClass.RunningStats: `old_m` and `new_m` (and `old_s`/`new_s`) are separate arrays that the model copies, while the source rebinds them to the same numpy array. Aliasing between them is not modelled.
- RunningStatsClass.RunningStats.Mean: returns a zero grid where the source returns the scalar 0.0.
- StatsGrid.Mean: returns a grid of zeros where `mean()` returns the scalar 0.0 (no gate counted); numpy broadcasts that scalar in the later `stdev / mean`.
- StatsGrid.Variance: returns a grid of `Some(0.0)` where `variance()` returns the scalar 0.0 (no gate counted twice).
- RunningStatsClass.RunningStats.Variance: states only the failure case and the shape; its values are stated by `StatsGrid.Variance`, `StatsGrid.VarianceIsSample` and the `Grid()` connection.
- ClutterMarker.ClutterMarker: marker values are integers 0 and 1 rather than floats 0.0 and 1.0.
- ClutterMarker.ClutterMarker: the radius is a `nat`, because `np.pad` refuses a negative one. The coordinates must lie in the grid, which `ClutterSelect.SelectInGrid` proves for the selection.
- ClutterField.MaskOf: a ratio grid without a mask (`nomask`) is modelled as an all-false mask.

## Findings

| source | as written | input that shows it | evidently intended | confidence | as-written member | corrected member |
|---|---|---|---|---|---|---|
| cmac/radar_clutter.py:159-161 | the first-push branch runs whenever the largest count is 1 and resets the mean at every gate, including gates already counted once that are masked in this frame | on a 1-by-2 grid, push `[5, masked]` then `[masked, 7]`: gate 0 ends with count 1 and mean 0 instead of 5 | apply the first-value initialisation per gate: a gate receiving its first value takes it as its mean with a zero sum of squares, a gate still uncounted is reset to zeros (discarding means and sums left by `clear`), and every other gate takes the Welford update | not executed | StatsGrid.InitBranchLosesMean | StatsGrid.PushCorrectedTracks |

In the streaming loop, the double push of the first volume makes some gate's
count 2 after the first two pushes, whenever the first volume has a present
gate. Every later push then takes the update branch. So on that path the
loop's state equals the corrected accumulator's
(`Streaming.DriverMatchesCorrected`). The defect shows only when the object
is used outside this loop, or after `clear`.

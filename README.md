# Clock of Clocks — verified model of the clock core

The clock draws HH:MM:SS with six digit groups of 24 small analog clocks
each. This project models in Dafny the parts of `script.js` that carry the
logic:

- **Angle accumulator** (`Angles`): `normalizeAngle` turns a hand forward by
  the smallest non-negative rotation, using JavaScript's truncating `%`
  (`JsNumber.Rem`).
- **Digit pattern table** (`Patterns`): the seven hand presets and the ten
  24-cell digit patterns, copied cell for cell.
- **Clock grid** (`Grid`): a class holding the 6 × 24 clocks as a
  two-dimensional array of `Clock(prevH, prevM)` values that start at 0;
  `ApplyDigit` (through `ApplyPattern`) and `RenderGrid` update it in place
  with loops.
- **Time to digits** (`TimeDigits`): `getTimeDigits` and the AM/PM badge of
  `tick`. `getUTCHours`, `getUTCMinutes` and `getUTCSeconds` are floored
  division and remainder of the shifted instant. This is how ECMAScript
  defines them, and it also holds before the epoch.
- **Calibration** (`Calibration`, `TimeSource`): how `calibrateOnce`
  chooses between the two samples. It filters, sorts stably by magnitude and
  takes the head, and this is proved equal to a closed-form rule, `Select`.
  A `Calibrator` class holds `offsetMs`. Also modelled: the latency
  compensation `halfRTT` and the 5 ms restart rule of periodic recalibration.
- **Scheduling arithmetic** (`Scheduler`): the first-tick delay
  `1000 - now % 1000`.

Instants, offsets and angles are integers (milliseconds and degrees). The
time-zone setting enters as `zoneMs`, the value of `gmtOffset * 3600000`, so
half-hour zones such as +5:30 are covered. The network samples enter as
`Option<int>`: `None` stands for a request that threw or a result that is not
a finite number. The wall clock, the monotonic clock and the server's time
stamp are parameters.

The code has three behaviours worth knowing, and the model keeps them:

- `startAlignedTicker` (script.js:89-98) clears the interval only. A pending
  one-shot timeout is not cancelled.
- The visibility handler (script.js:193-200) calls `tick()` and not
  `renderGrid()`.
- The first aligned tick (script.js:95) updates only the badge.

## Model

| member | source | states |
|---|---|---|
| `JsNumber.Abs` | script.js:121 | `Math.abs`: non-negative, equal to x or -x |
| `JsNumber.Rem` | script.js:318 | JavaScript `%`: lies strictly between -n and n, is non-negative for a non-negative dividend and non-positive for a negative one, and has the magnitude of the Euclidean remainder of the dividend's magnitude |
| `Angles.NormalizeAngle` | script.js:317-320 | the new angle is at least `prev`, less than `prev + 360`, and congruent to `next` mod 360 |
| `Angles.NormalizeIsSmallestForwardTurn` | script.js:317-320 | every angle that is at least `prev` and congruent to `next` is at least the result, so the rotation is the smallest forward one |
| `Angles.NoSpuriousTurn` | script.js:317-320 | if `prev` already points at `next` (mod 360) the result is `prev` |
| `Angles.NormalizeIdempotent` | script.js:317-320 | normalizing again towards the same target changes nothing |
| `Angles.NormalizePointsAt` | script.js:317-320 | for a target in [0, 360) the result's residue mod 360 is the target |
| `Patterns.TableShape` | script.js:211-292 | exactly 10 patterns, each of exactly 24 cells, each cell one of the seven presets |
| `Patterns.PresetsInRange` | script.js:203-209 | every preset's hour and minute angles lie in [0, 360) |
| `Patterns.Pattern` | script.js:338 | `digits[d]` for d < 10 has 24 cells, all presets, all angles in [0, 360) |
| `TimeDigits.UtcHours` | script.js:325 | `getUTCHours` lies in 0..23 |
| `TimeDigits.UtcMinutes` | script.js:326 | `getUTCMinutes` lies in 0..59 |
| `TimeDigits.UtcSeconds` | script.js:327 | `getUTCSeconds` lies in 0..59 |
| `TimeDigits.Fold12` | script.js:328 | `(h % 12) \|\| 12` lies in 1..12 and agrees with h mod 12 (0 reads 12, 13 reads 1) |
| `TimeDigits.GetTimeDigits` | script.js:323-334 | six digits in 0..9; the pairs read back as the (folded in 12-hour mode) hour, the minute and the second of `ms + zoneMs` |
| `TimeDigits.DisplayRanges` | script.js:323-334 | the hour pair reads 0..23 in 24-hour mode and 1..12 in 12-hour mode; minutes and seconds read 0..59 |
| `TimeDigits.DigitsSpellTimeOfDay` | script.js:323-334 | hours, minutes and seconds read from the 24-hour digits rebuild the time of day of `ms + zoneMs` to the second |
| `TimeDigits.AmPm` | script.js:77-86 | the badge is hidden exactly in 24-hour mode; in 12-hour mode it is AM exactly when the shifted UTC hour is below 12 |
| `TimeDigits.TwelveHourReadingIsFaithful` | script.js:79-81 | in 12-hour mode the hour digits together with the badge give back the 24-hour hour |
| `TimeDigits.Example24Hour` | script.js:323-334 | 14:05:09 with offset 0 in 24-hour mode reads 1 4 0 5 0 9 |
| `TimeDigits.Example12Hour` | script.js:328-333 | the same instant in 12-hour mode reads 0 2 0 5 0 9, badge PM |
| `TimeDigits.ExampleMidnight12Hour` | script.js:328 | midnight in 12-hour mode reads 1 2, badge AM |
| `TimeDigits.ExampleBeforeEpochWithHalfHourZone` | script.js:324-327 | 1 ms before the epoch at +5:30 reads 05:29:59 |
| `Grid.Advance` | script.js:340-343 | one clock's step: both hands end pointing at the pattern cell, neither accumulator decreases, and each turns less than a full circle |
| `Grid.AdvanceFixesShown` | script.js:342-343 | a clock that already shows the cell does not move |
| `Grid.AdvanceIdempotent` | script.js:342-343 | applying the same cell twice is the same as applying it once |
| `Grid.ClockGrid.constructor` | script.js:295-310 | 6 groups of 24 clocks, all accumulators 0 |
| `Grid.ClockGrid.ApplyPattern` | script.js:339-346 | clock i of the group advances towards cell i of the pattern; no clock of another group changes; a clock that already shows its cell does not move |
| `Grid.ClockGrid.ApplyDigit` | script.js:337-347 | the group advances towards `digits[digit]` cell by cell; no clock of another group changes; a clock that already shows its cell does not move |
| `Grid.ClockGrid.RenderGrid` | script.js:350-353 | group g advances towards digit g of the time; afterwards every clock shows the current time's pattern; a clock that already shows its cell does not move, so rendering the same time twice changes nothing |
| `Calibration.Finite` | script.js:121 | the filter keeps every present sample and nothing else; it is empty exactly when all samples are missing |
| `Calibration.Insert` | script.js:121 | one step of the stable sort: the list grows by one, and its head is `x` exactly when no head of smaller magnitude was there |
| `Calibration.SortByMagnitude` | script.js:121 | the sort keeps the number of samples |
| `Calibration.InsertKeepsSorted` | script.js:121 | inserting into a list ordered by magnitude keeps it ordered |
| `Calibration.InsertAddsOne` | script.js:121 | inserting adds exactly that element |
| `Calibration.SortIsSorted` | script.js:121 | the sorted candidates are ordered by absolute value |
| `Calibration.SortIsPermutation` | script.js:121 | the sorted candidates are a permutation of the present samples |
| `Calibration.SortHeadIsFirstSmallest` | script.js:121-123 | the head of the sorted list is the earliest element of smallest magnitude (stable sort: ties go to the earlier sample) |
| `Calibration.Select` | script.js:117-125 | the chosen offset is absent exactly when both samples are; otherwise it is one of them, no larger in magnitude than either, and the head sample wins a tie |
| `Calibration.SortedCandidatesAgreeWithSelect` | script.js:121-123 | filtering, sorting and taking the head chooses exactly what `Select` chooses |
| `Calibration.Committed` | script.js:122-124 | with no present sample the offset is kept; otherwise it becomes the selected sample |
| `Calibration.ShouldRestart` | script.js:369 | `Math.abs(offsetMs - before) >= 5` holds exactly when the new offset lies outside the open 5 ms window around the old one |
| `Calibration.RestartOnlyOnDrift` | script.js:367-369 | for a pass that no other calibration interleaves, recalibration restarts the ticker exactly when a sample was chosen at least 5 ms from the old offset, so such a pass with no sample never restarts it |
| `Calibration.ExampleSmallerMagnitudeWins` | script.js:121-123 | samples +1500 and -200 give -200 |
| `Calibration.Calibrator.constructor` | script.js:71 | `offsetMs` starts at 0 |
| `Calibration.Calibrator.CalibrateOnce` | script.js:117-125 | `offsetMs` becomes the committed value (unchanged when no sample is present), and that value is returned |
| `Calibration.Calibrator.Recalibrate` | script.js:366-370 | for a pass that no other calibration interleaves: calibrates, then reports a restart exactly when the offset moved by at least 5 ms |
| `TimeSource.HalfRTT` | script.js:101 | for t0 ≤ t1 the estimate lies between the stamp and the stamp plus the round trip, and the stamp is treated as taken at the midpoint of [t0, t1] |
| `TimeSource.SampleOffset` | script.js:107-115 | for t0 ≤ t1 the reported offset is the raw difference between stamp and wall clock, moved forward by between 0 and one round trip |
| `TimeSource.SymmetricLatencyIsExact` | script.js:100-115 | a reply stamped halfway through the round trip errs by exactly the stamp's truncation plus the delay of the wall-clock read, towards the past; with neither it yields the true offset |
| `TimeSource.SampleErrorWithinHalfRoundTrip` | script.js:100-115 | a reply stamped anywhere in the round trip overshoots the true offset by at most half the round trip, and undershoots it by at most half the round trip plus the truncation and the read delay |
| `TimeSource.HeadSampleErrorWithinOneSecond` | script.js:101-108 | for the `Date`-header sample (whole-second stamp, wall clock read at once) the error is below half the round trip plus 1000 ms |
| `Scheduler.FirstTickDelay` | script.js:92 | the first tick lands on a second boundary of corrected time; the delay is in (0, 2000), and in (0, 1000] when `now` ≥ 0 |
| `Scheduler.FirstTickIsNextBoundary` | script.js:92 | for `now` ≥ 0 no shorter positive delay reaches a second boundary |

## Left out

- Network I/O (script.js:102-116): `fetch`, the `Date` header and the JSON
  payload are foreign calls. Only the result of a sample is modelled, as
  `Option<int>`. So is the latency arithmetic, in `TimeSource`.
- `TimeSource`: the latency arithmetic uses real numbers, because JavaScript
  divides by two exactly. The calibration state holds integer milliseconds.
  The fractional part of a sample (an odd round trip, or a fractional
  `performance.now`) is not carried into `Calibrator.offsetMs`.
- Timers (script.js:89-98, 366, 193-200): `setTimeout`, `setInterval`,
  `clearInterval`, the `tickerId` and `aligned` flags, the visibility
  handler and the boot order (script.js:356-363) are event-loop behaviour.
  Only the delay formula and the 5 ms threshold are modelled. No
  cancellation guarantee is claimed, since the code cancels only the
  interval.
- Calibration.Calibrator.Recalibrate, Calibration.RestartOnlyOnDrift: a pass
  is modelled as atomic. In the code the pass reads `before`, then awaits
  `calibrateOnce()` and its two fetches, which have no timeout
  (script.js:367-369). Meanwhile the visibility handler can run its own
  `calibrateOnce()` (script.js:198) and commit a new offset. So in the code a
  periodic pass whose samples all fail can still restart the ticker; the
  model does not capture that interleaving.
- TimeSource.SampleErrorWithinHalfRoundTrip, TimeSource.SymmetricLatencyIsExact:
  the stamp's truncation and the delay of the `Date.now()` read are
  parameters, not derived. The model assumes the truncation lies in
  [0, 1000) ms for the `Date` header and is non-negative for the JSON
  `utc_datetime`, and that the delay is non-negative (for `sampleWorldAPI` it
  includes the body download of `r.json()`, script.js:113-115). The model
  also assumes the server's stamp falls within the round trip.
- Grid.ClockGrid.RenderGrid: takes the corrected instant as a parameter;
  `nowCorrectedMs` (`Date.now() + offsetMs`, script.js:74) reads the
  system clock. The model does not capture that `tick` and `renderGrid` read
  the clock separately.
- DOM and CSS (script.js:1-8, 59-68, 127-190, 295-314): element creation,
  `style.setProperty` of the angles, themes, the dropdown and the toggles.
  The rendered angle is the accumulator itself.
- Settings persistence and URL query handling (script.js:10-57): these
  depend on `localStorage`, `URL` and `parseFloat`.
- Floating point: JavaScript `Number` rounding, NaN and Infinity are not
  modelled, and neither is the valid range of `Date`. A non-finite sample is
  modelled as a missing one. Accumulated angles are unbounded integers, so
  they never overflow.
- Each clock is a DOM element in the code. In the model it is a `Clock`
  value inside one two-dimensional array, so aliasing between clocks is not
  modelled. In the code the groups are disjoint arrays anyway.

# Random-Wire-Lengths in Dafny

A Dafny model of `src/main.rs` from Random-Wire-Lengths. That program plans
where to cut a random-wire (end-fed) HF antenna. It takes amateur bands in
meters on the command line, plus `-f` for full wave and `-m` for metric. For
every band it computes the wire lengths at which some harmonic of that band
puts a high-voltage point at the feed. It draws all those length windows on
one axis, and the gaps between them are the good random-wire lengths.

The model covers five parts of the program:

- **Band table.** `HAM_BANDS_MHZ` is copied row for row (`Bands.HamBandsMhz`).
- **Command line.** `cli` becomes `CommandLine.Cli`. It uses a faithful model
  of Rust's `str::parse::<u32>` (`Decimal.ParseU32`) and a descending sort
  (`Sorting.SortDesc`).
- **Band lookup.** `edges_mhz` becomes `Bands.EdgesMhz`.
- **Harmonic series.** `high_v` becomes `Harmonics.HighV`. The `f64 as usize`
  cast is written out as `Harmonics.Truncate`.
- **Aggregation and drawing.** The aggregation and title in `main` become
  `Overlay.Aggregate`. The unit conversion and axis bounds of `graph` become
  `Plot.Graph`. `Pipeline.Run` chains everything from the argument list to
  the figure's numbers.

Every place where the program prints the usage text and exits with status 1
becomes an `Err` of `Outcomes.Result`, carrying the reason:

- `BadToken`: a token that is neither a flag nor a `u32`.
- `NoBands`: no band was given.
- `UnknownBand`: the first band with no row in the table.
- `MissingProgramName`: the argument list is empty. The source panics here
  when it indexes `args[0]`.

Some facts about the code are easy to get wrong from its names. The model follows the code:

- Each table row pairs the band designator with a second number. `high_v`
  divides 468 by both, so the designator itself is used as a frequency.
  A window's short end is harmonic n of `468 / value` and its long end is
  harmonic n of `468 / designator`.
- The cutoff and the quarter-wave lower bound come from the first band after
  sorting, which is the largest band. The series are appended in that same
  sorted order.
- `-f` doubles the cutoff. For the 10 m band alone in full wave, this gives
  5600 harmonics (`Overlay.TenMetersFullWave`).
- Repeated bands are kept. They show up twice in the title and add their
  series twice.
- In `graph`, `x_max` is an `f32`, but the value it is compared with is an
  `f64`. Rust does not accept that as written. The model takes the evident
  intent: the running maximum of the converted window ends, starting at 0.

## Model

| member | source | states |
|---|---|---|
| Decimal.ParseU32 | src/main.rs:29 | a token parses exactly when it is an optional `+` then one or more decimal digits of value at most 4294967295, and the result is that value |
| Decimal.Accumulate | src/main.rs:29 | the digit loop of `parse::<u32>` never returns less than the value it started from, nor more than 4294967295; `AccumulateMeaning` gives its exact result |
| Decimal.AccumulateMeaning | src/main.rs:29 | reading digits left to right with checked overflow succeeds exactly for all-digit text within range, and yields its positional value |
| Decimal.ToDecimal | src/main.rs:139-141 | `to_string` yields a non-empty digit string without a leading zero whose value is the number |
| Decimal.ParseToDecimal | src/main.rs:139-141 | every `u32` rendered by `to_string` parses back to itself |
| Decimal.ToDecimalOfValue | src/main.rs:139-141 | a canonical digit string is the rendering of its own value, so rendering is one-to-one on canonical text |
| Sorting.Insert | src/main.rs:38 | inserting into a non-increasing list keeps it non-increasing and adds exactly one copy of the element |
| Sorting.SortDesc | src/main.rs:38 | the band list sorted by `b.cmp(a)` is non-increasing and a permutation of its input |
| Sorting.SortedPermutationUnique | src/main.rs:38 | two non-increasing permutations of the same list are equal, so the unstable sort's result does not depend on its algorithm |
| CommandLine.ScanTokens | src/main.rs:23-36 | the argument loop fails only by meeting a bad token, and collects at most one band per token; `ScanVerdict`, `ScanBands` and `ScanFlags` give its exact outcome |
| CommandLine.ScanVerdict | src/main.rs:23-36 | the argument loop finishes exactly when every token is a flag or a `u32`, and otherwise stops at the first token that is neither |
| CommandLine.ScanAccepts | src/main.rs:23-36 | the argument loop runs to its end exactly when every token is `-f`, `-m` or a `u32` |
| CommandLine.ScanFirstBad | src/main.rs:28-33 | when the loop takes the usage path, it is at the first token that is neither a flag nor a `u32` |
| CommandLine.ScanBands | src/main.rs:28-30 | the bands collected are the values of the non-flag tokens, in command-line order |
| CommandLine.ScanFlags | src/main.rs:24-27 | full wave is set exactly when `-f` appears, and metric exactly when `-m` appears, wherever they are |
| CommandLine.BandsAreNumbers | src/main.rs:28-30 | once every token is accepted, no flag reaches the band list and every band is at most 4294967295 |
| CommandLine.Cli | src/main.rs:18-45 | `cli`, computed by `Classify` (the scan, the sort and the empty-list check), with `ClassifySuccess` and `ClassifyFailure` proving the contract: the missing-program-name failure happens exactly for an empty argument list; any bad token after the program name gives a bad-token failure, naming the first one; success exactly when every argument after the program name is accepted and at least one is a band; the bands are then a non-increasing permutation of the band tokens and the flags reflect their tokens; the no-band failure happens exactly when all tokens are accepted and none is a band |
| CommandLine.ClassifySuccess | src/main.rs:23-44 | the steps of `cli` succeed exactly when every token is accepted and one is a band, with sorted bands and the flags as given, and report no band exactly when none was given |
| CommandLine.ClassifyFailure | src/main.rs:28-33 | the steps of `cli` report a missing program name only for empty arguments, and a bad token whenever there is one, naming the first |
| CommandLine.FortyMetricArgs | src/main.rs:18-45 | the command line `endfed 40 -m` selects the 40 m band alone, metric, half wave |
| Bands.TableShape | src/main.rs:4-16 | `HamBandsMhz` has 11 rows with designators strictly decreasing, each positive and below its paired value |
| Bands.ListedIsUsage | src/main.rs:115 | a band has a row exactly when the usage text names it |
| Bands.RowByDesignator | src/main.rs:4-16 | a row of the table is determined by its designator |
| Bands.Find | src/main.rs:51 | lookup succeeds exactly when some row has the designator, and returns the first such row |
| Bands.LookupRows | src/main.rs:50-52 | a finished lookup loop holds one row per band, in order, each the row `find` returns for that band |
| Bands.LookupVerdict | src/main.rs:50-55 | the lookup loop finishes exactly when every band has a row, and otherwise takes the usage path at the first band without one |
| Bands.Edges | src/main.rs:47-59 | `Lookup` with `LookupRows` and `LookupVerdict` applied: lookup over any table succeeds exactly when every band has a row; each band's entry is the row `find` returns, the first with that designator, one per band in order; otherwise it fails at the first band without a row |
| Bands.EdgesMhz | src/main.rs:47-59 | `edges_mhz` succeeds exactly when every band is one of the 11 usage-text bands, returns each band's own table row in order, and otherwise names the first unknown band |
| Harmonics.HalfWave | src/main.rs:98 | 468 over a positive number is a positive length |
| Harmonics.Truncate | src/main.rs:99 | the cast to `usize` is the whole part of a non-negative number and zero for a negative one |
| Harmonics.TruncateScaled | src/main.rs:99 | the harmonic count is the number of whole short-end lengths that fit under the cutoff |
| Harmonics.Multiples | src/main.rs:100-106 | window i of the series is harmonic i+1 of both ends |
| Harmonics.HighV | src/main.rs:97-109 | `high_v` is empty for a negative cutoff; otherwise its count n has n short ends fitting under the cutoff and n+1 not; window i runs from (i+1)·468/value to (i+1)·468/designator |
| Harmonics.HighVEmpty | src/main.rs:99-100 | a band contributes no window exactly when its fundamental's short end lies beyond the cutoff |
| Harmonics.HighVOrdered | src/main.rs:97-109 | for a table row, every window runs forward, both short ends and long ends strictly increase from one window to the next, and every short end lies within the cutoff |
| Harmonics.SeriesOrdered | src/main.rs:102-106 | the same ordering facts, both ends included, for any series of multiples whose last short end fits |
| Harmonics.HighVMonotone | src/main.rs:99 | a longer cutoff never yields fewer harmonics |
| Overlay.QuarterWave | src/main.rs:126 | the quarter-wave lower bound is positive and half of the reference band's half-wave length |
| Overlay.Cutoff | src/main.rs:127-131 | the cutoff is one half-wave length of the reference band, or two with `-f` |
| Overlay.CutoffScales | src/main.rs:126-131 | the full-wave cutoff is twice the half-wave one, which is twice the quarter-wave lower bound |
| Overlay.Series | src/main.rs:134-135 | one `high_v` series per looked-up row, in the rows' order, all against the same cutoff; `MarkedLayout` and `MergeOrdered` place and order them |
| Overlay.Flatten | src/main.rs:134-137 | appending the series gives as many windows as they hold together; `FlattenSlice` places each one |
| Overlay.FlattenSlice | src/main.rs:134-137 | each series appears unchanged, right after the series before it |
| Overlay.MarkedLayout | src/main.rs:133-137 | the merged list is the baseline marker followed by every series, each unchanged and in order |
| Overlay.MergeOrdered | src/main.rs:133-137 | every merged window from table rows runs forward and starts within the cutoff |
| Overlay.Join | src/main.rs:143 | `join` starts with its first part; `SplitJoin` shows it loses nothing for comma-free parts |
| Overlay.SplitList | src/main.rs:143 | a helper the program does not have: cutting at `", "` is a right inverse of the `join`, since joining the pieces gives the text back |
| Overlay.SplitJoin | src/main.rs:139-143 | joining comma-free pieces with `", "` and splitting again gives the pieces back |
| Overlay.Title | src/main.rs:144 | the title starts with "High Voltage Lengths for " and ends with " m" |
| Overlay.TitleNamesBands | src/main.rs:139-144 | between the title's prefix and suffix, the comma-separated pieces parse back to the bands, in order |
| Overlay.Aggregate | src/main.rs:126-144 | the lower bound is 234/designator of the first row; the list starts with the marker window from 0 to it, followed by every band's `high_v` series against the shared cutoff, in order; the title is the joined band list |
| Overlay.FortyMetersHalfWave | src/main.rs:126-135 | for 40 m alone in half wave, the cutoff is 11.7 ft, the lower bound is 5.85 ft, and there are 175 harmonics |
| Overlay.TenMetersFullWave | src/main.rs:126-135 | for 10 m alone in full wave, the cutoff is 93.6 ft and there are 5600 harmonics |
| Plot.ToUnit | src/main.rs:75-86 | imperial output leaves a length alone; metric output gives the length whose 39.37 inches per meter equal its 12 inches per foot |
| Plot.ToUnitMonotone | src/main.rs:82-86 | converting lengths to the display unit keeps their order |
| Plot.SegmentToUnit | src/main.rs:82-86 | both ends of a window are converted, and a window that runs forward still does |
| Plot.RunningMax | src/main.rs:89 | the running `max` from zero is non-negative, at least every window end, and either zero or one of those ends |
| Plot.Graph | src/main.rs:61-92 | the label names the unit; every window and the lower bound are converted to the unit; the upper bound is the largest converted end, or zero |
| Plot.RunningMaxToMeters | src/main.rs:81-89 | taking the maximum commutes with conversion to meters |
| Plot.MetricScalesView | src/main.rs:75-92 | the metric figure is the imperial one with every window end and both axis bounds multiplied by 12/39.37, and nothing else changes but the label's unit |
| Pipeline.Run | src/main.rs:120-145 | the program draws exactly when `cli` succeeds and every band is a usage-text band; otherwise it fails with `cli`'s error or at the first unknown band |
| Pipeline.Draw | src/main.rs:124-144 | after `cli`, drawing succeeds exactly when every band is known, and otherwise fails at the first unknown band |
| Pipeline.RowsUsable | src/main.rs:4-16 | every row that lookup returns is safe to divide by and has designator at most value |
| Pipeline.FigureView | src/main.rs:126-144 | the figure for table rows has the joined title, the marker from 0 to the first row's converted quarter wave, and every window forward and within the upper bound |
| Pipeline.DrawView | src/main.rs:124-144 | for sorted usage-text bands drawing succeeds, and the figure is measured from the first band, which is the largest one selected |
| Pipeline.RunView | src/main.rs:120-145 | a successful run lists its bands in the title, starts the axis at the largest band's quarter wave, and shows every window running forward within the axis; after the marker, its windows are every band's `high_v` series, in sorted order and converted to the display unit, against the largest band's cutoff, doubled for `-f` |
| Pipeline.DrawWindows | src/main.rs:124-144 | for known bands, the figure holds one window more than all the series together, and after the marker each band's `high_v` series against the first band's cutoff (doubled for `-f`) appears in band order, each window converted to the display unit |
| Pipeline.MetricLabel | src/main.rs:70 | for usage-text bands drawing succeeds, and the x-axis label names meters exactly when `-m` was given, and feet otherwise |
| Pipeline.FortyTitle | src/main.rs:139-144 | the title for the 40 m band alone is "High Voltage Lengths for 40 m" |
| Pipeline.FortyMetersMetric | src/main.rs:120-145 | `endfed 40 -m` draws a figure titled for 40 m, labelled in meters, whose axis starts at 5.85 ft converted to meters |

## Left out

- Plotting: figure size, dpi, subplot, title, y-ticks, y-limits, grid, `fill`, `tight_layout` and `show` (src/main.rs:64-73, 88, 92-94) are calls into a library. The model stops at the numbers `graph` hands them (`Plot.View`).
- Usage printing and `process::exit(1)` (src/main.rs:111-118): every call becomes an `Err` saying why. The text printed and the exit status are not modelled.
- `env::args()` (src/main.rs:121): the argument list is a parameter of `Pipeline.Run`. Arguments that are not valid Unicode (a panic in Rust) are not modelled.
- Floating point: lengths are exact reals, not IEEE-754 `f64`/`f32`. For the reference band, `len_max / len0` is exactly value / designator (doubled for `-f`). That is a whole number for 80, 40, 20, 15 and 10 m, and for 160 m with `-f`. Wherever the exact quotient is a whole number, the `f64` quotient can land just below it and truncate one lower. For example, `endfed 80` gives 49.99999999999999 and so 49 harmonics, where the model gives 50. The same happens for 80 m with `-f` (99 against 100), for 15 m (1399 against 1400, and 2799 against 2800 with `-f`) and for 160 m with `-f` (24 against 25). The other bands of a multi-band selection can lose a harmonic in the same way. In `endfed 40 15`, the 15 m series has exactly 525 windows under the 11.7 ft cutoff, but `f64` gives 524.9999999999999 and so 524. The 40 m and 10 m scenario lemmas agree with `f64`.
- Harmonics.Truncate: does not model `usize` saturation at its upper bound, nor NaN and infinity, because exact reals are finite and every count here is small.
- Plot.Graph: the `f32` `x_max` compared with `f64` ends does not type-check as written, so the model takes the running maximum over reals. The `f32` rounding is not modelled.
- Pipeline.Draw: requires a non-empty band list. That is the one input on which `main` would panic indexing `edges_mhz[0]`, and `cli` never returns it.

# VWF flow bench: a verified model of its computing core

The bench measures von Willebrand factor (VWF) activity in three ways.

- **Platelet images.** A microscope image is contrast-normalised through its cumulative histogram. It is then binarised with an inverted threshold and its 8-connected regions are labelled. Only the isolated platelets are kept: regions far enough from every other centroid, small enough and solid enough. Those regions are written into a fresh mask, and the mask is labelled again to count them.
- **Magnetic stirrer.** A stirrer shears the sample. Two controller windows drive it over a serial line:
  - one sets the target in RPM or in mean shear rate, converting between them with a piecewise-linear calibration;
  - the other takes a typed RPM.

  Both keep a bounded trace of the speed read back from the Arduino and plot its last ten seconds.
- **Turbidity sensor.** A sensor reports `time_ms,Voff,Von,Vdiff` lines. A calibration stores the reference voltage V0 as a mean Vdiff. A measurement turns Vdiff into relative turbidity, then into VWF activity through a least-squares line fitted to control points. A stand-alone script converts an absorbance difference into activity the same way.

The model is written in Dafny, one module per concern.

| file | module | what it holds |
|---|---|---|
| `wrappers.dfy` | `Wrappers` | `Option` and `Result` |
| `text.dfy` | `Text` | `split`, `join`, `startswith` and the decimal formatting the serial protocols use |
| `stats.dfy` | `Stats` | sums, means and the degree-1 least-squares fit in closed form over reals |
| `histogram.dfy` | `HistogramNormalizer` | histogram normalisation and inverted binarisation |
| `connectivity.dfy` | `Connectivity` | 8-connectivity, component labellings and why their count is unique |
| `isolation.dfy` | `IsolationFilter` | the isolation rule, the mask-writing loop and the relabel count |
| `shear.dfy` | `ShearConversion` | `linear_coeff`, the segment table, `rpm_to_shear` and `shear_to_rpm` |
| `rpm_trace.dfy` | `RpmTrace` | the 1000-entry buffers and the plot window |
| `stirrer_ui.dfy` | `Stirrer` | the slider controller, as a class over the fields the source mutates |
| `motor_panel.dfy` | `MotorPanel` | the typed-RPM controller, as a class over its module-level state |
| `acquisition.dfy` | `SensorAcquisition` | the serial-line filter and the acquisition loop |
| `turbidity.dfy` | `Turbidity` | relative turbidity, `calibrate` and `measure` |
| `activity.dfy` | `VwfActivity` | the turbidity-to-activity curve and the `±` band |
| `conversion.dfy` | `AbsorbanceConversion` | the absorbance-to-activity conversion |

Python floats are modelled as exact reals. Python's `float()` and `int()` on text are parameters (`parseReal`, `parseInt`), so every property holds for any parser. Region features from `regionprops` are inputs. The Otsu threshold is a parameter.

## Model

| member | source | states |
|---|---|---|
| HistogramNormalizer.Flatten | src/platelet_detection.py:44-45 | an image of `rows` equal rows of `cols` pixels has `rows * cols` pixels |
| HistogramNormalizer.BinOf | src/platelet_detection.py:46 | a grey level of at least 35 falls in the bin whose edges `35 + k*220/256` surround it; 255 falls in the last bin; the bin index never exceeds the grey level |
| HistogramNormalizer.Histogram | src/platelet_detection.py:46 | the histogram has 256 bins |
| HistogramNormalizer.CumulativeHistogram | src/platelet_detection.py:47 | entry `k` of the cumulative histogram is the number of pixels falling in bins `0..k` |
| HistogramNormalizer.CumSumAt | src/platelet_detection.py:47 | entry `k` of `cumsum` is the total of the first `k + 1` bins |
| HistogramNormalizer.CountUpToMonotone | src/platelet_detection.py:47 | the cumulative count never decreases |
| HistogramNormalizer.Level | src/platelet_detection.py:48-49 | a full count maps to 255 and an empty count to 0 |
| HistogramNormalizer.LevelBound | src/platelet_detection.py:48-49 | `255 * c // N` lies in 0..255 for any count `c <= N` |
| HistogramNormalizer.LevelMonotone | src/platelet_detection.py:48-49 | a larger count never gives a lower grey level |
| HistogramNormalizer.LookupTable | src/platelet_detection.py:47-48 | entry `v` of the table is the level of the count of bins `0..v`, indexed by raw intensity |
| HistogramNormalizer.Normalize | src/platelet_detection.py:44-49 | the output has the input's shape; each pixel becomes `floor(255 * cum[v] / N)` for its raw intensity `v`, with `N` counting every pixel, including those below 35 |
| HistogramNormalizer.NormalizeMonotone | src/platelet_detection.py:47-48 | a brighter input pixel never maps to a darker output pixel |
| HistogramNormalizer.BrightestMapsToTop | src/platelet_detection.py:46-49 | when no pixel is below 35, the brightest pixel maps to 255 |
| HistogramNormalizer.CountUpToLastBin | src/platelet_detection.py:46-47 | when no pixel is below 35, the last cumulative entry counts every pixel |
| HistogramNormalizer.IndexIsIntensityNotBin | src/platelet_detection.py:48 | intensities 60 and 65 fall in bins 29 and 34, and the table is indexed by intensity, so both map to 255 |
| HistogramNormalizer.DarkPixelsDilute | src/platelet_detection.py:45-48 | pixels below 35 are not counted but are in the total: `[[0, 200]]` normalises to `[[0, 127]]` |
| HistogramNormalizer.Binarize | src/platelet_detection.py:52-55 | same shape; a pixel is foreground iff its normalised value is at most the threshold |
| HistogramNormalizer.BinarizeMonotone | src/platelet_detection.py:52-55 | a higher threshold keeps every foreground pixel |
| HistogramNormalizer.ForegroundDownClosed | src/platelet_detection.py:47-55 | if a pixel is foreground, so is every pixel no brighter in the raw image |
| Connectivity.PathStaysInPart | src/platelet_detection.py:62 | an 8-connected path inside the mask never leaves the component it starts in |
| Connectivity.PartMatches | src/platelet_detection.py:62 | every component of one labelling is a component of any other labelling of the same mask |
| Connectivity.LabelsAreDistinct | src/platelet_detection.py:62 | non-empty, mutually separated components are pairwise distinct |
| Connectivity.UnionCovers | src/platelet_detection.py:78-79 | every pixel of a union of regions lies in one of them |
| Connectivity.UnionLabelling | src/platelet_detection.py:81 | non-empty, connected, mutually separated regions are exactly the components of their union |
| Connectivity.LabelCountUnique | src/platelet_detection.py:81-82 | any two labellings of one mask have the same number of labels |
| IsolationFilter.CoordSets | src/platelet_detection.py:63 | one pixel set per region, in label order |
| IsolationFilter.Diameters | src/platelet_detection.py:67 | the diameters column holds each region's equivalent diameter, in order |
| IsolationFilter.DistanceThreshold | src/platelet_detection.py:67-70 | the mean diameter: the common diameter when all are equal, never negative while no diameter is |
| IsolationFilter.Accepted | src/platelet_detection.py:72-77 | kept iff the nearest other centroid is farther than the threshold, the area is at most 150 and the solidity above 0.9 |
| IsolationFilter.ThresholdBetweenDiameters | src/platelet_detection.py:67-70 | the one threshold per image, the mean diameter, lies between the smallest and the largest diameter |
| IsolationFilter.SqDistSymmetric | src/platelet_detection.py:68 | the distance matrix is symmetric |
| IsolationFilter.LoneRegion | src/platelet_detection.py:69-77 | a region alone in its image passes the distance test, so it is accepted iff area ≤ 150 and solidity > 0.9 |
| IsolationFilter.ShapeRejects | src/platelet_detection.py:72-77 | area > 150 or solidity ≤ 0.9 rejects a region, whatever the distances |
| IsolationFilter.ClosePairRejected | src/platelet_detection.py:68-74 | two centroids within the threshold of each other reject both regions |
| IsolationFilter.BuildIsolatedMask | src/platelet_detection.py:71-79 | the mask has the image's shape and is set exactly on the pixels of the accepted regions |
| IsolationFilter.IsolatedExactly | src/platelet_detection.py:71-79 | a pixel is in the isolated mask iff it belongs to an accepted region |
| IsolationFilter.AcceptedPartsSeparated | src/platelet_detection.py:71-79 | the accepted regions stay connected and mutually separated |
| IsolationFilter.IsolatedIsUnion | src/platelet_detection.py:71-79 | the isolated pixels are the union of the accepted regions' pixel sets |
| IsolationFilter.AllOrNothing | src/platelet_detection.py:73-79 | an accepted region lies wholly in the isolated mask; a rejected one shares no pixel with it |
| IsolationFilter.RelabelCount | src/platelet_detection.py:81-82 | relabelling the isolated mask with 8-connectivity finds exactly one label per accepted region |
| ShearConversion.LinearCoeff | UI/motorcontrol_UI.py:48-52 | the line passes through both points |
| ShearConversion.SegmentBetween | UI/motorcontrol_UI.py:48-57 | a segment spans `[x1, x2]` and takes the calibration shear rates at both ends |
| ShearConversion.Segments | UI/motorcontrol_UI.py:54-58 | one segment per consecutive pair of calibration points, in order |
| ShearConversion.BuildSegments | UI/motorcontrol_UI.py:54-58 | the appending loop builds exactly that table |
| ShearConversion.RpmSegmentFrom | UI/motorcontrol_UI.py:60-65 | the first segment whose `rpm_max` is at least the speed, or the last segment |
| ShearConversion.ShearSegmentFrom | UI/motorcontrol_UI.py:67-73 | the first segment whose top shear rate is at least the target, or the last segment |
| ShearConversion.RpmToShear | UI/motorcontrol_UI.py:60-65 | the shear rate on the line of the first segment whose `rpm_max` covers the speed, or of the last segment past the table |
| ShearConversion.ShearToRpm | UI/motorcontrol_UI.py:67-73 | the speed at which the first segment whose top shear rate covers the target, or the last segment, reaches that target |
| ShearConversion.EvalIncreasing | UI/motorcontrol_UI.py:60-65 | a segment with positive slope preserves strict and non-strict order |
| ShearConversion.EvalInverse | UI/motorcontrol_UI.py:67-73 | `(g - b) / a` is the one speed a segment maps to `g` |
| ShearConversion.RisingSegments | UI/motorcontrol_UI.py:23-58 | points rising in speed and shear rate give rising segments that join without a jump |
| ShearConversion.Chain | UI/motorcontrol_UI.py:54-58 | a later segment starts where an earlier one ends, at a shear rate no lower |
| ShearConversion.SameSegment | UI/motorcontrol_UI.py:60-73 | inside one segment, speed and shear-rate lookups pick that same segment |
| ShearConversion.RpmSegmentBounds | UI/motorcontrol_UI.py:60-65 | the segment found for a speed contains it, apart from the two open ends |
| ShearConversion.ShearOfRpmInverts | UI/motorcontrol_UI.py:60-73 | `shear_to_rpm(rpm_to_shear(r)) == r` for every speed |
| ShearConversion.RpmOfShearInverts | UI/motorcontrol_UI.py:60-73 | `rpm_to_shear(shear_to_rpm(g)) == g` for every shear rate |
| ShearConversion.RpmToShearIncreasing | UI/motorcontrol_UI.py:60-65 | `rpm_to_shear` is strictly increasing |
| ShearConversion.Extrapolation | UI/motorcontrol_UI.py:60-65 | above the last calibration speed the last segment extrapolates, and at or below the first `rpm_max` the first segment does |
| ShearConversion.HitsCalibrationPoints | UI/motorcontrol_UI.py:23-65 | every calibration point maps exactly to its shear rate |
| ShearConversion.SimulationSegments | UI/motorcontrol_UI.py:23-58 | the table has two segments, slopes 1013/2000 and 481/900, is well formed, and maps 1000 → 451.5 and 7500 → 3869.5 |
| Stirrer.Trunc | UI/motorcontrol_UI.py:222 | `int(x)` truncates toward zero |
| Stirrer.Clamp | UI/motorcontrol_UI.py:239 | the result lies in `[lo, hi]`: the input when it is in range, otherwise the nearer bound |
| Stirrer.RoundToResolution | UI/motorcontrol_UI.py:218-228 | Tk's rounding to the slider's resolution (100 RPM, 50 s⁻¹): the input lies less than half a step from the result |
| Stirrer.Hold | UI/motorcontrol_UI.py:144-146 | what a Tk scale leaves in its variable after a set: the value, or an end of the range; on a whole-step range the value is kept iff it is less than half a step outside, and otherwise the nearer end |
| Stirrer.Shown | UI/motorcontrol_UI.py:144-146 | the slider's position for a value: within the range, and less than half a step from a value within the range |
| Stirrer.ShownIsFixed | UI/motorcontrol_UI.py:144-146 | a shown position is shown as itself and kept by the slider |
| Stirrer.ShearBelowRangeShownAtMin | UI/motorcontrol_UI.py:224-228 | the kept shear value 499 s⁻¹ is shown at 500 s⁻¹, so a drag onto 500 leaves 499 |
| Stirrer.Held | UI/motorcontrol_UI.py:216-228 | the mode's slider keeps every value in 950..7549 RPM or 475..3824 s⁻¹ unrounded and holds any other at the nearer end |
| Stirrer.SwitchSlider | UI/motorcontrol_UI.py:209-230 | the remembered speed and shear rate describe the same setting; the slider value is read in the previous unit, and its truncation in the selected unit is set on the slider, which holds it as `Held` says; the result is kept if set again |
| Stirrer.SameModeKeepsTarget | UI/motorcontrol_UI.py:209-230 | re-selecting the current mode leaves a value the slider keeps alone and moves any other to the nearer end of the range |
| Stirrer.ShearToRpmMonotone | UI/motorcontrol_UI.py:67-73 | `shear_to_rpm` is increasing |
| Stirrer.ShearSliderMapsIntoRpmRange | UI/motorcontrol_UI.py:214-222 | every value the shear slider keeps converts to a speed within 1000..7500 RPM |
| Stirrer.RoundTripNeverRaises | UI/motorcontrol_UI.py:209-230 | from 1047 RPM up, switching RPM → shear → RPM never raises the speed target |
| Stirrer.LowSpeedsRaised | UI/motorcontrol_UI.py:209-230 | every speed from 1000 to 1046 RPM reads below 475 s⁻¹ and is held at 500 s⁻¹, which reads back as 1095 RPM, so the round trip raises it |
| Stirrer.ShearAt500 | UI/motorcontrol_UI.py:67-73 | `shear_to_rpm(500)` lies in [1095, 1096) |
| Stirrer.ShearBelowRangeKept | UI/motorcontrol_UI.py:209-230 | between those bands the shear slider keeps a value below its `from_`: 1095 RPM reads 499 s⁻¹, which reads back 1093 RPM |
| Stirrer.Setpoint | UI/motorcontrol_UI.py:232-239 | the speed sent is always within [1000, 7500], and in RPM mode it is the clamped slider value |
| Stirrer.ShearSetpointIsFloor | UI/motorcontrol_UI.py:236-239 | in shear mode the speed sent is the fastest whole RPM whose shear rate does not exceed the target |
| Stirrer.Command | UI/motorcontrol_UI.py:240-252 | `S <rpm>` and `T <runtime>`: the letter, a space, the number, a newline; a non-negative number reads back from between the space and the newline |
| Stirrer.TimeLeftText | UI/motorcontrol_UI.py:266-267 | starts with `Time left: ` and is never the ∞ text |
| Stirrer.TimeLeftReadsBack | UI/motorcontrol_UI.py:265-267 | the countdown reads back as minutes and two-digit seconds (< 60) making up `ms // 1000` seconds |
| Stirrer.ReadLine | UI/motorcontrol_UI.py:256-275 | a sample comes only from a non-`TIME_LEFT` line of three fields whose speed parses; a countdown only from a `TIME_LEFT` line of two fields |
| Stirrer.ReadsSample | UI/motorcontrol_UI.py:270-271 | `setpoint,speed,pwm` with a parsable speed is read as that speed and PWM |
| Stirrer.ReadsTimeLeft | UI/motorcontrol_UI.py:261-268 | `TIME_LEFT,INF` shows ∞, `TIME_LEFT,<ms>` shows the countdown, and anything unparsable is dropped |
| Stirrer.StirrerUI.constructor | UI/motorcontrol_UI.py:79-127 | RPM mode with the slider at 1000 RPM, but the remembered speed is 100 RPM (−4.35 s⁻¹), because the scale is built on Tk's default 0..100 range before the mode is applied; empty buffers, countdown ∞, nothing sent |
| Stirrer.StirrerUI.UpdateSliderMode | UI/motorcontrol_UI.py:209-230 | the slider follows `SwitchSlider`, the previous mode becomes the current mode, and nothing else changes |
| Stirrer.StirrerUI.SelectMode | UI/motorcontrol_UI.py:138-143 | a mode button selects the mode and then runs `update_slider_mode`; in RPM mode the slider value stays within 1000..7500 |
| Stirrer.StirrerUI.MoveSlider | UI/motorcontrol_UI.py:144-146 | a drag writes the drop position, rounded to the resolution and kept within the range, unless the slider already shows that position, in which case the value stays; afterwards the slider shows the drop position; nothing else changes |
| Stirrer.StirrerUI.TypeRuntime | UI/motorcontrol_UI.py:162 | typing a whole number into the runtime entry sets the runtime and sends nothing; nothing else changes |
| Stirrer.StirrerUI.ApplyTarget | UI/motorcontrol_UI.py:232-240 | one `S <rpm>` line with the clamped speed (in RPM mode, the slider value itself); nothing in simulation; no other field changes |
| Stirrer.StirrerUI.Send | UI/motorcontrol_UI.py:242-252 | one line is written unless in simulation; nothing else changes |
| Stirrer.StirrerUI.StartMotor | UI/motorcontrol_UI.py:242-244 | writes `START` unless in simulation; nothing else changes |
| Stirrer.StirrerUI.StopMotor | UI/motorcontrol_UI.py:246-248 | writes `STOP` unless in simulation; nothing else changes |
| Stirrer.StirrerUI.ApplyRuntime | UI/motorcontrol_UI.py:250-252 | writes `T <seconds>` unless in simulation; nothing else changes |
| Stirrer.StirrerUI.ReceiveLine | UI/motorcontrol_UI.py:254-282 | a sample goes into both buffers together and updates the readouts; a countdown replaces the time-left text; any other line changes nothing |
| Stirrer.StirrerUI.Record | UI/motorcontrol_UI.py:274-275 | both bounded buffers take the sample together and stay the same length |
| Stirrer.StirrerUI.Show | UI/motorcontrol_UI.py:277-279 | the readouts show the speed, its shear rate and the PWM |
| RpmTrace.Push | UI/motorcontrol_UI.py:88-89 | a `deque(maxlen=1000)` append: the newest up to 1000 samples, the oldest dropped first |
| RpmTrace.PushKeepsOrder | magnetic_stirrer/motorcontrol_UI.py:71-72 | samples pushed in time order stay in time order |
| RpmTrace.Recent | UI/motorcontrol_UI.py:287 | the window holds only samples at or after `t0`, and holds the newest sample when it is in range |
| RpmTrace.RecentMembers | UI/motorcontrol_UI.py:287 | a time is in the window iff it is a sample at or after `t0` |
| RpmTrace.RecentIsSuffix | magnetic_stirrer/motorcontrol_UI.py:222 | in a time-ordered buffer the window is a suffix |
| RpmTrace.Tail | UI/motorcontrol_UI.py:288 | `list(buf)[-n:]` for `n ≥ 1` is the last `n` entries, or all of them |
| RpmTrace.PlotView | magnetic_stirrer/motorcontrol_UI.py:219-238 | nothing is drawn before the first sample; afterwards the last ten seconds are drawn, the speeds drawn are the newest samples, one per time drawn, the x range is `[max(0, t0), last]` and the zoom range is the latest speed ± 200 |
| RpmTrace.PlotAligned | UI/motorcontrol_UI.py:284-294 | with time-ordered samples each plotted speed is drawn at its own time |
| MotorPanel.CheckTarget | magnetic_stirrer/motorcontrol_UI.py:81-90 | accepted iff the entry parses as an int within [1000, 7500]; otherwise the warning |
| MotorPanel.TargetHandlingComparedWithSlider | magnetic_stirrer/motorcontrol_UI.py:81-90 | an accepted target is sent unchanged by the slider panel too; a refused one is clamped there to the nearer bound |
| MotorPanel.ReadLine | magnetic_stirrer/motorcontrol_UI.py:176-195 | a sample comes only from a line of exactly three fields whose speed parses |
| MotorPanel.ReadsSample | magnetic_stirrer/motorcontrol_UI.py:182-187 | `setpoint,speed,pwm` with a parsable speed is read as that sample |
| MotorPanel.SameSamplesAsSlider | magnetic_stirrer/motorcontrol_UI.py:182-190 | outside `TIME_LEFT` lines both controllers take the same samples from the same lines |
| MotorPanel.MotorController.constructor | magnetic_stirrer/motorcontrol_UI.py:63-72 | empty buffers, the default entry text, nothing sent |
| MotorPanel.MotorController.TypeTarget | magnetic_stirrer/motorcontrol_UI.py:110-117 | typing replaces the entry text and sends nothing; nothing else changes |
| MotorPanel.MotorController.ApplyTarget | magnetic_stirrer/motorcontrol_UI.py:78-90 | a valid target writes `S <rpm>` and an invalid one warns, writing nothing; in simulation nothing happens |
| MotorPanel.MotorController.Send | magnetic_stirrer/motorcontrol_UI.py:92-100 | one line is written unless in simulation; nothing else changes |
| MotorPanel.MotorController.StartMotor | magnetic_stirrer/motorcontrol_UI.py:92-95 | writes `START` unless in simulation; nothing else changes |
| MotorPanel.MotorController.StopMotor | magnetic_stirrer/motorcontrol_UI.py:97-100 | writes `STOP` unless in simulation; nothing else changes |
| MotorPanel.MotorController.ReceiveLine | magnetic_stirrer/motorcontrol_UI.py:176-195 | a sample goes into both buffers together and updates the readouts; any other line changes nothing |
| MotorPanel.MotorController.Record | magnetic_stirrer/motorcontrol_UI.py:189-190 | both bounded buffers take the sample together |
| Text.JoinSplit | UI/sensor_UI.py:57 | splitting on a separator loses nothing |
| Text.SplitJoin | UI/sensor_UI.py:57 | separator-free fields joined and split again come back unchanged |
| Text.SplitCount | UI/sensor_UI.py:57 | a split gives one more part than there are separators |
| Text.SplitKeepsPrefix | UI/sensor_UI.py:52-57 | the first field still starts with a separator-free prefix of the line |
| Text.Split | UI/sensor_UI.py:56 | at least one field, none holding the separator |
| Text.FramedNat | UI/motorcontrol_UI.py:240 | a number written between a prefix and a suffix reads back from between them |
| Text.NatToString | UI/motorcontrol_UI.py:240 | decimal digits without leading zeros; one digit exactly below 10 |
| Text.ParseNatToString | UI/motorcontrol_UI.py:240 | reading the digits back gives the number |
| Text.Pad2 | UI/motorcontrol_UI.py:267 | at least two characters, digits apart from a leading minus exactly for a negative number |
| Text.Pad2Digits | UI/motorcontrol_UI.py:267 | `:02d` gives at least two digits (exactly two below 100) that read back as the number |
| Stats.SumAffine | UI/sensor_tab.py:210-214 | the sum of `a*x + c` is `a * Σx + c * n` |
| Stats.MeanAffine | UI/sensor_tab.py:210-214 | the mean of `a*x + c` is `a * mean + c` |
| Stats.SumBounds | UI/sensor_tab.py:185 | a sum of values in `[lo, hi]` lies in `[n*lo, n*hi]` |
| Stats.MeanAtLeast | src/platelet_detection.py:70 | the mean of values no smaller than `lo` is no smaller than `lo` |
| Stats.MeanBounds | UI/sensor_tab.py:185 | the mean of values in `[lo, hi]` lies in `[lo, hi]` |
| Stats.SolveNormal | UI/sensor_tab.py:34 | the normal equations have exactly one solution, the closed form |
| Stats.LeastSquaresCharacterised | UI/sensor_tab.py:34 | the least-squares line is the one solution of the normal equations |
| Stats.FitThroughMeans | UI/sensor_tab.py:34 | the fitted line passes through the mean point of the data |
| SensorAcquisition.ParseRow | UI/sensor_tab.py:167 | a row iff the line splits into exactly four fields that all parse, and then its fields are the four parsed values in order |
| SensorAcquisition.Accept | UI/sensor_UI.py:52-59 | blank lines, and `time_ms` lines where skipped, give no row; any row is the line's parse, and without header skipping every non-blank line is parsed |
| SensorAcquisition.Rows | UI/sensor_UI.py:46-59 | never more rows than lines |
| SensorAcquisition.RowsAppend | UI/sensor_UI.py:57 | rows keep arrival order: the rows of `a + b` are the rows of `a`, then those of `b` |
| SensorAcquisition.ReadsRow | UI/sernsor_UI.py:52-54 | a line of four separator-free float fields is read as exactly that row |
| SensorAcquisition.HeaderRuleRedundant | UI/sensor_UI.py:52-53 | skipping `time_ms` lines changes nothing when no `time_ms…` text parses as a float |
| SensorAcquisition.Seconds | UI/sensor_UI.py:66-67 | one `time_s` per row, which times 1000 is that row's `time_ms` |
| SensorAcquisition.SecondsScale | UI/sensor_UI.py:66-67 | `time_s` differences are `time_ms` differences over 1000, and the order is kept |
| SensorAcquisition.AcquireData | UI/sensor_tab.py:160-177 | the loop returns the rows of the lines read with their `time_s` column, or "No data received" when there are none |
| SensorAcquisition.Vdiffs | UI/sensor_UI.py:168 | the `Vdiff` column, row by row |
| Turbidity.RelativeTurbidity | UI/sensor_tab.py:210 | zero when Vdiff equals V0; with V0 > 0, positive exactly when Vdiff < V0 |
| Turbidity.RatioTurbidity | UI/sernsor_UI.py:90 | zero when Vdiff equals V0; with V0 > 0, positive exactly when Vdiff < V0 |
| Turbidity.SameTurbidity | UI/sernsor_UI.py:90 | `(1 - Vdiff/V0)*100` equals `(V0 - Vdiff)/V0*100` for V0 ≠ 0 |
| Turbidity.TurbidityAffine | UI/sensor_UI.py:188 | turbidity is affine in Vdiff with slope `-100/V0` |
| Turbidity.TurbidityDecreasing | UI/sensor_UI.py:188 | with V0 > 0, a lower Vdiff gives a higher turbidity |
| Turbidity.TurbidityColumn | UI/sensor_tab.py:210 | the turbidity column has one entry per sample, each that sample's relative turbidity |
| Turbidity.MeanTurbidity | UI/sensor_tab.py:213-214 | the mean turbidity is the turbidity of the mean Vdiff |
| Turbidity.Calibrate | UI/sensor_UI.py:165-178 | V0 is the mean Vdiff of the acquisition; a failed acquisition passes its error on |
| Turbidity.Measure | UI/sensor_tab.py:197-215 | "Calibration required" without a stored V0; acquisition errors pass on; otherwise the turbidity column, the mean Vdiff and the mean turbidity |
| Turbidity.CalibrationReadsZero | UI/sernsor_UI.py:70-90 | measuring the very acquisition used to calibrate reads 0 % mean turbidity |
| VwfActivity.ControlMoments | UI/sensor_tab.py:21-29 | the sums of the five control points |
| VwfActivity.Curve | UI/sensor_tab.py:34 | the fitted line is slope −177500/5057, intercept 591875/5057 |
| VwfActivity.CurveIsFit | UI/sensor_tab.py:21-34 | the curve solves the normal equations of the control points, is their least-squares line and passes through their mean point |
| VwfActivity.TurbToActivity | UI/sensor_tab.py:36-37 | the mean control activity moved along the fitted slope by the distance from the mean control turbidity |
| VwfActivity.ZeroActivityPointMissed | UI/sensor_tab.py:27-37 | the line misses the 0 % control point: turbidity 3.25 gives 15000/5057 % |
| VwfActivity.ActivityDecreasing | UI/sensor_tab.py:36-37 | activity falls strictly as turbidity rises |
| VwfActivity.ActivityBand | UI/sensor_tab.py:241-243 | the `±` is `−m * std`, never negative for a non-negative std |
| VwfActivity.BandCentred | UI/sensor_tab.py:240-243 | `f(mean − std)` and `f(mean + std)` sit one band above and below the reported activity |
| AbsorbanceConversion.ControlMoments | result_analysis/conversion.py:5-14 | the sums of the three control points |
| AbsorbanceConversion.Fit | result_analysis/conversion.py:17 | the fitted line is exactly slope 907/35, intercept −87/35 |
| AbsorbanceConversion.FitIsLeastSquares | result_analysis/conversion.py:5-17 | the line solves the normal equations of the control points, is their least-squares line and passes through their mean point |
| AbsorbanceConversion.AbsorbanceToActivity | result_analysis/conversion.py:30-31 | the mean control activity moved along the fitted slope by the distance of the absorbance difference from the mean control difference |
| AbsorbanceConversion.ShiftInvariant | result_analysis/conversion.py:30 | only the difference of the two absorbances matters |
| AbsorbanceConversion.EqualAbsorbances | result_analysis/conversion.py:7-31 | equal absorbances give −87/35 %, not the 0 % the control point states |
| AbsorbanceConversion.Monotone | result_analysis/conversion.py:30-31 | activity rises with the agitated absorbance and falls with the non-agitated one |
| AbsorbanceConversion.SwapReflects | result_analysis/conversion.py:30-31 | swapping the samples reflects the activity about the intercept: `f(a, c) + f(c, a) = 2b` |

## Left out

- Illumination correction (src/platelet_detection.py:26-41) is not modelled: it is a float Gaussian blur and a division. The normaliser takes the corrected `uint8` image as its input.
- Otsu's threshold selection inside `cv2.threshold` is not modelled: the threshold is a parameter of `Binarize`.
- The morphological filtering `remove_small_objects` / `remove_small_holes` (src/platelet_detection.py:58-59) is not modelled: its semantics depend on the library version. Labelling lemmas take the filtered foreground as a given set of pixels.
- `regionprops` features are inputs, not computed. This covers the area, the centroid, the equivalent diameter (which needs a square root and π) and the solidity (which needs a convex hull). That the regions are the 8-connected components of the foreground is a precondition.
- IsolationFilter.BuildIsolatedMask: requires at least one region. With none, the source builds an empty array that `cdist` rejects, and the mean diameter is undefined.
- Distances are compared squared against the squared threshold, since reals have no square root. A negative threshold, which a mean of diameters cannot be, lets every distance pass.
- The file loop, image reading, plotting and saving of src/platelet_detection.py are not modelled.
- Floats are exact reals, so rounding is not modelled. Neither is the formatting of readouts (`:.0f`, `:.1f`, `:.2f`, `:.3f`); the readouts hold the numbers they format.
- Python's `float()` and `int()` on text are parameters. The `decode(errors="ignore")` and `strip()` of each serial line are not modelled: lines arrive stripped.
- Serial ports, port discovery ("No Arduino detected"), threads, `time.sleep` and the Tk widgets are not modelled.
  - The clock becomes the `elapsed` parameter of `ReceiveLine`.
  - Writes to the port are recorded in a `sent` field.
  - Warning boxes are recorded in a `warnings` field.
- Stirrer.StirrerUI.ApplyRuntime: the runtime is an integer field. A non-integer entry in the Tk `IntVar` is not modelled.
- The Tk slider is modelled only in what it leaves in `target_var`. After a set, the value is kept unrounded unless its rounding to the resolution falls outside `from_..to`, in which case the nearer end is written back. A drag writes the rounded position only when it differs from the position shown. The drawing of the slider is not modelled; `Shown` gives the position it shows.
- `on_close` in both controllers is not modelled separately: it writes the same `STOP` line as `StopMotor` before closing the port.
- Concurrency between the reader thread and the plot refresh is not modelled: each line is handled atomically.
- The `START` written before each acquisition by the sensor tab's `calibrate` and `measure`, and the 5-second acquisition window (`ACQ_DURATION_S`), the serial read timeout and the `time.sleep` before it, are not modelled. `AcquireData` takes the lines read during the window.
- The random data of the simulated acquisition (UI/sensor_tab.py:141-154) is not modelled.
- Writing and reading the V0 file is not modelled: a stored V0 is an `Option` (file present or absent).
- Turbidity.Measure: a stored V0 of zero gives an error here. The source divides and yields infinities or NaN.
- The standard deviation of the turbidity (pandas `std`, which needs a square root) is an input of `ActivityBand`.
- `np.polyfit` is modelled by its closed form over reals. That the residuals of the fit sum to zero is not stated.
- The calibration-curve and turbidity plots are not modelled.
- The `input` and `print` lines of result_analysis/conversion.py are not modelled.
- UI/main.py is not part of this model: it probes serial ports and sets up the notebook.
- Graphique_Turbi.py is not part of this model: it is a plotting script whose one formula is the turbidity formula already modelled.

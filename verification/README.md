# Force sensor on a Raspberry Pi Pico: a Dafny model

The system measures force with an MLX90393 magnetometer on a Raspberry Pi Pico.
Three programs make it up:

- **Firmware** (`force_sensor.c`). It initialises the sensor over I2C. At 10 Hz it reads the Z axis, converts the count to millitesla, smooths it with an exponential filter, and prints `Z-axis(M1): X.XXX mT` on the serial port.
- **Host calibration script** (`calibration/calibration_pico.py`). It extracts readings from those lines with a regular expression and averages ten samples per known weight. It then fits a line from field to force and scores that line with `r_squared`.
- **Host visualiser** (`calibration/visualiser.py`). It applies the saved line to live readings, clamps the force at zero, and widens the force axis whenever the force passes its end.

The model is a set of Dafny modules. Each one follows a part of the programs:

| module | file | what it models |
|---|---|---|
| `FixedWidth` | fixed_width.dfy | `uint8_t`/`int16_t`, big-endian byte pairs, the 16-bit wrap of an `int16_t` assignment, `status >> 2` |
| `ScaleTable` | scale_table.dfy | the gain/resolution enumerations and the LSB lookup table (in nT per count) |
| `Mlx90393` | mlx90393.dfy | opcodes, the exit/reset/start status checks, Z decoding and the mT conversion, `mlx_read_measurement`, `mlx_read_data`, `mlx_init` |
| `SignalChain` | signal_chain.dfy | `smooth` and the firmware's `calculate_force` |
| `SampleLoop` | sample_loop.dfy | the globals and one iteration of the main loop as a state machine, runs of many iterations, the printed line |
| `DecimalText` | decimal_text.dfy | `printf("%.3f")` text and Python's `float()` of such text |
| `SerialPattern` | serial_pattern.dfy | the pattern `Keyword\(?([^)]*)\)?:\s*([-+]?\d+\.?\d*)` under `re.search` |
| `CalibrationScript` | calibration_script.dfy | `extract_sensor_value`, `collect_samples`, and the guards, pairing and `r_squared` of the fit |
| `VisualiserScript` | visualiser_script.dfy | the visualiser's extractor, `calculate_force`, and the `max_force` rule of `update_plot` |
| `SerialRoundTrip` | serial_round_trip.dfy | firmware lines read back by the host extractor |
| `Reals`, `Options` | reals.dfy, options.dfy | sums, means, squared deviations, powers; `Option` |

The modelling choices:

- An I2C transfer appears only as its outcome. A failed status-only transfer is `None`; a successful one is `Some(status byte)`. The read-measurement transfer is `None` or the seven bytes read back.
- Each driver operation returns the list of commands it put on the bus. This makes statements such as "the reset is only sent after the exit succeeded" checkable.
- Floating-point values are exact reals.
- `%.3f` is modelled as rounding to the nearest thousandth.

Three facts about the firmware shape the model:

- The firmware scales the Z count by the Z column of the table (index `[1]`). With the compiled-in settings (gain 1X, 16 bits), 100 counts read as 20.0242 mT.
- At 19-bit resolution the `zi -= 0x4000` correction is stored back into an `int16_t`. Signed readings below −0x4000 therefore wrap round to the top of the range (`Mlx90393.Res19Correction`).
- The driver's only state is the `mlx_initialized` flag. `mlx_init` sets it when both the exit and the reset succeed.

## Model

| member | source | states |
|---|---|---|
| FixedWidth.SignedBigEndian16 | force_sensor.c:147 | the two bytes shifted and OR-ed into an `int16_t` is the byte pair read as two's complement: negative exactly when the high byte has its top bit set |
| FixedWidth.SignedBigEndianOfBytes | force_sensor.c:147 | splitting an `int16_t` into its two big-endian bytes and decoding them gives the value back |
| FixedWidth.BytesOfSignedBigEndian | force_sensor.c:147 | decoding a byte pair and splitting the value again gives the same two bytes |
| FixedWidth.Wrap16 | force_sensor.c:150-151 | storing an `int` into an `int16_t` gives a value in the signed 16-bit range that differs from it by a multiple of 2^16 |
| FixedWidth.Wrap16Identity | force_sensor.c:150-151 | storing a value that already fits an `int16_t` leaves it unchanged |
| FixedWidth.Wrap16Near | force_sensor.c:150-151 | within one period of the signed range the `int16_t` store adds or subtracts 2^16 at most once |
| FixedWidth.StatusCode | force_sensor.c:120 | `status >> 2` on a byte is the code c in 0..63 with 4c ≤ status < 4c + 4: the six high bits |
| ScaleTable.LsbTableWellShaped | force_sensor.c:57-80 | the table has shape 2 x 8 x 4 x 2, so every enumerated index is in range |
| ScaleTable.Lsb | force_sensor.c:57-80 | every factor in the table lies between 0.150 and 10.137 uT per count |
| ScaleTable.ZFactorExceedsXY | force_sensor.c:57-80 | in every cell the Z factor is larger than the X/Y factor |
| ScaleTable.LsbGrowsWithResolution | force_sensor.c:57-80 | for a fixed gain, a higher resolution setting always has a larger factor |
| ScaleTable.LsbShrinksWithGainIndex | force_sensor.c:57-80 | for a fixed resolution, a later gain enumerator (lower gain) always has a smaller factor |
| Mlx90393.Opcode | force_sensor.c:20-24 | the command byte of each operation; its partner lemmas `OpcodeLayout` and `OpcodeInjective` state the layout and that no two commands share a byte |
| Mlx90393.OpcodeLayout | force_sensor.c:20-24 | start and read measurement carry their command in the high nibble and the all-axes mask 0xE in the low nibble; exit is 0x80, reset 0xF0 |
| Mlx90393.OpcodeInjective | force_sensor.c:20-24 | distinct commands never share an opcode byte |
| Mlx90393.ExitSucceeded | force_sensor.c:116-121 | exit succeeds exactly when the transfer succeeded and the status byte is below 4 (status code 0) |
| Mlx90393.ResetSucceeded | force_sensor.c:123-129 | reset succeeds exactly when the transfer succeeded and the status byte is 4..7 (status code 1) |
| Mlx90393.StartSucceeded | force_sensor.c:131-137 | start succeeds exactly when the transfer succeeded and the status byte is 0..3 or 32..35 (status code 0 or 8) |
| Mlx90393.ExitAndResetStatusesDisjoint | force_sensor.c:116-129 | no status byte is accepted by both the exit and the reset check |
| Mlx90393.DecodeZ | force_sensor.c:147-151 | the Z count in terms of the unsigned wire value u: two's complement at 16/17 bits, exactly u − 0x8000 at 18 bits, u − 0x4000 wrapped at 19 bits |
| Mlx90393.Res18Correction | force_sensor.c:150 | the 18-bit correction moves the signed reading by exactly 0x8000, down for non-negative and up for negative readings |
| Mlx90393.Res19Correction | force_sensor.c:151 | the 19-bit correction subtracts 0x4000 only for readings at or above −0x4000; lower readings wrap up by 0xC000 |
| Mlx90393.FieldMilliTesla | force_sensor.c:154-160 | the reported field is never negative, and is the scaled count plus the offset unless that is negative, in which case it is 0 |
| Mlx90393.FieldOfZeroCount | force_sensor.c:154-160 | a zero count reads as exactly the 20 mT offset, for every gain and resolution |
| Mlx90393.FieldMonotone | force_sensor.c:154-160 | a larger count never reads as a smaller field |
| Mlx90393.HundredCountsAtFirmwareSettings | force_sensor.c:154-157 | at gain 1X and 16 bits, 100 counts read as 20.0242 mT |
| Mlx90393.FirmwareFieldRange | force_sensor.c:154-160 | at the compiled-in settings the field is 0.000242 mT per count plus 20, so every count lands in [12.070144, 27.929614] and the clamp never acts |
| Mlx90393.ClampReachable | force_sensor.c:159-160 | at other settings the clamp is reachable: at gain 5X, 16 bits, the most negative count reads 0 |
| Mlx90393.ReadMeasurementZ | force_sensor.c:139-165 | the read succeeds exactly when the transfer succeeded with status code 0; on failure `*z` is untouched, on success it is the decoded, non-negative field of data bytes 5 and 6 |
| Mlx90393.ReadData | force_sensor.c:167-171 | the read-measurement command is sent only after the start was accepted; success needs both; a failure leaves `*z` untouched, and a success writes the field decoded from data bytes 5 and 6 |
| Mlx90393.Init | force_sensor.c:173-179 | the reset is sent only after the exit succeeded, and the sensor is initialised exactly when both status checks pass |
| SignalChain.Smooth | force_sensor.c:181-183 | the exponential filter; its partner lemmas below state that it fixes a steady value, passes the sample at filter value 0, shrinks the gap by the filter value and stays between the two inputs |
| SignalChain.SmoothFixedPoint | force_sensor.c:181-183 | smoothing a value into itself leaves it unchanged |
| SignalChain.SmoothWithoutFilter | force_sensor.c:181-183 | a filter value of 0 passes the sample through |
| SignalChain.SmoothStep | force_sensor.c:181-183 | after one step the gap to the sample is the filter value times the previous gap |
| SignalChain.SmoothBetween | force_sensor.c:181-183 | for a filter value in [0, 1] the result lies between the sample and the previous smoothed value |
| SignalChain.SmoothConverges | force_sensor.c:181-183 | after n steps with the same sample, the gap to it is (filter value)^n times the initial gap |
| SignalChain.CalculateForce | force_sensor.c:189-193 | the force is never negative; it is slope × field + intercept when that is non-negative and 0 otherwise |
| SignalChain.CalculateForceMonotone | force_sensor.c:189-193 | a stronger field never gives a smaller force |
| SignalChain.CalculateForceThreshold | force_sensor.c:28-29 | with the compiled-in constants the force is zero up to 13.342 mT and positive from 13.343 mT |
| SampleLoop.Boot | force_sensor.c:89-91 | on entering the loop the sensor is initialised exactly when the exit and reset checks passed; the first reading is pending, the smoothed value is 0 and the LED is off |
| SampleLoop.Step | force_sensor.c:242-265 | one iteration writes the LED level and then flips it. Without initialisation it prints "Sensor not initialized" and touches no bus. A failed read prints ERROR and keeps the state. A good read takes the first sample as is, smooths later ones, and prints the new smoothed value |
| SampleLoop.StepKeepsSmoothedNonNegative | force_sensor.c:250-259 | an iteration never makes the smoothed value or a printed reading negative |
| SampleLoop.Run | force_sensor.c:242-268 | n iterations of the loop print exactly n lines and never change whether the sensor is initialised |
| SampleLoop.RunKeepsSmoothedNonNegative | force_sensor.c:242-268 | over any number of iterations, every printed reading and the final smoothed value are non-negative |
| SampleLoop.RunTogglesLed | force_sensor.c:244-245 | after n iterations the LED level is the initial one flipped n times |
| SampleLoop.UninitializedRun | force_sensor.c:263-265 | an uninitialised sensor prints only "Sensor not initialized" and never changes the smoothed value |
| SampleLoop.SteadyFieldRun | force_sensor.c:250-256 | under a steady field, n iterations after the first sample apply the filter n times |
| SampleLoop.SmoothRepeatedlyShift | force_sensor.c:255 | one smoothing step followed by n more is n + 1 steps |
| SampleLoop.Thousandths | force_sensor.c:259 | the printed number of thousandths is within half a thousandth of the value, and non-negative for non-negative values |
| SampleLoop.Render | force_sensor.c:259-264 | the three lines the loop prints; `SerialRoundTrip.FirmwareLineRoundTrip`, `NotInitializedLineRejected` and `ErrorLineRejected` state what the host reads from each |
| DecimalText.FixedThree | force_sensor.c:259 | `%.3f` of k thousandths; its partner `DecimalText.FixedThreeValue` states that `float()` reads it back as exactly k/1000 |
| DecimalText.DecimalValue | calibration/calibration_pico.py:48 | `float()` of the number group's text; its partners `PointNumberValue` and `FixedThreeValue` state its value on digits with a point and on `%.3f` text |
| DecimalText.NatTextValue | force_sensor.c:259 | the decimal digits printed for a whole number read back as that number |
| DecimalText.ThreeDigits | force_sensor.c:259 | the fraction part of `%.3f` is three digits whose value is the remainder |
| DecimalText.PointNumberValue | calibration/calibration_pico.py:48 | `float()` of digits, a point and digits is the whole part plus the fraction scaled by its length |
| DecimalText.FixedThreeValue | calibration/calibration_pico.py:48 | `float()` of the firmware's `%.3f` text of k thousandths is exactly k/1000, negative values included |
| SerialPattern.NumberEndGreedy | calibration/calibration_pico.py:43 | the number group ends no earlier than any span `[-+]?\d+\.?\d*` could match there |
| SerialPattern.SpacedNumberComplete | calibration/calibration_pico.py:43 | `\s*` followed by the number finds the number after any run of spaces |
| SerialPattern.ColonScanComplete | calibration/calibration_pico.py:43 | backtracking the label finds a label at least as long as any that leads to a match |
| SerialPattern.MatchAtComplete | calibration/calibration_pico.py:43-44 | wherever the pattern can match at a start, the scan matches there with the longest label and, for that label, the longest number |
| SerialPattern.SearchFromComplete | calibration/calibration_pico.py:43-44 | the search reaches every start where the pattern can match |
| SerialPattern.Search | calibration/calibration_pico.py:44 | a match `re.search` reports satisfies the pattern and starts at an occurrence of the keyword; `SearchFromComplete` and `SearchLeftmostGreedy` are its completeness partners |
| SerialPattern.SearchLeftmostGreedy | calibration/calibration_pico.py:43-44 | whenever any match exists, `re.search` reports one that starts no later, with a label no shorter |
| CalibrationScript.ExtractSensorValue | calibration/calibration_pico.py:26-53 | no keyword in the line gives (None, None). A value comes exactly when `re.search` finds a match, and then the value is that match's number group and the label is its group 1 or, when that is empty, the keyword |
| CalibrationScript.ExtractReportsLeftmostLongest | calibration/calibration_pico.py:43-49 | whenever the pattern matches anywhere, the extractor reports the match `re.search` finds: it starts no later than any match, and at the same start its label and then its number are no shorter |
| CalibrationScript.ExtractFindsEveryMatch | calibration/calibration_pico.py:37-51 | the extractor reports a value exactly when the pattern matches somewhere in the line |
| CalibrationScript.Present | calibration/calibration_pico.py:207 | the clean readings are the values of the present readings at `PresentIndices`, in order; none are left exactly when every reading is missing |
| CalibrationScript.PresentSnoc | calibration/calibration_pico.py:207 | one more reading adds its value to the end of the clean readings when it is present, and nothing otherwise |
| CalibrationScript.PresentIndices | calibration/calibration_pico.py:207 | each clean reading comes from a distinct weighing, in order |
| CalibrationScript.PresentIndicesComplete | calibration/calibration_pico.py:207 | every weighing that has a reading is among the clean readings |
| CalibrationScript.PresentBounds | calibration/calibration_pico.py:207 | clean readings stay within any bounds all readings satisfy |
| CalibrationScript.CollectSamples | calibration/calibration_pico.py:83-122 | no value exactly when no sample carried one; otherwise the mean of the values carried, with the label of the last of them |
| CalibrationScript.NoSamplesExactly | calibration/calibration_pico.py:117-119 | no sample is collected exactly when no attempt carried a value |
| CalibrationScript.CollectedMeanBounds | calibration/calibration_pico.py:115-122 | the average lies within the range of the samples |
| CalibrationScript.Forces | calibration/calibration_pico.py:200 | each weight in kg becomes weight × 9.80665 N |
| CalibrationScript.Residuals | calibration/calibration_pico.py:214-215 | each residual is the paired force minus the fitted value |
| CalibrationScript.Calibrate | calibration/calibration_pico.py:194-227 | fewer than two weights stop the script; the Z-axis entry exists exactly when at least two readings arrived; it carries the fitted slope and intercept, the first weighing's label or the keyword, and the `r_squared` of the clean readings against the leading forces `forces_newtons[:len(clean)]` |
| CalibrationScript.RSquared | calibration/calibration_pico.py:214-219 | `1 - ss_res/ss_tot`, or 0 when `ss_tot` is 0; its partners below state when it is 0, that it is at most 1, and that it is 1 exactly on a perfect fit |
| CalibrationScript.RSquaredOfConstantForces | calibration/calibration_pico.py:217-219 | when the paired forces do not vary, `r_squared` is 0; when they vary, `ss_tot` is positive |
| CalibrationScript.RSquaredAtMostOne | calibration/calibration_pico.py:214-219 | `r_squared` never exceeds 1 |
| CalibrationScript.RSquaredOneExactlyOnPerfectFit | calibration/calibration_pico.py:214-219 | for varying forces, `r_squared` is 1 exactly when every pair lies on the fitted line |
| CalibrationScript.LeadingForcesMisaligned | calibration/calibration_pico.py:211-219 | with weights 1, 2, 3 kg, no reading for the first and 10, 20 mT for the others, the script's pairs (10 → 9.80665 N, 20 → 19.6133 N) lie exactly on 0.980665 × z, the line the fit returns; the script stores `r_squared` 1 for it although that line misses the real weighings. The aligned pairs lie on 0.980665 × z + 9.80665, which every weighing lies on, and also score 1 |
| CalibrationScript.TwoForcesVary | calibration/calibration_pico.py:217-219 | two different forces give a positive `ss_tot` |
| CalibrationScript.FitHits | calibration/calibration_pico.py:211-219 | two distinct readings whose forces lie on a line of slope 0.980665 lie on it as pairs, and score `r_squared` exactly 1 against it |
| CalibrationScript.WrittenLineMisses | calibration/calibration_pico.py:211-212 | the line 0.980665 × z misses the weighing of 19.6133 N that read 10 mT |
| CalibrationScript.AlignedForces | calibration/calibration_pico.py:211-212 | the corrected pairing gives each clean reading the force of the weighing it came from |
| CalibrationScript.CalibrateAligned | calibration/calibration_pico.py:194-227 | the corrected fit step keeps every guard and output rule of the script; its `r_squared` scores the clean readings against the forces of the weighings they came from (`AlignedForces`) |
| CalibrationScript.AlignedPairsOnLine | calibration/calibration_pico.py:211-219 | with aligned pairs, all pairs lie on a line exactly when every weighing with a reading lies on it |
| CalibrationScript.WeighingGivesPair | calibration/calibration_pico.py:211-219 | each aligned pair lies on any line that every weighing with a reading lies on |
| CalibrationScript.PairGivesWeighing | calibration/calibration_pico.py:211-219 | each weighing with a reading lies on any line that every aligned pair lies on |
| CalibrationScript.AlignedPerfectFit | calibration/calibration_pico.py:211-219 | with aligned pairs and varying forces, `r_squared` is 1 exactly when every weighing with a reading lies on the fitted line |
| CalibrationScript.AllPresentIndices | calibration/calibration_pico.py:207 | when every weighing has a reading, the clean readings come from weighings 0, 1, 2, … |
| CalibrationScript.CompleteReadingsAlign | calibration/calibration_pico.py:207-219 | when every weighing has a reading, the script's pairing is the aligned one and both fits agree |
| VisualiserScript.ExtractValue | calibration/visualiser.py:30-54 | no keyword gives None; a value comes exactly when `re.search` finds a match, and it is that match's number group |
| VisualiserScript.ExtractorsAgree | calibration/visualiser.py:30-54 | the visualiser reads the same value from every line as the calibration script |
| VisualiserScript.CalculateForce | calibration/visualiser.py:103-117 | a force comes exactly when both the reading and the calibration are present; it is slope × reading + intercept, clamped at 0 |
| VisualiserScript.ForceAgreesWithFirmware | calibration/visualiser.py:103-117 | with the firmware's compiled-in constants, host and firmware compute the same force |
| VisualiserScript.UpdatePlot | calibration/visualiser.py:204-213 | the axis end never shrinks, and changes exactly when the force exceeds it, to 1.1 × the force; the force shown is the last computed one |
| VisualiserScript.UpdateKeepsForceOnAxis | calibration/visualiser.py:204-213 | an update keeps the shown force between 0 and the axis end, and the axis end at least 1 |
| VisualiserScript.AnimateKeepsForceOnAxis | calibration/visualiser.py:204-213 | over any run of updates the force stays on the axis and the axis never shrinks |
| VisualiserScript.InitialPlotOnAxis | calibration/visualiser.py:158-160 | the initial plot (force 0, axis end 1.0) satisfies the axis invariant |
| SerialRoundTrip.LabelledLine | calibration/calibration_pico.py:43-49 | a line `Keyword(tag): number…` yields that number, and the tag or the keyword when the tag is empty |
| SerialRoundTrip.UnlabelledLine | calibration/calibration_pico.py:43-49 | a line `Keyword: number…` without a further colon yields that number and the keyword as label |
| SerialRoundTrip.FixedThreeIsNumber | force_sensor.c:259 | `%.3f` text is a number the pattern's number group matches whole |
| SerialRoundTrip.FirmwareLineRoundTrip | force_sensor.c:259 | every reading line the firmware prints for k thousandths is read back by the host as exactly k/1000, labelled M1 |
| SerialRoundTrip.ReadingRoundTrip | force_sensor.c:259 | a printed smoothed value is recovered by the host to within 0.0005 mT |
| SerialRoundTrip.AbsentKeyword | calibration/calibration_pico.py:37-38 | a keyword whose first character is missing from the line does not occur in it |
| SerialRoundTrip.NotInitializedLineRejected | force_sensor.c:264 | the "Sensor not initialized" line yields no reading |
| SerialRoundTrip.ErrorLineRejected | force_sensor.c:261 | the "Z-axis(M1): ERROR" line yields no reading |
| SerialRoundTrip.LabelledExample | calibration/calibration_pico.py:32 | "Z-axis(M1): 12.693 mT" yields 12.693 labelled M1 |
| SerialRoundTrip.OtherKeywordExample | calibration/calibration_pico.py:31 | "Current(M1): 0.013 A" under the keyword Current yields 0.013 labelled M1 |
| SerialRoundTrip.UnlabelledExample | calibration/calibration_pico.py:42 | "Z-axis: 12.693" yields 12.693 labelled with the keyword |
| SerialRoundTrip.AmbiguousLabelExample | calibration/calibration_pico.py:43-49 | in "Z-axis(a:1): 2" the pattern can also match with label "a" and number 1, but the extractor reports the longer label "a:1" and the value 2 |
| SerialRoundTrip.SignedExample | calibration/calibration_pico.py:43 | a leading minus is part of the number: "Z-axis: -1.5" yields −1.5 |

## Left out

- The I2C transfers (`mlx_transceive`), `sleep_ms`, GPIO setup, `stdio_init_all` and the start-up banner are left out. They are hardware and timing; each transfer is modelled only as its outcome.
- The serial port, `readline`/`decode`, `input()`, JSON reading and writing, `time.strftime`, matplotlib and the printed tables are left out. They are I/O. The host models take the extracted lines, the weights entered and the loaded calibration as inputs.
- `read_sensor_value` / `read_sensor_values` are left out. They loop on the serial port until a line yields a value, which is not a terminating function; `collect_samples` is modelled on the sequence of attempts instead.
- CalibrationScript.CollectSamples: attempts without a value model a path the script never takes. `read_sensor_value` (calibration/calibration_pico.py:56-80) only returns once a line yields a value, so every real attempt carries one. The `keyword is None` guard (calibration/calibration_pico.py:95-96) is not modelled, because the script always passes a keyword.
- FixedWidth.StatusCode: `status >> 2` is modelled as division by four on the byte's value, which is what a right shift by two of an unsigned byte computes.
- `load_calibration` (visualiser.py:57-78) is left out because it only reads a file. The visualiser takes an `Option<Calibration>`.
- `np.polyfit` and `np.std` are left out as library numerics: the fitted slope and intercept are inputs, and the standard deviation is only printed.
- Floating point (the C `float` and Python `float` arithmetic and the `f` suffix on the C constants) is left out: every quantity is an exact real.
- SampleLoop.Thousandths: `%.3f` rounds the binary value correctly. This is modelled as round-half-up of the exact real, so only the half-thousandth bound is claimed, not the tie behaviour.
- SerialPattern.Search: only keywords without regular-expression metacharacters are modelled (the `Keyword` subtype). `\s` and `\d` are taken as their ASCII classes, not Python's Unicode ones.
- The `try/except (ValueError, IndexError)` around the match is not modelled as a separate path. `float()` cannot fail on text the number group matched, so no input reaches it.
- The HALLCONF = 0x0 half of the table is modelled and its properties proved, but the firmware never reads it.
- `update_plot` is modelled in its effect on the Z value, the force and the axis end. The bar widths, the text and the `except Exception` handler are display code.
- The firmware's `calculate_force` (force_sensor.c:189-193) is modelled although `main` never calls it; the force is computed on the host.
- SignalChain.SmoothConverges states the convergence of a steady field as an exact gap formula. The limit itself, and the float rounding that stops a real filter short of it, are not stated.

## Findings

| source | as written | input that shows it | evidently intended | confidence | as-written member | corrected member |
|---|---|---|---|---|---|---|
| calibration/calibration_pico.py:211-218 | the clean readings are fitted against `forces_newtons[:len(clean)]`, the leading forces | weights 1, 2, 3 kg with no reading for the first and 10, 20 mT for the others: 10 mT is paired with 9.80665 N and 20 mT with 19.6133 N, the fitted line is 0.980665 × z and `r_squared` is stored as 1, yet the line predicts 9.80665 N at 10 mT where 19.6133 N was applied | each clean reading paired with the force of the weight it was taken under (19.6133 N and 29.41995 N) | not executed; latent — reachable only if `collect_samples` returned None for an earlier weight, which needs `read_sensor_value` (calibration/calibration_pico.py:56-80) to return None, and as written it loops until it has a value | CalibrationScript.LeadingForcesMisaligned | CalibrationScript.CalibrateAligned |

The as-written fit is `CalibrationScript.Calibrate`. The corrected fit is `CalibrationScript.CalibrateAligned`, and `CalibrationScript.AlignedPerfectFit` proves its intended property: `r_squared` is 1 exactly when every weighing with a reading lies on the line. `CalibrationScript.CompleteReadingsAlign` shows the two fits agree whenever every weighing has a reading.

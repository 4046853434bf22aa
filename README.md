# Calmify biometric pipeline in Dafny

Calmify is a stress-monitoring app. A wearable is either a Bluetooth LE heart-rate strap or
a built-in simulator, and it delivers `BiometricSample`s: a heart rate and the recent
beat-to-beat (RR) intervals. Each sample goes through these steps:

1. The session store's routing rule picks which source(s) feed the session.
2. RMSSD (root mean square of successive RR differences) is computed.
3. RMSSD, or failing that the heart rate, is mapped to a 0..100 stress score with a confidence.
4. The score goes to a rolling-window spike detector. When it fires, the app prompts a 4-7-8
   breathing exercise.
5. The session store buffers every derived sample for upload and summarises the session.

A FastAPI back end keeps accounts and buckets uploaded samples into hourly and daily charts.

This project models that core as Dafny modules, one per source file:

| module | models |
|---|---|
| `BleHeartRateSource` | Heart Rate Measurement decoding (section 3.1 of the Bluetooth SIG Heart Rate Service specification) and the scan/connect flag machine of one stream subscription |
| `Hrv`, `Stress`, `BlePipeline` | RMSSD, stress scoring and their composition into a `StressState` |
| `SpikeDetection` | the stress spike detector with its rolling window and cooldown |
| `SessionStore` | session gating, source routing, the per-sample handler, the pending/session buffers and the session summary |
| `SimulatedHrSource` | one tick of the synthetic generator |
| `AppGraph` | chart normalisation and the authenticated refresh |
| `Backend` | the helpers of `backend.py` |
| `Breathing` | the breathing screen's phase schedule, timer text and countdown |
| `SignUp` | the sign-up form validator |
| `Auth` | the `AuthState` machine of the repository |
| `Samples`, `Wrappers`, `Numeric`, `Text` | shared datatypes and the Kotlin/Python primitives the code relies on |

Modelling conventions:

- **Numbers.** `Double`/`Float` become exact reals. Kotlin `toInt()` and Python `int()` on a
  float become `Numeric.TruncToInt`, which truncates toward zero. Kotlin `%` becomes
  `Numeric.KotlinRem`. Bytes are integers 0..255.
- **Square root.** It is passed in as a parameter `sqrt`. Lemmas that need a true root
  require `Hrv.IsSqrt(sqrt)`.
- **Inputs from outside.** Clocks, random draws, the local hour and day, and the results of
  network calls are all parameters.
- **State.** Objects whose fields the code mutates are classes. Pure computations are
  functions.

Behaviour of the code worth knowing when reading the model:

- **RR conversion truncates.** The conversion is `(rr1024 * 1000) / 1024` on integers, so a
  raw 1000 gives 976.
- **Stress scores truncate.** They are produced with `toInt()`, which truncates toward zero.
- **Spike baseline.** The baseline is `dropLast(3).averageOrNull()`, falling back to the
  score only when that list is empty, that is, when the window holds at most 3 entries.
- **Last BLE timestamp.** `lastBleTs` is overwritten by every BLE sample's timestamp. It is
  created afresh at 0 whenever the subscription is rebuilt, on a mode change or a new
  session.

## Model

| member | source | states |
|---|---|---|
| BleHeartRateSource.Decode | composeApp/src/androidMain/kotlin/com/example/myapplication/BleHeartRateSource.kt:72-111 | Empty payload gives no heart rate and no RR. Flag bit 0 selects an 8-bit value (0..255) or a 16-bit little-endian value (0..65535), and the heart rate is absent exactly when the payload is shorter than that width. Bit 3 skips 2 bytes only when they exist. With bit 4 clear the RR list is empty; with it set there are `(size - start) / 2` entries, each the truncated ms value of its little-endian pair, in payload order. |
| BleHeartRateSource.RrToMs | composeApp/src/androidMain/kotlin/com/example/myapplication/BleHeartRateSource.kt:104-105 | The result is `floor(raw * 1000 / 1024)`. It is at most the raw value and lies in 0..63999. |
| BleHeartRateSource.ParseHrAndRr | composeApp/src/androidMain/kotlin/com/example/myapplication/BleHeartRateSource.kt:72-111 | The cursor-and-loop parser returns exactly `Decode(value)`. |
| BleHeartRateSource.ReadRrIntervals | composeApp/src/androidMain/kotlin/com/example/myapplication/BleHeartRateSource.kt:99-109 | The RR loop reads `(size - start) / 2` values, the j-th the truncated ms value of the pair at `start + 2j`. |
| BleHeartRateSource.DecodeExample | composeApp/src/androidMain/kotlin/com/example/myapplication/BleHeartRateSource.kt:72-111 | `[0x10, 0x4B, 0xE8, 0x03]` decodes to heart rate 75 and RR `[976]`. |
| BleHeartRateSource.HeartRateStream.constructor | composeApp/src/androidMain/kotlin/com/example/myapplication/BleHeartRateSource.kt:67-70 | A new subscription is open and not connected, and it is scanning unless the scan start threw. |
| BleHeartRateSource.HeartRateStream.StartScanSafe | composeApp/src/androidMain/kotlin/com/example/myapplication/BleHeartRateSource.kt:218-228 | Nothing changes when already connected or scanning. Otherwise it is scanning unless the start threw. |
| BleHeartRateSource.HeartRateStream.StopScanSafe | composeApp/src/androidMain/kotlin/com/example/myapplication/BleHeartRateSource.kt:113-117 | Nothing changes unless scanning. Afterwards it is never scanning. |
| BleHeartRateSource.HeartRateStream.OnScanFailed | composeApp/src/androidMain/kotlin/com/example/myapplication/BleHeartRateSource.kt:212-215 | Scanning stops; the connection and the stream are untouched. |
| BleHeartRateSource.HeartRateStream.OnScanResult | composeApp/src/androidMain/kotlin/com/example/myapplication/BleHeartRateSource.kt:195-210 | Without a device nothing changes. With one, scanning stops and the handle becomes the one `connectGatt` returned. |
| BleHeartRateSource.HeartRateStream.OnConnectionStateChange | composeApp/src/androidMain/kotlin/com/example/myapplication/BleHeartRateSource.kt:130-151 | A failure status or a disconnect clears `connected` and the handle, and the stream stays open. A successful connect sets `connected`. |
| BleHeartRateSource.HeartRateStream.RetryWindowStart | composeApp/src/androidMain/kotlin/com/example/myapplication/BleHeartRateSource.kt:232-235 | Connected or already scanning, a retry window changes nothing. Otherwise it starts a scan, which is left off when the start throws. |
| BleHeartRateSource.HeartRateStream.RetryWindowEnd | composeApp/src/androidMain/kotlin/com/example/myapplication/BleHeartRateSource.kt:236-240 | At the end of a window with no connection, scanning has stopped. |
| BleHeartRateSource.HeartRateStream.OnCharacteristicChanged | composeApp/src/androidMain/kotlin/com/example/myapplication/BleHeartRateSource.kt:167-183 | A notification yields a sample exactly when it is on the measurement UUID, carries a value and the stream is open. The sample is always produced, even with no heart rate and no RR, and holds the decoded fields with source BLE. |
| BleHeartRateSource.HeartRateStream.Close | composeApp/src/androidMain/kotlin/com/example/myapplication/BleHeartRateSource.kt:251-256 | Closing stops scanning, releases the handle and closes the channel. |
| BleHeartRateSource.TransientFailuresKeepStreamOpen | composeApp/src/androidMain/kotlin/com/example/myapplication/BleHeartRateSource.kt:130-246 | A scan failure, a disconnect and a retry window leave the stream open and disconnected. |
| Hrv.Rmssd | composeApp/src/commonMain/kotlin/Wearable_Hub/Hrv.kt:8-18 | The loop computes `RmssdOf`, the specification the lemmas below are about. The result is absent exactly when there are fewer than 3 intervals. Otherwise it is `sqrt` of the sum of squared successive differences over `n - 1`. |
| Hrv.SumSqDiffs | composeApp/src/commonMain/kotlin/Wearable_Hub/Hrv.kt:12-16 | The sum of squared successive differences is never negative. |
| Hrv.MeanSquare | composeApp/src/commonMain/kotlin/Wearable_Hub/Hrv.kt:17 | The mean squared difference, the sum over the `n - 1` differences, is never negative. |
| Hrv.RmssdSquare | composeApp/src/commonMain/kotlin/Wearable_Hub/Hrv.kt:10-17 | For `n >= 3` with a true square root, the result exists, is non-negative, and its square is the mean squared difference. |
| Hrv.ConstantRmssd | composeApp/src/commonMain/kotlin/Wearable_Hub/Hrv.kt:12-17 | A constant interval list has mean squared difference 0. |
| Hrv.ConstantRmssdIsZero | composeApp/src/commonMain/kotlin/Wearable_Hub/Hrv.kt:10-17 | With a true square root, a constant list of at least 3 intervals has RMSSD exactly 0. |
| Hrv.ShiftRmssd | composeApp/src/commonMain/kotlin/Wearable_Hub/Hrv.kt:13 | Adding a constant to every interval leaves RMSSD unchanged. |
| Hrv.MeanSquareExample | composeApp/src/commonMain/kotlin/Wearable_Hub/Hrv.kt:12-17 | `[800, 810, 790]` has mean squared difference 250. |
| Stress.Score | composeApp/src/commonMain/kotlin/Wearable_Hub/Stress.kt:4-21 | The score is in 0..100. RMSSD present gives confidence 0.9, with RMSSD <= 10 giving 100 and RMSSD >= 120 giving 0. Heart rate alone gives confidence 0.45: 0 at or below 50, 100 at or above 150, `hr - 50` between. Neither input gives (0, 0.0). |
| Stress.RmssdIgnoresHeartRate | composeApp/src/commonMain/kotlin/Wearable_Hub/Stress.kt:7-13 | With RMSSD present the heart rate does not matter. |
| Stress.ScoreAntitoneInRmssd | composeApp/src/commonMain/kotlin/Wearable_Hub/Stress.kt:10-11 | A larger RMSSD never gives a larger score. |
| Stress.ScoreMonotoneInHeartRate | composeApp/src/commonMain/kotlin/Wearable_Hub/Stress.kt:16-17 | On the heart-rate path a higher rate never gives a lower score. |
| BlePipeline.Process | composeApp/src/commonMain/kotlin/Wearable_Hub/BlePipeline.kt:4-16 | Timestamp, heart rate and source are copied. RMSSD is `Hrv` of the intervals, and (stress, confidence) is `Stress.Score` of the heart rate and that RMSSD. Both are in range. Confidence is 0.9 exactly when there are at least 3 intervals; with fewer it is at most 0.45. |
| BlePipeline.InitialIsNoSignal | composeApp/src/commonMain/kotlin/Wearable_Hub/StressState.kt:13-20 | The initial state is what an empty BLE sample at time 0 processes to. |
| Samples.InitialState | composeApp/src/commonMain/kotlin/Wearable_Hub/StressState.kt:13-20 | The initial state is timestamp 0 with no heart rate or RMSSD, score 0, confidence 0 and source BLE. |
| Samples.ToSimSample | composeApp/src/commonMain/kotlin/Wearable_Hub/StressStore.kt:68-73 | The buffered projection keeps timestamp, heart rate and RMSSD, and always carries the score. |
| SpikeDetection.PushWindow | composeApp/src/commonMain/kotlin/Wearable_Hub/StressSpikeDetector.kt:25-27 | The new window has at most 12 entries and ends with the new score. It is the old window plus the score, with the oldest entries dropped. |
| SpikeDetection.TakeLast | composeApp/src/commonMain/kotlin/Wearable_Hub/StressSpikeDetector.kt:65-68 | The result is the suffix of length `min(n, size)`. |
| SpikeDetection.DropLast | composeApp/src/commonMain/kotlin/Wearable_Hub/StressSpikeDetector.kt:39 | The result is the prefix that leaves out the last `n` entries, empty when there are at most `n`. |
| SpikeDetection.CountAtLeast | composeApp/src/commonMain/kotlin/Wearable_Hub/StressSpikeDetector.kt:38 | The count is at most the length, and equals it exactly when every entry reaches the threshold. |
| SpikeDetection.AverageOrNull | composeApp/src/commonMain/kotlin/Wearable_Hub/StressSpikeDetector.kt:59-63 | The average is null exactly for an empty list. |
| SpikeDetection.Confidence | composeApp/src/commonMain/kotlin/Wearable_Hub/StressSpikeDetector.kt:42-44 | Confidence is in [0, 1]. A non-positive delta caps it at 0.7. |
| SpikeDetection.Baseline | composeApp/src/commonMain/kotlin/Wearable_Hub/StressSpikeDetector.kt:39 | With at most 3 entries the baseline is the score itself. |
| SpikeDetection.Judge | composeApp/src/commonMain/kotlin/Wearable_Hub/StressSpikeDetector.kt:21-57 | Inside the 60 s cooldown the result is (false, 0, cooldown). Confidence is always in [0, 1]. |
| SpikeDetection.JudgeTriggers | composeApp/src/commonMain/kotlin/Wearable_Hub/StressSpikeDetector.kt:38-46 | A trigger happens exactly when all of these hold: the cooldown has passed, the window has at least 3 entries, the last 3 are all >= 75, and the delta over the baseline is at least 25/6. |
| SpikeDetection.ShortWindowNeverTriggers | composeApp/src/commonMain/kotlin/Wearable_Hub/StressSpikeDetector.kt:38-46 | With at most 3 entries the confidence is at most 0.7 and nothing triggers. |
| SpikeDetection.FreshDetectorCoolsDown | composeApp/src/commonMain/kotlin/Wearable_Hub/StressSpikeDetector.kt:13-36 | Since `lastTriggerAt` starts at 0, any timestamp below 60000 reports cooldown. |
| SpikeDetection.SpikeExample | composeApp/src/commonMain/kotlin/Wearable_Hub/StressSpikeDetector.kt:21-57 | Nine 20s then three 90s trigger at t = 100000. A repeat 30 s later is cooled down. |
| SpikeDetection.StressSpikeDetector.constructor | composeApp/src/commonMain/kotlin/Wearable_Hub/StressSpikeDetector.kt:10-13 | A new detector has an empty window and `lastTriggerAt` 0. |
| SpikeDetection.StressSpikeDetector.OnNewState | composeApp/src/commonMain/kotlin/Wearable_Hub/StressSpikeDetector.kt:21-57 | The window becomes `PushWindow` of the old window and the score, and stays within 12 entries. The result is `Judge` of the new window. `lastTriggerAt` changes only on a trigger, and then becomes the sample's timestamp. |
| SessionStore.Forwards | composeApp/src/commonMain/kotlin/Wearable_Hub/StressStore.kt:130-158 | BLE-only forwards BLE, simulated-only forwards simulated, merge forwards both. Auto-prefer always forwards BLE, and forwards a simulated sample only when no BLE timestamp is known or more than 3000 ms have passed since it. |
| SessionStore.ForwardsBySource | composeApp/src/commonMain/kotlin/Wearable_Hub/StressStore.kt:134-158 | The routing rule is seen per source: BLE passes unless simulated-only; simulated passes per mode and silence. |
| SessionStore.AutoPreferExample | composeApp/src/commonMain/kotlin/Wearable_Hub/StressStore.kt:153-156 | A simulated sample 2000 ms after BLE is dropped; one 3001 ms after is kept. |
| SessionStore.MaxOrZero | composeApp/src/commonMain/kotlin/Wearable_Hub/StressStore.kt:120 | The maximum is an element bounding all others, or 0 for no values. |
| SessionStore.Mean | composeApp/src/commonMain/kotlin/Wearable_Hub/StressStore.kt:119 | `avg` is 0 for an empty list; otherwise the average times the count is the sum. |
| SessionStore.MeanBounds | composeApp/src/commonMain/kotlin/Wearable_Hub/StressStore.kt:119 | A non-empty average lies between any bounds of its values. |
| SessionStore.Summary | composeApp/src/commonMain/kotlin/Wearable_Hub/StressStore.kt:112-128 | An empty session gives the empty map. Otherwise the map has exactly avgHr, avgStress, avgRmssd and maxStress. maxStress is the largest non-null score, and each average is the mean of the non-null values of its field. |
| SessionStore.SummaryAverages | composeApp/src/commonMain/kotlin/Wearable_Hub/StressStore.kt:114-124 | For a non-empty session, each of avgHr, avgStress and avgRmssd is 0 when no sample has that field. Otherwise it lies between the least and the greatest non-null value of the field. |
| SessionStore.AverageWithin | composeApp/src/commonMain/kotlin/Wearable_Hub/StressStore.kt:119 | `avg` of an empty list is 0; of a non-empty list it lies between its least and greatest element. |
| SessionStore.SummaryStress | composeApp/src/commonMain/kotlin/Wearable_Hub/StressStore.kt:116-126 | With no scores both stress statistics are 0. Every score is at most maxStress, and avgStress is at most maxStress. |
| SessionStore.HrValues | composeApp/src/commonMain/kotlin/Wearable_Hub/StressStore.kt:115 | The heart-rate list is empty exactly when no sample has a heart rate. |
| SessionStore.StressValues | composeApp/src/commonMain/kotlin/Wearable_Hub/StressStore.kt:116 | The score list is empty exactly when no sample carries a score. |
| SessionStore.RmssdValues | composeApp/src/commonMain/kotlin/Wearable_Hub/StressStore.kt:117 | The RMSSD list is empty exactly when no sample carries an RMSSD. |
| SessionStore.MeanUpper | composeApp/src/commonMain/kotlin/Wearable_Hub/StressStore.kt:119 | A non-empty average is at most any upper bound of its values. |
| SessionStore.StressStore.constructor | composeApp/src/commonMain/kotlin/Wearable_Hub/StressStore.kt:24-44 | A new store shows the initial state, is stopped, logged out and closed, and has empty buffers. |
| SessionStore.StressStore.SetLoggedIn | composeApp/src/commonMain/kotlin/Wearable_Hub/StressStore.kt:36 | Sets the login flag and nothing else. |
| SessionStore.StressStore.SetAppOpened | composeApp/src/commonMain/kotlin/Wearable_Hub/StressStore.kt:37 | Sets the app-opened flag and nothing else. |
| SessionStore.StressStore.SetMode | composeApp/src/commonMain/kotlin/Wearable_Hub/StressStore.kt:134-148 | A new mode rebuilds the auto-prefer filter with its BLE timestamp at 0. The same mode changes nothing. |
| SessionStore.StressStore.TryStart | composeApp/src/commonMain/kotlin/Wearable_Hub/StressStore.kt:47-61 | Nothing changes when already running, logged out or not opened. Otherwise the session runs from `now`, with both buffers empty and a fresh filter. |
| SessionStore.StressStore.StopSession | composeApp/src/commonMain/kotlin/Wearable_Hub/StressStore.kt:93-97 | Running becomes false and both buffers are kept. |
| SessionStore.StressStore.OnSample | composeApp/src/commonMain/kotlin/Wearable_Hub/StressStore.kt:63-158 | When stopped, nothing changes. Otherwise the sample is forwarded per `Forwards`, and in auto mode a BLE sample updates the BLE timestamp. A forwarded sample overwrites the live state with `Process` and appends the same projection to both buffers. Within 10 s of the start the detector is not consulted. After that the detector's window is `PushWindow` of the old window and the score, the event is emitted exactly when `Judge` reports a trigger, and the cooldown start moves to the sample's time exactly on a trigger. |
| SessionStore.StressStore.DrainPendingSamples | composeApp/src/commonMain/kotlin/Wearable_Hub/StressStore.kt:104-109 | Returns the pending samples in order, which are the tail of the session log, and leaves the pending buffer empty; the log is untouched. |
| SessionStore.StressStore.SessionSummaryForApi | composeApp/src/commonMain/kotlin/Wearable_Hub/StressStore.kt:112-128 | The result is `Summary` of the whole session log, so the averages and maxStress above hold of it. It is empty exactly when the log is, and otherwise has the four keys. |
| SimulatedHrSource.TargetHr | composeApp/src/commonMain/kotlin/Wearable_Hub/SimulatedHrSource.kt:24-29 | Targets lie in 58..95: calm 58, normal 72, stressed 95, recovery 75. |
| SimulatedHrSource.Amplitude | composeApp/src/commonMain/kotlin/Wearable_Hub/SimulatedHrSource.kt:43-48 | The breathing-wave amplitude is positive and at most 2.5. |
| SimulatedHrSource.Approach | composeApp/src/commonMain/kotlin/Wearable_Hub/SimulatedHrSource.kt:41 | A 5 % step toward the target stays between the old rate and the target, and shrinks the gap to 95 %. |
| SimulatedHrSource.DriftStaysBetween | composeApp/src/commonMain/kotlin/Wearable_Hub/SimulatedHrSource.kt:41 | However many steps run toward a fixed target, the smoothed rate stays between its starting value and the target: it never overshoots and never moves away. |
| SimulatedHrSource.HrToRrMs | composeApp/src/commonMain/kotlin/Wearable_Hub/SimulatedHrSource.kt:32 | For a rate in [45, 130], `60000 / hr` truncated lies in 461..1333. |
| SimulatedHrSource.SlideHistory | composeApp/src/commonMain/kotlin/Wearable_Hub/SimulatedHrSource.kt:58-59 | The history grows by the new RR, dropping the oldest entry once over 30. It ends with the new RR and stays within 30. |
| SimulatedHrSource.HrGenerator.constructor | composeApp/src/commonMain/kotlin/Wearable_Hub/SimulatedHrSource.kt:21-35 | The generator starts at 72 bpm, phase 0 and an empty history. |
| SimulatedHrSource.HrGenerator.Tick | composeApp/src/commonMain/kotlin/Wearable_Hub/SimulatedHrSource.kt:37-71 | The rate steps toward the mode's target and the phase advances by 1. The new RR is the clamped jittered interval of the clamped rate, in [350, 1400], and the history slides. The sample is SIMULATED, carries the history in order, and has as heart rate the truncated clamped rate, in [45, 130]. |
| SimulatedHrSource.HistoryScenario | composeApp/src/commonMain/kotlin/Wearable_Hub/SimulatedHrSource.kt:58-65 | From any valid history and for any sine values and random draws, 31 ticks in one mode leave exactly 30 intervals, all in [350, 1400]. The smoothed rate is the 31-step drift toward the mode's target and lies between its old value and that target. |
| AppGraph.Normalize | composeApp/src/commonMain/kotlin/Wearable_Hub/AppGraph.kt:62-67 | The result has exactly the requested size. It keeps the input entries below that size and pads with zeros. |
| AppGraph.NormalizeIdempotent | composeApp/src/commonMain/kotlin/Wearable_Hub/AppGraph.kt:62-67 | A list of the right length is kept, and normalising twice equals normalising once. |
| AppGraph.Charts.constructor | composeApp/src/commonMain/kotlin/Wearable_Hub/AppGraph.kt:18-21 | The charts start as 24 and 7 zeros. |
| AppGraph.Charts.RefreshChartsIfLoggedIn | composeApp/src/commonMain/kotlin/Wearable_Hub/AppGraph.kt:53-73 | Nothing happens unless authenticated. The fetch uses the session token; a failed fetch changes nothing; otherwise both charts become the normalised lists, of sizes 24 and 7. |
| Backend.RequireToken | backend.py:76-79 | A missing header, or one not starting with "Bearer ", gives 401 "Missing Bearer token". Otherwise the token is no longer than the header without its prefix. |
| Backend.RequireTokenRoundTrip | backend.py:76-79 | `"Bearer " + t` gives `t` back when `t` holds no "Bearer " and no edge whitespace. |
| Backend.NormalizeUsername | backend.py:82-85 | The output uses only `[a-z0-9._-]` and is no longer than the input. |
| Backend.NormalizeIsFilterOfLower | backend.py:82-85 | On ASCII the output is the lower-cased input with every other character removed, in order, so stripping adds nothing. |
| Backend.NormalizeIdempotent | backend.py:82-85 | Normalising twice is normalising once. |
| Backend.NormalizeAfterTrim | backend.py:83 | Stripping before normalising changes nothing, so the signup check may normalise the stripped name. |
| Backend.CheckSignupUsername | backend.py:185-192 | A missing or blank name gives USERNAME_REQUIRED. A normalised name shorter than 3 gives INVALID_USERNAME. Success returns the stripped name and a normalised form of at least 3 characters. |
| Backend.SignupAcceptsExactly | backend.py:185-192 | A present username passes exactly when its normalised form has at least 3 characters. |
| Backend.CheckProfileUsername | backend.py:293-297 | The profile update rejects, with INVALID_USERNAME, exactly the names whose normalised form is shorter than 3. |
| Backend.PrettyError | backend.py:88-93 | "Auth/DB error" exactly when no known code occurs. Otherwise the first code, in list order, that occurs. |
| Backend.BucketAverages | backend.py:116-167 | There is one entry per bucket. Each is the truncated mean of the scores of the complete samples mapped to that bucket, or 0 when there are none. |
| Backend.BucketDailyByHour | backend.py:116-138 | 24 entries, each the truncated mean of its hour (clamped to 0..23) or 0. A sample whose timestamp `time.localtime` cannot convert is skipped. |
| Backend.BucketWeeklyByDay | backend.py:141-167 | 7 entries, oldest day first, each the truncated mean of its day or 0. |
| Backend.DaySlot | backend.py:152-160 | A sample goes to index `6 - (nowDay - day)` exactly when that difference is in 0..6, and is dropped otherwise. |
| Backend.HourSlot | backend.py:128-133 | A timestamp gets a slot exactly when its local hour can be computed, and the slot is in 0..23. An hour already in 0..23 is kept, a negative hour gives 0 and an hour above 23 gives 23. |
| Backend.TruncMeanBounds | backend.py:137 | The truncated mean of values in [lo, hi], with lo >= 0, lies in [lo, hi]; an empty bucket gives 0. |
| Backend.BucketMeanWithin | backend.py:126-138 | Scores in [0, hi] give every bucket average in [0, hi]. |
| Backend.SampleInItsBucket | backend.py:123-133 | A complete sample's score is always in the bucket its timestamp maps to. |
| Breathing.InstructionFor | composeApp/src/commonMain/kotlin/Screens/BreathingExerciseScreen.kt:45-49 | Inhale exactly below 4, Hold exactly in 4..10, Exhale otherwise. |
| Breathing.SecInCycle | composeApp/src/commonMain/kotlin/Screens/BreathingExerciseScreen.kt:51-53 | While remaining <= total, the second in the cycle is the elapsed time mod 19, in 0..18. |
| Breathing.CyclePhases | composeApp/src/commonMain/kotlin/Screens/BreathingExerciseScreen.kt:44-53 | One cycle shows 4 inhale, 7 hold and 8 exhale seconds. |
| Breathing.SecondsShowingCounts | composeApp/src/commonMain/kotlin/Screens/BreathingExerciseScreen.kt:44-49 | Over the first k seconds of a cycle the number showing each instruction is given exactly. |
| Breathing.Fmt | composeApp/src/commonMain/kotlin/Screens/BreathingExerciseScreen.kt:80-85 | Negative or zero input gives "0:00". The text always ends in a colon and two characters. |
| Breathing.FmtRoundTrip | composeApp/src/commonMain/kotlin/Screens/BreathingExerciseScreen.kt:80-85 | The text is digits around one colon, and reads back as minutes m and seconds r < 60 with `m * 60 + r = max(0, sec)`. |
| Breathing.ClockRoundTrip | composeApp/src/commonMain/kotlin/Screens/BreathingExerciseScreen.kt:80-85 | Minutes and seconds below 60, written as `m:ss`, read back as the same pair. |
| Breathing.DecimalRoundTrip | composeApp/src/commonMain/kotlin/Screens/BreathingExerciseScreen.kt:84 | `toString` of a non-negative number reads back as that number. |
| Breathing.BreathingTimer.constructor | composeApp/src/commonMain/kotlin/Screens/BreathingExerciseScreen.kt:40-41 | The timer starts running with the whole duration left. |
| Breathing.BreathingTimer.Instruction | composeApp/src/commonMain/kotlin/Screens/BreathingExerciseScreen.kt:53-54 | The shown instruction is that of the elapsed time mod 19. |
| Breathing.BreathingTimer.ToggleRunning | composeApp/src/commonMain/kotlin/Screens/BreathingExerciseScreen.kt:174 | The tap flips `running`. |
| Breathing.BreathingTimer.Countdown | composeApp/src/commonMain/kotlin/Screens/BreathingExerciseScreen.kt:57-65 | While running and above 0, each second takes 1 off the remaining time, never going below 0. Paused, nothing changes. Afterwards the timer runs only while time remains. |
| SignUp.Submit | composeApp/src/commonMain/kotlin/Screens/SignUpScreen.kt:181-183 | The button submits exactly when `canSubmit` holds. It passes the trimmed email, the untrimmed password and the trimmed username, and both trimmed fields are non-empty. |
| SignUp.CanSubmitRequires | composeApp/src/commonMain/kotlin/Screens/SignUpScreen.kt:37-43 | `canSubmit` implies matching passwords, and any blank field disables it. |
| SignUp.MismatchExcludesSubmit | composeApp/src/commonMain/kotlin/Screens/SignUpScreen.kt:169 | The mismatch text shows exactly when the confirmation is non-empty and the password is empty or different, and never together with an enabled button. |
| SignUp.SubmittedUsernamePresent | composeApp/src/commonMain/kotlin/Screens/SignUpScreen.kt:182 | A submitted username is never rejected as missing by the back end's signup check. |
| Auth.LoginSteps | composeApp/src/commonMain/kotlin/firebase/FastApiAuthRepository.kt:14-31 | Login ends Authenticated exactly when both the login call and `me` (queried with the returned token) succeed, with the response ids and the profile fields as given. Otherwise it writes Error with the message, or "Login failed", then Unauthenticated. |
| Auth.SignupSteps | composeApp/src/commonMain/kotlin/firebase/FastApiAuthRepository.kt:35-52 | As login, except that missing profile fields fall back to the submitted username and email, and the default message is "Signup failed". |
| Auth.SignupRefinesLogin | composeApp/src/commonMain/kotlin/firebase/FastApiAuthRepository.kt:14-52 | Signup and login succeed together, with the same ids, and agree on every profile field `me` supplies. |
| Auth.FastApiAuthRepository.constructor | composeApp/src/commonMain/kotlin/firebase/FastApiAuthRepository.kt:11 | The repository starts Unauthenticated. |
| Auth.FastApiAuthRepository.Login | composeApp/src/commonMain/kotlin/firebase/FastApiAuthRepository.kt:14-31 | The state history grows by Loading followed by `LoginSteps`, and the final state is Authenticated or Unauthenticated. |
| Auth.FastApiAuthRepository.Signup | composeApp/src/commonMain/kotlin/firebase/FastApiAuthRepository.kt:35-52 | The state history grows by Loading followed by `SignupSteps`, and the final state is Authenticated or Unauthenticated. |
| Auth.FastApiAuthRepository.Logout | composeApp/src/commonMain/kotlin/firebase/FastApiAuthRepository.kt:57-59 | Logout always ends Unauthenticated. |
| Auth.FailedLoginScenario | composeApp/src/commonMain/kotlin/firebase/FastApiAuthRepository.kt:14-31 | A failed login without a message appends Loading, Error "Login failed" and Unauthenticated to the history. |

## Left out

- **Radio I/O.** Android `BluetoothGatt`, the scanner, service discovery and descriptor writes, `callbackFlow`/`awaitClose`, and the 15 s / 1 s retry timing are not modelled. Each callback and each retry-window boundary is one method, and I/O outcomes are parameters. An adapter or scanner that is missing keeps the flow open and idle; this path is not modelled.
- **Coroutines and flows.** `flatMapLatest`/`merge` interleaving, launching and cancelling `collectJob`, the mutex, and the event buffer of 8 are not modelled. Each store method is one atomic step, and the emitted event is the boolean `triggered`. `TryStart` clears the buffers at once, where the code does it at the start of the launched collector, before any sample.
- **`WearableSource`.** The interface (`WearableSource.kt`) is represented by the source tag on each sample; its `stream()` becomes the per-sample methods. `WearableSourceType` (declared outside the modelled files) is assumed to have the two values BLE and SIMULATED.
- Hrv.Rmssd: the square root is a parameter, so lemmas about the value require a true root (`Hrv.IsSqrt`).
- **Floating point.** Double/Float rounding is not reproduced; for example, `(29 / 100.0) * 100.0` truncating to 28 is not modelled. Scores, confidences and averages are exact reals. The spike detector's diagnostic reason string is not modelled apart from the literal "cooldown".
- **Simulator randomness and trigonometry.** `sin`, `nextDouble`, the Box–Muller Gaussian and the infinite loop with its `delay` are not modelled. The drawn values are parameters of one tick.
- **Clocks and time zones.** `Clock.System.now`, `System.currentTimeMillis`, `time.time` and `time.localtime` are not modelled. The time, the local hour of a timestamp and the current day are parameters. The local hour is optional: it is absent where `time.localtime` would raise, and the daily chart then skips the sample.
- **Network and database.** The HTTP client, the FastAPI endpoint bodies, pyrebase, the posting loop of the app and the hardware controller are not modelled. Call outcomes are parameters.
- **Dynamic typing in the back end.** Stored samples are read as optional integers. A non-numeric field that would make `float()`/`int()` raise (and the sample be skipped) is not modelled.
- **Unicode.** `lower()`, `strip()`, `trim()` and `isBlank()` are modelled on ASCII only.
- **UI.** Compose layout, animations, the login and home screens, chart geometry and platform glue are not modelled.

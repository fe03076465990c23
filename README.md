# Internet Speed Meter — a Dafny model of its throughput estimator and monitor loop

The app is an Android foreground service. Once per second it reads the device's total
received and transmitted byte counters and works out a download and an upload speed. It
turns each speed into a label ("2 KB/s") and, on Wi-Fi, adds a signal percentage. It then
posts the result as a notification. When the screen goes off the service pauses, and it
resumes when the screen comes back on.

This project models that core in Dafny:

- `kotlin.dfy` (module `Kotlin`): Kotlin's nullable values (`Option`) and `Long` division,
  which truncates toward zero (`Div`). It differs from Dafny's Euclidean `/` when the
  dividend is negative.
- `decimal.dfy` (module `Decimal`): how `String.format(Locale.ROOT, "%d", n)` renders a
  number, and a parser that reads the rendering back.
- `helper.dfy` (module `Helper`): `NetworkHelper` from Helper.kt. It is a class with the
  three fields `previousRxBytes`, `previousTxBytes` and `lastUpdateTime`. Its method
  `CalculateNetworkSpeed` takes the sample (the two `TrafficStats` totals and the clock)
  as parameters. The pure functions beside it specify that method: `ElapsedSeconds`,
  `MeasuredSpeeds`, `SpeedStep` and `FormatSpeed`. The function
  `WifiSignalStrengthPercentage` models `getWifiSignalStrengthPercentage`.
- `screen_state.dfy` (module `ScreenState`): what a screen broadcast does to the pause
  flag, and what a sequence of broadcasts does.
- `service.dfy` (module `Service`): the classes `InternetSpeedFGService` and
  `ScreenStateReceiver`. They refer to each other, so they share one module.
  - The service has the fields `isPaused`, `networkHelper` and `screenStateReceiver`.
  - It also has `posted`, the notification payloads handed to the notification manager
    so far. The first one is the `("0", "0")`/`null` payload from `onCreate`.
  - One loop iteration is `MonitorIteration`, specified by the function `MonitorTick`.
    The iteration returns the platform queries it made, in order.
  - The loop of `monitorNetworkSpeed` is `MonitorNetworkSpeed`. It runs over a finite
    sequence of events. An event is a loop iteration (with the facts the platform reports
    in it), a screen broadcast delivered between two iterations, or the cancellation of
    the coroutine scope. `isActive` is tested at the top of each iteration, so nothing
    after a cancellation has an effect.
  - The function `Run` specifies the loop.

The platform reads are inputs: `TrafficStats` totals, `System.currentTimeMillis`,
`ConnectivityManager` capabilities and `WifiManager.calculateSignalLevel`. A `Sample`
carries the totals and the clock. Each iteration's `TickInput` carries the rest. An
active iteration calls `isConnectedToWifi` up to three times: once in the loop; once more
inside `getWifiSignalStrengthPercentage`, only when the first call said Wi-Fi; and once
while the notification is rendered. The first two decide the payload, so `TickInput` has
a separate fact for each. The third is not modelled (see "## Left out").

## Behaviour as written

The code does none of the smoothing one might expect of such a meter. The model follows
the code:

- There is no warm-up tick. The fields start at `0`, `0` and the construction time. So
  the first call reports the whole counter totals divided by the seconds since the helper
  was created (`FirstCallReportsTotals`, `FirstCallExample`).
- When less than a whole second has passed, the call returns the literal pair
  `("0 B/s", "0 B/s")`. It does not return the previous result. It leaves all three
  fields unchanged (`SpeedStepState`).
- Negative deltas are not clamped. A counter that went down gives a speed of zero or
  below, printed with a minus sign, for example "-5 B/s"
  (`CounterRegressionNotClamped`, `CounterRegressionExample`).
- Connectivity is queried on every iteration, paused or not. `MonitorTickProbesConnectivity`
  states the observable part: connectivity is the first query of every iteration, and an
  iteration that is not connected or is paused makes no other query. The flag itself is
  read only when that query succeeds (the `&&` in `MonitorTick`).
- The pause flag starts `false` when the service object is created. Nothing resets it
  when monitoring starts.
- The signal percentage is whatever `calculateSignalLevel(rssi, 100)` returns. It is
  `null` when either Wi-Fi probe is negative.

## Model

| member | source | states |
|---|---|---|
| `Kotlin.Div` | app/src/main/java/com/example/internetspeedmeter/Helper.kt:28-29 | Long division: the remainder is smaller than the divisor in magnitude and has the dividend's sign; for a non-negative dividend and a positive divisor it equals Euclidean division |
| `Kotlin.TruncatedQuotientUnique` | app/src/main/java/com/example/internetspeedmeter/Helper.kt:28-29 | exactly one quotient has the truncation property, so `Div` is Kotlin's division and nothing else |
| `Kotlin.DivNegativeByPositive` | app/src/main/java/com/example/internetspeedmeter/Helper.kt:28-29 | a negative delta over positive elapsed seconds gives a quotient of zero or below, below zero exactly when the delta's magnitude reaches the divisor |
| `Kotlin.DivTruncatesTowardZero` | app/src/main/java/com/example/internetspeedmeter/Helper.kt:24 | -5/2 is -2 in Kotlin (-3 Euclidean); -500 ms gives 0 elapsed seconds (-1 Euclidean) |
| `Decimal.NatToString` | app/src/main/java/com/example/internetspeedmeter/Helper.kt:41-43 | `%d` digits: non-empty, all digits, no leading zero |
| `Decimal.IntToString` | app/src/main/java/com/example/internetspeedmeter/Helper.kt:41-43 | `%d`: starts with '-' exactly for negative numbers, digits after that |
| `Decimal.NatToStringRoundTrip` | app/src/main/java/com/example/internetspeedmeter/Helper.kt:41-43 | the digits denote the number rendered |
| `Decimal.IntToStringRoundTrip` | app/src/main/java/com/example/internetspeedmeter/Helper.kt:41-43 | every rendered Long parses back to itself |
| `Decimal.IntToStringInjective` | app/src/main/java/com/example/internetspeedmeter/Helper.kt:41-43 | different numbers never get the same rendering |
| `Helper.FormatSpeed` | app/src/main/java/com/example/internetspeedmeter/Helper.kt:39-45 | `formatSpeed`'s `when`; it has no contract of its own, and its meaning is stated by `FormatSpeedReadsBack` and the boundary lemmas below |
| `Helper.FormatSpeedReadsBack` | app/src/main/java/com/example/internetspeedmeter/Helper.kt:39-45 | every label reads back as an amount and unit: B/s for any speed below 1024 (negatives too) with the speed itself; KB/s for 1024 up to 1048575, with the whole kilobytes (1 to 1023) rounded down; MB/s from 1048576 up, with the whole megabytes rounded down |
| `Helper.FormatSpeedBytesBoundary` | app/src/main/java/com/example/internetspeedmeter/Helper.kt:41 | 1023 gives "1023 B/s" |
| `Helper.FormatSpeedKiloBoundaries` | app/src/main/java/com/example/internetspeedmeter/Helper.kt:42 | 1024 gives "1 KB/s" and 1048575 gives "1023 KB/s" |
| `Helper.FormatSpeedMegaBoundary` | app/src/main/java/com/example/internetspeedmeter/Helper.kt:43 | 1048576 gives "1 MB/s" |
| `Helper.FormatSpeedNegative` | app/src/main/java/com/example/internetspeedmeter/Helper.kt:41 | -5 gives "-5 B/s" (no clamping) and 0 gives "0 B/s" |
| `Helper.ElapsedSeconds` | app/src/main/java/com/example/internetspeedmeter/Helper.kt:24 | `timeElapsed`; no contract of its own, its meaning is `ElapsedSecondsCountsWholeSeconds` |
| `Helper.ElapsedSecondsCountsWholeSeconds` | app/src/main/java/com/example/internetspeedmeter/Helper.kt:23-24 | elapsed seconds is the number of whole seconds in the millisecond difference, truncated toward zero; it is positive exactly when at least 1000 ms have passed |
| `Helper.MeasuredSpeeds` | app/src/main/java/com/example/internetspeedmeter/Helper.kt:24-29 | speeds exist exactly when at least 1000 ms have passed; each is the truncated quotient of the byte delta by the elapsed seconds |
| `Helper.SpeedStep` | app/src/main/java/com/example/internetspeedmeter/Helper.kt:20-37 | one call of `calculateNetworkSpeed` on values; no contract of its own, its meaning is `SpeedStepState` and the lemmas below, and `NetworkHelper.CalculateNetworkSpeed` is proved equal to it |
| `Helper.SpeedStepState` | app/src/main/java/com/example/internetspeedmeter/Helper.kt:26-36 | under a second: the result is ("0 B/s","0 B/s") and all three fields are unchanged; otherwise the fields become the sample and the labels format the two speeds |
| `Helper.SpeedStepWithinSecondKeepsBaseline` | app/src/main/java/com/example/internetspeedmeter/Helper.kt:24-26 | two calls within a second of the baseline each return the zero pair, and the baseline is unchanged after each of them |
| `Helper.SpeedsOfMonotoneCounters` | app/src/main/java/com/example/internetspeedmeter/Helper.kt:28-29 | with counters that did not go down, each speed is non-negative and is the delta per second rounded down |
| `Helper.CounterRegressionNotClamped` | app/src/main/java/com/example/internetspeedmeter/Helper.kt:28 | a received counter that went down gives a download speed of zero or below, and below zero exactly when the drop is at least the elapsed seconds |
| `Helper.UploadRegressionNotClamped` | app/src/main/java/com/example/internetspeedmeter/Helper.kt:29 | a transmitted counter that went down gives an upload speed of zero or below, and below zero exactly when the drop is at least the elapsed seconds |
| `Helper.CounterRegressionExample` | app/src/main/java/com/example/internetspeedmeter/Helper.kt:26-36 | a 5-byte drop over one second is reported as "-5 B/s" and the baseline still advances |
| `Helper.FirstCallReportsTotals` | app/src/main/java/com/example/internetspeedmeter/Helper.kt:12-29 | from the initial fields, the first measurement is each total divided, rounding toward zero, by the whole seconds since construction (no warm-up); this includes a negative total such as the -1 `TrafficStats` reports when counters are unsupported |
| `Helper.FirstCallExample` | app/src/main/java/com/example/internetspeedmeter/Helper.kt:12-36 | created at 0 ms, a sample of rx=2048 at 1000 ms gives ("2 KB/s", "0 B/s") and becomes the baseline |
| `Helper.WifiSignalStrengthPercentage` | app/src/main/java/com/example/internetspeedmeter/Helper.kt:59-65 | null exactly when not on Wi-Fi, otherwise the platform's level for 100 buckets |
| `Helper.NetworkHelper.constructor` | app/src/main/java/com/example/internetspeedmeter/Helper.kt:12-14 | fields start at rx=0, tx=0 and the clock at construction |
| `Helper.NetworkHelper.CalculateNetworkSpeed` | app/src/main/java/com/example/internetspeedmeter/Helper.kt:20-37 | the new fields and the label pair are `SpeedStep` of the old fields and the sample: unchanged fields and the zero pair under one second, the sample as the new fields otherwise |
| `ScreenState.PausedAfter` | app/src/main/java/com/example/internetspeedmeter/ScreenStateReceiver.kt:8-14 | `onReceive` followed by `pauseService`/`resumeService`, on the flag; no contract of its own, `ScreenStateReceiver.OnReceive` is proved equal to it and the lemmas below state what sequences of it do |
| `ScreenState.PausedAfterIdempotent` | app/src/main/java/com/example/internetspeedmeter/ScreenStateReceiver.kt:8-14 | receiving the same broadcast twice is the same as once |
| `ScreenState.PausedAfterAllSnoc` | app/src/main/java/com/example/internetspeedmeter/ScreenStateReceiver.kt:8-14 | delivering one more broadcast applies `onReceive` to the flag the earlier ones left |
| `ScreenState.LastScreenActionWins` | app/src/main/java/com/example/internetspeedmeter/ScreenStateReceiver.kt:8-14 | after any sequence of broadcasts the flag is what the last screen-on/off asked for, or unchanged if there was none |
| `ScreenState.ScreenSequenceExamples` | app/src/main/java/com/example/internetspeedmeter/ScreenStateReceiver.kt:9-13 | [off, off, on] ends unpaused from either state; [on] while unpaused stays unpaused |
| `Service.MonitorTick` | app/src/main/java/com/example/internetspeedmeter/InternetSpeedFGService.kt:73-84 | the loop body on values; no contract of its own, its meaning is `MonitorTickProbesConnectivity`, `MonitorTickGate` and `MonitorTickActive`, and `MonitorIteration` is proved equal to it |
| `Service.MonitorTickProbesConnectivity` | app/src/main/java/com/example/internetspeedmeter/InternetSpeedFGService.kt:73 | every iteration queries connectivity first, paused or not; an iteration that is not connected, or is paused, makes no other query |
| `Service.MonitorTickGate` | app/src/main/java/com/example/internetspeedmeter/InternetSpeedFGService.kt:73-84 | counters are read and a notification is posted exactly when connected and not paused; otherwise the estimator is unchanged |
| `Service.MonitorTickActive` | app/src/main/java/com/example/internetspeedmeter/InternetSpeedFGService.kt:75-83 | an active iteration advances the estimator by one `calculateNetworkSpeed` and posts its label pair; the signal is present exactly when both Wi-Fi probes succeed, is the platform level, and is read only then |
| `Service.Run` | app/src/main/java/com/example/internetspeedmeter/InternetSpeedFGService.kt:71-87 | the loop over events up to the first cancellation; no contract of its own, its meaning is the `Run…` lemmas below, and `MonitorNetworkSpeed` is proved equal to it |
| `Service.RunPostsOnePerActiveIteration` | app/src/main/java/com/example/internetspeedmeter/InternetSpeedFGService.kt:72-86 | a run only appends notifications, as many as there were iterations before cancellation that found the device connected and the service unpaused |
| `Service.RunStopsAtCancel` | app/src/main/java/com/example/internetspeedmeter/InternetSpeedFGService.kt:72 | events after a cancellation change nothing |
| `Service.RunPauseFollowsBroadcasts` | app/src/main/java/com/example/internetspeedmeter/InternetSpeedFGService.kt:142-150 | over a run the flag changes only through the broadcasts delivered before cancellation |
| `Service.RunPauseIsLastScreenAction` | app/src/main/java/com/example/internetspeedmeter/ScreenStateReceiver.kt:8-14 | at the end of a run the flag is what the last screen broadcast asked for, or its starting value |
| `Service.RunFromCreation` | app/src/main/java/com/example/internetspeedmeter/InternetSpeedFGService.kt:56 | from creation the first notification is ("0","0") with no signal, followed by one per active iteration |
| `Service.InternetSpeedFGService.constructor` | app/src/main/java/com/example/internetspeedmeter/InternetSpeedFGService.kt:41-62 | not paused, a fresh estimator with its initial fields, the zero notification posted, and the receiver pointing back at the service |
| `Service.InternetSpeedFGService.PauseService` | app/src/main/java/com/example/internetspeedmeter/InternetSpeedFGService.kt:142-145 | the flag is true whatever it was; nothing else may change |
| `Service.InternetSpeedFGService.ResumeService` | app/src/main/java/com/example/internetspeedmeter/InternetSpeedFGService.kt:147-150 | the flag is false whatever it was; nothing else may change |
| `Service.InternetSpeedFGService.MonitorIteration` | app/src/main/java/com/example/internetspeedmeter/InternetSpeedFGService.kt:73-84 | the new flag, estimator fields and posted notifications, and the queries made, are those of `MonitorTick` |
| `Service.InternetSpeedFGService.MonitorNetworkSpeed` | app/src/main/java/com/example/internetspeedmeter/InternetSpeedFGService.kt:71-87 | the service's state after the loop is `Run` of its state before, over the events up to the first cancellation; the estimator and receiver objects are the same ones |
| `Service.ScreenStateReceiver.constructor` | app/src/main/java/com/example/internetspeedmeter/ScreenStateReceiver.kt:7 | the receiver keeps the service it was given |
| `Service.ScreenStateReceiver.OnReceive` | app/src/main/java/com/example/internetspeedmeter/ScreenStateReceiver.kt:8-14 | screen off sets the service's flag, screen on clears it, any other action leaves it; nothing else may change |

## Left out

- TextDrawable.kt: canvas drawing with float text metrics. It is presentation only.
- MainActivity.kt: it only starts the service.
- SpeedMonitoringWorker.kt and `scheduleSpeedMonitoringWork`: WorkManager scheduling. Their
  only logic is a Wi-Fi check in front of `calculateNetworkSpeed`, which `NetworkHelper`
  already covers.
- `createNotification` / `updateNotification`: platform UI (RemoteViews, channels,
  builders). Only their payload is kept, appended to `posted`. The queries the rendering
  makes are not in an iteration's `calls`, such as its own Wi-Fi probe.
- Coroutines: `Dispatchers.IO`/`Main`, `withContext`, `delay(1000)`. The loop is modelled
  as iteration over events, not as real time or threads. Each iteration is atomic in the
  model. In the app, `withContext(Dispatchers.Main)` is a cancellation point: a
  cancellation there leaves the estimator advanced with no notification posted, and the
  model does not capture that.
- The write of `isPaused` from the receiver's thread while the loop reads it: a
  concurrency concern. Broadcasts are modelled as falling between two iterations.
- Receiver registration in `onCreate` and unregistration in `onDestroy`: platform
  lifecycle. `onDestroy`'s cancellation of the scope is the `Cancel` event.
- `isConnectedToInternet` and `isConnectedToWifi`: they read `ConnectivityManager`, and
  their results are the booleans of `TickInput`. So is the rule that missing capabilities
  count as `false`.
- `Log` calls and `onBind`: they have no effect on the model's state.
- Kotlin `Long` is 64 bits. The model uses unbounded integers, so wrap-around in the
  subtractions is not modelled. Byte totals and epoch milliseconds stay far below 2^63.
- `Helper.WifiSignalStrengthPercentage`: the range of the platform level (0 to 99 for 100
  buckets) is not stated, because it is `WifiManager`'s promise, not the app's.

# Unblind brightness engine in Dafny

Unblind is a Windows tray application. It moves monitor brightness between a
day level and a night level on a daily schedule. This project models the
engine behind it:

- the **period scheduler** (`Scheduling`). It decides whether it is day or
  night, which brightness is due, how much of the transition is left, and
  when its one-shot timer must fire next.
- the **dimmer** (`Dimming`). It moves the brightness one unit per timer tick
  from a start value to a target, and stops when it gets there.
- the **display controller** (`DisplayControl`). It clamps each request to
  the display's range and keeps at most one pending change per display in a
  coalescing queue. A worker drains the queue in FIFO order against a
  hardware backend, retrying a failed call once.
- the **comparison helpers** (`MathHelpers`): `ClampValue` and `Greater`.
- the arithmetic glue of the **main view-model** (`ViewModels`): the countdown
  to the next period, which it reads from the scheduler; the display-limit
  fold at start-up; the hourly clock counter; and the handler that turns a
  scheduled change into a transition. The view-model's own
  `_CalculateTimeToNextPeriod` helper is modelled too, although nothing in
  the view-model calls it.
- two **value converters** (`Converters`): brightness to background band,
  and boolean to value.

How the model represents the outside world:

- Time is an integer number of milliseconds. The clock is a parameter `now`:
  a time of day in `[0, 86 400 000)`.
- The scheduler's and the dimmer's timers are fields holding an interval
  and whether the timer runs. An expiry is a call to the method the timer
  would invoke (`OnTimerElapsed`, `Tick`). The view-model's clock timer has
  the fixed interval `ClockTickInterval` (1000 ms) and a field
  `clockTimerRunning` that `InitializeApp` sets; its expiry is `ClockTick`.
- The hardware backend is its replies, passed in as data (`BackendReplies`:
  whether each attempt succeeds, and the error code). The calls the worker
  makes are recorded in the controller's `hardwareCalls` log.
- Brightness values are C# `uint`, modelled as the subset type `uint32`.

Several behaviours of the code are kept as written, even where the code's
own comments or names suggest otherwise:

- **Crossed transition durations** (Unblind/BrightnessScheduler.cs:165-168
  and 190-193). The Night branch compares the elapsed time with the
  night-to-day duration but subtracts it from the day-to-night duration. Its
  comment speaks of one transition "to daytime levels". The Day branch does
  the reverse. `Scheduling.ComputeSchedule` keeps this.
  `Scheduling.TimeLeftWithEqualDurations` shows the result is a sensible
  remaining time when the durations are equal.
  `Scheduling.CrossedDurationsGiveNegativeTimeLeft` shows a negative
  remaining time when they differ.
- **Two wrap tolerances.** `_CalculateFollowingPeriod` moves a distance of
  `<= -1` ms forward by a day (Unblind/BrightnessScheduler.cs:214, 220).
  The elapsed time in `_ScheduleNextBrightnessChange` is moved only when it
  is `< -1` (lines 161, 185). `Scheduling.TimeUntil` and
  `Scheduling.TimeSincePeriodStarted` keep the two tests.
- **Immediate adjustments keep the status** (Unblind/BrightnessDimmer.cs:86-93).
  When start and target are equal, or the duration is not positive,
  `AdjustBrightness` submits the target but leaves the status and the timer
  alone. `Dimming.Adjusted` returns the old state on that path.
- **Integrated-display values are not clamped**
  (Unblind/DataAccess/DisplayController.cs:539-557).
  `DisplayControl.IntegratedSubmission` queues the value as given.
- **The highest maximum wins** (Unblind/ViewModels/MainWindowViewModel.cs:303-305).
  The comment speaks of the "lowest maximum brightness", but the loop raises
  the upper limit to each larger display maximum.
  `ViewModels.MainWindowViewModel.InitializeApp` keeps the code's fold.

## Model

| member | source | states |
|---|---|---|
| MathHelpers.ClampValue | Unblind/MathHelpers.cs:14 | a value below `min` gives `min`; otherwise a value above `max` gives `max`; a value inside the range is returned unchanged |
| MathHelpers.ClampInRange | Unblind/MathHelpers.cs:14 | with `min <= max` the clamped value lies in `[min, max]` |
| MathHelpers.ClampIdempotent | Unblind/MathHelpers.cs:14 | clamping a clamped value changes nothing |
| MathHelpers.ClampIsNearest | Unblind/MathHelpers.cs:14 | the clamped value is the point of `[min, max]` nearest the input |
| MathHelpers.Greater | Unblind/MathHelpers.cs:24-27 | the result is at least both arguments and is one of them |
| Converters.BrightnessToBackground | Unblind/Converters/BrightnessToBackgroundConverter.cs:14-31 | null gives Bg25; otherwise the band is the quarter of 1..100 the value falls in, capped at Bg100 (≤25, 26–50, 51–75, >75); each guard yields its own path, `Images\Bg25.bmp` to `Images\Bg100.bmp` |
| Converters.ImagePathsDistinct | Unblind/Converters/BrightnessToBackgroundConverter.cs:16-29 | two bands give the same picture path exactly when they are the same band, so the returned path identifies the band |
| Converters.SwitchGuardsExhaustive | Unblind/Converters/BrightnessToBackgroundConverter.cs:20-31 | the four switch guards cover every `uint`, so the default branch is unreachable |
| Converters.BackgroundMonotone | Unblind/Converters/BrightnessToBackgroundConverter.cs:20-31 | a brighter value never selects a darker background |
| Converters.BooleanToValueConverter.Convert | Unblind/Converters/BooleanToValueConverter.cs:21-29 | `true` gives TrueValue; null and `false` give FalseValue |
| Converters.BooleanToValueConverter.ConvertBack | Unblind/Converters/BooleanToValueConverter.cs:31-34 | true exactly for a non-null argument equal to TrueValue |
| Converters.BooleanToValueConverter.RoundTripTrue | Unblind/Converters/BooleanToValueConverter.cs:21-34 | `ConvertBack(Convert(true))` is true when TrueValue is non-null |
| Converters.BooleanToValueConverter.RoundTripFalse | Unblind/Converters/BooleanToValueConverter.cs:21-34 | `ConvertBack(Convert(false))` is false when FalseValue differs from TrueValue |
| Converters.BooleanToValueConverter.RoundTrip | Unblind/Converters/BooleanToValueConverter.cs:21-34 | under both conditions `ConvertBack` inverts `Convert` on every boolean |
| Scheduling.TimeUntil | Unblind/BrightnessScheduler.cs:213-223 | the raw distance to the boundary, or that plus one day; it is left raw exactly when it is above -1 ms (the `<= -1` test); for times of day it lies in [0, 24 h) |
| Scheduling.CalculateFollowingPeriod | Unblind/BrightnessScheduler.cs:209-235 | the next period is Day exactly when the wrapped time to daytime is strictly smaller than the time to nighttime (ties go to Night); the returned time is the smaller of the two |
| Scheduling.TimeUntilIsFirstHit | Unblind/BrightnessScheduler.cs:213-223 | for times of day the wrapped distance lies in [0, 24 h) and is the first moment at which the clock shows the boundary |
| Scheduling.NextBoundaryIsNearest | Unblind/BrightnessScheduler.cs:209-235 | the following period's boundary is the one the clock reaches first; the clock reaches it after exactly the returned time and shows neither boundary earlier |
| Scheduling.CurrentPeriodIsDayOnDayArc | Unblind/BrightnessScheduler.cs:155-182 | the current period is Day exactly when `now` lies on the clock arc (daytime, nighttime], and Night on the rest |
| Scheduling.TimeSincePeriodStarted | Unblind/BrightnessScheduler.cs:160-164 | the raw elapsed time, or that plus one day; it is left raw exactly when it is at least -1 ms (the `< -1` test); for times of day it lies in [-1, 24 h) |
| Scheduling.ElapsedIsClockDistance | Unblind/BrightnessScheduler.cs:160-164 | the elapsed time since the period start lies in [-1, 24 h); when non-negative it is the clock distance back to the start; -1 only 1 ms before the start |
| Scheduling.ComputeSchedule | Unblind/BrightnessScheduler.cs:148-207 | the current period is the one ending at the next boundary (Night before Day, Day before Night), never None; the brightness is that period's level; the timer is re-armed for the time to the next boundary plus 1 |
| Scheduling.TimeLeftRule | Unblind/BrightnessScheduler.cs:157-199 | the remaining time is 0 once the elapsed time reaches the compared duration, otherwise the other duration minus the elapsed time |
| Scheduling.TimeLeftWithEqualDurations | Unblind/BrightnessScheduler.cs:157-199 | with equal durations `d` the remaining time lies in [0, d + 1] and is positive exactly while the elapsed time is below `d` |
| Scheduling.CrossedDurationsGiveNegativeTimeLeft | Unblind/BrightnessScheduler.cs:165-168 | five minutes into the night, with durations of 10 min (night-to-day) and 1 min (day-to-night), the requested transition time is -4 min |
| Scheduling.TimerFiresJustAfterBoundary | Unblind/BrightnessScheduler.cs:177-205 | the re-armed interval lies in [1, 24 h] and expires 1 ms after the clock reaches a boundary |
| Scheduling.BrightnessScheduler.constructor | Unblind/BrightnessScheduler.cs:118-137 | stores the six settings and computes the first schedule, leaving the period Night or Day, the timer armed and one event raised |
| Scheduling.BrightnessScheduler.TimeToNextPeriod | Unblind/BrightnessScheduler.cs:139-146 | returns the time to the nearer boundary, within [0, 24 h) for times of day, and changes nothing |
| Scheduling.BrightnessScheduler.ScheduleNextBrightnessChange | Unblind/BrightnessScheduler.cs:148-207 | sets the current period, raises one change event and re-arms and starts the timer, all as `ComputeSchedule` decides; the settings are unchanged |
| Scheduling.BrightnessScheduler.OnTimerElapsed | Unblind/BrightnessScheduler.cs:131-134 | a timer expiry recomputes the schedule |
| Scheduling.BrightnessScheduler.SetNightBrightness | Unblind/BrightnessScheduler.cs:36-45 | stores the value, changes no other setting, and recomputes the schedule |
| Scheduling.BrightnessScheduler.SetDayBrightness | Unblind/BrightnessScheduler.cs:47-56 | stores the value, changes no other setting, and recomputes the schedule |
| Scheduling.BrightnessScheduler.SetDaytime | Unblind/BrightnessScheduler.cs:68-77 | stores the value, changes no other setting, and recomputes the schedule |
| Scheduling.BrightnessScheduler.SetNighttime | Unblind/BrightnessScheduler.cs:79-88 | stores the value, changes no other setting, and recomputes the schedule |
| Scheduling.BrightnessScheduler.SetNightToDayTransitionDuration | Unblind/BrightnessScheduler.cs:93-102 | stores the value, changes no other setting, and recomputes the schedule |
| Scheduling.BrightnessScheduler.SetDayToNightTransitionDuration | Unblind/BrightnessScheduler.cs:107-116 | stores the value, changes no other setting, and recomputes the schedule |
| DisplayControl.Display.constructor | Unblind/DataAccess/DisplayController.cs:42-55 | stores the handle, limits and flags; a new display is valid |
| DisplayControl.Display.SupportsBrightness | Unblind/DataAccess/DisplayController.cs:57-60 | holds exactly when bit 1 (mask 0x2) of the capability flags is set |
| DisplayControl.Coalesce | Unblind/DataAccess/DisplayController.cs:519-534 | an entry for the same target is overwritten in place, keeping the length; with none the change is appended; every other entry is unchanged |
| DisplayControl.CoalesceKeepsOnePerTarget | Unblind/DataAccess/DisplayController.cs:519-534 | a queue with at most one entry per target keeps that property, and then holds the new change for its target |
| DisplayControl.CoalesceSupersedes | Unblind/DataAccess/DisplayController.cs:519-534 | a second submission for the same target gives the same queue as if the first had never been made |
| DisplayControl.QueueHoldsFreshest | Unblind/DataAccess/DisplayController.cs:507-560 | starting from an empty queue, after any sequence of submissions the queue has one entry per submitted target, and that entry is the latest submission for it |
| DisplayControl.ClampedIntoDisplayRange | Unblind/DataAccess/DisplayController.cs:517 | for a display whose minimum does not exceed its maximum, a queued attached-display value lies in the display's [MinBrightness, MaxBrightness], and an in-range request is kept as it is |
| DisplayControl.RetryCalls | Unblind/DataAccess/DisplayController.cs:404-416 | one or two backend calls for the same handle and value; the second only when the first failed |
| DisplayControl.SecondSubmissionWins | Unblind/DataAccess/DisplayController.cs:507-537 | for a valid display whose first hardware attempt succeeds, two submissions before the worker runs give a single hardware call with the second (clamped) value |
| DisplayControl.StaleDisplayIgnored | Unblind/DataAccess/DisplayController.cs:509-515 | a submission for an invalid display leaves the queue unchanged |
| DisplayControl.DisplayController.constructor | Unblind/DataAccess/DisplayController.cs:172-205 | no displays and an empty queue; the integrated display is supported exactly when the WMI objects were obtained |
| DisplayControl.DisplayController.Enqueue | Unblind/DataAccess/DisplayController.cs:519-534 | the replace-or-append loop leaves the queue as `Coalesce` of the old queue and keeps one entry per target |
| DisplayControl.DisplayController.SetAttachedDisplayBrightness | Unblind/DataAccess/DisplayController.cs:507-537 | a null or invalid display changes nothing; otherwise the clamped value is coalesced into the queue |
| DisplayControl.DisplayController.SetIntegratedDisplayBrightness | Unblind/DataAccess/DisplayController.cs:539-560 | without WMI controls nothing changes; otherwise the unclamped value is coalesced as the integrated entry |
| DisplayControl.DisplayController.SetDisplayBrightness | Unblind/DataAccess/DisplayController.cs:404-416 | makes the calls `RetryCalls` describes; returns 0 when a call succeeded, otherwise the error the backend reports (which the model does not require to be non-zero) |
| DisplayControl.DisplayController.QueryMonitorBrightnessInfo | Unblind/DataAccess/DisplayController.cs:380-396 | the first successful reply of at most two attempts; two failures give min = max = current = 0 |
| DisplayControl.DisplayController.DrainOne | Unblind/DataAccess/DisplayController.cs:444-483 | pops the head of a non-empty queue and dispatches it: an attached entry to its handle with one retry, the integrated entry to the WMI setter when there is one |
| DisplayControl.DisplayController.ApplyQueuedChanges | Unblind/DataAccess/DisplayController.cs:434-486 | drains the whole queue in FIFO order; the log grows by exactly the dispatches of the old queue, in order |
| DisplayControl.DisplayController.Refresh | Unblind/DataAccess/DisplayController.cs:565-586 | every previously held display is marked invalid, then the new list replaces the old one |
| Dimming.TickStep | Unblind/BrightnessDimmer.cs:39-56 | a tick from a running state moves one unit toward the target, keeps the invariant, and stops exactly on arrival |
| Dimming.Ticks | Unblind/BrightnessDimmer.cs:39-56 | any number of ticks keeps the dimmer invariant |
| Dimming.TicksConverge | Unblind/BrightnessDimmer.cs:39-56 | from a running state `n` units away, `k <= n` ticks move exactly `k` units toward the target without overshoot; the timer runs until the `n`-th tick, which lands on the target with status Idle |
| Dimming.TicksStopAtTarget | Unblind/BrightnessDimmer.cs:52-55 | once the target is reached, further timer events change nothing |
| Dimming.AdjustmentReachesTarget | Unblind/BrightnessDimmer.cs:84-108 | an armed adjustment reaches its target after exactly as many monotone ticks as the distance from start to target and stops; an immediate one leaves the dimmer state alone |
| Dimming.BrightnessDimmer.constructor | Unblind/BrightnessDimmer.cs:33-62 | a new dimmer is Idle with current = target = 0 and its timer stopped |
| Dimming.BrightnessDimmer.SetDisplayBrightness | Unblind/BrightnessDimmer.cs:64-76 | submits the value to every valid attached display in list order, skipping invalid ones, then to the integrated display |
| Dimming.BrightnessDimmer.AdjustBrightness | Unblind/BrightnessDimmer.cs:84-108 | equal values or a non-positive duration submit the target once and report target − start, leaving values, status and timer untouched; otherwise the new values are taken, the status is set from the direction, no event is raised, and the timer runs at duration divided by the distance from start to target, so that many ticks span the duration |
| Dimming.BrightnessDimmer.Tick | Unblind/BrightnessDimmer.cs:39-56 | moves one unit toward the target, submits it, reports the ±1 delta, and stops on arrival |
| Dimming.BrightnessDimmer.Stop | Unblind/BrightnessDimmer.cs:110-114 | halts the timer and sets status Idle; current and target are unchanged |
| ViewModels.ClockAdvanceStaysInRange | Unblind/ViewModels/MainWindowViewModel.cs:468-473 | a clock tick keeps the counter in [0, 3 600 000) |
| ViewModels.CounterCountsSeconds | Unblind/ViewModels/MainWindowViewModel.cs:468-473 | after `n` ticks from 0 the counter is 1000 times the number of seconds past the last whole hour (`n` modulo 3600) |
| ViewModels.CounterAfterTicks | Unblind/ViewModels/MainWindowViewModel.cs:468-473 | after `n` ticks from 0 the counter is 1000·n modulo one hour |
| ViewModels.LocationDueEveryHour | Unblind/ViewModels/MainWindowViewModel.cs:468-473 | the location update happens on exactly every 3600th tick |
| ViewModels.CountdownMatchesTimeUntil | Unblind/ViewModels/MainWindowViewModel.cs:357-362 | the result of `_CalculateTimeToNextPeriod` equals the scheduler's wrapped distance to the same boundary, except at the boundary itself, where it is a full day |
| ViewModels.LargestIsMaximum | Unblind/ViewModels/MainWindowViewModel.cs:303-305 | the folded limit is at least the start value and every display's limit, and equals one of them |
| ViewModels.MainWindowViewModel.constructor | Unblind/ViewModels/MainWindowViewModel.cs:218-234 | counter 0, brightness 100, limits 1 and 0, no flags set, status Idle, clock timer created but not running |
| ViewModels.MainWindowViewModel.CalculateTimeToNextPeriod | Unblind/ViewModels/MainWindowViewModel.cs:344-363 | measures to Nighttime in the Day period and to Daytime otherwise; the result is that difference shifted by whole days into (0, 24 h], unchanged when already positive (the helper has no caller in the view-model) |
| ViewModels.MainWindowViewModel.ClockTick | Unblind/ViewModels/MainWindowViewModel.cs:465-480 | adds one second, wrapping and asking for a location update at an hour; refreshes the countdown and mirrors the dimmer's status |
| ViewModels.MainWindowViewModel.InitializeApp | Unblind/ViewModels/MainWindowViewModel.cs:292-321 | with displays, the lower limit becomes the larger of its previous value and every display minimum, and the upper limit the larger of its previous value and every display maximum (the highest, not the lowest); missing support is flagged; with no displays but an integrated display, the limits become 0 and 100; several displays are flagged when more than one is attached or one plus an integrated display; the clock timer is running afterwards |
| ViewModels.MainWindowViewModel.OnScheduledBrightnessEvent | Unblind/ViewModels/MainWindowViewModel.cs:365-369 | stops the dimmer, then adjusts from the current brightness to the target over the time left: an immediate adjustment leaves the dimmer Idle, submits the target and reports it, keeping the timer interval; otherwise the transition is armed with no event and nothing queued |

## Left out

- Sunrise and sunset calculation (`_CalculateSunriseSunset`, the Julian-date conversions, `SinDegrees`, degree/radian helpers): floating-point trigonometry. `ClockTick` only reports that a location update is due.
- P/Invoke and WMI calls: foreign code. They are represented only by the replies they give (`BackendReplies`, the `Option` replies of `QueryMonitorBrightnessInfo`) and by the `wmiControlsPresent`/`wmiSetterPresent` flags.
- Display enumeration and ID assignment (`_GetAttachedDisplays`, `_GetPhysicalMonitors`, `_DestroyPhysicalMonitors`, `_QueryMonitorCapabilities`): hardware enumeration. `Refresh` takes the new list as a parameter.
- Concurrency: locks, the `AutoResetEvent`, the worker task, the shutdown flag and the finalizers. Each locked region is one method body. The worker is the sequential `DrainOne` and `ApplyQueuedChanges`.
- Reading the clock: the source reads `DateTime.Now` several times per recompute; the model uses one `now`. `_CalculateTimeToNextPeriod` reads the UTC clock while the scheduler reads the local clock. The model does not distinguish the two. This matters only for that helper, which nothing calls; the countdown shown comes from the scheduler's local clock.
- Time precision: `TimeSpan` and `double` milliseconds are integer milliseconds. The dimmer's step interval is a `real`.
- Scheduling.ComputeSchedule: the `(uint)` cast of the `double` brightness settings is not modelled; the settings are `uint32` from the start, as every caller sets them.
- Dimming.BrightnessDimmer.AdjustBrightness: does not model the `(int)` casts of brightness values above 2^31 − 1 in the delta and the step interval.
- `System.Timers.Timer` rejecting an interval that is not positive or too large: not modelled. The timers hold any interval.
- The WMI exception handler that shows a message box: not modelled; the call is logged as made.
- The `DisplayChangeType` test in the worker: the enum has the single value `Brightness`, so every entry is a brightness change. Null queue entries never occur.
- Converters: the `(bool)` and `(uint)` casts throwing on a value of another type are not modelled; the argument types rule them out. `ConvertBack` of the background converter is unused.
- Scheduler property notifications: each of the six public setters of `BrightnessScheduler` raises `OnPropertyChanged` after recomputing the schedule, and so does the private `CurrentTimePeriod` setter (Unblind/BrightnessScheduler.cs:36-116). The model does not record this signal. Its one listener, the view-model's `_OnSchedulerPropertyChanged`, only persists settings, which is left out below.
- View-model clock timer: the constructor sets its 1000 ms interval, `AutoReset` and `Elapsed` handler (Unblind/ViewModels/MainWindowViewModel.cs:259-261). The model makes these the constant `ClockTickInterval` and the method `ClockTick`, not state. Only whether it runs is a field: false after construction, true after `InitializeApp` (line 321). Expiries are not tied to that flag: `ClockTick` can be called whether or not the timer runs.
- View-model: the first-run message box, settings persistence (`_LoadAppData`, `_OnSchedulerPropertyChanged`), the startup shortcut, property-changed notifications, the preview timer, and the formatting of the countdown string.
- `_OnDisplayChangeDetected` and `_OnBrightnessChangeEvent` in the view-model: event wiring. The view-model's brightness is a field the model does not update from dimmer events.
- Scheduling.BrightnessScheduler.constructor: records the event the constructor raises, but not that in the application it reaches no listener, because the view-model subscribes only after construction.
- `MainWindow.xaml.cs`, `TransitionDurationStringConverter` and `TimeSpanToDateTimeConverter`: user interface and string formatting.

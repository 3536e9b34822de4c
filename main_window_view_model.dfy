/** The arithmetic glue of Unblind/ViewModels/MainWindowViewModel.cs: the
    countdown to the next period, the display-limit fold run at start-up,
    the once-per-second clock counter with its hourly location update, and
    the handler that turns a scheduled change into a dimmer transition. */
module ViewModels {
  import opened Common
  import MathHelpers
  import opened DisplayControl
  import opened Scheduling
  import opened Dimming

  /** The clock timer's interval and the location update period, in ms. */
  const ClockTickInterval: int := 1000
  const LocationUpdatePeriod: int := 3_600_000

  /** The counter after one clock tick. */
  function ClockAdvance(counter: int): int {
    if counter + ClockTickInterval >= LocationUpdatePeriod then counter + ClockTickInterval - LocationUpdatePeriod
    else counter + ClockTickInterval
  }

  /** Whether the tick that starts from `counter` triggers a location update. */
  predicate LocationDue(counter: int) {
    counter + ClockTickInterval >= LocationUpdatePeriod
  }

  /** The counter after `n` ticks from its initial value 0. */
  function CounterAfter(n: nat): int {
    if n == 0 then 0 else ClockAdvance(CounterAfter(n - 1))
  }

  /** A tick keeps the counter in [0, 3,600,000). */
  lemma ClockAdvanceStaysInRange(counter: int)
    requires 0 <= counter < LocationUpdatePeriod
    ensures 0 <= ClockAdvance(counter) < LocationUpdatePeriod
  {
  }

  /** After `n` ticks the counter holds the seconds elapsed since the last
      whole hour, in milliseconds. */
  lemma {:induction false} CounterCountsSeconds(n: nat)
    ensures CounterAfter(n) == ClockTickInterval * (n % 3600)
  {
    if n > 0 {
      CounterCountsSeconds(n - 1);
      assert n % 3600 == if (n - 1) % 3600 == 3599 then 0 else (n - 1) % 3600 + 1;
    }
  }

  /** Equivalently, the counter is the milliseconds ticked so far modulo an
      hour. */
  lemma CounterAfterTicks(n: nat)
    ensures CounterAfter(n) == (ClockTickInterval * n) % LocationUpdatePeriod
  {
    CounterCountsSeconds(n);
    var q, r := n / 3600, n % 3600;
    assert ClockTickInterval * n == LocationUpdatePeriod * q + ClockTickInterval * r;
  }

  /** The location is updated on exactly every 3600th tick, once an hour. */
  lemma LocationDueEveryHour(n: nat)
    ensures LocationDue(CounterAfter(n)) <==> (n + 1) % 3600 == 0
  {
    CounterCountsSeconds(n);
  }

  /** The result of `_CalculateTimeToNextPeriod` agrees with the scheduler's
      distance to the same boundary, except at the boundary itself, where the
      helper gives a full day and the scheduler 0. The helper has no caller
      in the view-model; the countdown it shows comes from the scheduler. */
  lemma CountdownMatchesTimeUntil(boundary: int, now: int, time: int)
    requires IsTimeOfDay(boundary) && IsTimeOfDay(now)
    requires 0 < time <= MsPerDay && (time - (boundary - now)) % MsPerDay == 0
    ensures time == if boundary == now then MsPerDay else TimeUntil(boundary, now)
  {
    var d := boundary - now;
    var k := (time - d) / MsPerDay;
    assert time - d == MsPerDay * k;
    if d > 0 {
      assert k == 0;
    } else {
      assert k == 1;
    }
  }

  /** The multi-display rule of start-up. */
  predicate SeveralDisplays(attachedCount: nat, integratedDisplaySupported: bool) {
    attachedCount > 1 || (attachedCount >= 1 && integratedDisplaySupported)
  }

  /** The largest of `init` and the values in `xs`. */
  function Largest(xs: seq<int>, init: int): int {
    if xs == [] then init else MathHelpers.Greater(Largest(xs[..|xs| - 1], init), xs[|xs| - 1])
  }

  /** `Largest` is the maximum: no smaller than `init` or any element, and
      equal to `init` or to one of the elements. */
  lemma {:induction false} LargestIsMaximum(xs: seq<int>, init: int)
    ensures Largest(xs, init) >= init
    ensures forall i :: 0 <= i < |xs| ==> Largest(xs, init) >= xs[i]
    ensures Largest(xs, init) == init || exists i :: 0 <= i < |xs| && Largest(xs, init) == xs[i]
  {
    if xs != [] {
      var front := xs[..|xs| - 1];
      LargestIsMaximum(front, init);
      assert forall i :: 0 <= i < |front| ==> front[i] == xs[i];
      if Largest(xs, init) != init && Largest(xs, init) != xs[|xs| - 1] {
        var i :| 0 <= i < |front| && Largest(front, init) == front[i];
        assert Largest(xs, init) == xs[i];
      }
    }
  }

  function MinBrightnesses(ds: seq<Display>): seq<int> {
    seq(|ds|, i requires 0 <= i < |ds| => ds[i].minBrightness as int)
  }

  function MaxBrightnesses(ds: seq<Display>): seq<int> {
    seq(|ds|, i requires 0 <= i < |ds| => ds[i].maxBrightness as int)
  }

  predicate SomeLacksSupport(ds: seq<Display>) {
    exists i :: 0 <= i < |ds| && !ds[i].SupportsBrightness()
  }

  /** Extending the prefix by one element folds that element into `Largest`. */
  lemma LargestStep(xs: seq<int>, i: nat, init: int)
    requires i < |xs|
    ensures Largest(xs[..i + 1], init) == MathHelpers.Greater(Largest(xs[..i], init), xs[i])
  {
    assert xs[..i + 1][..i] == xs[..i];
  }

  /** Extending the prefix by one display adds that display to `SomeLacksSupport`. */
  lemma SomeLacksSupportStep(ds: seq<Display>, i: nat)
    requires i < |ds|
    ensures SomeLacksSupport(ds[..i + 1]) == (SomeLacksSupport(ds[..i]) || !ds[i].SupportsBrightness())
  {
    if SomeLacksSupport(ds[..i]) {
      var j :| 0 <= j < i && !ds[..i][j].SupportsBrightness();
      assert ds[..i + 1][j] == ds[..i][j];
    }
    if SomeLacksSupport(ds[..i + 1]) {
      var j :| 0 <= j < i + 1 && !ds[..i + 1][j].SupportsBrightness();
      if j < i {
        assert ds[..i][j] == ds[..i + 1][j];
      }
    }
    assert ds[..i + 1][i] == ds[i];
  }

  class MainWindowViewModel {
    const scheduler: BrightnessScheduler
    const dimmer: BrightnessDimmer
    /** Milliseconds since the last location update. */
    var clockElapsedTime: int
    var currentBrightness: uint32
    var minDisplayBrightness: uint32
    var maxDisplayBrightness: uint32
    var noSupportDetected: bool
    var multipleDisplaysConnected: bool
    var currentBrightnessTransitionStatus: DimmerStatus
    /** The countdown shown to the user, in ms. */
    var timeToNextPeriod: int
    /** Whether `m_systemClockTimer`, the repeating one-second timer whose
        expiry is `ClockTick`, has been started. */
    var clockTimerRunning: bool

    ghost predicate Valid()
      reads this, dimmer, dimmer.controller
    {
      dimmer.Valid()
    }

    /** The field values a new view-model starts from. */
    constructor (scheduler: BrightnessScheduler, dimmer: BrightnessDimmer)
      requires dimmer.Valid()
      ensures Valid() && this.scheduler == scheduler && this.dimmer == dimmer
      ensures clockElapsedTime == 0 && currentBrightness == 100
      ensures minDisplayBrightness == 1 && maxDisplayBrightness == 0
      ensures !noSupportDetected && !multipleDisplaysConnected
      ensures currentBrightnessTransitionStatus == Idle && !clockTimerRunning
    {
      this.scheduler := scheduler;
      this.dimmer := dimmer;
      clockElapsedTime := 0;
      currentBrightness := 100;
      maxDisplayBrightness := 0;
      minDisplayBrightness := 1;
      noSupportDetected := false;
      multipleDisplaysConnected := false;
      currentBrightnessTransitionStatus := Idle;
      timeToNextPeriod := 0;
      clockTimerRunning := false;
    }

    /** `_CalculateTimeToNextPeriod`: the distance from `nowUtc` to the
        scheduler's Nighttime in the Day period and to its Daytime otherwise,
        shifted by whole days into (0, 24h]. Nothing in the view-model calls
        it; the countdown is refreshed from the scheduler instead. */
    method CalculateTimeToNextPeriod(currentPeriod: TimePeriod, nowUtc: int) returns (time: int)
      ensures var initial := (if currentPeriod == Day then scheduler.nighttime else scheduler.daytime) - nowUtc;
        && 0 < time
        && (initial > 0 ==> time == initial)
        && (initial <= 0 ==> time <= MsPerDay)
        && (time - initial) % MsPerDay == 0
    {
      if currentPeriod == Day {
        time := scheduler.nighttime - nowUtc;
      } else {
        time := scheduler.daytime - nowUtc;
      }
      ghost var initial := time;
      while time <= 0
        invariant initial > 0 ==> time == initial
        invariant initial <= 0 ==> time <= MsPerDay
        invariant (time - initial) % MsPerDay == 0
        decreases -time
      {
        time := time + MsPerDay;
      }
    }

    /** `_ClockTick`: advance the counter by one second, wrapping it and
        asking for a location update once it reaches an hour; refresh the
        countdown and mirror the dimmer's status. */
    method ClockTick(now: int) returns (updateLocation: bool)
      modifies this`clockElapsedTime, this`timeToNextPeriod, this`currentBrightnessTransitionStatus
      ensures clockElapsedTime == ClockAdvance(old(clockElapsedTime))
      ensures updateLocation == LocationDue(old(clockElapsedTime))
      ensures 0 <= old(clockElapsedTime) < LocationUpdatePeriod ==> 0 <= clockElapsedTime < LocationUpdatePeriod
      ensures timeToNextPeriod == CalculateFollowingPeriod(scheduler.daytime, scheduler.nighttime, now).timeToPeriod
      ensures currentBrightnessTransitionStatus == dimmer.status
    {
      clockElapsedTime := clockElapsedTime + ClockTickInterval;
      updateLocation := false;
      if clockElapsedTime >= LocationUpdatePeriod {
        clockElapsedTime := clockElapsedTime - LocationUpdatePeriod;
        updateLocation := true;
      }
      timeToNextPeriod := scheduler.TimeToNextPeriod(now);
      currentBrightnessTransitionStatus := dimmer.status;
    }

    /** The display-limit part of `_InitializeApp`. With attached displays,
        raise the lower limit to the largest display minimum and the upper
        limit to the largest display maximum (the highest maximum, not the
        lowest), and flag a display without brightness support; with none
        but an integrated display, use 0 and 100. Then flag several
        displays, reset the transition status, refresh the countdown and
        start the one-second clock timer. */
    method InitializeApp(now: int)
      modifies this
      ensures var ds := dimmer.controller.attachedDisplays;
        && (|ds| > 0 ==>
              && minDisplayBrightness == Largest(MinBrightnesses(ds), old(minDisplayBrightness))
              && maxDisplayBrightness == Largest(MaxBrightnesses(ds), old(maxDisplayBrightness))
              && noSupportDetected == (old(noSupportDetected) || SomeLacksSupport(ds)))
        && (|ds| == 0 && dimmer.controller.integratedDisplaySupported ==>
              minDisplayBrightness == 0 && maxDisplayBrightness == 100 && noSupportDetected == old(noSupportDetected))
        && (|ds| == 0 && !dimmer.controller.integratedDisplaySupported ==>
              && minDisplayBrightness == old(minDisplayBrightness)
              && maxDisplayBrightness == old(maxDisplayBrightness)
              && noSupportDetected == old(noSupportDetected))
        && multipleDisplaysConnected == (old(multipleDisplaysConnected) || SeveralDisplays(|ds|, dimmer.controller.integratedDisplaySupported))
      ensures currentBrightnessTransitionStatus == Idle
      ensures clockTimerRunning
      ensures timeToNextPeriod == CalculateFollowingPeriod(scheduler.daytime, scheduler.nighttime, now).timeToPeriod
      ensures clockElapsedTime == old(clockElapsedTime) && currentBrightness == old(currentBrightness)
    {
      var controller := dimmer.controller;
      var ds := controller.attachedDisplays;
      if |ds| > 0 {
        ghost var min0, max0 := minDisplayBrightness, maxDisplayBrightness;
        var i := 0;
        while i < |ds|
          invariant 0 <= i <= |ds|
          invariant minDisplayBrightness == Largest(MinBrightnesses(ds)[..i], min0)
          invariant maxDisplayBrightness == Largest(MaxBrightnesses(ds)[..i], max0)
          invariant noSupportDetected == (old(noSupportDetected) || SomeLacksSupport(ds[..i]))
          invariant multipleDisplaysConnected == old(multipleDisplaysConnected)
          invariant clockElapsedTime == old(clockElapsedTime) && currentBrightness == old(currentBrightness)
        {
          var display := ds[i];
          if display.minBrightness > minDisplayBrightness {
            minDisplayBrightness := MathHelpers.Greater(display.minBrightness, 1);
          }
          if display.maxBrightness > maxDisplayBrightness {
            maxDisplayBrightness := MathHelpers.Greater(display.maxBrightness, 1);
          }
          if !display.SupportsBrightness() {
            noSupportDetected := true;
          }
          LargestStep(MinBrightnesses(ds), i, min0);
          LargestStep(MaxBrightnesses(ds), i, max0);
          SomeLacksSupportStep(ds, i);
          i := i + 1;
        }
        assert MinBrightnesses(ds)[..i] == MinBrightnesses(ds);
        assert MaxBrightnesses(ds)[..i] == MaxBrightnesses(ds);
        assert ds[..i] == ds;
      } else if controller.integratedDisplaySupported {
        minDisplayBrightness := 0;
        maxDisplayBrightness := 100;
      }
      if |ds| > 1 || (|ds| >= 1 && controller.integratedDisplaySupported) {
        multipleDisplaysConnected := true;
      }
      currentBrightnessTransitionStatus := Idle;
      timeToNextPeriod := scheduler.TimeToNextPeriod(now);
      clockTimerRunning := true;
    }

    /** `_OnScheduledBrightnessEvent`: stop the dimmer, then adjust from the
        brightness last reported to the scheduled target over the time left. */
    method OnScheduledBrightnessEvent(targetBrightness: uint32, timeLeft: int)
      requires Valid()
      modifies dimmer, dimmer.controller`queue
      ensures Valid()
      ensures dimmer.State() == Adjusted(Stopped(old(dimmer.State())), currentBrightness, targetBrightness, timeLeft)
      ensures currentBrightness == targetBrightness || timeLeft <= 0 ==>
        && dimmer.controller.queue == SubmittedToAll(dimmer.controller, old(dimmer.controller.queue), targetBrightness)
        && dimmer.brightnessChanges == old(dimmer.brightnessChanges) + [BrightnessChange(targetBrightness, targetBrightness - currentBrightness)]
        && dimmer.dimmerTimer.interval == old(dimmer.dimmerTimer.interval)
      ensures currentBrightness != targetBrightness && timeLeft > 0 ==>
        && dimmer.controller.queue == old(dimmer.controller.queue)
        && dimmer.brightnessChanges == old(dimmer.brightnessChanges)
        && dimmer.dimmerTimer == RepeatingTimer(timeLeft as real / Distance(currentBrightness, targetBrightness) as real, true)
    {
      dimmer.Stop();
      dimmer.AdjustBrightness(currentBrightness, targetBrightness, timeLeft);
    }
  }
}

/** The day/night period scheduler of Unblind/BrightnessScheduler.cs.
    Clock readings are passed in as `now`, a time of day in milliseconds; the
    one-shot schedule timer is a field holding its interval and whether it is
    running, and its expiry is the method `OnTimerElapsed`. */
module Scheduling {
  import opened Common

  /** Which brightness regime is in force; `None` only before the first
      schedule is computed. */
  datatype TimePeriod = Night | Day | None

  /** Distance from `now` to the next `boundary` as `_CalculateFollowingPeriod`
      measures it: a distance of -1 ms or less is moved forward by one day. */
  function TimeUntil(boundary: int, now: int): (r: int)
    ensures r == boundary - now || r == boundary - now + MsPerDay
    ensures r == boundary - now <==> boundary - now > -1
    ensures IsTimeOfDay(boundary) && IsTimeOfDay(now) ==> 0 <= r < MsPerDay
  {
    if boundary - now <= -1 then (boundary + MsPerDay) - now else boundary - now
  }

  /** The two out-parameters of `_CalculateFollowingPeriod`. */
  datatype FollowingPeriod = FollowingPeriod(period: TimePeriod, timeToPeriod: int)

  /** `_CalculateFollowingPeriod`: the nearer of the two boundaries, the night
      boundary winning a tie. */
  function CalculateFollowingPeriod(daytime: int, nighttime: int, now: int): (r: FollowingPeriod)
    ensures r.period == Day <==> TimeUntil(daytime, now) < TimeUntil(nighttime, now)
    ensures r.period == Day || r.period == Night
    ensures r.timeToPeriod == Min(TimeUntil(daytime, now), TimeUntil(nighttime, now))
  {
    var timeUntilNight := TimeUntil(nighttime, now);
    var timeUntilDay := TimeUntil(daytime, now);
    if timeUntilDay < timeUntilNight then FollowingPeriod(Day, timeUntilDay)
    else FollowingPeriod(Night, timeUntilNight)
  }

  lemma ModOfSmall(x: int)
    requires 0 <= x < 2 * MsPerDay
    ensures x % MsPerDay == if x < MsPerDay then x else x - MsPerDay
  {
  }

  /** For times of day, the wrapped distance is the first moment at which the
      clock shows the boundary: it lies in [0, 24 h), the clock shows the
      boundary after it, and at no earlier moment. */
  lemma TimeUntilIsFirstHit(boundary: int, now: int)
    requires IsTimeOfDay(boundary) && IsTimeOfDay(now)
    ensures 0 <= TimeUntil(boundary, now) < MsPerDay
    ensures ClockAfter(now, TimeUntil(boundary, now)) == boundary
    ensures forall d :: 0 <= d < TimeUntil(boundary, now) ==> ClockAfter(now, d) != boundary
  {
    var t := TimeUntil(boundary, now);
    ModOfSmall(now + t);
    forall d | 0 <= d < t
      ensures ClockAfter(now, d) != boundary
    {
      ModOfSmall(now + d);
    }
  }

  /** The following period is the boundary the clock reaches first: the
      returned time is when the clock first shows that boundary, neither
      boundary shows up earlier, and a tie goes to Night. */
  lemma {:induction false} NextBoundaryIsNearest(daytime: int, nighttime: int, now: int)
    requires IsTimeOfDay(daytime) && IsTimeOfDay(nighttime) && IsTimeOfDay(now)
    ensures var r := CalculateFollowingPeriod(daytime, nighttime, now);
      && 0 <= r.timeToPeriod < MsPerDay
      && ClockAfter(now, r.timeToPeriod) == (if r.period == Day then daytime else nighttime)
      && (forall d :: 0 <= d < r.timeToPeriod ==> ClockAfter(now, d) != daytime && ClockAfter(now, d) != nighttime)
      && (ClockAfter(now, r.timeToPeriod) == nighttime ==> r.period == Night)
  {
    TimeUntilIsFirstHit(daytime, now);
    TimeUntilIsFirstHit(nighttime, now);
  }

  /** The period in force once the following one is known: the period about
      to end is the current one. */
  function PeriodEndingAt(next: TimePeriod): TimePeriod {
    if next == Day then Night else Day
  }

  /** `now` lies on the clock arc (lo, hi], going forward from `lo`. */
  predicate OnArc(now: int, lo: int, hi: int) {
    if lo < hi then lo < now <= hi
    else if hi < lo then lo < now || now <= hi
    else true
  }

  /** Read as a whole day: the current period is Day exactly from 1 ms after
      the day boundary up to and including the night boundary, and Night on
      the rest of the clock. Equal boundaries make every moment Day. */
  lemma {:induction false} CurrentPeriodIsDayOnDayArc(daytime: int, nighttime: int, now: int)
    requires IsTimeOfDay(daytime) && IsTimeOfDay(nighttime) && IsTimeOfDay(now)
    ensures PeriodEndingAt(CalculateFollowingPeriod(daytime, nighttime, now).period) == Day
      <==> OnArc(now, daytime, nighttime)
  {
    assert TimeUntil(daytime, now) == if daytime >= now then daytime - now else daytime + MsPerDay - now;
    assert TimeUntil(nighttime, now) == if nighttime >= now then nighttime - now else nighttime + MsPerDay - now;
  }

  /** Time since the start of the current period as `_ScheduleNextBrightnessChange`
      measures it: only a difference below -1 ms is moved forward by a day,
      a looser tolerance than the `<= -1` of `_CalculateFollowingPeriod`. */
  function TimeSincePeriodStarted(start: int, now: int): (r: int)
    ensures r == now - start || r == now - start + MsPerDay
    ensures r == now - start <==> now - start >= -1
    ensures IsTimeOfDay(start) && IsTimeOfDay(now) ==> -1 <= r < MsPerDay
  {
    if now - start < -1 then now - start + MsPerDay else now - start
  }

  /** For times of day the elapsed time is the clock distance back to the
      start, except exactly 1 ms before the start, where it is -1. */
  lemma ElapsedIsClockDistance(start: int, now: int)
    requires IsTimeOfDay(start) && IsTimeOfDay(now)
    ensures -1 <= TimeSincePeriodStarted(start, now) < MsPerDay
    ensures TimeSincePeriodStarted(start, now) == -1 ==> now + 1 == start
    ensures TimeSincePeriodStarted(start, now) >= 0 ==> ClockAfter(start, TimeSincePeriodStarted(start, now)) == now
  {
    ModOfSmall(start + TimeSincePeriodStarted(start, now));
  }

  /** The arguments of one `OnBrightnessChange` event. */
  datatype ScheduledChange = ScheduledChange(targetBrightness: uint32, timeLeft: int)

  /** The six configuration fields of the scheduler. */
  datatype ScheduleConfig = ScheduleConfig(
    daytime: int, nighttime: int,
    nightBrightness: uint32, dayBrightness: uint32,
    nightToDayTransitionDuration: int, dayToNightTransitionDuration: int)

  /** What one run of `_ScheduleNextBrightnessChange` decides. */
  datatype Schedule = Schedule(currentPeriod: TimePeriod, change: ScheduledChange, timerInterval: int)

  /** The decision of `_ScheduleNextBrightnessChange`, as written: the Night
      branch compares the elapsed time with the night-to-day duration but
      subtracts it from the day-to-night one, and the Day branch the reverse. */
  function ComputeSchedule(c: ScheduleConfig, now: int): (s: Schedule)
    ensures s.currentPeriod != None
    ensures s.currentPeriod == PeriodEndingAt(CalculateFollowingPeriod(c.daytime, c.nighttime, now).period)
    ensures s.change.targetBrightness == if s.currentPeriod == Night then c.nightBrightness else c.dayBrightness
    ensures s.timerInterval == CalculateFollowingPeriod(c.daytime, c.nighttime, now).timeToPeriod + 1
  {
    var following := CalculateFollowingPeriod(c.daytime, c.nighttime, now);
    if following.period == Day then
      var elapsed := TimeSincePeriodStarted(c.nighttime, now);
      var timeLeft := if elapsed < c.nightToDayTransitionDuration then c.dayToNightTransitionDuration - elapsed else 0;
      Schedule(Night, ScheduledChange(c.nightBrightness, timeLeft), following.timeToPeriod + 1)
    else
      var elapsed := TimeSincePeriodStarted(c.daytime, now);
      var timeLeft := if elapsed < c.dayToNightTransitionDuration then c.nightToDayTransitionDuration - elapsed else 0;
      Schedule(Day, ScheduledChange(c.dayBrightness, timeLeft), following.timeToPeriod + 1)
  }

  /** Start of the current period, and the two durations the branch uses:
      the one compared with the elapsed time and the one the remaining time
      is taken from. */
  function PeriodStart(c: ScheduleConfig, p: TimePeriod): int {
    if p == Night then c.nighttime else c.daytime
  }

  function ComparedDuration(c: ScheduleConfig, p: TimePeriod): int {
    if p == Night then c.nightToDayTransitionDuration else c.dayToNightTransitionDuration
  }

  function SubtractedDuration(c: ScheduleConfig, p: TimePeriod): int {
    if p == Night then c.dayToNightTransitionDuration else c.nightToDayTransitionDuration
  }

  /** Remaining transition time: none once the elapsed time reaches the
      compared duration, otherwise the other duration minus the elapsed time. */
  lemma TimeLeftRule(c: ScheduleConfig, now: int)
    ensures var s := ComputeSchedule(c, now);
      var elapsed := TimeSincePeriodStarted(PeriodStart(c, s.currentPeriod), now);
      && (elapsed >= ComparedDuration(c, s.currentPeriod) ==> s.change.timeLeft == 0)
      && (elapsed < ComparedDuration(c, s.currentPeriod) ==> s.change.timeLeft == SubtractedDuration(c, s.currentPeriod) - elapsed)
  {
  }

  /** With equal transition durations `d` (the shipped default is one minute
      each) the remaining time is what is left of a transition of length `d`
      that began when the current period did: never negative, at most d + 1,
      and positive exactly while that transition is under way. */
  lemma {:induction false} TimeLeftWithEqualDurations(c: ScheduleConfig, now: int)
    requires IsTimeOfDay(c.daytime) && IsTimeOfDay(c.nighttime) && IsTimeOfDay(now)
    requires c.nightToDayTransitionDuration == c.dayToNightTransitionDuration >= 0
    ensures var s := ComputeSchedule(c, now);
      var elapsed := TimeSincePeriodStarted(PeriodStart(c, s.currentPeriod), now);
      && 0 <= s.change.timeLeft <= c.dayToNightTransitionDuration + 1
      && (s.change.timeLeft > 0 <==> elapsed < c.dayToNightTransitionDuration)
      && (elapsed >= 0 ==> ClockAfter(PeriodStart(c, s.currentPeriod), elapsed) == now)
  {
    var s := ComputeSchedule(c, now);
    ElapsedIsClockDistance(PeriodStart(c, s.currentPeriod), now);
  }

  /** With unequal durations the crossed fields show: five minutes into the
      night, with a ten-minute night-to-day and a one-minute day-to-night
      duration, the scheduler asks for a transition of -4 minutes. */
  lemma CrossedDurationsGiveNegativeTimeLeft()
    ensures ComputeSchedule(ScheduleConfig(25_200_000, 64_800_000, 50, 90, 600_000, 60_000), 65_100_000)
      == Schedule(Night, ScheduledChange(50, -240_000), 46_500_001)
  {
  }

  /** The re-armed one-shot interval is a valid timer interval of at most a
      day, and it expires 1 ms after the clock reaches the next boundary. */
  lemma {:induction false} TimerFiresJustAfterBoundary(c: ScheduleConfig, now: int)
    requires IsTimeOfDay(c.daytime) && IsTimeOfDay(c.nighttime) && IsTimeOfDay(now)
    ensures var s := ComputeSchedule(c, now);
      && 1 <= s.timerInterval <= MsPerDay
      && (ClockAfter(now, s.timerInterval - 1) == c.daytime || ClockAfter(now, s.timerInterval - 1) == c.nighttime)
  {
    NextBoundaryIsNearest(c.daytime, c.nighttime, now);
  }

  /** `System.Timers.Timer` as the scheduler uses it (`AutoReset = false`). */
  datatype OneShotTimer = OneShotTimer(interval: int, enabled: bool)


  class BrightnessScheduler {
    var daytime: int
    var nighttime: int
    var currentTimePeriod: TimePeriod
    var nightBrightness: uint32
    var dayBrightness: uint32
    var nightToDayTransitionDuration: int
    var dayToNightTransitionDuration: int
    var scheduleTimer: OneShotTimer
    /** Every `OnBrightnessChange` event raised so far, oldest first. The
        first one, raised by the constructor, reaches no listener in the
        application: the view-model subscribes only after construction. */
    var brightnessChanges: seq<ScheduledChange>

    function Config(): ScheduleConfig
      reads this
    {
      ScheduleConfig(daytime, nighttime, nightBrightness, dayBrightness,
                     nightToDayTransitionDuration, dayToNightTransitionDuration)
    }

    /** The period and the armed timer agree with the configuration at `now`. */
    ghost predicate ScheduledAt(now: int)
      reads this
    {
      var s := ComputeSchedule(Config(), now);
      currentTimePeriod == s.currentPeriod && scheduleTimer == OneShotTimer(s.timerInterval, true)
    }

    /** Stores the configuration, starts in period `None` with an idle timer,
        and computes the first schedule. */
    constructor (daytime: int, nighttime: int, nightBrightness: uint32, dayBrightness: uint32,
                 dayToNightTransitionDuration: int, nightToDayTransitionDuration: int, now: int)
      ensures Config() == ScheduleConfig(daytime, nighttime, nightBrightness, dayBrightness,
                                         nightToDayTransitionDuration, dayToNightTransitionDuration)
      ensures currentTimePeriod != None && ScheduledAt(now)
      ensures brightnessChanges == [ComputeSchedule(Config(), now).change]
    {
      this.daytime := daytime;
      this.nighttime := nighttime;
      this.nightBrightness := nightBrightness;
      this.dayBrightness := dayBrightness;
      this.nightToDayTransitionDuration := nightToDayTransitionDuration;
      this.dayToNightTransitionDuration := dayToNightTransitionDuration;
      currentTimePeriod := None;
      scheduleTimer := OneShotTimer(DefaultTimerInterval, false);
      brightnessChanges := [];
      new;
      ScheduleNextBrightnessChange(now);
    }

    /** `TimeToNextPeriod`: a query that changes nothing. */
    method TimeToNextPeriod(now: int) returns (timeToNextPeriod: int)
      ensures timeToNextPeriod == CalculateFollowingPeriod(daytime, nighttime, now).timeToPeriod
      ensures IsTimeOfDay(daytime) && IsTimeOfDay(nighttime) && IsTimeOfDay(now)
        ==> 0 <= timeToNextPeriod < MsPerDay
    {
      var following := CalculateFollowingPeriod(daytime, nighttime, now);
      timeToNextPeriod := following.timeToPeriod;
      if IsTimeOfDay(daytime) && IsTimeOfDay(nighttime) && IsTimeOfDay(now) {
        NextBoundaryIsNearest(daytime, nighttime, now);
      }
    }

    /** `_ScheduleNextBrightnessChange`: stop the timer, decide the period and
        raise the event, re-arm the timer for 1 ms past the next boundary and
        start it. */
    method ScheduleNextBrightnessChange(now: int)
      modifies this`currentTimePeriod, this`scheduleTimer, this`brightnessChanges
      ensures currentTimePeriod != None && ScheduledAt(now)
      ensures brightnessChanges == old(brightnessChanges) + [ComputeSchedule(Config(), now).change]
    {
      scheduleTimer := scheduleTimer.(enabled := false);
      var following := CalculateFollowingPeriod(daytime, nighttime, now);
      if following.period == Day {
        currentTimePeriod := Night;
        var timeSincePeriodStarted := now - nighttime;
        if timeSincePeriodStarted < -1 {
          timeSincePeriodStarted := timeSincePeriodStarted + MsPerDay;
        }
        if timeSincePeriodStarted < nightToDayTransitionDuration {
          brightnessChanges := brightnessChanges + [ScheduledChange(nightBrightness, dayToNightTransitionDuration - timeSincePeriodStarted)];
        } else {
          brightnessChanges := brightnessChanges + [ScheduledChange(nightBrightness, 0)];
        }
        scheduleTimer := scheduleTimer.(interval := following.timeToPeriod + 1);
      } else {
        currentTimePeriod := Day;
        var timeSincePeriodStarted := now - daytime;
        if timeSincePeriodStarted < -1 {
          timeSincePeriodStarted := timeSincePeriodStarted + MsPerDay;
        }
        if timeSincePeriodStarted < dayToNightTransitionDuration {
          brightnessChanges := brightnessChanges + [ScheduledChange(dayBrightness, nightToDayTransitionDuration - timeSincePeriodStarted)];
        } else {
          brightnessChanges := brightnessChanges + [ScheduledChange(dayBrightness, 0)];
        }
        scheduleTimer := scheduleTimer.(interval := following.timeToPeriod + 1);
      }
      scheduleTimer := scheduleTimer.(enabled := true);
    }

    /** The one-shot timer expires: it stops itself and reschedules. */
    method OnTimerElapsed(now: int)
      requires scheduleTimer.enabled
      modifies this`currentTimePeriod, this`scheduleTimer, this`brightnessChanges
      ensures currentTimePeriod != None && ScheduledAt(now)
      ensures brightnessChanges == old(brightnessChanges) + [ComputeSchedule(Config(), now).change]
    {
      scheduleTimer := scheduleTimer.(enabled := false);
      ScheduleNextBrightnessChange(now);
    }

    /** The six setters: store the value, then reschedule. */
    method SetNightBrightness(value: uint32, now: int)
      modifies this
      ensures Config() == old(Config()).(nightBrightness := value)
      ensures currentTimePeriod != None && ScheduledAt(now)
      ensures brightnessChanges == old(brightnessChanges) + [ComputeSchedule(Config(), now).change]
    {
      nightBrightness := value;
      ScheduleNextBrightnessChange(now);
    }

    method SetDayBrightness(value: uint32, now: int)
      modifies this
      ensures Config() == old(Config()).(dayBrightness := value)
      ensures currentTimePeriod != None && ScheduledAt(now)
      ensures brightnessChanges == old(brightnessChanges) + [ComputeSchedule(Config(), now).change]
    {
      dayBrightness := value;
      ScheduleNextBrightnessChange(now);
    }

    method SetDaytime(value: int, now: int)
      modifies this
      ensures Config() == old(Config()).(daytime := value)
      ensures currentTimePeriod != None && ScheduledAt(now)
      ensures brightnessChanges == old(brightnessChanges) + [ComputeSchedule(Config(), now).change]
    {
      daytime := value;
      ScheduleNextBrightnessChange(now);
    }

    method SetNighttime(value: int, now: int)
      modifies this
      ensures Config() == old(Config()).(nighttime := value)
      ensures currentTimePeriod != None && ScheduledAt(now)
      ensures brightnessChanges == old(brightnessChanges) + [ComputeSchedule(Config(), now).change]
    {
      nighttime := value;
      ScheduleNextBrightnessChange(now);
    }

    method SetNightToDayTransitionDuration(value: int, now: int)
      modifies this
      ensures Config() == old(Config()).(nightToDayTransitionDuration := value)
      ensures currentTimePeriod != None && ScheduledAt(now)
      ensures brightnessChanges == old(brightnessChanges) + [ComputeSchedule(Config(), now).change]
    {
      nightToDayTransitionDuration := value;
      ScheduleNextBrightnessChange(now);
    }

    method SetDayToNightTransitionDuration(value: int, now: int)
      modifies this
      ensures Config() == old(Config()).(dayToNightTransitionDuration := value)
      ensures currentTimePeriod != None && ScheduledAt(now)
      ensures brightnessChanges == old(brightnessChanges) + [ComputeSchedule(Config(), now).change]
    {
      dayToNightTransitionDuration := value;
      ScheduleNextBrightnessChange(now);
    }
  }
}

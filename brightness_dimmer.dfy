/** The dimmer of Unblind/BrightnessDimmer.cs: moves the brightness one unit
    per timer tick from a start value to a target and stops on arrival. The
    repeating timer is a field holding its interval and whether it runs; its
    ticks are calls of `Tick`. Each value is submitted to the display
    controller it is given. */
module Dimming {
  import opened Common
  import opened MathHelpers
  import opened DisplayControl

  datatype DimmerStatus = Idle | Dimming | Brightening

  /** The arguments of one `OnBrightnessChange` event. */
  datatype BrightnessChange = BrightnessChange(newBrightness: uint32, delta: int)

  /** `System.Timers.Timer` as the dimmer uses it (`AutoReset = true`). */
  datatype RepeatingTimer = RepeatingTimer(interval: real, enabled: bool)

  /** The dimmer's brightness values, its status, and whether its timer runs. */
  datatype DimmerState = DimmerState(current: uint32, target: uint32, status: DimmerStatus, running: bool)

  /** The dimmer's invariant: the timer runs exactly while the status is not
      Idle, and while it runs the target is still ahead, on the side the
      status names. The tick relies on this, since it moves up when the
      two values are equal. */
  predicate Consistent(s: DimmerState) {
    && (s.running <==> s.status != Idle)
    && (s.running ==> s.current != s.target && (s.status == Brightening <==> s.current < s.target))
  }

  /** The direction of a tick: down when above the target, otherwise up. */
  function TickDirection(s: DimmerState): int {
    if s.current > s.target then -1 else 1
  }

  /** The timer lambda on the state: one unit in the tick direction, and
      stop with status Idle on reaching the target. */
  function TickStep(s: DimmerState): (t: DimmerState)
    requires Consistent(s) && s.running
    ensures Consistent(t) && t.target == s.target
    ensures Distance(t.current, t.target) + 1 == Distance(s.current, s.target)
    ensures t.current == s.current + TickDirection(s)
    ensures !t.running <==> t.current == t.target
  {
    var next := if TickDirection(s) == 1 then s.current + 1 else s.current - 1;
    if next == s.target then DimmerState(next, s.target, Idle, false)
    else s.(current := next)
  }

  /** Up to `k` ticks; ticks stop once the timer is stopped. */
  function Ticks(s: DimmerState, k: nat): (t: DimmerState)
    requires Consistent(s)
    ensures Consistent(t)
    decreases k
  {
    if k == 0 || !s.running then s else Ticks(TickStep(s), k - 1)
  }

  /** `current` moved `k` units toward `target`. */
  function MovedToward(current: int, target: int, k: nat): int {
    if current < target then current + k else current - k
  }

  /** Convergence without overshoot: from a running state `n` units away
      from the target, the first `k <= n` ticks move the brightness exactly
      `k` units toward it, the timer keeps running before the `n`-th tick,
      and the `n`-th tick lands on the target and stops with status Idle. */
  lemma {:induction false} TicksConverge(s: DimmerState, k: nat)
    requires Consistent(s) && s.running
    requires k <= Distance(s.current, s.target)
    ensures var t := Ticks(s, k);
      && t.target == s.target
      && t.current == MovedToward(s.current, s.target, k)
      && (t.running <==> k < Distance(s.current, s.target))
      && (!t.running ==> t.current == t.target && t.status == Idle)
    decreases k
  {
    if k > 0 {
      var next := TickStep(s);
      if next.running {
        TicksConverge(next, k - 1);
      }
    }
  }

  /** Once the target is reached further timer events change nothing. */
  lemma {:induction false} TicksStopAtTarget(s: DimmerState, extra: nat)
    requires Consistent(s) && s.running
    ensures Ticks(s, Distance(s.current, s.target) + extra) == Ticks(s, Distance(s.current, s.target))
    decreases Distance(s.current, s.target)
  {
    var next := TickStep(s);
    if next.running {
      TicksStopAtTarget(next, extra);
    }
  }

  /** The state `AdjustBrightness` leaves: unchanged on the immediate path
      (the status is not reset there), otherwise the new values, running,
      Brightening when going up and Dimming when going down. */
  function Adjusted(s: DimmerState, start: uint32, target: uint32, duration: int): DimmerState {
    if start == target || duration <= 0 then s
    else DimmerState(start, target, if start < target then Brightening else Dimming, true)
  }

  /** The state `Stop` leaves. */
  function Stopped(s: DimmerState): DimmerState {
    s.(status := Idle, running := false)
  }

  /** An adjustment that arms the timer reaches its target after exactly
      |start - target| ticks, moving one unit toward it on each, and stops
      there; an immediate adjustment leaves the dimmer's state as it was. */
  lemma {:induction false} AdjustmentReachesTarget(s: DimmerState, start: uint32, target: uint32, duration: int)
    requires Consistent(s)
    ensures Consistent(Adjusted(s, start, target, duration))
    ensures start == target || duration <= 0 ==> Adjusted(s, start, target, duration) == s
    ensures start != target && duration > 0 ==>
      var a := Adjusted(s, start, target, duration);
      && Ticks(a, Distance(start, target)) == DimmerState(target, target, Idle, false)
      && (forall k: nat :: k < Distance(start, target) ==>
            Ticks(a, k).running && Ticks(a, k).current == MovedToward(start, target, k))
  {
    if start != target && duration > 0 {
      var a := Adjusted(s, start, target, duration);
      TicksConverge(a, Distance(start, target));
      forall k: nat | k < Distance(start, target)
        ensures Ticks(a, k).running && Ticks(a, k).current == MovedToward(start, target, k)
      {
        TicksConverge(a, k);
      }
    }
  }

  /** The queue after `SetDisplayBrightness`: every attached display in list
      order, then the integrated display. */
  function SubmittedToAll(controller: DisplayController, q: seq<DisplayChange>, brightness: uint32): seq<DisplayChange>
    reads controller, controller.attachedDisplays
  {
    IntegratedSubmission(SubmitToAttached(q, controller.attachedDisplays, brightness), brightness, controller.wmiControlsPresent)
  }


  class BrightnessDimmer {
    /** The display controller the values go to (a singleton in the source). */
    const controller: DisplayController
    var status: DimmerStatus
    var dimmerTimer: RepeatingTimer
    var currentBrightness: uint32
    var targetBrightness: uint32
    /** Every `OnBrightnessChange` event raised so far, oldest first. */
    var brightnessChanges: seq<BrightnessChange>

    function State(): DimmerState
      reads this
    {
      DimmerState(currentBrightness, targetBrightness, status, dimmerTimer.enabled)
    }

    ghost predicate Valid()
      reads this, controller
    {
      Consistent(State()) && controller.Valid()
    }

    /** A new dimmer is Idle at brightness 0 with target 0 and a stopped timer. */
    constructor (controller: DisplayController)
      requires controller.Valid()
      ensures Valid() && this.controller == controller
      ensures State() == DimmerState(0, 0, Idle, false)
      ensures dimmerTimer.interval == DefaultTimerInterval as real && brightnessChanges == []
    {
      this.controller := controller;
      dimmerTimer := RepeatingTimer(DefaultTimerInterval as real, false);
      status := Idle;
      currentBrightness := 0;
      targetBrightness := 0;
      brightnessChanges := [];
    }

    /** `SetDisplayBrightness`: the value goes to every valid attached
        display in list order, invalid ones skipped, then to the integrated
        display. */
    method SetDisplayBrightness(brightness: uint32)
      requires controller.Valid()
      modifies controller`queue
      ensures controller.Valid()
      ensures controller.queue == SubmittedToAll(controller, old(controller.queue), brightness)
    {
      var displays := controller.attachedDisplays;
      var i := 0;
      while i < |displays|
        invariant 0 <= i <= |displays|
        invariant controller.Valid()
        invariant controller.queue == SubmitToAttached(old(controller.queue), displays[..i], brightness)
      {
        var display := displays[i];
        if display.isValid {
          controller.SetAttachedDisplayBrightness(display, brightness);
        }
        assert displays[..i + 1][..i] == displays[..i];
        i := i + 1;
      }
      assert displays[..i] == displays;
      controller.SetIntegratedDisplayBrightness(brightness);
    }

    /** `AdjustBrightness`. Equal values or a non-positive duration: submit
        the target once and report its difference from the start, touching
        neither the values, the status nor the timer. Otherwise: stop the
        timer, take the new values, set the step interval to one unit of
        brightness per `duration / |start - target|` ms, start the timer and
        set the status from the direction. The interval times the number of
        ticks `AdjustmentReachesTarget` counts is the requested duration. */
    method AdjustBrightness(startBrightness: uint32, targetBrightness: uint32, duration: int)
      requires Valid()
      modifies this, controller`queue
      ensures Valid()
      ensures State() == Adjusted(old(State()), startBrightness, targetBrightness, duration)
      ensures startBrightness == targetBrightness || duration <= 0 ==>
        && controller.queue == SubmittedToAll(controller, old(controller.queue), targetBrightness)
        && brightnessChanges == old(brightnessChanges) + [BrightnessChange(targetBrightness, targetBrightness - startBrightness)]
        && dimmerTimer == old(dimmerTimer)
      ensures startBrightness != targetBrightness && duration > 0 ==>
        && controller.queue == old(controller.queue)
        && brightnessChanges == old(brightnessChanges)
        && dimmerTimer == RepeatingTimer(duration as real / Distance(startBrightness, targetBrightness) as real, true)
      ensures startBrightness != targetBrightness && duration > 0 ==>
        dimmerTimer.interval * Distance(startBrightness, targetBrightness) as real == duration as real
    {
      if startBrightness == targetBrightness || duration <= 0 {
        SetDisplayBrightness(targetBrightness);
        brightnessChanges := brightnessChanges + [BrightnessChange(targetBrightness, targetBrightness - startBrightness)];
        return;
      }
      dimmerTimer := dimmerTimer.(enabled := false);
      currentBrightness := startBrightness;
      this.targetBrightness := targetBrightness;
      dimmerTimer := dimmerTimer.(interval := duration as real / Distance(startBrightness, targetBrightness) as real);
      dimmerTimer := dimmerTimer.(enabled := true);
      status := if startBrightness < targetBrightness then Brightening else Dimming;
    }

    /** The timer lambda: one unit toward the target, submit the value,
        report it with its +1/-1 delta, and stop on reaching the target. */
    method Tick()
      requires Valid() && dimmerTimer.enabled
      modifies this, controller`queue
      ensures Valid()
      ensures State() == TickStep(old(State()))
      ensures dimmerTimer.interval == old(dimmerTimer.interval)
      ensures controller.queue == SubmittedToAll(controller, old(controller.queue), currentBrightness)
      ensures brightnessChanges == old(brightnessChanges) + [BrightnessChange(currentBrightness, TickDirection(old(State())))]
    {
      var brightnessChange := if currentBrightness > targetBrightness then -1 else 1;
      currentBrightness := if brightnessChange == 1 then currentBrightness + 1 else currentBrightness - 1;
      SetDisplayBrightness(currentBrightness);
      brightnessChanges := brightnessChanges + [BrightnessChange(currentBrightness, brightnessChange)];
      if currentBrightness == targetBrightness {
        Stop();
      }
    }

    /** `Stop`: halt the timer and go Idle; the values stay. */
    method Stop()
      modifies this`dimmerTimer, this`status
      ensures State() == Stopped(old(State()))
      ensures dimmerTimer.interval == old(dimmerTimer.interval)
    {
      dimmerTimer := dimmerTimer.(enabled := false);
      status := Idle;
    }
  }
}

/** The device-change queue of Unblind/DataAccess/DisplayController.cs.
    Brightness submissions are coalesced into a list holding at most one
    pending change per target (an attached display, identified by its
    physical monitor handle, or the integrated display); a worker drains the
    list from the head and calls the hardware. The hardware is represented by
    the replies it gives (`BackendReplies`, passed in) and by the trace of
    calls made to it (`hardwareCalls`). */
module DisplayControl {
  import opened Common
  import MathHelpers

  /** `MC_CAPS_BRIGHTNESS`, the capability bit for brightness control. */
  const MC_CAPS_BRIGHTNESS: bv32 := 0x2

  /** An attached physical display. Everything but its validity and last
      known brightness is fixed when it is created. */
  class Display {
    const id: uint32
    /** `Handle.hPhysicalMonitor`, the identity the queue coalesces on. */
    const handle: int
    const minBrightness: uint32
    const maxBrightness: uint32
    const capabilityFlags: bv32
    const colorTemperatureFlags: bv32
    var currentBrightness: uint32
    /** Cleared when a refresh replaces the display list. */
    var isValid: bool

    constructor (id: uint32, handle: int, minBrightness: uint32, maxBrightness: uint32,
                 currentBrightness: uint32, capabilityFlags: bv32, colorTemperatureFlags: bv32)
      ensures this.id == id && this.handle == handle
      ensures this.minBrightness == minBrightness && this.maxBrightness == maxBrightness
      ensures this.currentBrightness == currentBrightness
      ensures this.capabilityFlags == capabilityFlags && this.colorTemperatureFlags == colorTemperatureFlags
      ensures isValid
    {
      this.id := id;
      this.handle := handle;
      this.minBrightness := minBrightness;
      this.maxBrightness := maxBrightness;
      this.currentBrightness := currentBrightness;
      this.capabilityFlags := capabilityFlags;
      this.colorTemperatureFlags := colorTemperatureFlags;
      isValid := true;
    }

    /** `SupportsBrightness`: bit 1 (value 2) of the capability flags is set. */
    predicate SupportsBrightness()
      ensures SupportsBrightness() <==> ((capabilityFlags >> 1) & 1) == 1
    {
      (capabilityFlags & MC_CAPS_BRIGHTNESS) != 0
    }
  }

  /** One pending change (`BrightnessDisplayChange`); a null target stands
      for the integrated display. */
  datatype DisplayChange = DisplayChange(targetDisplay: Display?, brightness: uint32)

  /** What a change is coalesced on. */
  datatype Target = Integrated | Attached(handle: int)

  function TargetOf(c: DisplayChange): Target {
    if c.targetDisplay == null then Integrated else Attached(c.targetDisplay.handle)
  }

  predicate HasEntryFor(q: seq<DisplayChange>, t: Target) {
    exists i :: 0 <= i < |q| && TargetOf(q[i]) == t
  }

  /** The queue invariant: no two pending changes for one target. */
  predicate AtMostOnePerTarget(q: seq<DisplayChange>) {
    forall i, j :: 0 <= i < j < |q| ==> TargetOf(q[i]) != TargetOf(q[j])
  }

  /** The submission loop of both setters: every entry for the change's
      target is overwritten in place; with no such entry the change is
      appended. */
  function Coalesce(q: seq<DisplayChange>, c: DisplayChange): (r: seq<DisplayChange>)
    ensures HasEntryFor(q, TargetOf(c)) ==> |r| == |q|
    ensures !HasEntryFor(q, TargetOf(c)) ==> r == q + [c]
    ensures forall i :: 0 <= i < |q| ==> r[i] == if TargetOf(q[i]) == TargetOf(c) then c else q[i]
  {
    if HasEntryFor(q, TargetOf(c)) then
      seq(|q|, i requires 0 <= i < |q| => if TargetOf(q[i]) == TargetOf(c) then c else q[i])
    else
      q + [c]
  }

  /** Coalescing keeps at most one entry per target, and afterwards the
      submitted change is the one and only entry for its target. */
  lemma {:induction false} CoalesceKeepsOnePerTarget(q: seq<DisplayChange>, c: DisplayChange)
    requires AtMostOnePerTarget(q)
    ensures var r := Coalesce(q, c);
      && AtMostOnePerTarget(r)
      && HasEntryFor(r, TargetOf(c))
      && (forall i :: 0 <= i < |r| && TargetOf(r[i]) == TargetOf(c) ==> r[i] == c)
  {
    var r := Coalesce(q, c);
    if HasEntryFor(q, TargetOf(c)) {
      var k :| 0 <= k < |q| && TargetOf(q[k]) == TargetOf(c);
      assert r[k] == c;
    } else {
      assert r[|q|] == c;
    }
  }

  /** A newer submission for the same target supersedes the older one: the
      queue looks as if only the newer one had been made. */
  lemma {:induction false} CoalesceSupersedes(q: seq<DisplayChange>, older: DisplayChange, newer: DisplayChange)
    requires TargetOf(older) == TargetOf(newer)
    ensures Coalesce(Coalesce(q, older), newer) == Coalesce(q, newer)
  {
    var once := Coalesce(q, older);
    if HasEntryFor(q, TargetOf(older)) {
      assert HasEntryFor(once, TargetOf(newer));
    } else {
      assert TargetOf(once[|q|]) == TargetOf(newer);
      assert HasEntryFor(once, TargetOf(newer));
    }
  }

  /** A sequence of submissions applied in order. */
  function SubmitAll(q: seq<DisplayChange>, submissions: seq<DisplayChange>): seq<DisplayChange>
    decreases |submissions|
  {
    if submissions == [] then q
    else Coalesce(SubmitAll(q, submissions[..|submissions| - 1]), submissions[|submissions| - 1])
  }

  /** The most recent submission for a target, if any. */
  function LatestFor(submissions: seq<DisplayChange>, t: Target): Option<DisplayChange>
    decreases |submissions|
  {
    if submissions == [] then Nothing
    else if TargetOf(submissions[|submissions| - 1]) == t then Some(submissions[|submissions| - 1])
    else LatestFor(submissions[..|submissions| - 1], t)
  }

  /** Starting from an empty queue, whatever was submitted, the queue holds
      one entry per target submitted to, and that entry is the freshest
      submission for its target: nothing stale is ever left to drain. */
  lemma {:induction false} QueueHoldsFreshest(submissions: seq<DisplayChange>)
    ensures var r := SubmitAll([], submissions);
      && AtMostOnePerTarget(r)
      && (forall i :: 0 <= i < |r| ==> LatestFor(submissions, TargetOf(r[i])) == Some(r[i]))
      && (forall j :: 0 <= j < |submissions| ==> HasEntryFor(r, TargetOf(submissions[j])))
    decreases |submissions|
  {
    if submissions != [] {
      var n := |submissions| - 1;
      var earlier := submissions[..n];
      var c := submissions[n];
      QueueHoldsFreshest(earlier);
      var q := SubmitAll([], earlier);
      var r := Coalesce(q, c);
      assert r == SubmitAll([], submissions);
      CoalesceKeepsOnePerTarget(q, c);
      forall i | 0 <= i < |r|
        ensures LatestFor(submissions, TargetOf(r[i])) == Some(r[i])
      {
        if TargetOf(r[i]) != TargetOf(c) {
          assert i < |q| && r[i] == q[i];
        }
      }
      forall j | 0 <= j < |submissions|
        ensures HasEntryFor(r, TargetOf(submissions[j]))
      {
        if j < n {
          assert submissions[j] == earlier[j];
          var k :| 0 <= k < |q| && TargetOf(q[k]) == TargetOf(earlier[j]);
          assert TargetOf(r[k]) == TargetOf(q[k]);
        }
      }
    }
  }

  /** `_SetDisplayBrightness` clamps nothing itself: the value was clamped
      when the change was queued. */
  function Clamped(d: Display, brightness: uint32): uint32 {
    MathHelpers.ClampValue(brightness, d.minBrightness, d.maxBrightness)
  }

  /** A display whose range is well formed receives a value inside it;
      20..80 turns 5 into 20 and 95 into 80. */
  lemma ClampedIntoDisplayRange(d: Display, brightness: uint32)
    requires d.minBrightness <= d.maxBrightness
    ensures d.minBrightness <= Clamped(d, brightness) <= d.maxBrightness
    ensures d.minBrightness <= brightness <= d.maxBrightness ==> Clamped(d, brightness) == brightness
  {
    MathHelpers.ClampInRange(brightness, d.minBrightness, d.maxBrightness);
  }

  /** What `SetAttachedDisplayBrightness` does to the queue for a non-null
      display. */
  function AttachedSubmission(q: seq<DisplayChange>, d: Display, brightness: uint32): seq<DisplayChange>
    reads d
  {
    if d.isValid then Coalesce(q, DisplayChange(d, Clamped(d, brightness))) else q
  }

  /** Submitting one value to each display of a list, in list order. */
  function SubmitToAttached(q: seq<DisplayChange>, displays: seq<Display>, brightness: uint32): seq<DisplayChange>
    reads displays
    decreases |displays|
  {
    if displays == [] then q
    else AttachedSubmission(SubmitToAttached(q, displays[..|displays| - 1], brightness), displays[|displays| - 1], brightness)
  }

  /** What `SetIntegratedDisplayBrightness` does to the queue. */
  function IntegratedSubmission(q: seq<DisplayChange>, brightness: uint32, wmiControlsPresent: bool): seq<DisplayChange> {
    if wmiControlsPresent then Coalesce(q, DisplayChange(null, brightness)) else q
  }

  /** One call into the hardware backend, with the reply it got. */
  datatype HardwareCall =
    | SetMonitorBrightness(handle: int, brightness: uint32, succeeded: bool)
    | WmiSetBrightness(brightness: uint32)

  /** The replies the hardware gives to the next attempts at setting a
      monitor's brightness, and the error code it reports on failure. */
  datatype BackendReplies = BackendReplies(firstSucceeds: bool, retrySucceeds: bool, lastError: int)

  /** The calls `_SetDisplayBrightness` makes: at most two, the second only
      after the first fails, both with the same handle and value. */
  function RetryCalls(handle: int, brightness: uint32, replies: BackendReplies): (calls: seq<HardwareCall>)
    ensures 1 <= |calls| <= 2
    ensures forall k :: 0 <= k < |calls| ==> calls[k].SetMonitorBrightness? && calls[k].handle == handle && calls[k].brightness == brightness
    ensures calls[0].succeeded == replies.firstSucceeds
    ensures |calls| == 2 <==> !replies.firstSucceeds
    ensures |calls| == 2 ==> calls[1].succeeded == replies.retrySucceeds
  {
    if replies.firstSucceeds then [SetMonitorBrightness(handle, brightness, true)]
    else [SetMonitorBrightness(handle, brightness, false), SetMonitorBrightness(handle, brightness, replies.retrySucceeds)]
  }

  /** The hardware calls the worker makes for one dequeued change. */
  function Dispatch(c: DisplayChange, replies: BackendReplies, wmiSetterPresent: bool): seq<HardwareCall> {
    if c.targetDisplay != null then RetryCalls(c.targetDisplay.handle, c.brightness, replies)
    else if wmiSetterPresent then [WmiSetBrightness(c.brightness)]
    else []
  }

  /** The hardware calls for a whole queue drained head first; the `k`-th
      change gets the replies `replies(k)`. */
  function DispatchAll(q: seq<DisplayChange>, replies: nat -> BackendReplies, wmiSetterPresent: bool): seq<HardwareCall>
    decreases |q|
  {
    if q == [] then []
    else DispatchAll(q[..|q| - 1], replies, wmiSetterPresent) + Dispatch(q[|q| - 1], replies(|q| - 1), wmiSetterPresent)
  }

  /** Two submissions for one display before the worker runs end in exactly
      one hardware call, with the later value clamped to the display's range,
      when the hardware accepts it at once. */
  lemma {:induction false} SecondSubmissionWins(d: Display, first: uint32, second: uint32, replies: nat -> BackendReplies)
    requires d.isValid && replies(0).firstSucceeds
    ensures var q := AttachedSubmission(AttachedSubmission([], d, first), d, second);
      DispatchAll(q, replies, false) == [SetMonitorBrightness(d.handle, Clamped(d, second), true)]
  {
    var older := DisplayChange(d, Clamped(d, first));
    var newer := DisplayChange(d, Clamped(d, second));
    CoalesceSupersedes([], older, newer);
    var q := Coalesce([], newer);
    assert q == [newer];
    assert q[..0] == [];
  }

  /** The three brightness values `_QueryMonitorBrightnessInfo` reports. */
  datatype BrightnessInfo = BrightnessInfo(min: uint32, max: uint32, current: uint32)

  class DisplayController {
    var attachedDisplays: seq<Display>
    /** `m_wmiBrightnessControls != null`. */
    const wmiControlsPresent: bool
    /** `m_wmiBrightnessSetter != null`. */
    const wmiSetterPresent: bool
    const integratedDisplaySupported: bool
    /** `m_displayChangeQueue`, head first. */
    var queue: seq<DisplayChange>
    /** Every call made to the hardware backend so far, oldest first. */
    var hardwareCalls: seq<HardwareCall>

    ghost predicate Valid()
      reads this
    {
      AtMostOnePerTarget(queue)
    }

    /** An empty controller; `wmiAvailable` is whether the WMI brightness
        objects could be obtained (both are, or neither). The display list is
        filled in by `Refresh`. */
    constructor (wmiAvailable: bool)
      ensures Valid()
      ensures attachedDisplays == [] && queue == [] && hardwareCalls == []
      ensures wmiControlsPresent == wmiAvailable && wmiSetterPresent == wmiAvailable
      ensures integratedDisplaySupported == wmiAvailable
    {
      attachedDisplays := [];
      wmiControlsPresent := wmiAvailable;
      wmiSetterPresent := wmiAvailable;
      integratedDisplaySupported := wmiAvailable;
      queue := [];
      hardwareCalls := [];
    }

    /** The body of the two submission loops, under the queue lock. */
    method Enqueue(change: DisplayChange)
      requires Valid()
      modifies this`queue
      ensures Valid()
      ensures queue == Coalesce(old(queue), change)
    {
      ghost var q0 := queue;
      var replaced := false;
      var i := 0;
      while i < |queue|
        invariant 0 <= i <= |queue| == |q0|
        invariant forall k :: 0 <= k < i ==> queue[k] == if TargetOf(q0[k]) == TargetOf(change) then change else q0[k]
        invariant forall k :: i <= k < |queue| ==> queue[k] == q0[k]
        invariant replaced <==> exists k :: 0 <= k < i && TargetOf(q0[k]) == TargetOf(change)
      {
        if TargetOf(queue[i]) == TargetOf(change) {
          queue := queue[i := change];
          replaced := true;
        }
        i := i + 1;
      }
      if !replaced {
        queue := queue + [change];
      }
      assert queue == Coalesce(q0, change);
      CoalesceKeepsOnePerTarget(q0, change);
    }

    /** `SetAttachedDisplayBrightness`: ignores a null or invalidated
        display, otherwise queues the value clamped to the display's range. */
    method SetAttachedDisplayBrightness(display: Display?, brightness: uint32)
      requires Valid()
      modifies this`queue
      ensures Valid()
      ensures display == null ==> queue == old(queue)
      ensures display != null ==> queue == AttachedSubmission(old(queue), display, brightness)
    {
      if display == null {
        return;
      }
      if !display.isValid {
        return;
      }
      var clamped := MathHelpers.ClampValue(brightness, display.minBrightness, display.maxBrightness);
      Enqueue(DisplayChange(display, clamped));
    }

    /** `SetIntegratedDisplayBrightness`: nothing without the WMI controls,
        otherwise queues the value for the integrated display, unclamped. */
    method SetIntegratedDisplayBrightness(brightness: uint32)
      requires Valid()
      modifies this`queue
      ensures Valid()
      ensures queue == IntegratedSubmission(old(queue), brightness, wmiControlsPresent)
    {
      if !wmiControlsPresent {
        return;
      }
      Enqueue(DisplayChange(null, brightness));
    }

    /** `_SetDisplayBrightness`: one retry after a failure; 0 when a call
        succeeded, the reported error code otherwise. */
    method SetDisplayBrightness(handle: int, brightness: uint32, replies: BackendReplies)
      returns (calls: seq<HardwareCall>, error: int)
      ensures calls == RetryCalls(handle, brightness, replies)
      ensures error == if calls[|calls| - 1].succeeded then 0 else replies.lastError
    {
      calls := [SetMonitorBrightness(handle, brightness, replies.firstSucceeds)];
      if !replies.firstSucceeds {
        calls := calls + [SetMonitorBrightness(handle, brightness, replies.retrySucceeds)];
        if !replies.retrySucceeds {
          return calls, replies.lastError;
        }
      }
      return calls, 0;
    }

    /** `_QueryMonitorBrightnessInfo`: the first reply that arrives, after at
        most one retry; zeros when both attempts fail. */
    method QueryMonitorBrightnessInfo(first: Option<BrightnessInfo>, retry: Option<BrightnessInfo>)
      returns (info: BrightnessInfo, attempts: nat)
      ensures first.Some? ==> info == first.value && attempts == 1
      ensures first.Nothing? && retry.Some? ==> info == retry.value && attempts == 2
      ensures first.Nothing? && retry.Nothing? ==> info == BrightnessInfo(0, 0, 0) && attempts == 2
    {
      if first.Some? {
        return first.value, 1;
      }
      if retry.Some? {
        return retry.value, 2;
      }
      return BrightnessInfo(0, 0, 0), 2;
    }

    /** One pass of the worker's inner loop: take the head change off the
        queue and send it to its display, or to the integrated display when
        the WMI setter is there. Nothing happens on an empty queue. */
    method DrainOne(replies: BackendReplies) returns (drained: bool)
      requires Valid()
      modifies this`queue, this`hardwareCalls
      ensures Valid()
      ensures drained <==> old(queue) != []
      ensures drained ==> queue == old(queue)[1..]
      ensures drained ==> hardwareCalls == old(hardwareCalls) + Dispatch(old(queue)[0], replies, wmiSetterPresent)
      ensures !drained ==> queue == old(queue) && hardwareCalls == old(hardwareCalls)
    {
      if queue == [] {
        return false;
      }
      var change := queue[0];
      queue := queue[1..];
      if change.targetDisplay != null {
        var calls, error := SetDisplayBrightness(change.targetDisplay.handle, change.brightness, replies);
        hardwareCalls := hardwareCalls + calls;
      } else if wmiSetterPresent {
        hardwareCalls := hardwareCalls + [WmiSetBrightness(change.brightness)];
      }
      drained := true;
    }

    /** The worker's inner loop after a wake-up: drain until empty, in FIFO
        order; the `k`-th change drained gets the replies `replies(k)`. */
    method ApplyQueuedChanges(replies: nat -> BackendReplies)
      requires Valid()
      modifies this`queue, this`hardwareCalls
      ensures Valid()
      ensures queue == []
      ensures hardwareCalls == old(hardwareCalls) + DispatchAll(old(queue), replies, wmiSetterPresent)
    {
      ghost var q0 := queue;
      var i := 0;
      while |queue| > 0
        invariant Valid()
        invariant 0 <= i <= |q0|
        invariant queue == q0[i..]
        invariant hardwareCalls == old(hardwareCalls) + DispatchAll(q0[..i], replies, wmiSetterPresent)
        decreases |queue|
      {
        var drained := DrainOne(replies(i));
        assert q0[..i + 1][..i] == q0[..i];
        i := i + 1;
      }
      assert q0[..i] == q0;
    }

    /** The invalidation step of `RefreshAsync`: every display held so far
        is marked invalid, then the new list replaces it. */
    method Refresh(displays: seq<Display>)
      modifies this`attachedDisplays, attachedDisplays
      ensures attachedDisplays == displays
      ensures forall d :: d in old(attachedDisplays) ==> !d.isValid
      ensures forall d :: d in old(attachedDisplays) ==> d.currentBrightness == old(d.currentBrightness)
    {
      forall d | d in attachedDisplays {
        d.isValid := false;
      }
      attachedDisplays := displays;
    }
  }

  /** After a refresh, submitting to a display from the old list queues
      nothing. */
  lemma StaleDisplayIgnored(q: seq<DisplayChange>, d: Display, brightness: uint32)
    requires !d.isValid
    ensures AttachedSubmission(q, d, brightness) == q
  {
  }
}

/**
 * The page-leave hook (src/hooks/usePageLeaveDetection.js): once the tracked action has been
 * performed, leaving the page (hiding it, losing focus, or the page being hidden for unload)
 * sends the shopper to `redirectPath`. The listeners share one `timeoutId` slot. Time is
 * milliseconds.
 */
module PageLeaveDetection {
  import opened Wrappers
  import opened Timers

  const DefaultDetectionDelay: nat := 1000

  /** The `detectionDelay = 1000` default parameter. */
  function DetectionDelay(given: Option<nat>): (d: nat)
    ensures given.None? ==> d == DefaultDetectionDelay
    ensures given.Some? ==> d == given.value
  {
    if given.None? then DefaultDetectionDelay else given.value
  }

  datatype LeaveTimer = HiddenRedirect | BlurCheck

  /** The hook's whole state, for stating what each event changes. */
  datatype Leave = Leave(
    actionRef: bool, slot: nat, listening: bool, hidden: bool, focused: bool,
    clock: nat, nextId: nat, timers: seq<Timer<LeaveTimer>>, navigations: seq<string>)

  class PageLeaveHook {
    const redirectPath: string
    const detectionDelay: nat
    /** `actionPerformedRef.current`. */
    var actionRef: bool
    /** `timeoutId`: the handle of the latest timer armed, 0 while it is still undefined. */
    var slot: nat
    var listening: bool
    var hidden: bool
    var focused: bool
    var clock: nat
    var nextId: nat
    var timers: seq<Timer<LeaveTimer>>
    var navigations: seq<string>

    ghost function State(): Leave
      reads this
    {
      Leave(actionRef, slot, listening, hidden, focused, clock, nextId, timers, navigations)
    }

    ghost predicate Valid()
      reads this
    {
      && 1 <= nextId
      && slot < nextId
      && IdsBelow(timers, nextId)
      && NoneDueBefore(timers, clock)
    }

    /** Mounting the hook with its parameters; the action has not been performed yet. */
    constructor (redirectPath: string, delay: Option<nat>)
      ensures Valid()
      ensures this.redirectPath == redirectPath && detectionDelay == DetectionDelay(delay)
      ensures State() == Leave(false, 0, true, false, true, 0, 1, [], [])
    {
      this.redirectPath := redirectPath;
      detectionDelay := DetectionDelay(delay);
      actionRef := false;
      slot := 0;
      listening := true;
      hidden := false;
      focused := true;
      clock := 0;
      nextId := 1;
      timers := [];
      navigations := [];
    }

    /** The host re-renders with a new `actionPerformed` and the ref effect copies it. */
    method ActionChanged(actionPerformed: bool)
      requires Valid()
      modifies this`actionRef
      ensures Valid()
      ensures State() == old(State()).(actionRef := actionPerformed)
    {
      actionRef := actionPerformed;
    }

    /** `resetAction()`. */
    method ResetAction()
      requires Valid()
      modifies this`actionRef
      ensures Valid()
      ensures State() == old(State()).(actionRef := false)
    {
      actionRef := false;
    }

    /** `timeoutId = setTimeout(...)`: the new handle overwrites the slot. */
    method Arm(kind: LeaveTimer, delay: nat)
      requires Valid()
      modifies this`timers, this`nextId, this`slot
      ensures Valid()
      ensures State() == old(State()).(
        timers := old(timers) + [Timer(old(nextId), clock + delay, kind)],
        nextId := old(nextId) + 1, slot := old(nextId))
    {
      timers := timers + [Timer(nextId, clock + delay, kind)];
      slot := nextId;
      nextId := nextId + 1;
    }

    /** `if (timeoutId) clearTimeout(timeoutId)`: the slot keeps the stale handle. */
    method ClearSlot()
      requires Valid()
      modifies this`timers
      ensures Valid()
      ensures State() == old(State()).(timers := if slot != 0 then Cancel(old(timers), slot) else old(timers))
    {
      if slot != 0 {
        timers := Cancel(timers, slot);
      }
    }

    /**
     * `visibilitychange`: hiding with the action performed arms the redirect after
     * `detectionDelay`; becoming visible clears the slot's timer.
     */
    method VisibilityChange(nowHidden: bool)
      requires Valid()
      modifies this
      ensures Valid()
      ensures
        var s := old(State()).(hidden := nowHidden);
        if !old(listening) then State() == s
        else if nowHidden && actionRef then
          State() == s.(timers := old(timers) + [Timer(old(nextId), clock + detectionDelay, HiddenRedirect)],
                        nextId := old(nextId) + 1, slot := old(nextId))
        else if !nowHidden && slot != 0 then State() == s.(timers := Cancel(old(timers), slot))
        else State() == s
    {
      hidden := nowHidden;
      if listening {
        if nowHidden && actionRef {
          Arm(HiddenRedirect, detectionDelay);
        } else if !nowHidden && slot != 0 {
          ClearSlot();
        }
      }
    }

    /** `pagehide`: with the action performed it navigates at once. */
    method PageHide()
      requires Valid()
      modifies this`navigations
      ensures Valid()
      ensures State() == old(State()).(
        navigations := if listening && actionRef then old(navigations) + [redirectPath] else old(navigations))
    {
      if listening && actionRef {
        navigations := navigations + [redirectPath];
      }
    }

    /** `blur`: with the action performed it arms a check after twice the delay. */
    method Blur()
      requires Valid()
      modifies this
      ensures Valid()
      ensures
        var s := old(State()).(focused := false);
        if old(listening) && actionRef then
          State() == s.(timers := old(timers) + [Timer(old(nextId), clock + 2 * detectionDelay, BlurCheck)],
                        nextId := old(nextId) + 1, slot := old(nextId))
        else State() == s
    {
      focused := false;
      if listening && actionRef {
        Arm(BlurCheck, 2 * detectionDelay);
      }
    }

    /** `focus`: clears the slot's timer. */
    method Focus()
      requires Valid()
      modifies this
      ensures Valid()
      ensures
        var s := old(State()).(focused := true);
        if old(listening) && slot != 0 then State() == s.(timers := Cancel(old(timers), slot))
        else State() == s
    {
      focused := true;
      if listening && slot != 0 {
        ClearSlot();
      }
    }

    /** Time moves on to `now` without a timer falling due. */
    method Wait(now: nat)
      requires Valid() && clock <= now && NoneDueBefore(timers, now)
      modifies this`clock
      ensures Valid()
      ensures State() == old(State()).(clock := now)
    {
      clock := now;
    }

    /** The next timer runs: the hidden redirect navigates, the blur check only if still away. */
    method FireTimer(i: int)
      requires Valid() && IsNext(timers, i)
      modifies this
      ensures Valid()
      ensures
        var t := old(timers)[i];
        var s := old(State()).(clock := t.due, timers := RemoveAt(old(timers), i));
        if t.kind == HiddenRedirect || hidden || !focused
        then State() == s.(navigations := old(navigations) + [redirectPath])
        else State() == s
    {
      var t := timers[i];
      clock := t.due;
      timers := RemoveAt(timers, i);
      if t.kind == HiddenRedirect || hidden || !focused {
        navigations := navigations + [redirectPath];
      }
    }

    /** The effect's cleanup: clear the slot's timer and remove the four listeners. */
    method Teardown()
      requires Valid()
      modifies this
      ensures Valid()
      ensures State() == old(State()).(
        listening := false, timers := if slot != 0 then Cancel(old(timers), slot) else old(timers))
    {
      ClearSlot();
      listening := false;
    }
  }

  /**
   * The single slot: a blur followed by hiding the page arms two timers, and coming back
   * (visible, then focus) clears only the second, so the blur check stays pending.
   */
  method BlurThenHideLeaksCheck(redirectPath: string, delay: Option<nat>)
    returns (pending: seq<LeaveTimer>)
    ensures pending == [BlurCheck]
  {
    var hook := new PageLeaveHook(redirectPath, delay);
    hook.ActionChanged(true);
    hook.Blur();
    hook.VisibilityChange(true);
    hook.VisibilityChange(false);
    hook.Focus();
    pending := seq(|hook.timers|, j requires 0 <= j < |hook.timers| reads hook => hook.timers[j].kind);
  }

  /**
   * After `resetAction`, no event navigates: hiding, blurring and page hide arm nothing, and
   * every timer still pending from before has been cleared by coming back.
   */
  method ResetSilencesHook(redirectPath: string, delay: Option<nat>)
    returns (navigations: nat, pending: nat)
    ensures navigations == 0 && pending == 0
  {
    var hook := new PageLeaveHook(redirectPath, delay);
    hook.ActionChanged(true);
    hook.VisibilityChange(true);
    hook.VisibilityChange(false);
    hook.ResetAction();
    hook.VisibilityChange(true);
    hook.Blur();
    hook.PageHide();
    navigations := |hook.navigations|;
    pending := |hook.timers|;
  }
}

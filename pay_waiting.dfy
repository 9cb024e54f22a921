/**
 * The payment-wait page (src/pages/PayWaiting.jsx). Three things race to one navigation to
 * "/success": a 300 s countdown shown on screen, a fallback counter of 123 ticks, and a 28 s
 * grace timer armed when the shopper first comes back to the page. Time is whole seconds since
 * mount; both intervals tick together, the countdown's handler first, and a grace timer armed
 * between two ticks runs just after the tick it falls on.
 */
module PayWaiting {
  import opened Wrappers
  import opened Text

  const CountdownStart: nat := 300
  const FallbackStart: nat := 123
  const GraceDelay: nat := 28
  const SuccessPath := "/success"

  /** `formatTime(seconds)`: two-digit minutes, a colon, two-digit seconds. */
  function FormatTime(seconds: nat): string
  {
    Pad2(NatToString(seconds / 60)) + ":" + Pad2(NatToString(seconds % 60))
  }

  /** Reading the clock face back: minutes before the colon, seconds after, and they add up. */
  lemma FormatTimeRoundTrip(seconds: nat)
    ensures var r := FormatTime(seconds); var colon := IndexOf(r, ':');
      && colon >= 2 && |r| == colon + 3
      && AllDigits(r[..colon]) && AllDigits(r[colon + 1..])
      && DecimalValue(r[..colon]) * 60 + DecimalValue(r[colon + 1..]) == seconds
      && DecimalValue(r[colon + 1..]) < 60
  {
    var m := Pad2(NatToString(seconds / 60));
    var s := Pad2(NatToString(seconds % 60));
    PaddedValue(seconds / 60);
    PaddedValue(seconds % 60);
    NatToStringBelow100(seconds % 60);
    assert |m| >= 2 && |s| == 2;
    SplitAtColon(m, s);
  }

  /** Two digit strings joined by a colon split back at that colon. */
  lemma SplitAtColon(m: string, s: string)
    requires AllDigits(m)
    ensures IndexOf(m + ":" + s, ':') == |m|
    ensures (m + ":" + s)[..|m|] == m && (m + ":" + s)[|m| + 1..] == s
  {
    assert ':' !in m by {
      assert forall i :: 0 <= i < |m| ==> IsDigit(m[i]);
    }
    assert m + ":" + s == m + [':'] + s;
    IndexOfAfter(m, ':', s);
  }

  /** One run of the countdown interval's updater: at most 1 becomes 0, and the interval stops. */
  function CountdownStep(prev: nat): nat
  {
    if prev <= 1 then 0 else prev - 1
  }

  /** The updater applied `n` times. */
  function CountdownIterate(start: nat, n: nat): nat
  {
    if n == 0 then start else CountdownStep(CountdownIterate(start, n - 1))
  }

  /** The countdown after `n` ticks is `start - n`, held at 0 once it gets there. */
  lemma {:induction false} CountdownAfter(start: nat, n: nat)
    ensures CountdownIterate(start, n) == if n >= start then 0 else start - n
  {
    if n > 0 {
      CountdownAfter(start, n - 1);
    }
  }

  class PayWaitingPage {
    /** The payable amount, read from the cart totals once at mount. */
    const amount: int
    var timeLeft: nat
    var countdownRunning: bool
    /** `fallbackTimer.current`. */
    var fallback: int
    var fallbackRunning: bool
    var hasReturned: bool
    /** When the grace timeout fires, while it is armed. */
    var graceDue: Option<nat>
    var hidden: bool
    var clock: nat
    /** Mounted: after navigating away every cleanup has run and nothing fires again. */
    var active: bool
    var navigations: seq<string>

    ghost predicate Valid()
      reads this
    {
      && (forall i :: 0 <= i < |navigations| ==> navigations[i] == SuccessPath)
      && |navigations| <= 1
      && (active ==>
            && navigations == []
            && countdownRunning && fallbackRunning
            && clock < FallbackStart
            && timeLeft == CountdownStart - clock
            && fallback == FallbackStart - clock
            && (graceDue.Some? <==> hasReturned)
            && (graceDue.Some? ==> clock < graceDue.value <= clock + GraceDelay))
      && (!active ==> !countdownRunning && !fallbackRunning && graceDue.None?)
    }

    constructor (amount: int)
      ensures Valid() && active
      ensures this.amount == amount && clock == 0 && !hasReturned && !hidden
      ensures timeLeft == CountdownStart && fallback == FallbackStart && navigations == []
    {
      this.amount := amount;
      timeLeft := CountdownStart;
      countdownRunning := true;
      fallback := FallbackStart;
      fallbackRunning := true;
      hasReturned := false;
      graceDue := None;
      hidden := false;
      clock := 0;
      active := true;
      navigations := [];
    }

    /** `navigate("/success")`: the page unmounts and all of its cleanups run. */
    method Navigate()
      requires active && navigations == []
      modifies this`navigations, this`active, this`countdownRunning, this`fallbackRunning, this`graceDue
      ensures Valid() && !active && navigations == [SuccessPath]
    {
      navigations := navigations + [SuccessPath];
      active := false;
      countdownRunning := false;
      fallbackRunning := false;
      graceDue := None;
    }

    /**
     * `visibilitychange`: the first time the page is visible again the flag latches and the
     * grace timer is armed; hidden events, and any event once returned, change nothing else.
     */
    method VisibilityChange(nowHidden: bool)
      requires Valid()
      modifies this`hidden, this`hasReturned, this`graceDue
      ensures Valid()
      ensures hidden == nowHidden
      ensures if old(active) && !nowHidden && !old(hasReturned)
        then hasReturned && graceDue == Some(clock + GraceDelay)
        else hasReturned == old(hasReturned) && graceDue == old(graceDue)
    {
      hidden := nowHidden;
      if active && !nowHidden && !hasReturned {
        hasReturned := true;
        graceDue := Some(clock + GraceDelay);
      }
    }

    /**
     * One second passes: the countdown drops by one (to 0 and stopping when it was at most 1),
     * the fallback drops by one and navigates when it reaches 0, and then a grace timer falling
     * due navigates.
     */
    method Tick()
      requires Valid() && active
      modifies this
      ensures Valid()
      ensures clock == old(clock) + 1 && hasReturned == old(hasReturned) && hidden == old(hidden)
      ensures timeLeft == CountdownStep(old(timeLeft))
      ensures fallback == old(fallback) - 1
      ensures if clock == FallbackStart || old(graceDue) == Some(clock)
        then !active && navigations == [SuccessPath]
        else active && graceDue == old(graceDue)
    {
      clock := clock + 1;
      if countdownRunning {
        countdownRunning := timeLeft > 1;
        timeLeft := CountdownStep(timeLeft);
      }
      if fallbackRunning {
        fallback := fallback - 1;
        if fallback <= 0 {
          Navigate();
        }
      }
      if active && graceDue.Some? && graceDue.value <= clock {
        Navigate();
      }
    }

    /** Leaving by other means: the intervals and the grace timeout are cleared. */
    method Unmount()
      requires Valid()
      modifies this`active, this`countdownRunning, this`fallbackRunning, this`graceDue
      ensures Valid() && !active && graceDue.None?
    {
      active := false;
      countdownRunning := false;
      fallbackRunning := false;
      graceDue := None;
    }
  }

  /** Never coming back: the fallback alone leaves for "/success" after 123 s. */
  method NeverReturning(amount: int) returns (leftAt: nat, navigations: seq<string>, finalTimeLeft: nat)
    ensures leftAt == FallbackStart && navigations == [SuccessPath]
    ensures finalTimeLeft == CountdownStart - FallbackStart
  {
    var page := new PayWaitingPage(amount);
    while page.active
      invariant page.Valid() && !page.hasReturned
      invariant !page.active ==> page.clock == FallbackStart && page.navigations == [SuccessPath]
      invariant !page.active ==> page.timeLeft == CountdownStart - FallbackStart
      decreases FallbackStart - page.clock
    {
      page.Tick();
    }
    leftAt := page.clock;
    navigations := page.navigations;
    finalTimeLeft := page.timeLeft;
  }

  /**
   * Coming back after `k` seconds, and hiding and showing the page again every second after
   * that: the grace timer armed on return is neither re-armed nor cancelled, so the page leaves
   * at `k + 28`, or at 123 if the fallback gets there first.
   */
  method ReturnAfter(amount: int, k: nat) returns (leftAt: nat, navigations: seq<string>)
    requires k < FallbackStart
    ensures leftAt == if k + GraceDelay < FallbackStart then k + GraceDelay else FallbackStart
    ensures navigations == [SuccessPath]
  {
    var page := new PayWaitingPage(amount);
    while page.clock < k
      invariant page.Valid() && page.active && !page.hasReturned && page.clock <= k
      decreases k - page.clock
    {
      page.Tick();
    }
    page.VisibilityChange(false);
    while page.active
      invariant page.Valid() && page.hasReturned
      invariant page.active ==> page.clock < k + GraceDelay && page.graceDue == Some(k + GraceDelay)
      invariant !page.active ==> page.navigations == [SuccessPath]
      invariant !page.active ==> page.clock == if k + GraceDelay < FallbackStart then k + GraceDelay else FallbackStart
      decreases FallbackStart - page.clock
    {
      page.VisibilityChange(true);
      page.VisibilityChange(false);
      page.Tick();
    }
    leftAt := page.clock;
    navigations := page.navigations;
  }
}

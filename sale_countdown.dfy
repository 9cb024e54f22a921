/**
 * The sale banner countdown (src/components/ui/SaleCountdown.jsx). A start time in seconds is
 * kept in local storage under "sale_countdown_start", so the remaining time survives reloads;
 * once it runs out the countdown starts over from the full duration.
 */
module SaleCountdown {
  import opened Wrappers
  import opened Text
  import opened Storage

  const AnchorKey := "sale_countdown_start"
  const DefaultDuration: int := 3600

  /** A JavaScript number as far as the countdown goes: an integer, or `NaN`. */
  datatype Num = Finite(n: int) | NaN

  /** The `duration = DEFAULT_DURATION` prop default. */
  function Duration(given: Option<int>): int
  {
    if given.None? then DefaultDuration else given.value
  }

  /** What the mount effect decides: the anchor it writes, if any, and the time left. */
  datatype Resolution = Resolution(anchorWrite: Option<nat>, timeLeft: Num)

  /**
   * The mount effect on the stored text `saved` at `now` seconds. An anchor that does not parse
   * makes the elapsed time `NaN`; `NaN >= duration` is false, so it is kept and the time left is
   * `NaN`.
   */
  function Resolve(saved: Option<string>, now: nat, duration: int): Resolution
  {
    if saved.None? || saved.value == "" then Resolution(Some(now), Finite(duration))
    else
      match ParseInt(saved.value)
      case None => Resolution(None, NaN)
      case Some(start) =>
        if now - start >= duration then Resolution(Some(now), Finite(duration))
        else Resolution(None, Finite(duration - (now - start)))
  }

  /**
   * A stored anchor `start` with `0 <= now - start < duration` is kept, and the time left is
   * the rest of the duration; otherwise the anchor is rewritten to `now` and the full duration
   * is left.
   */
  lemma ResolveStoredAnchor(start: nat, now: nat, duration: int)
    ensures 0 <= now - start < duration ==>
      Resolve(Some(NatToString(start)), now, duration) == Resolution(None, Finite(duration - (now - start)))
    ensures now - start >= duration ==>
      Resolve(Some(NatToString(start)), now, duration) == Resolution(Some(now), Finite(duration))
  {
    ParseNatToString(start);
  }

  /** After mounting with a non-negative elapsed time, 1 <= timeLeft <= duration. */
  lemma ResolveInRange(saved: Option<string>, now: nat, duration: int)
    requires duration >= 1
    requires saved.Some? && saved.value != "" ==> ParseInt(saved.value).Some? && ParseInt(saved.value).value <= now
    ensures Resolve(saved, now, duration).timeLeft.Finite?
    ensures 1 <= Resolve(saved, now, duration).timeLeft.n <= duration
  {
  }

  /** Reloading later keeps counting down from the anchor the first mount wrote. */
  lemma ReloadContinues(now: nat, later: nat, duration: int)
    requires now <= later < now + duration
    ensures Resolve(None, now, duration) == Resolution(Some(now), Finite(duration))
    ensures Resolve(Some(NatToString(now)), later, duration).timeLeft == Finite(duration - (later - now))
  {
    ResolveStoredAnchor(now, later, duration);
  }

  /** One run of the interval's updater: at most 1 wraps to the duration (and rewrites the anchor). */
  function TickValue(prev: Num, duration: int): Num
  {
    match prev
    case NaN => NaN
    case Finite(p) => if p <= 1 then Finite(duration) else Finite(p - 1)
  }

  predicate Wraps(prev: Num)
  {
    prev.Finite? && prev.n <= 1
  }

  /** The updater keeps the time left within 1..duration, and a `NaN` is never repaired. */
  lemma TickInRange(prev: Num, duration: int)
    ensures prev.Finite? && 1 <= prev.n <= duration ==>
      TickValue(prev, duration).Finite? && 1 <= TickValue(prev, duration).n <= duration
    ensures prev.NaN? ==> TickValue(prev, duration).NaN?
  {
  }

  /** `%` as JavaScript computes it for a positive divisor: the sign follows the dividend. */
  function JsRem(a: int, b: int): int
    requires b > 0
  {
    if a >= 0 then a % b else -((-a) % b)
  }

  /** The hours, minutes and seconds the banner shows. */
  function Display(t: Num): (string, string, string)
  {
    match t
    case NaN => ("NaN", "NaN", "NaN")
    case Finite(n) =>
      (Pad2(IntToString(n / 3600)), Pad2(IntToString(JsRem(n, 3600) / 60)), Pad2(IntToString(JsRem(n, 60))))
  }

  /**
   * For a non-negative time left the three parts are two-digit (or longer) decimals that add
   * back up to it, with minutes and seconds below 60.
   */
  lemma DisplaySplits(n: nat)
    ensures var (h, m, s) := Display(Finite(n));
      && |h| >= 2 && |m| == 2 && |s| == 2
      && AllDigits(h) && AllDigits(m) && AllDigits(s)
      && DecimalValue(h) * 3600 + DecimalValue(m) * 60 + DecimalValue(s) == n
      && DecimalValue(m) < 60 && DecimalValue(s) < 60
  {
    var hv, mv, sv := n / 3600, (n % 3600) / 60, n % 60;
    HmsArithmetic(n);
    assert Display(Finite(n)) == (Pad2(NatToString(hv)), Pad2(NatToString(mv)), Pad2(NatToString(sv)));
    PaddedValue(hv);
    PaddedValue(mv);
    PaddedValue(sv);
    NatToStringBelow100(mv);
    NatToStringBelow100(sv);
  }

  lemma HmsArithmetic(n: nat)
    ensures (n / 3600) * 3600 + ((n % 3600) / 60) * 60 + n % 60 == n
    ensures (n % 3600) / 60 < 60 && n % 60 < 60
  {
    var r := n % 3600;
    assert n == (n / 3600) * 3600 + r;
    assert r == (r / 60) * 60 + r % 60;
    assert r % 60 == n % 60 by {
      assert n == ((n / 3600) * 60 + r / 60) * 60 + r % 60;
    }
  }

  /**
   * The banner. `crashed` records a storage call that threw: neither the mount effect nor the
   * interval's updater catches it, so the rest of that effect or update does not happen.
   */
  class SaleCountdownBanner {
    const duration: int
    const storage: LocalStorage
    var timeLeft: Num
    var running: bool
    var crashed: bool

    constructor (duration: Option<int>, storage: LocalStorage)
      ensures this.duration == Duration(duration) && this.storage == storage
      ensures timeLeft == Finite(Duration(duration)) && !running && !crashed
    {
      this.duration := Duration(duration);
      this.storage := storage;
      timeLeft := Finite(Duration(duration));
      running := false;
      crashed := false;
    }

    /** The stored anchor text, as `getItem` returns it. */
    function Saved(): Option<string>
      reads storage
    {
      if AnchorKey in storage.items then Some(storage.items[AnchorKey]) else None
    }

    /**
     * The mount effect at `nowMs` milliseconds. A refused read stops it at once; a refused
     * write of a fresh anchor stops it before the time left is set and the interval starts.
     */
    method Mount(nowMs: nat)
      modifies this, storage`items
      ensures var r := Resolve(old(Saved()), nowMs / 1000, duration);
        var succeeds := storage.available && (r.anchorWrite.Some? ==> !storage.full);
        && (crashed <==> old(crashed) || !succeeds)
        && (succeeds ==> timeLeft == r.timeLeft && running)
        && (!succeeds ==> timeLeft == old(timeLeft) && running == old(running))
        && storage.items == if succeeds && r.anchorWrite.Some? then old(storage.items)[AnchorKey := NatToString(r.anchorWrite.value)] else old(storage.items)
    {
      var now := nowMs / 1000;
      var got := storage.GetItem(AnchorKey);
      if got.Err? {
        crashed := true;
        return;
      }
      var r := Resolve(got.data, now, duration);
      if r.anchorWrite.Some? {
        var ok := storage.SetItem(AnchorKey, NatToString(r.anchorWrite.value));
        if !ok {
          crashed := true;
          return;
        }
      }
      timeLeft := r.timeLeft;
      running := true;
    }

    /**
     * One second of the interval at `nowMs`: wrapping writes a fresh anchor first, and a write
     * that throws leaves the time left as it was.
     */
    method Tick(nowMs: nat)
      requires running
      modifies this`timeLeft, this`crashed, storage`items
      ensures var fails := Wraps(old(timeLeft)) && !(storage.available && !storage.full);
        && (crashed <==> old(crashed) || fails)
        && timeLeft == (if fails then old(timeLeft) else TickValue(old(timeLeft), duration))
        && storage.items == if Wraps(old(timeLeft)) && !fails then old(storage.items)[AnchorKey := NatToString(nowMs / 1000)] else old(storage.items)
    {
      if Wraps(timeLeft) {
        var ok := storage.SetItem(AnchorKey, NatToString(nowMs / 1000));
        if !ok {
          crashed := true;
          return;
        }
      }
      timeLeft := TickValue(timeLeft, duration);
    }

    /** The cleanup clears the interval. */
    method Unmount()
      modifies this`running
      ensures !running
    {
      running := false;
    }
  }

  /**
   * With a full quota a banner whose stored anchor is still current mounts and keeps counting
   * down; only the tick that wraps fails, and it leaves the time left at 1.
   */
  method CountdownWithFullStorage(start: nat, nowMs: nat, ticks: nat) returns (before: Num, after: Num, failed: bool)
    requires 0 <= nowMs / 1000 - start < DefaultDuration
    requires ticks == DefaultDuration - (nowMs / 1000 - start)
    ensures before == Finite(1)
    ensures after == Finite(1) && failed
  {
    var storage := new LocalStorage(map[AnchorKey := NatToString(start)], true, true);
    var banner := new SaleCountdownBanner(None, storage);
    ResolveStoredAnchor(start, nowMs / 1000, DefaultDuration);
    banner.Mount(nowMs);
    assert banner.timeLeft == Finite(ticks) && !banner.crashed;
    var k := 1;
    while k < ticks
      invariant 1 <= k <= ticks
      invariant banner.running && !banner.crashed && banner.storage == storage && storage.full
      invariant banner.timeLeft == Finite(ticks - k + 1)
    {
      banner.Tick(nowMs + 1000 * k);
      k := k + 1;
    }
    before := banner.timeLeft;
    banner.Tick(nowMs + 1000 * ticks);
    after := banner.timeLeft;
    failed := banner.crashed;
  }
}

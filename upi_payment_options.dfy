/**
 * The UPI payment handoff (src/components/payment/UPIPaymentOptions.jsx): the option list, the
 * deep link handed to the payment app, and the listeners that move the shopper to the waiting
 * page once a pay button was pressed and the page is left. Time is milliseconds.
 */
module UpiPaymentOptions {
  import opened Wrappers
  import opened Text
  import opened Timers
  import PaymentUtils

  /** The payee part of every deep link; it holds no colon. */
  const CustomPaymentUrl := "//pay?ver=01&mode=01&pa=netc.34161FA820328AA2D24366C0@mairtel&purpose=00&mc=4784&pn=NETC%20FASTag%20Recharge&orgid=159753&qrMedium=04"

  datatype PaymentOption = PaymentOption(id: string, name: string, scheme: string)

  const PaymentOptions: seq<PaymentOption> := [
    PaymentOption("phonePe", "PhonePe", "phonepe"),
    PaymentOption("paytm", "Paytm", "paytmmp"),
    PaymentOption("g-pay", "Google Pay", "upi"),
    PaymentOption("upi", "Others UPI", "upi")
  ]

  const InitialSelection := "upi"
  const WaitingPath := "/pay/"

  predicate IsOptionId(id: string)
  {
    exists i :: 0 <= i < |PaymentOptions| && PaymentOptions[i].id == id
  }

  /** `generateLink(scheme)` with the current cart total. */
  function GenerateLink(scheme: string, finalAmount: int): string
  {
    scheme + ":" + CustomPaymentUrl + "&am=" + IntToString(finalAmount)
  }

  /** What a payment app reads back from a link: the scheme before the first ':' ... */
  function LinkScheme(link: string): string
  {
    var colon := IndexOf(link, ':');
    if colon < 0 then "" else link[..colon]
  }

  /** ... and the amount after the last '='. */
  function LinkAmount(link: string): Option<int>
  {
    var eq := LastIndexOf(link, '=');
    if eq < 0 then None else ParseInt(link[eq + 1..])
  }

  /**
   * The fields come back from any link of this shape, whatever the payee part holds: the first
   * ':' ends the scheme and the last '=' starts the amount.
   */
  lemma LinkFields(scheme: string, payee: string, finalAmount: int)
    requires ':' !in scheme
    ensures LinkScheme(scheme + ":" + payee + "&am=" + IntToString(finalAmount)) == scheme
    ensures LinkAmount(scheme + ":" + payee + "&am=" + IntToString(finalAmount)) == Some(finalAmount)
  {
    var amount := IntToString(finalAmount);
    var link := scheme + ":" + payee + "&am=" + amount;
    var front := scheme + ":" + payee + "&am";
    assert link == scheme + [':'] + (payee + "&am=" + amount);
    assert link == front + ['='] + amount;
    SchemeBeforeColon(scheme, payee + "&am=" + amount);
    AmountAfterEquals(front, finalAmount);
  }

  /** The scheme is everything before the first ':' when it holds none itself. */
  lemma SchemeBeforeColon(scheme: string, rest: string)
    requires ':' !in scheme
    ensures LinkScheme(scheme + [':'] + rest) == scheme
  {
    IndexOfAfter(scheme, ':', rest);
    assert (scheme + [':'] + rest)[..|scheme|] == scheme;
  }

  /** A printed amount after the last '=' parses back to itself. */
  lemma AmountAfterEquals(front: string, finalAmount: int)
    ensures LinkAmount(front + ['='] + IntToString(finalAmount)) == Some(finalAmount)
  {
    var amount := IntToString(finalAmount);
    IntToStringChars(finalAmount, '=');
    LastIndexOfBefore(front, '=', amount);
    assert (front + ['='] + amount)[|front| + 1..] == amount;
    ParseIntToString(finalAmount);
  }

  /** A link carries its scheme and amount intact. */
  lemma LinkRoundTrip(scheme: string, finalAmount: int)
    requires ':' !in scheme
    ensures LinkScheme(GenerateLink(scheme, finalAmount)) == scheme
    ensures LinkAmount(GenerateLink(scheme, finalAmount)) == Some(finalAmount)
  {
    LinkFields(scheme, CustomPaymentUrl, finalAmount);
  }

  /** Every link the option table can produce passes the scheme check of the payment helpers. */
  lemma TableLinksValidate(i: int, finalAmount: int)
    requires 0 <= i < |PaymentOptions|
    ensures PaymentUtils.ValidateUPIUrl(GenerateLink(PaymentOptions[i].scheme, finalAmount))
  {
    var scheme := PaymentOptions[i].scheme;
    assert scheme == "phonepe" || scheme == "paytmmp" || scheme == "upi";
    assert scheme in PaymentUtils.UpiSchemes && ':' !in scheme;
    LinkRoundTrip(scheme, finalAmount);
  }

  /** The options whose pay button is rendered: those whose id is the selected one. */
  function PayButtons(options: seq<PaymentOption>, selected: string): seq<PaymentOption>
  {
    if options == [] then []
    else (if options[0].id == selected then [options[0]] else []) + PayButtons(options[1..], selected)
  }

  /** The scheme the selected option's button pays with. */
  function SelectedScheme(selected: string): string
    requires IsOptionId(selected)
  {
    if selected == "phonePe" then "phonepe"
    else if selected == "paytm" then "paytmmp"
    else "upi"
  }

  /**
   * Exactly one pay button is shown for a selected option, the one with that option's scheme,
   * and none for anything else; the page starts on "Others UPI".
   */
  lemma {:induction false} OneButtonForSelection(selected: string)
    ensures IsOptionId(selected) ==> |PayButtons(PaymentOptions, selected)| == 1
    ensures IsOptionId(selected) ==> PayButtons(PaymentOptions, selected)[0].scheme == SelectedScheme(selected)
    ensures !IsOptionId(selected) ==> PayButtons(PaymentOptions, selected) == []
    ensures IsOptionId(InitialSelection)
  {
    var o := PaymentOptions;
    assert o[1..][1..][1..][1..] == [];
    assert PayButtons(o[1..][1..][1..], selected) == (if o[3].id == selected then [o[3]] else []);
    assert PayButtons(o[1..][1..], selected) == (if o[2].id == selected then [o[2]] else []) + PayButtons(o[1..][1..][1..], selected);
    assert PayButtons(o[1..], selected) == (if o[1].id == selected then [o[1]] else []) + PayButtons(o[1..][1..], selected);
    assert o[3].id == InitialSelection;
  }

  datatype PayTimer = VisibilityRedirect | BlurCheck

  /** The component's whole state, for stating what each event changes. */
  datatype Handoff = Handoff(
    selected: string, clicked: bool, clickedRef: bool, finalAmount: int,
    listening: bool, hidden: bool, focused: bool,
    clock: nat, nextId: nat, timers: seq<Timer<PayTimer>>,
    launched: seq<string>, navigations: seq<string>)

  class PaymentHandoff {
    var selected: string
    /** `paymentButtonClicked` state, and the ref the listeners read, synchronised on commit. */
    var clicked: bool
    var clickedRef: bool
    var finalAmount: int
    /** The listeners are registered: the component is mounted. */
    var listening: bool
    /** `document.hidden` and `document.hasFocus()`. */
    var hidden: bool
    var focused: bool
    var clock: nat
    var nextId: nat
    var timers: seq<Timer<PayTimer>>
    /** Links assigned to `window.location.href`, and calls to `navigate`. */
    var launched: seq<string>
    var navigations: seq<string>

    ghost function State(): Handoff
      reads this
    {
      Handoff(selected, clicked, clickedRef, finalAmount, listening, hidden, focused,
              clock, nextId, timers, launched, navigations)
    }

    ghost predicate Valid()
      reads this
    {
      && IsOptionId(selected)
      && nextId >= 1
      && IdsBelow(timers, nextId)
      && NoneDueBefore(timers, clock)
    }

    /** Mounting, with the cart total `calculateCartTotals` gives at that moment. */
    constructor (finalAmount: int)
      ensures Valid()
      ensures State() == Handoff(InitialSelection, false, false, finalAmount, true, false, true, 0, 1, [], [], [])
    {
      selected := InitialSelection;
      clicked := false;
      clickedRef := false;
      this.finalAmount := finalAmount;
      listening := true;
      hidden := false;
      focused := true;
      clock := 0;
      nextId := 1;
      timers := [];
      launched := [];
      navigations := [];
      new;
      OneButtonForSelection(InitialSelection);
    }

    /** A radio row is chosen. */
    method Select(id: string)
      requires Valid() && IsOptionId(id)
      modifies this`selected
      ensures Valid()
      ensures State() == old(State()).(selected := id)
    {
      selected := id;
    }

    /**
     * The selected option's pay button: the flag is set, and reset again when assigning the
     * link to the location throws (`openThrows`).
     */
    method PayClick(openThrows: bool)
      requires Valid()
      modifies this`clicked, this`launched
      ensures Valid()
      ensures State() == old(State()).(
        clicked := !openThrows,
        launched := if openThrows then old(launched) else old(launched) + [GenerateLink(SelectedScheme(selected), finalAmount)])
    {
      clicked := true;
      var link := GenerateLink(SelectedScheme(selected), finalAmount);
      if openThrows {
        clicked := false;
      } else {
        launched := launched + [link];
      }
    }

    /** React commits the render and the ref effect copies the flag. */
    method Commit()
      requires Valid()
      modifies this`clickedRef
      ensures Valid()
      ensures State() == old(State()).(clickedRef := clicked)
    {
      clickedRef := clicked;
    }

    /** A `cartUpdated` event recomputes the total shown and linked. */
    method CartUpdated(newFinalAmount: int)
      requires Valid()
      modifies this`finalAmount
      ensures Valid()
      ensures State() == old(State()).(finalAmount := if listening then newFinalAmount else old(finalAmount))
    {
      if listening {
        finalAmount := newFinalAmount;
      }
    }

    method Schedule(kind: PayTimer, delay: nat)
      requires Valid()
      modifies this`timers, this`nextId
      ensures Valid()
      ensures State() == old(State()).(
        timers := old(timers) + [Timer(old(nextId), clock + delay, kind)], nextId := old(nextId) + 1)
    {
      timers := timers + [Timer(nextId, clock + delay, kind)];
      nextId := nextId + 1;
    }

    /** `navigate('/pay/')`: the route changes and the component unmounts, so its listeners go. */
    method Navigate()
      requires Valid()
      modifies this`navigations, this`listening
      ensures Valid()
      ensures State() == old(State()).(navigations := old(navigations) + [WaitingPath], listening := false)
    {
      navigations := navigations + [WaitingPath];
      listening := false;
    }

    /** `visibilitychange`: hiding the page with the flag set schedules the redirect in 1000 ms. */
    method VisibilityChange(nowHidden: bool)
      requires Valid()
      modifies this
      ensures Valid()
      ensures if old(listening) && nowHidden && clickedRef
        then State() == old(State()).(hidden := nowHidden,
          timers := old(timers) + [Timer(old(nextId), clock + 1000, VisibilityRedirect)], nextId := old(nextId) + 1)
        else State() == old(State()).(hidden := nowHidden)
    {
      hidden := nowHidden;
      if listening && nowHidden && clickedRef {
        Schedule(VisibilityRedirect, 1000);
      }
    }

    /** `pagehide`: with the flag set it navigates at once. */
    method PageHide()
      requires Valid()
      modifies this
      ensures Valid()
      ensures if old(listening) && clickedRef
        then State() == old(State()).(navigations := old(navigations) + [WaitingPath], listening := false)
        else State() == old(State())
    {
      if listening && clickedRef {
        Navigate();
      }
    }

    /** `blur`: with the flag set it schedules a check in 2000 ms. */
    method Blur()
      requires Valid()
      modifies this
      ensures Valid()
      ensures if old(listening) && clickedRef
        then State() == old(State()).(focused := false,
          timers := old(timers) + [Timer(old(nextId), clock + 2000, BlurCheck)], nextId := old(nextId) + 1)
        else State() == old(State()).(focused := false)
    {
      focused := false;
      if listening && clickedRef {
        Schedule(BlurCheck, 2000);
      }
    }

    /** The window regains focus; the component has no listener for it. */
    method Focus()
      requires Valid()
      modifies this`focused
      ensures Valid()
      ensures State() == old(State()).(focused := true)
    {
      focused := true;
    }

    /** Time moves on to `now` without a timer falling due. */
    method Wait(now: nat)
      requires Valid() && clock <= now && NoneDueBefore(timers, now)
      modifies this`clock
      ensures Valid()
      ensures State() == old(State()).(clock := now)
    {
      clock := now;
    }

    /**
     * The next timer runs. Neither is ever cleared, so they run even after the component is
     * gone: the visibility redirect always navigates, the blur check only when the page is then
     * hidden or unfocused.
     */
    method FireTimer(i: int)
      requires Valid() && IsNext(timers, i)
      modifies this
      ensures Valid()
      ensures var t := old(timers)[i];
        var after := old(State()).(clock := t.due, timers := RemoveAt(old(timers), i));
        if t.kind == VisibilityRedirect || hidden || !focused
        then State() == after.(navigations := old(navigations) + [WaitingPath], listening := false)
        else State() == after
    {
      var t := timers[i];
      clock := t.due;
      timers := RemoveAt(timers, i);
      if t.kind == VisibilityRedirect || hidden || !focused {
        Navigate();
      }
    }

    /** The cleanup removes the three listeners; pending timers stay scheduled. */
    method Unmount()
      requires Valid()
      modifies this`listening
      ensures Valid()
      ensures State() == old(State()).(listening := false)
    {
      listening := false;
    }
  }

  /**
   * A flag that was never set cannot lead anywhere: with it clear, hiding, blurring and page
   * hide schedule nothing and navigate nowhere.
   */
  method UntouchedPageStays(finalAmount: int, hideFirst: bool)
    returns (navigations: nat, pendingTimers: nat)
    ensures navigations == 0 && pendingTimers == 0
  {
    var page := new PaymentHandoff(finalAmount);
    page.VisibilityChange(hideFirst);
    page.Blur();
    page.PageHide();
    page.VisibilityChange(true);
    navigations := |page.navigations|;
    pendingTimers := |page.timers|;
  }

  /**
   * Pay, then switch to the payment app: 1000 ms later the shopper lands on the waiting page,
   * even though they came straight back.
   */
  method PayAndSwitchApps(finalAmount: int)
    returns (link: string, navigations: seq<string>)
    ensures link == GenerateLink("upi", finalAmount)
    ensures navigations == [WaitingPath]
  {
    var page := new PaymentHandoff(finalAmount);
    page.PayClick(false);
    page.Commit();
    page.VisibilityChange(true);
    page.VisibilityChange(false);
    page.Focus();
    assert IsNext(page.timers, 0);
    page.FireTimer(0);
    link := page.launched[0];
    navigations := page.navigations;
  }
}

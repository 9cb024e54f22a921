/**
 * The order-placed page (src/pages/OrderPlaced.jsx): on mount it turns a non-empty cart into
 * the current order record, then three timers reveal the heading, reveal the subtext and finally
 * clear the cart and leave for the order details page. Time is milliseconds since mount.
 */
module OrderPlaced {
  import opened Shop
  import opened Storage
  import opened OrderUtils

  datatype PlacedTimer = HeadingTimer | SubtextTimer | RedirectTimer

  /** The delay each timer is scheduled with. */
  function Delay(t: PlacedTimer): nat
  {
    match t
    case HeadingTimer => 1000
    case SubtextTimer => 1500
    case RedirectTimer => 3000
  }

  /** What the redirect timer does, in the order it does it; `CartCleared` marks the `clearCart` call. */
  datatype Effect = CartCleared | CartUpdatedDispatched | NavigatedTo(path: string)

  const DetailsPath := "/details/"

  /** The order record built from the cart: `orderDate` and `createdAt` are the formatted clocks. */
  function PlacedOrder(cart: seq<Product>, totals: Totals, now: nat, random: real, orderDate: string, createdAt: string): Order
    requires 0.0 <= random < 1.0
  {
    Order(GenerateOrderId(now, random), orderDate, cart, totals.totalDiscount, createdAt)
  }

  class OrderPlacedPage {
    const cart: CartStore
    const storage: LocalStorage
    var showHeading: bool
    var showSubtext: bool
    var shownDiscount: int
    /** Timers scheduled and neither run nor cleared. */
    var pending: set<PlacedTimer>
    var elapsed: nat
    var effects: seq<Effect>

    constructor (cart: CartStore, storage: LocalStorage)
      ensures this.cart == cart && this.storage == storage
      ensures !showHeading && !showSubtext && shownDiscount == 0
      ensures pending == {} && elapsed == 0 && effects == []
    {
      this.cart := cart;
      this.storage := storage;
      showHeading := false;
      showSubtext := false;
      shownDiscount := 0;
      pending := {};
      elapsed := 0;
      effects := [];
    }

    /**
     * The mount effect. `totalsOf` is the cart-totals collaborator, `now` and `random` feed the
     * order id, and the save's outcome is dropped as in the page.
     */
    method Mount(c: Cipher, totalsOf: seq<Product> -> Totals, now: nat, random: real, orderDate: string, createdAt: string)
      requires 0.0 <= random < 1.0
      modifies this, storage`items
      ensures |cart.items| > 0 ==>
        var order := PlacedOrder(cart.items, totalsOf(cart.items), now, random, orderDate, createdAt);
        && order.products == cart.items
        && order.totalDiscount == totalsOf(cart.items).totalDiscount
        && storage.items == SaveEffect(old(storage.items), c, order, storage.available && !storage.full)
      ensures |cart.items| == 0 ==> storage.items == old(storage.items)
      ensures shownDiscount == totalsOf(cart.items).totalDiscount
      ensures pending == {HeadingTimer, SubtextTimer, RedirectTimer} && elapsed == 0
      ensures showHeading == old(showHeading) && showSubtext == old(showSubtext) && effects == old(effects)
    {
      var items := cart.items;
      if |items| > 0 {
        var order := PlacedOrder(items, totalsOf(items), now, random, orderDate, createdAt);
        var _ := SaveCurrentOrder(storage, c, order);
      }
      shownDiscount := totalsOf(items).totalDiscount;
      pending := {HeadingTimer, SubtextTimer, RedirectTimer};
      elapsed := 0;
    }

    /**
     * Time passes up to `t`, running every pending timer due by then. The redirect clears the
     * cart, dispatches `cartUpdated` and navigates, whatever the save did.
     */
    method AdvanceTo(t: nat)
      requires elapsed <= t
      modifies this, cart
      ensures elapsed == t
      ensures pending == set p | p in old(pending) && Delay(p) > t
      ensures showHeading == (old(showHeading) || (HeadingTimer in old(pending) && t >= 1000))
      ensures showSubtext == (old(showSubtext) || (SubtextTimer in old(pending) && t >= 1500))
      ensures shownDiscount == old(shownDiscount)
      ensures if RedirectTimer in old(pending) && t >= 3000
        then cart.items == [] && effects == old(effects) + [CartCleared, CartUpdatedDispatched, NavigatedTo(DetailsPath)]
        else cart.items == old(cart.items) && effects == old(effects)
    {
      if HeadingTimer in pending && t >= 1000 {
        showHeading := true;
        pending := pending - {HeadingTimer};
      }
      if SubtextTimer in pending && t >= 1500 {
        showSubtext := true;
        pending := pending - {SubtextTimer};
      }
      if RedirectTimer in pending && t >= 3000 {
        pending := pending - {RedirectTimer};
        cart.ClearCart();
        effects := effects + [CartCleared, CartUpdatedDispatched, NavigatedTo(DetailsPath)];
      }
      elapsed := t;
    }

    /** The effect's cleanup clears all three timers. */
    method Unmount()
      modifies this`pending
      ensures pending == {}
    {
      pending := {};
    }
  }

  /**
   * A placement whose save cannot be written (storage full): after the redirect the cart is
   * empty and no order is stored, so the order is lost.
   */
  method PlaceWithFullStorage(items: seq<Product>, c: Cipher, totalsOf: seq<Product> -> Totals, now: nat, random: real, orderDate: string, createdAt: string)
    returns (cartCleared: bool, orderStored: bool, navigated: bool)
    requires |items| > 0 && 0.0 <= random < 1.0
    ensures cartCleared && !orderStored && navigated
  {
    var cart := new CartStore(items);
    var storage := new LocalStorage(map[], true, true);
    var page := new OrderPlacedPage(cart, storage);
    page.Mount(c, totalsOf, now, random, orderDate, createdAt);
    page.AdvanceTo(3000);
    cartCleared := cart.items == [];
    orderStored := OrderStorageKey in storage.items;
    navigated := NavigatedTo(DetailsPath) in page.effects;
  }

  /**
   * Leaving the page before 3000 ms: the heading may have appeared, but the cart keeps its
   * items and nothing navigates, however long afterwards.
   */
  method LeaveEarly(items: seq<Product>, c: Cipher, totalsOf: seq<Product> -> Totals, now: nat, random: real, orderDate: string, createdAt: string, leaveAt: nat, later: nat)
    returns (cartKept: bool, navigated: bool, headingShown: bool)
    requires 0.0 <= random < 1.0 && leaveAt < 3000 && leaveAt <= later
    ensures cartKept && !navigated
    ensures headingShown <==> leaveAt >= 1000
  {
    var cart := new CartStore(items);
    var storage := new LocalStorage(map[], true, false);
    var page := new OrderPlacedPage(cart, storage);
    page.Mount(c, totalsOf, now, random, orderDate, createdAt);
    page.AdvanceTo(leaveAt);
    page.Unmount();
    page.AdvanceTo(later);
    cartKept := cart.items == items;
    navigated := NavigatedTo(DetailsPath) in page.effects;
    headingShown := page.showHeading;
  }
}

/**
 * The order details page (src/pages/OrderDetails.jsx): it shows the first product of the
 * current order with a one-line variant label, and sends the browser's back button home.
 */
module OrderDetails {
  import opened Wrappers
  import opened Text
  import opened Shop
  import opened Storage
  import opened OrderUtils

  /** `getVariantDisplay(product)`; an absent variant field is the empty string. */
  function GetVariantDisplay(product: Option<Product>): string
  {
    if product.None? then ""
    else
      var p := product.value;
      if p.category == "mobile" && p.variants.Some? then
        var v := p.variants.value;
        Join((if v.color != "" then [v.color] else []) + (if v.storage != "" then [v.storage] else []), ", ")
      else if (p.category == "cloth" || p.category == "shoes") && p.variants.Some? && p.variants.value.size != "" then
        "Size: " + p.variants.value.size
      else p.brand
  }

  /**
   * A phone's label is its colour and storage joined by ", ", leaving out the absent ones; it
   * is empty when both are absent and never falls back to the brand.
   */
  lemma MobileLabel(p: Product)
    requires p.category == "mobile" && p.variants.Some?
    ensures var r := GetVariantDisplay(Some(p)); var v := p.variants.value;
      && (r == "" <==> v.color == "" && v.storage == "")
      && (v.color != "" && v.storage != "" ==> r == v.color + ", " + v.storage)
      && (v.color != "" && v.storage == "" ==> r == v.color)
      && (v.color == "" && v.storage != "" ==> r == v.storage)
      && forall b :: GetVariantDisplay(Some(p.(brand := b))) == r
  {
    var v := p.variants.value;
    if v.color != "" && v.storage != "" {
      assert Join([v.color, v.storage], ", ") == v.color + ", " + Join([v.storage], ", ");
    }
  }

  /** Clothes and shoes with a size show "Size: " and the size, which reads back off the label. */
  lemma SizedLabel(p: Product)
    requires (p.category == "cloth" || p.category == "shoes") && p.variants.Some? && p.variants.value.size != ""
    ensures StartsWith(GetVariantDisplay(Some(p)), "Size: ")
    ensures GetVariantDisplay(Some(p))[6..] == p.variants.value.size
  {
  }

  /** Every other product shows its brand, or nothing; no product at all shows nothing. */
  lemma BrandLabel(p: Product)
    requires p.category != "mobile" || p.variants.None?
    requires !((p.category == "cloth" || p.category == "shoes") && p.variants.Some? && p.variants.value.size != "")
    ensures GetVariantDisplay(Some(p)) == p.brand
    ensures GetVariantDisplay(None) == ""
  {
  }

  /** What the page renders: the loading view, or the order with the product it features. */
  datatype View = Loading | Details(order: Order, product: Product)

  /** The mount effect's choice: the first product, when there is an order with products. */
  function SelectView(current: Option<Order>): (v: View)
    ensures v.Details? <==> current.Some? && |current.value.products| > 0
    ensures v.Details? ==> v.order == current.value && v.product == current.value.products[0]
  {
    if current.Some? && |current.value.products| > 0 then Details(current.value, current.value.products[0])
    else Loading
  }

  /**
   * Placing an order whose save succeeded and then opening this page features the first
   * product of the cart the order was made from.
   */
  lemma PlacedOrderIsShown(items: map<string, string>, c: Cipher, order: Order, writable: bool)
    requires DecryptInvertsEncrypt(c)
    requires SaveSucceeds(c, order, writable) && |order.products| > 0
    ensures SelectView(ReadOrder(SaveEffect(items, c, order, writable), c)) == Details(order, order.products[0])
  {
    SaveThenRead(items, c, order, writable);
  }

  datatype Navigation = Navigation(path: string, replace: bool)

  class OrderDetailsPage {
    var view: View
    var listening: bool
    var navigations: seq<Navigation>

    constructor ()
      ensures view == Loading && !listening && navigations == []
    {
      view := Loading;
      listening := false;
      navigations := [];
    }

    /** The mount effect: read the current order once and start listening for `popstate`. */
    method Mount(ls: LocalStorage, c: Cipher)
      requires view == Loading
      modifies this
      ensures view == SelectView(GetCurrentOrder(ls, c))
      ensures listening && navigations == old(navigations)
    {
      var current := GetCurrentOrder(ls, c);
      if current.Some? && |current.value.products| > 0 {
        view := Details(current.value, current.value.products[0]);
      }
      listening := true;
    }

    /** The browser's back button: replace the history entry with the home page. */
    method PopState()
      modifies this`navigations
      ensures navigations == if listening then old(navigations) + [Navigation("/", true)] else old(navigations)
    {
      if listening {
        navigations := navigations + [Navigation("/", true)];
      }
    }

    /** The cleanup removes the `popstate` listener. */
    method Unmount()
      modifies this`listening
      ensures !listening
    {
      listening := false;
    }
  }
}

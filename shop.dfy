/**
 * The records the checkout path passes around, and the cart collaborator.
 * The cart module of the storefront (reading the cart, computing its totals, clearing it) is not
 * part of this model; it is reduced to a cart sequence and a totals function passed in.
 * A string field that is missing and one that is empty behave alike in every branch of the
 * code (both are falsy), so "" stands for "absent".
 */
module Shop {
  import opened Wrappers

  /** The variant chosen for a cart line: colour and storage for mobiles, size for cloth and shoes. */
  datatype Variants = Variants(color: string, storage: string, size: string)

  /** A catalog product, which is also what a cart line and an order line hold. */
  datatype Product = Product(
    id: string,
    name: string,
    brand: string,
    category: string,
    variants: Option<Variants>)

  /** The two fields of the cart totals that the checkout pages read. */
  datatype Totals = Totals(totalDiscount: int, finalAmount: int)

  /** The persisted cart, as the cart collaborator presents it. */
  class CartStore {
    var items: seq<Product>

    constructor (items: seq<Product>)
      ensures this.items == items
    {
      this.items := items;
    }

    /** `clearCart()`: the cart becomes empty. */
    method ClearCart()
      modifies this
      ensures items == []
    {
      items := [];
    }
  }
}

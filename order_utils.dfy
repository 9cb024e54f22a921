/**
 * The current-order record store (src/utils/orderUtils.js): one obfuscated localStorage key holds
 * the encrypted order. Saving, reading and clearing fail open: a thrown exception becomes `false`
 * or `None`, never an exception for the caller.
 */
module OrderUtils {
  import opened Wrappers
  import opened Text
  import opened Shop
  import opened Storage

  /** The order record the placement page builds from the cart. */
  datatype Order = Order(
    orderId: string,
    orderDate: string,
    products: seq<Product>,
    totalDiscount: int,
    createdAt: string)

  /**
   * The encryption helpers of the security module, which is not part of this model.
   * `encrypt` gives `None` when it throws or returns a falsy non-string; `Some("")` is the falsy
   * empty string. `decrypt` gives `None` when it throws or yields null.
   */
  datatype Cipher = Cipher(encrypt: Order -> Option<string>, decrypt: string -> Option<Order>)

  /** The assumption the round trip rests on: decryption undoes every successful encryption. */
  ghost predicate DecryptInvertsEncrypt(c: Cipher)
  {
    forall o: Order :: c.encrypt(o).Some? ==> c.decrypt(c.encrypt(o).value) == Some(o)
  }

  /** `btoa('flipme_current_order_2025')`, the single key the order lives under. */
  const OrderStorageKey := "ZmxpcG1lX2N1cnJlbnRfb3JkZXJfMjAyNQ=="

  /** A save stores something exactly when encryption yields a non-empty text and setItem does not throw. */
  predicate SaveSucceeds(c: Cipher, order: Order, writable: bool)
  {
    c.encrypt(order).Some? && c.encrypt(order).value != "" && writable
  }

  /** The storage contents after `saveCurrentOrder(order)`. */
  function SaveEffect(items: map<string, string>, c: Cipher, order: Order, writable: bool): map<string, string>
  {
    if SaveSucceeds(c, order, writable) then items[OrderStorageKey := c.encrypt(order).value] else items
  }

  /** The order `getCurrentOrder()` yields from readable storage holding `items`. */
  function ReadOrder(items: map<string, string>, c: Cipher): Option<Order>
  {
    if OrderStorageKey in items && items[OrderStorageKey] != "" then c.decrypt(items[OrderStorageKey]) else None
  }

  /** `saveCurrentOrder(orderData)`. */
  method SaveCurrentOrder(ls: LocalStorage, c: Cipher, order: Order) returns (saved: bool)
    modifies ls`items
    ensures saved <==> SaveSucceeds(c, order, ls.available && !ls.full)
    ensures saved ==> ls.items == old(ls.items)[OrderStorageKey := c.encrypt(order).value]
    ensures !saved ==> ls.items == old(ls.items)
    ensures ls.items == SaveEffect(old(ls.items), c, order, ls.available && !ls.full)
  {
    var encrypted := c.encrypt(order);
    if encrypted.None? || encrypted.value == "" {
      // encryptData threw, or its result is falsy
      return false;
    }
    saved := ls.SetItem(OrderStorageKey, encrypted.value);
  }

  /** `getCurrentOrder()`. */
  function GetCurrentOrder(ls: LocalStorage, c: Cipher): (r: Option<Order>)
    reads ls
    ensures !ls.available ==> r == None
    ensures ls.available ==> r == ReadOrder(ls.items, c)
    ensures OrderStorageKey !in ls.items ==> r == None
    ensures r.Some? ==> && OrderStorageKey in ls.items
                        && ls.items[OrderStorageKey] != ""
                        && c.decrypt(ls.items[OrderStorageKey]) == r
  {
    match ls.GetItem(OrderStorageKey)
    case Err(_) => None
    case Ok(stored) =>
      if stored.None? || stored.value == "" then None else c.decrypt(stored.value)
  }

  /** `clearCurrentOrder()`: removes the order key and nothing else. */
  method ClearCurrentOrder(ls: LocalStorage) returns (cleared: bool)
    modifies ls`items
    ensures cleared <==> ls.available
    ensures ls.items == if cleared then old(ls.items) - {OrderStorageKey} else old(ls.items)
  {
    cleared := ls.RemoveItem(OrderStorageKey);
  }

  /** Saving then reading gives the saved order back. */
  lemma SaveThenRead(items: map<string, string>, c: Cipher, order: Order, writable: bool)
    requires DecryptInvertsEncrypt(c)
    ensures SaveSucceeds(c, order, writable) ==> ReadOrder(SaveEffect(items, c, order, writable), c) == Some(order)
    ensures !SaveSucceeds(c, order, writable) ==> SaveEffect(items, c, order, writable) == items
  {
  }

  /** After a clear there is no current order, and the clear leaves every other key alone. */
  lemma ClearThenRead(items: map<string, string>, c: Cipher)
    ensures ReadOrder(items - {OrderStorageKey}, c) == None
    ensures forall k :: k in items && k != OrderStorageKey ==> k in items - {OrderStorageKey}
    ensures items - {OrderStorageKey} - {OrderStorageKey} == items - {OrderStorageKey}
  {
  }

  // ----- any sequence of saves and clears -----

  datatype StoreOp = SaveOp(order: Order, writable: bool) | ClearOp

  function Apply(items: map<string, string>, c: Cipher, op: StoreOp): map<string, string>
  {
    match op
    case SaveOp(o, w) => SaveEffect(items, c, o, w)
    case ClearOp => items - {OrderStorageKey}
  }

  function Replay(items: map<string, string>, c: Cipher, ops: seq<StoreOp>): map<string, string>
    decreases |ops|
  {
    if ops == [] then items else Replay(Apply(items, c, ops[0]), c, ops[1..])
  }

  /** The current order as the user sees it: a successful save replaces it, a clear removes it. */
  function Latest(c: Cipher, ops: seq<StoreOp>, current: Option<Order>): Option<Order>
    decreases |ops|
  {
    if ops == [] then current
    else
      var next := match ops[0]
        case SaveOp(o, w) => if SaveSucceeds(c, o, w) then Some(o) else current
        case ClearOp => None;
      Latest(c, ops[1..], next)
  }

  /**
   * Whatever saves and clears happen, reading storage gives the last successfully saved order,
   * or nothing if a clear came after it; failed saves change nothing.
   */
  lemma {:induction false} ReplayReadsLatest(items: map<string, string>, c: Cipher, ops: seq<StoreOp>)
    requires DecryptInvertsEncrypt(c)
    ensures ReadOrder(Replay(items, c, ops), c) == Latest(c, ops, ReadOrder(items, c))
    decreases |ops|
  {
    if ops != [] {
      if ops[0].SaveOp? {
        SaveThenRead(items, c, ops[0].order, ops[0].writable);
      }
      ReplayReadsLatest(Apply(items, c, ops[0]), c, ops[1..]);
    }
  }

  // ----- order ids -----

  /** `Math.floor(Math.random() * 1000)` for the draw `random` of `Math.random()`. */
  function RandomSuffix(random: real): (k: nat)
    requires 0.0 <= random < 1.0
    ensures k < 1000
  {
    (random * 1000.0).Floor
  }

  /** `generateOrderId()`: "OD", the decimal timestamp, then the decimal suffix. */
  function GenerateOrderId(now: nat, random: real): (id: string)
    requires 0.0 <= random < 1.0
    ensures StartsWith(id, "OD") && |id| >= 4 && AllDigits(id[2..])
  {
    var digits := NatToString(now) + NatToString(RandomSuffix(random));
    assert AllDigits(digits);
    "OD" + digits
  }

  /**
   * For timestamps of the same number of digits (every `Date.now()` from 2001 to 2286 has 13), an
   * id determines its timestamp and its suffix.
   */
  lemma OrderIdDetermines(now1: nat, random1: real, now2: nat, random2: real)
    requires 0.0 <= random1 < 1.0 && 0.0 <= random2 < 1.0
    requires |NatToString(now1)| == |NatToString(now2)|
    requires GenerateOrderId(now1, random1) == GenerateOrderId(now2, random2)
    ensures now1 == now2 && RandomSuffix(random1) == RandomSuffix(random2)
  {
    var a, b := NatToString(now1), NatToString(now2);
    var x, y := NatToString(RandomSuffix(random1)), NatToString(RandomSuffix(random2));
    assert GenerateOrderId(now1, random1)[2..] == a + x;
    assert GenerateOrderId(now2, random2)[2..] == b + y;
    ConcatSplit(a, x, b, y);
    NatToStringInjective(now1, now2);
    NatToStringInjective(RandomSuffix(random1), RandomSuffix(random2));
  }

  /** Across timestamp lengths the concatenation is ambiguous: two different draws give "OD123". */
  lemma OrderIdsCanCollide()
    ensures GenerateOrderId(1, 0.023) == GenerateOrderId(12, 0.0035) == "OD123"
  {
    assert RandomSuffix(0.023) == 23 && RandomSuffix(0.0035) == 3;
    assert NatToString(23) == "23";
    assert NatToString(12) == "12";
  }
}

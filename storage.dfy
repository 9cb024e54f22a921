/**
 * The browser's `localStorage`, the one store the checkout path persists to.
 * Every access can throw: `available` is false when the browser refuses access to storage
 * (then getItem, setItem and removeItem all throw) and `full` is true when the quota is used
 * up (then setItem throws). A thrown exception is an `Err` result or a `false` return here.
 */
module Storage {
  import opened Wrappers

  class LocalStorage {
    var items: map<string, string>
    var available: bool
    var full: bool

    constructor (initial: map<string, string>, available: bool, full: bool)
      ensures items == initial && this.available == available && this.full == full
    {
      items := initial;
      this.available := available;
      this.full := full;
    }

    /** `getItem(key)`: `Ok(None)` is JavaScript's `null` for a missing key. */
    function GetItem(key: string): (r: Result<Option<string>>)
      reads this
      ensures r.Err? <==> !available
      ensures r.Ok? ==> (r.data.Some? <==> key in items)
      ensures r.Ok? && r.data.Some? ==> r.data.value == items[key]
    {
      if !available then Err("SecurityError")
      else if key in items then Ok(Some(items[key]))
      else Ok(None)
    }

    /** `setItem(key, value)`; `ok` is false exactly when the call throws. */
    method SetItem(key: string, value: string) returns (ok: bool)
      modifies this`items
      ensures ok <==> available && !full
      ensures items == if ok then old(items)[key := value] else old(items)
    {
      ok := available && !full;
      if ok {
        items := items[key := value];
      }
    }

    /** `removeItem(key)`: removing a missing key is not an error. */
    method RemoveItem(key: string) returns (ok: bool)
      modifies this`items
      ensures ok <==> available
      ensures items == if ok then old(items) - {key} else old(items)
    {
      ok := available;
      if ok {
        items := items - {key};
      }
    }
  }
}

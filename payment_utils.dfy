/** The payment-flow helpers (src/utils/paymentUtils.js) that do not touch the DOM. */
module PaymentUtils {
  import opened Wrappers
  import opened Text
  import opened Storage

  /** The alternatives of `/^(upi|phonepe|paytmmp|gpay):/`. */
  const UpiSchemes: seq<string> := ["upi", "phonepe", "paytmmp", "gpay"]

  /** The user-agent tokens of the mobile test, matched ignoring case. */
  const MobileTokens: seq<string> :=
    ["Android", "iPhone", "iPad", "iPod", "BlackBerry", "IEMobile", "Opera Mini"]

  const PaymentInProgressKey := "paymentInProgress"

  /** `validateUPIUrl(url)`: the text before the first colon is one of the UPI schemes. */
  predicate ValidateUPIUrl(url: string)
  {
    var colon := IndexOf(url, ':');
    colon >= 0 && url[..colon] in UpiSchemes
  }

  /** The check is the anchored, case-sensitive pattern: the url starts with a scheme and a colon. */
  lemma ValidateUPIUrlIff(url: string)
    ensures ValidateUPIUrl(url) <==> exists i :: 0 <= i < |UpiSchemes| && StartsWith(url, UpiSchemes[i] + ":")
  {
    var colon := IndexOf(url, ':');
    if ValidateUPIUrl(url) {
      var i :| 0 <= i < |UpiSchemes| && UpiSchemes[i] == url[..colon];
      assert url[..colon + 1] == url[..colon] + ":";
      assert StartsWith(url, UpiSchemes[i] + ":");
    }
    if i :| 0 <= i < |UpiSchemes| && StartsWith(url, UpiSchemes[i] + ":") {
      var s := UpiSchemes[i];
      assert ':' !in s;
      assert url == s + [':'] + url[|s| + 1..];
      IndexOfAfter(s, ':', url[|s| + 1..]);
      assert url[..colon] == s;
    }
  }

  /** `isUPISupported()` on the given user agent: it holds one of the mobile tokens, in any case. */
  predicate IsUPISupported(userAgent: string)
  {
    exists i | 0 <= i < |MobileTokens| :: Contains(ToLower(userAgent), ToLower(MobileTokens[i]))
  }

  /** Changing the case of the user agent does not change the answer. */
  lemma IsUPISupportedIgnoresCase(userAgent: string)
    ensures IsUPISupported(ToLower(userAgent)) <==> IsUPISupported(userAgent)
  {
    ToLowerIdempotent(userAgent);
  }

  /** A user agent that contains a supported one is supported. */
  lemma IsUPISupportedInContext(x: string, userAgent: string, y: string)
    ensures IsUPISupported(userAgent) ==> IsUPISupported(x + userAgent + y)
  {
    if IsUPISupported(userAgent) {
      var i :| 0 <= i < |MobileTokens| && Contains(ToLower(userAgent), ToLower(MobileTokens[i]));
      ToLowerAppend(x, userAgent);
      ToLowerAppend(x + userAgent, y);
      ContainsInContext(ToLower(x), ToLower(userAgent), ToLower(y), ToLower(MobileTokens[i]));
    }
  }

  /**
   * `handlePaymentSuccess(data)`: removes the in-progress marker. The call is not guarded, so
   * `ok` is false when removeItem throws to the caller.
   */
  method HandlePaymentSuccess(ls: LocalStorage) returns (ok: bool)
    modifies ls`items
    ensures ok <==> ls.available
    ensures ls.items == if ok then old(ls.items) - {PaymentInProgressKey} else old(ls.items)
  {
    ok := ls.RemoveItem(PaymentInProgressKey);
  }

  /** `handlePaymentFailure(error)`: the same storage effect as a success. */
  method HandlePaymentFailure(ls: LocalStorage) returns (ok: bool)
    modifies ls`items
    ensures ok <==> ls.available
    ensures ls.items == if ok then old(ls.items) - {PaymentInProgressKey} else old(ls.items)
  {
    ok := ls.RemoveItem(PaymentInProgressKey);
  }
}

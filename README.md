# Storefront checkout path, modelled in Dafny

This project models the checkout path of a React storefront. The path starts when the cart is
turned into an order. The shopper is then handed off to a UPI payment app, the page waits for
the payment, and the order details page opens. The model also covers the helper rules around
that path:

- the current-order record kept in `localStorage`;
- the order-placed page and its three timers;
- the UPI option list, its deep links and the page-leave listeners of the payment component;
- the reusable page-leave hook;
- the payment-wait page, with its countdown, fallback counter and grace timer;
- the sale banner countdown, anchored in `localStorage`;
- the home page product grid: shuffling, paging by six, saving to and restoring from session storage;
- the catalog API: lookup, category filter, search, the fixed-window rate limiter and the
  rate-limited front;
- the payment helpers, and the order details page (variant label, first product, back button).

## Shape of the model

- Each source file has its own module: `OrderUtils`, `OrderPlaced`, `UpiPaymentOptions`,
  `PageLeaveDetection`, `PayWaiting`, `SaleCountdown`, `ProductGrid`, `MockApi`, `PaymentUtils`
  and `OrderDetails`.
- Shared modules:
  - `Wrappers`: `Option` stands for `null`; `Result` stands for the `{ success, data, error }` responses.
  - `Text`: the JavaScript string operations used.
  - `Storage`: `localStorage` as a class over a `map<string, string>`, with flags for
    "access refused" and "quota full", so every call that can throw has an error path.
  - `Timers`: a queue of pending `setTimeout` callbacks.
  - `Shop`: products, totals and the cart.
- Components whose handlers update state are classes.
  - Their fields are the React state, the refs, the pending timers and logs of navigations
    and effects.
  - Each event (mount, click, `visibilitychange`, `blur`, `focus`, `pagehide`, a timer firing,
    unmount) is a method.
  - Each method's `ensures` gives the whole new state. For the two listener machines this is
    written as `State() == old(State()).(...)`.
- Scenario methods such as `OrderPlaced.LeaveEarly`, `PageLeaveDetection.BlurThenHideLeaksCheck`
  and `PayWaiting.ReturnAfter` drive a fresh object through a sequence of events. They prove what
  the shopper observes at the end.
- Inputs that cannot be modelled directly are parameters:
  - the clock (`Date.now()`, as a natural number);
  - draws of `Math.random()` (reals in `[0, 1)`);
  - what the catalog import produced (`None` when it or its validation threw);
  - the cart-totals function;
  - the order cipher.
- The security module's `encryptData`/`decryptData` become a `Cipher` of two functions. The
  round-trip lemmas take `DecryptInvertsEncrypt` explicitly as a `requires`.
- Case folding is ASCII. A string field that is missing and one that is empty are both `""`,
  because every branch of the code treats them alike (both are falsy).

## Where the model follows the code rather than the documented behaviour

- The order-placed page's redirect timer clears the cart even when saving the order failed. The
  result of `saveCurrentOrder` is never checked (`OrderPlaced.PlaceWithFullStorage`).
- On the payment-wait page the "returned to page" flag latches. The 28 s grace timer is armed
  once; later tab switches neither re-arm it nor cancel it (`PayWaiting.ReturnAfter`).
- In the UPI payment component neither the 1000 ms visibility timer nor the 2000 ms blur timer
  is ever cleared. They fire even after the shopper came back, and even after unmount
  (`UpiPaymentOptions.PayAndSwitchApps`).
- The sale countdown does not catch storage errors. A refused read or write stops the mount
  effect or the tick (`crashed`), while a full quota does not stop a countdown that never has
  to write (`SaleCountdown.CountdownWithFullStorage`). A stored anchor that does not parse gives a `NaN` time left that never recovers
  (`SaleCountdown.TickInRange`).
- The page-leave hook has a single `timeoutId` slot. After a blur and then a hidden page, coming
  back cancels only the later timer (`PageLeaveDetection.BlurThenHideLeaksCheck`).

## Model

| member | source | states |
|---|---|---|
| OrderUtils.SaveCurrentOrder | src/utils/orderUtils.js:8-20 | returns true exactly when encryption yields a non-empty text and `setItem` does not throw; then only the order key is set, to that text; otherwise storage is unchanged and false is returned instead of an exception |
| OrderUtils.GetCurrentOrder | src/utils/orderUtils.js:23-34 | no order when storage cannot be read or the key is missing or empty; otherwise exactly the decryption of the stored text (no order when decryption fails) |
| OrderUtils.ClearCurrentOrder | src/utils/orderUtils.js:37-45 | true exactly when storage is accessible, and then only the order key is removed; otherwise nothing changes and false is returned |
| OrderUtils.SaveThenRead | src/utils/orderUtils.js:8-29 | if decryption inverts encryption, a successful save reads back as the saved order, and a failed save leaves storage as it was |
| OrderUtils.ClearThenRead | src/utils/orderUtils.js:37-45 | after a clear no order is read, every other key survives, and a second clear changes nothing |
| OrderUtils.ReplayReadsLatest | src/utils/orderUtils.js:8-45 | after any sequence of saves and clears, the order read is the last successfully saved one, or none if a clear came after it; failed saves change nothing |
| OrderUtils.RandomSuffix | src/utils/orderUtils.js:49 | the random suffix is below 1000 |
| OrderUtils.GenerateOrderId | src/utils/orderUtils.js:48-50 | an id is "OD" followed by at least two decimal digits |
| OrderUtils.OrderIdDetermines | src/utils/orderUtils.js:48-50 | when the timestamps print with the same number of digits, equal ids mean equal timestamps and equal suffixes |
| OrderUtils.OrderIdsCanCollide | src/utils/orderUtils.js:49 | across timestamp lengths ids are ambiguous: timestamp 1 with suffix 23 and timestamp 12 with suffix 3 both give "OD123" |
| Storage.LocalStorage.GetItem | src/utils/orderUtils.js:25 | fails exactly when storage access is refused; otherwise gives the stored value, or nothing for a missing key |
| Storage.LocalStorage.SetItem | src/utils/orderUtils.js:12 | succeeds exactly when storage is accessible and not full; it then sets that one key, otherwise storage is unchanged |
| Storage.LocalStorage.RemoveItem | src/utils/orderUtils.js:39 | succeeds exactly when storage is accessible; it then removes that one key, and removing a missing key is no error |
| Shop.CartStore.ClearCart | src/pages/OrderPlaced.jsx:40 | the cart becomes empty |
| OrderPlaced.OrderPlacedPage.constructor | src/pages/OrderPlaced.jsx:10-14 | the first render shows neither heading nor subtext, shows a discount of 0, and has no timers |
| OrderPlaced.OrderPlacedPage.Mount | src/pages/OrderPlaced.jsx:16-35 | a non-empty cart becomes an order whose products are exactly the cart and whose discount is the totals' discount, saved with the effect of `saveCurrentOrder`; an empty cart leaves storage unchanged; the totals' discount is shown; all three timers become pending; nothing is revealed yet |
| OrderPlaced.OrderPlacedPage.AdvanceTo | src/pages/OrderPlaced.jsx:34-43 | the pending timers due by the new time run: the heading appears from 1000 ms, the subtext from 1500 ms; the redirect at 3000 ms empties the cart and then records `cartUpdated` and the navigation to "/details/", in that order, whatever the save did; nothing else changes |
| OrderPlaced.OrderPlacedPage.Unmount | src/pages/OrderPlaced.jsx:45-49 | the cleanup leaves no timer pending |
| OrderPlaced.PlaceWithFullStorage | src/pages/OrderPlaced.jsx:19-43 | with storage full, after 3000 ms the cart is cleared and the page has navigated, yet no order is stored |
| OrderPlaced.LeaveEarly | src/pages/OrderPlaced.jsx:34-49 | leaving before 3000 ms keeps the cart and navigates nowhere, however much later it is observed; the heading was shown exactly when the page was left at 1000 ms or later |
| UpiPaymentOptions.LinkRoundTrip | src/components/payment/UPIPaymentOptions.jsx:99-101 | for a scheme without ':', a link carries its scheme (the text before the first ':') and the cart total (the number after the last '=') intact |
| UpiPaymentOptions.TableLinksValidate | src/components/payment/UPIPaymentOptions.jsx:121-146 | the link built from every option of the table passes `validateUPIUrl` |
| UpiPaymentOptions.OneButtonForSelection | src/components/payment/UPIPaymentOptions.jsx:175-206 | exactly one pay button is rendered when the selection is an option id, with scheme "phonepe" for PhonePe, "paytmmp" for Paytm and "upi" otherwise; none for any other selection; the initial selection "upi" is an option |
| UpiPaymentOptions.PaymentHandoff.constructor | src/components/payment/UPIPaymentOptions.jsx:13-48 | mounting: "upi" is selected, the flag and its ref are clear, the listeners are registered, and there are no timers, launches or navigations |
| UpiPaymentOptions.PaymentHandoff.Select | src/components/payment/UPIPaymentOptions.jsx:179 | only the selection changes |
| UpiPaymentOptions.PaymentHandoff.PayClick | src/components/payment/UPIPaymentOptions.jsx:104-119 | the flag ends set and the link for the selected scheme and current total is launched; if assigning the location throws, the flag ends clear and nothing is launched |
| UpiPaymentOptions.PaymentHandoff.Commit | src/components/payment/UPIPaymentOptions.jsx:34-37 | the ref takes the flag's value; nothing else changes |
| UpiPaymentOptions.PaymentHandoff.CartUpdated | src/components/payment/UPIPaymentOptions.jsx:39-48 | while mounted the total is replaced by the new one; after unmount nothing changes |
| UpiPaymentOptions.PaymentHandoff.VisibilityChange | src/components/payment/UPIPaymentOptions.jsx:52-60 | hiding while mounted with the ref set appends one redirect timer due in 1000 ms; every other event only records the visibility |
| UpiPaymentOptions.PaymentHandoff.PageHide | src/components/payment/UPIPaymentOptions.jsx:62-67 | with the ref set it navigates to "/pay/" at once; otherwise nothing changes |
| UpiPaymentOptions.PaymentHandoff.Blur | src/components/payment/UPIPaymentOptions.jsx:69-79 | the window loses focus; with the ref set a check due in 2000 ms is appended |
| UpiPaymentOptions.PaymentHandoff.Focus | src/components/payment/UPIPaymentOptions.jsx:74 | only the focus that `document.hasFocus()` reports changes; no timer is cancelled |
| UpiPaymentOptions.PaymentHandoff.FireTimer | src/components/payment/UPIPaymentOptions.jsx:52-79 | the earliest timer runs and leaves the queue: the visibility redirect always navigates to "/pay/", the blur check only when the page is then hidden or unfocused |
| UpiPaymentOptions.PaymentHandoff.Unmount | src/components/payment/UPIPaymentOptions.jsx:87-91 | the listeners are removed; pending timers stay scheduled |
| UpiPaymentOptions.UntouchedPageStays | src/components/payment/UPIPaymentOptions.jsx:52-79 | without a click, hiding, blurring and page hide schedule nothing and navigate nowhere |
| UpiPaymentOptions.PayAndSwitchApps | src/components/payment/UPIPaymentOptions.jsx:99-119 | a click launches the "upi" link with the cart total; hiding and coming straight back still lands on "/pay/" exactly once, because the timer is never cleared |
| PaymentUtils.ValidateUPIUrlIff | src/utils/paymentUtils.js:61-65 | a url is valid exactly when it starts with "upi:", "phonepe:", "paytmmp:" or "gpay:", case-sensitively |
| PaymentUtils.IsUPISupportedIgnoresCase | src/utils/paymentUtils.js:7-15 | changing the case of the user agent does not change the answer |
| PaymentUtils.IsUPISupportedInContext | src/utils/paymentUtils.js:7-15 | a user agent that contains a supported one is supported, so the token may sit anywhere |
| PaymentUtils.HandlePaymentSuccess | src/utils/paymentUtils.js:99-108 | removes the "paymentInProgress" key and nothing else; when storage access is refused it fails and nothing changes |
| PaymentUtils.HandlePaymentFailure | src/utils/paymentUtils.js:114-123 | the same storage effect as a success |
| PageLeaveDetection.DetectionDelay | src/hooks/usePageLeaveDetection.js:13-17 | the detection delay defaults to 1000 ms |
| PageLeaveDetection.PageLeaveHook.constructor | src/hooks/usePageLeaveDetection.js:13-27 | the hook holds its redirect path and delay; the action ref is clear, the slot is undefined, and there are no timers or navigations |
| PageLeaveDetection.PageLeaveHook.ActionChanged | src/hooks/usePageLeaveDetection.js:22-24 | the ref takes the new `actionPerformed`; nothing else changes |
| PageLeaveDetection.PageLeaveHook.ResetAction | src/hooks/usePageLeaveDetection.js:84-87 | the ref becomes false; nothing else changes |
| PageLeaveDetection.PageLeaveHook.Arm | src/hooks/usePageLeaveDetection.js:32-34 | arming appends a timer and overwrites the slot with its handle |
| PageLeaveDetection.PageLeaveHook.ClearSlot | src/hooks/usePageLeaveDetection.js:61-63 | only the timer whose handle is in the slot is cancelled, and the slot keeps that stale handle |
| PageLeaveDetection.PageLeaveHook.VisibilityChange | src/hooks/usePageLeaveDetection.js:30-39 | hiding with the ref set arms a redirect after the delay; becoming visible with a handle in the slot cancels that timer; otherwise only the visibility is recorded |
| PageLeaveDetection.PageLeaveHook.PageHide | src/hooks/usePageLeaveDetection.js:42-46 | with the ref set it navigates to the redirect path at once; otherwise nothing changes |
| PageLeaveDetection.PageLeaveHook.Blur | src/hooks/usePageLeaveDetection.js:49-57 | with the ref set it arms a check after twice the delay, in the slot |
| PageLeaveDetection.PageLeaveHook.Focus | src/hooks/usePageLeaveDetection.js:60-64 | regaining focus cancels the slot's timer, if any |
| PageLeaveDetection.PageLeaveHook.FireTimer | src/hooks/usePageLeaveDetection.js:30-57 | the earliest timer runs and leaves the queue: the hidden redirect always navigates, the blur check only when the page is hidden or unfocused |
| PageLeaveDetection.PageLeaveHook.Teardown | src/hooks/usePageLeaveDetection.js:73-81 | the slot's timer is cancelled and the listeners are removed |
| PageLeaveDetection.BlurThenHideLeaksCheck | src/hooks/usePageLeaveDetection.js:27-64 | after blur, hide, show and focus, the blur check is still pending, because the single slot only remembered the later timer |
| PageLeaveDetection.ResetSilencesHook | src/hooks/usePageLeaveDetection.js:84-87 | after `resetAction`, hiding, blurring and page hide navigate nowhere and leave no timer |
| PayWaiting.FormatTimeRoundTrip | src/pages/PayWaiting.jsx:74-78 | the clock face has at least two digits before the colon and exactly two after; read back, minutes times 60 plus seconds is the input, and the seconds are below 60 |
| PayWaiting.CountdownAfter | src/pages/PayWaiting.jsx:36-48 | after n ticks the countdown shows the start minus n, held at 0 and never negative |
| PayWaiting.PayWaitingPage.constructor | src/pages/PayWaiting.jsx:8-19 | the countdown starts at 300, the fallback at 123 and the flag clear; the amount is read once here and fixed afterwards |
| PayWaiting.PayWaitingPage.VisibilityChange | src/pages/PayWaiting.jsx:22-33 | the first visible event while mounted latches the flag and arms the grace timer for 28 s later; hidden events, and every event after that, arm nothing |
| PayWaiting.PayWaitingPage.Tick | src/pages/PayWaiting.jsx:36-72 | one second passes: the countdown steps down, stopping at 0; the fallback drops by one; the page leaves for "/success" exactly when the fallback reaches 0 or the grace timer falls due, and then every interval and timeout is gone |
| PayWaiting.PayWaitingPage.Unmount | src/pages/PayWaiting.jsx:47-70 | both intervals and the grace timeout are cleared |
| PayWaiting.NeverReturning | src/pages/PayWaiting.jsx:51-61 | a shopper who never comes back is sent to "/success" once, after 123 s, with 177 s still on the countdown |
| PayWaiting.ReturnAfter | src/pages/PayWaiting.jsx:64-72 | coming back after k s, then switching tabs every second, still leaves once, at k + 28 s or at 123 s, whichever is earlier |
| SaleCountdown.ResolveStoredAnchor | src/components/ui/SaleCountdown.jsx:15-27 | a stored anchor with elapsed time from 0 up to the duration is kept, and the time left is the rest of the duration; once the duration has passed the anchor is rewritten to now and the full duration is left |
| SaleCountdown.ResolveInRange | src/components/ui/SaleCountdown.jsx:9-32 | after mounting with no anchor or a parsable one not in the future, the time left is between 1 and the duration |
| SaleCountdown.ReloadContinues | src/components/ui/SaleCountdown.jsx:9-32 | the first mount writes now as the anchor; a reload before the duration has passed continues from it |
| SaleCountdown.TickInRange | src/components/ui/SaleCountdown.jsx:34-43 | a tick keeps the time left between 1 and the duration, wrapping at 1; a `NaN` time left stays `NaN` |
| SaleCountdown.DisplaySplits | src/components/ui/SaleCountdown.jsx:48-52 | the hours, minutes and seconds shown are decimals of at least two digits that add back up to the time left, with minutes and seconds below 60 |
| SaleCountdown.SaleCountdownBanner.constructor | src/components/ui/SaleCountdown.jsx:6-7 | the duration defaults to 3600 s, and the time left starts at the duration |
| SaleCountdown.SaleCountdownBanner.Mount | src/components/ui/SaleCountdown.jsx:9-34 | when the read succeeds and any anchor write succeeds, the time left and the anchor written are what the resolution of the stored anchor at the current second gives, and the interval starts; a read that throws, or a needed write that throws, stops the effect with the time left unchanged, no interval and `crashed` set; keeping a current anchor writes nothing, so a full quota does not matter then |
| SaleCountdown.SaleCountdownBanner.Tick | src/components/ui/SaleCountdown.jsx:34-43 | the time left takes one interval step; only a wrap writes the current second as the new anchor, and a wrap whose write throws leaves the time left as it was and sets `crashed`; a tick that does not wrap never touches storage |
| SaleCountdown.CountdownWithFullStorage | src/components/ui/SaleCountdown.jsx:9-43 | with a full quota and a current stored anchor the banner mounts and counts down to 1 without error; only the wrapping tick fails, and the time left stays 1 |
| SaleCountdown.SaleCountdownBanner.Unmount | src/components/ui/SaleCountdown.jsx:45 | the interval stops |
| ProductGrid.PickIndex | src/components/ui/ProductGrid.jsx:18 | the swap partner of position i is at most i |
| ProductGrid.ShuffleArray | src/components/ui/ProductGrid.jsx:15-22 | the shuffle returns a permutation of its input, of the same length; the input sequence is a value and is not changed |
| ProductGrid.SnapshotRestores | src/components/ui/ProductGrid.jsx:60-91 | a grid saved by this page restores exactly when it is under 30 minutes old and was saved on "/dsghr763wdsvfht"; one saved on "/" never restores |
| ProductGrid.NextPage | src/components/ui/ProductGrid.jsx:234-252 | appending the next slice of six to the first page*6 products gives the first (page+1)*6 products |
| ProductGrid.Grid.constructor | src/components/ui/ProductGrid.jsx:26-32 | the first render is loading, shows nothing, is on page 0 and expects more, whatever the session slot holds |
| ProductGrid.Grid.LoadInitial | src/components/ui/ProductGrid.jsx:185-219 | a loaded catalog becomes a permutation of itself, of which the first six are shown, on page 1, with more expected exactly when there are over six; a failed load sets the error and keeps the lists; the saved state is cleared either way |
| ProductGrid.Grid.LoadMore | src/components/ui/ProductGrid.jsx:221-259 | does nothing while loading or when nothing more is expected; an empty slice only clears `hasMore`; otherwise it appends the next six, advances the page and expects more exactly when products lie beyond; a shown list that was the prefix of length min(6*page, n) stays one |
| ProductGrid.Grid.Restore | src/components/ui/ProductGrid.jsx:60-91 | restores exactly when a parsed saved grid passes the freshness test, and then takes over both lists, the page and the flag as they were saved, whatever their shape; otherwise nothing changes |
| ProductGrid.Grid.Activate | src/components/ui/ProductGrid.jsx:142-154 | on a home path a fresh saved grid is restored (both lists, the page and the flag as saved, loading done, error cleared), or else the catalog loads afresh with the whole new state of a load, success or failure; on any other path no field changes |
| ProductGrid.Grid.SaveGridState | src/components/ui/ProductGrid.jsx:41-57 | a writable session slot gets the snapshot of the grid; a write that throws leaves it as it was |
| ProductGrid.Grid.SaveIfNeeded | src/components/ui/ProductGrid.jsx:157-161 | the grid is saved exactly when it is loaded, shows something, is on a home path and the write does not throw; otherwise the slot is unchanged |
| ProductGrid.Grid.SaveOnLeave | src/components/ui/ProductGrid.jsx:164-184 | leaving the page saves the grid whenever it shows something on a home path, even while loading |
| ProductGrid.ScrollThrough | src/components/ui/ProductGrid.jsx:185-259 | after the first load and k further loads, min(6*(k+1), n) products are shown, and more is expected exactly when some are not shown yet |
| MockApi.CatalogCache.constructor | src/api/mockApi.js:5 | the cache starts empty |
| MockApi.CatalogCache.InitializeData | src/api/mockApi.js:9-46 | a filled cache is returned unchanged; otherwise the load runs, and the imported products, or `[]` when the import or its validation threw, are cached and returned |
| MockApi.FailedLoadSticks | src/api/mockApi.js:9-46 | after a failed first load every later call returns the empty catalog, whatever a later import would give |
| MockApi.FailedLoadAnswers | src/api/mockApi.js:32-38 | on the fallback catalog `getProducts`, `getProductsByCategory` and `searchProducts` succeed with no products, and `getProductById` answers "Product not found" |
| MockApi.Filter | src/api/mockApi.js:119-121 | the filtered list holds each element that satisfies the test exactly as often as the input does, and no other element |
| MockApi.FilterInOrder | src/api/mockApi.js:119-121 | the filtered list is the subsequence of the input at exactly the positions whose element satisfies the test, in increasing order |
| MockApi.GetProducts | src/api/mockApi.js:51-68 | always succeeds, with the catalog `initializeData` returned |
| MockApi.FindById | src/api/mockApi.js:82 | finds the first position whose id matches, or reports that none matches |
| MockApi.GetProductById | src/api/mockApi.js:71-105 | an empty id fails with "Product ID is required"; otherwise the call gives the first product with that id, or fails with "Product not found" exactly when there is none |
| MockApi.GetProductsByCategory | src/api/mockApi.js:108-136 | an empty category fails with "Category is required"; otherwise the call succeeds with the catalog products whose category is present and equal ignoring case, each as often as in the catalog, as the subsequence of the catalog at exactly their positions |
| MockApi.CategoryIgnoresCase | src/api/mockApi.js:119-121 | lowering the case of the category does not change the result |
| MockApi.SearchProducts | src/api/mockApi.js:139-187 | a non-string or empty query fails with "Search query is required", and every other query succeeds; a blank trimmed term gives no results; otherwise the results are the products with a present name, brand or category whose lowercase form contains the lowered, trimmed query, each as often as in the catalog, as the subsequence of the catalog at exactly their positions |
| MockApi.BlankQueryFindsNothing | src/api/mockApi.js:150-158 | a non-empty query made only of white space succeeds with no results |
| MockApi.SearchIgnoresCase | src/api/mockApi.js:150 | lowering the case of the query does not change the result |
| MockApi.WindowKeyReadsBack | src/api/mockApi.js:197-222 | for an endpoint without '_', the window that cleanup parses back from a counter key is the window the key was made for |
| MockApi.CurrentWindowSurvives | src/api/mockApi.js:218-226 | cleanup never deletes the counter of the current window |
| MockApi.RateLimiter.constructor | src/api/mockApi.js:192 | the limiter starts with no counters |
| MockApi.RateLimiter.Cleanup | src/api/mockApi.js:218-230 | deletes exactly the keys whose parsed window is below floor((now - window) / window), keeps the others with their counts, and keeps keys whose window does not parse |
| MockApi.RateLimiter.IsAllowed | src/api/mockApi.js:194-216 | refuses without counting exactly when the window's count has reached the limit; otherwise it counts the call (in one random draw out of ten it then cleans up) and allows it; for an endpoint without '_' the window's count goes up by exactly one; the new counters are `AfterCall` of the old ones |
| MockApi.CallsWithinWindow | src/api/mockApi.js:194-211 | within one window at most `limit` calls for an endpoint are allowed, and all of them are allowed while there are no more than `limit` |
| MockApi.ProtectedGetProducts | src/api/mockApi.js:235-245 | a rate-limited call fails with the rate-limit message without reaching the catalog; otherwise it is `getProducts`; either way the counters become those of one `isAllowed("getProducts")` call |
| MockApi.ProtectedGetProductById | src/api/mockApi.js:247-257 | the same gate in front of `getProductById`, with the counters of one `isAllowed("getProductById")` call |
| MockApi.ProtectedGetProductsByCategory | src/api/mockApi.js:259-269 | the same gate in front of `getProductsByCategory`, with the counters of one `isAllowed("getProductsByCategory")` call |
| MockApi.ProtectedSearchProducts | src/api/mockApi.js:271-281 | the same gate in front of `searchProducts`, with the counters of one `isAllowed("searchProducts")` call |
| OrderDetails.MobileLabel | src/pages/OrderDetails.jsx:39-44 | a phone's label is its colour and storage joined by ", ", leaving out the absent ones; it is empty exactly when both are absent, and it never depends on the brand |
| OrderDetails.SizedLabel | src/pages/OrderDetails.jsx:46-48 | clothes and shoes with a size are labelled "Size: " followed by the size |
| OrderDetails.BrandLabel | src/pages/OrderDetails.jsx:36-51 | every other product is labelled with its brand, and no product at all with "" |
| OrderDetails.SelectView | src/pages/OrderDetails.jsx:15-19 | the details view appears exactly when there is an order with products, and features its first product; otherwise the page stays on the loading view |
| OrderDetails.PlacedOrderIsShown | src/pages/OrderDetails.jsx:13-19 | after a successful save of an order with products, this page features the order's first product |
| OrderDetails.OrderDetailsPage.constructor | src/pages/OrderDetails.jsx:10-11 | the first render shows the loading view |
| OrderDetails.OrderDetailsPage.Mount | src/pages/OrderDetails.jsx:13-33 | the view is the selection made from the current order, and the back-button listener is registered |
| OrderDetails.OrderDetailsPage.PopState | src/pages/OrderDetails.jsx:22-24 | while listening, the back button navigates to "/" replacing the history entry |
| OrderDetails.OrderDetailsPage.Unmount | src/pages/OrderDetails.jsx:30-32 | the listener is removed |
| Timers.Cancel | src/hooks/usePageLeaveDetection.js:37 | `clearTimeout` drops exactly the timer with that handle and keeps every other one |
| Text.ToLower | src/api/mockApi.js:120 | lowercasing keeps the length and folds each character |
| Text.Trim | src/api/mockApi.js:150 | the trimmed text is an infix of the input with no white space at either end, and it is empty exactly when the input is all white space |
| Text.ContainsIff | src/api/mockApi.js:170 | `includes` holds exactly when the term occurs at some position |
| Text.PaddedValue | src/components/ui/SaleCountdown.jsx:48 | a number padded to two digits still denotes the number |
| Text.ParseIntToString | src/components/ui/SaleCountdown.jsx:16 | `parseInt` of a number written as text gives the number back |

## Left out

- `formatOrderDate` and `new Date().toISOString()` call the locale and date library. The order's `orderDate` and `createdAt` are string parameters.
- The security module, the cart module and the product utilities are not part of this model.
  - Encryption is the `Cipher` parameter, with the `DecryptInvertsEncrypt` assumption.
  - The cart is a `CartStore` sequence; its totals are a function parameter.
- JSON serialisation of the order and of the saved grid is left out. The session slot holds a value, or `Corrupt` for text that does not parse.
- These browser and router side effects are reduced to logs of links, paths and effects:
  - `navigate`;
  - assignment to `window.location.href`;
  - `window.dispatchEvent`;
  - registering and removing listeners.
- React rendering is not modelled.
  - State updates are applied at once, without batching.
  - The ref effect of the payment component is the explicit `Commit` event.
  - The 500 ms wait inside `loadMoreProducts` is not modelled; a load happens in one step.
- The home grid leaves out:
  - the IntersectionObserver that triggers `loadMoreProducts` (its call is the `LoadMore` event);
  - scroll position saving and restoring, and `isNavigatingBack`;
  - the performance monitor.
- ProductGrid.Grid.SaveOnLeave: models the `visibilitychange` handler only for a hidden page. Its visible case does nothing.
- The catalog loader's in-flight promise (`dataLoadPromise`), which only matters for concurrent calls, and the dynamic import itself are not modelled. The import's outcome is a parameter, `None` when it or its validation threw.
- The endpoints are functions of the catalog `initializeData` returned. That `getProductById`, `getProductsByCategory` and `searchProducts` check their argument before loading, and so leave the cache empty on a bad argument, is not modelled.
- Catalog entries that are `null` are not modelled, and neither are ids or categories of non-string types. The search query's non-string case is modelled.
- MockApi.RateLimiter.Cleanup: a key's window is parsed as decimal. The source's `parseInt` without a radix would read a "0x" field as hexadecimal, but every key the limiter makes has a decimal field.
- Floating point is not modelled.
  - Amounts are integers, and `toLocaleString` formatting is left out.
  - So are the countdown circle percentage and `formatAmountForUPI`'s `toFixed(2)`.
- `openPaymentApp` (a hidden iframe), `createPaymentTrackingData` (reads `navigator` and `document`) and all console output are DOM I/O or logging.
- Effects re-running when their dependencies change are not modelled, for example a new `duration`, `redirectPath` or `detectionDelay`. Each object is built with fixed parameters.
- The page-leave hook's `navigate` is a log entry. Whether its host unmounts afterwards depends on the host and is not modelled.
- PayWaiting.PayWaitingPage.Tick: time is whole seconds with both intervals ticking in step, the countdown's handler first. A grace timer falling due between two ticks runs just after the tick it falls on, so sub-second interleavings are not modelled.
- SaleCountdown.SaleCountdownBanner.Mount: a storage call that throws sets `crashed`. What React does with the uncaught error afterwards is not modelled.
- SaleCountdown.SaleCountdownBanner.Tick: the same holds for a wrap whose write throws.
- ProductGrid.ShuffleArray: states that the result is a permutation. It does not state which arrangement a given sequence of draws produces.
- OrderPlaced.OrderPlacedPage.Mount: `calculateCartTotals` is one function of the cart, so its two calls in the mount effect agree.
- OrderUtils.GenerateOrderId: the timestamp is a natural number. Clocks before 1970 are not modelled.

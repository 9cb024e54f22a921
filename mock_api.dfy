/**
 * The catalog API (src/api/mockApi.js): the cached catalog loader, lookups over the loaded
 * catalog, a fixed-window rate limiter kept in a map, and the rate-limited front the pages call.
 */
module MockApi {
  import opened Wrappers
  import opened Text
  import opened Shop

  // ----- the catalog loader -----

  /**
   * What one run of the loader yields: the imported products, or the `{ products: [] }`
   * fallback when the import or its validation threw (`imported` is `None`).
   */
  function Loaded(imported: Option<seq<Product>>): seq<Product>
  {
    if imported.None? then [] else imported.value
  }

  /** The module's `productData` cache, filled by the first `initializeData` call. */
  class CatalogCache {
    var productData: Option<seq<Product>>

    constructor ()
      ensures productData == None
    {
      productData := None;
    }

    /**
     * `initializeData()`: a filled cache is returned as it is (even the empty fallback is a
     * truthy object); otherwise the load runs and its outcome, fallback included, is cached.
     */
    method InitializeData(imported: Option<seq<Product>>) returns (data: seq<Product>)
      modifies this`productData
      ensures old(productData).Some? ==> data == old(productData).value && productData == old(productData)
      ensures old(productData).None? ==> data == Loaded(imported) && productData == Some(data)
    {
      if productData.Some? {
        return productData.value;
      }
      data := Loaded(imported);
      productData := Some(data);
    }
  }

  /** A first load that fails pins the catalog to the empty fallback for every later call. */
  method FailedLoadSticks(later: Option<seq<Product>>) returns (first: seq<Product>, second: seq<Product>)
    ensures first == [] && second == []
  {
    var cache := new CatalogCache();
    first := cache.InitializeData(None);
    second := cache.InitializeData(later);
  }

  // ----- filtering in catalog order -----

  /** `s.filter(p)`: the elements satisfying `p`, in their order in `s`. */
  function Filter<T(!new)>(s: seq<T>, p: T -> bool): (r: seq<T>)
    ensures |r| <= |s|
    ensures forall i :: 0 <= i < |r| ==> p(r[i]) && r[i] in s
    ensures forall i :: 0 <= i < |s| && p(s[i]) ==> s[i] in r
    ensures forall x :: multiset(r)[x] == if p(x) then multiset(s)[x] else 0
  {
    if s == [] then []
    else
      var rest := Filter(s[1..], p);
      assert s == [s[0]] + s[1..];
      if p(s[0]) then [s[0]] + rest else rest
  }

  /**
   * `r` picks out of `s`, in increasing positions `idx`, exactly the elements at the positions
   * where `p` holds.
   */
  ghost predicate IsSelection<T>(s: seq<T>, r: seq<T>, p: T -> bool, idx: seq<nat>)
  {
    && |idx| == |r|
    && (forall k :: 0 <= k < |idx| ==> idx[k] < |s| && r[k] == s[idx[k]])
    && (forall k, l :: 0 <= k < l < |idx| ==> idx[k] < idx[l])
    && (forall i :: 0 <= i < |s| ==> (p(s[i]) <==> i in idx))
  }

  /** `r` is the subsequence of `s` made of the elements satisfying `p`, in their order in `s`. */
  ghost predicate SelectsInOrder<T>(s: seq<T>, r: seq<T>, p: T -> bool)
  {
    exists idx :: IsSelection(s, r, p, idx)
  }

  /** Every position moved up by one. */
  function Shifted(idx: seq<nat>): (r: seq<nat>)
    ensures |r| == |idx| && forall k :: 0 <= k < |idx| ==> r[k] == idx[k] + 1
  {
    seq(|idx|, k requires 0 <= k < |idx| => idx[k] + 1)
  }

  /** A selection from the tail of `s` is one from `s` that skips its head. */
  lemma SelectionSkip<T(!new)>(s: seq<T>, r: seq<T>, p: T -> bool, idx: seq<nat>)
    requires s != [] && !p(s[0]) && IsSelection(s[1..], r, p, idx)
    ensures IsSelection(s, r, p, Shifted(idx))
  {
    var up := Shifted(idx);
    forall k | 0 <= k < |up|
      ensures up[k] < |s| && r[k] == s[up[k]]
    {
      assert s[1..][idx[k]] == s[idx[k] + 1];
    }
    forall i | 0 <= i < |s|
      ensures p(s[i]) <==> i in up
    {
      ShiftedMember(idx, i);
      if i > 0 {
        assert s[i] == s[1..][i - 1];
      }
    }
  }

  /** A selection from the tail of `s` plus the head is one from `s` that keeps its head. */
  lemma SelectionKeep<T(!new)>(s: seq<T>, r: seq<T>, p: T -> bool, idx: seq<nat>)
    requires s != [] && p(s[0]) && IsSelection(s[1..], r, p, idx)
    ensures IsSelection(s, [s[0]] + r, p, [0] + Shifted(idx))
  {
    var up := Shifted(idx);
    var all := [0] + up;
    var r' := [s[0]] + r;
    forall k | 0 <= k < |all|
      ensures all[k] < |s| && r'[k] == s[all[k]]
    {
      if k > 0 {
        assert all[k] == up[k - 1] && r'[k] == r[k - 1];
        assert s[1..][idx[k - 1]] == s[idx[k - 1] + 1];
      }
    }
    forall k, l | 0 <= k < l < |all|
      ensures all[k] < all[l]
    {
      assert all[l] == up[l - 1];
      if k > 0 {
        assert all[k] == up[k - 1];
      }
    }
    forall i | 0 <= i < |s|
      ensures p(s[i]) <==> i in all
    {
      ShiftedMember(idx, i);
      if i > 0 {
        assert s[i] == s[1..][i - 1];
        assert i in all <==> i in up;
      }
    }
  }

  /** Position `i` is among the shifted positions exactly when `i - 1` was among the originals. */
  lemma ShiftedMember(idx: seq<nat>, i: int)
    ensures i in Shifted(idx) <==> i >= 1 && i - 1 in idx
  {
    var up := Shifted(idx);
    if i in up {
      var k :| 0 <= k < |up| && up[k] == i;
      assert idx[k] == i - 1;
    }
    if i >= 1 && i - 1 in idx {
      var k :| 0 <= k < |idx| && idx[k] == i - 1;
      assert up[k] == i;
    }
  }

  lemma EmptySelection<T(!new)>(p: T -> bool)
    ensures SelectsInOrder([], [], p)
  {
    assert IsSelection([], [], p, []);
  }

  /** An in-order selection from the tail of `s` extends to one from `s`. */
  lemma SelectionStep<T(!new)>(s: seq<T>, rest: seq<T>, p: T -> bool)
    requires s != [] && SelectsInOrder(s[1..], rest, p)
    ensures SelectsInOrder(s, if p(s[0]) then [s[0]] + rest else rest, p)
  {
    var idx :| IsSelection(s[1..], rest, p, idx);
    if p(s[0]) {
      SelectionKeep(s, rest, p, idx);
    } else {
      SelectionSkip(s, rest, p, idx);
    }
  }

  /** The filter keeps exactly the satisfying elements, in order. */
  lemma {:induction false} FilterInOrder<T(!new)>(s: seq<T>, p: T -> bool)
    ensures SelectsInOrder(s, Filter(s, p), p)
  {
    if s == [] {
      EmptySelection(p);
    } else {
      FilterInOrder(s[1..], p);
      SelectionStep(s, Filter(s[1..], p), p);
    }
  }

  /** Filters with predicates that agree everywhere select the same elements. */
  lemma {:induction false} FilterAgree<T(!new)>(s: seq<T>, p: T -> bool, q: T -> bool)
    requires forall x :: p(x) == q(x)
    ensures Filter(s, p) == Filter(s, q)
  {
    if s != [] {
      FilterAgree(s[1..], p, q);
    }
  }

  // ----- the endpoints, on the catalog `initializeData` returned -----

  /** `mockApi.getProducts()`: always succeeds, with the whole catalog. */
  function GetProducts(catalog: seq<Product>): (r: Result<seq<Product>>)
    ensures r.Ok? && r.data == catalog
  {
    Ok(catalog)
  }

  /** `products.find(p => p.id === id)` as a position. */
  function FindById(ps: seq<Product>, id: string): (r: Option<nat>)
    ensures r.Some? ==> r.value < |ps| && ps[r.value].id == id
    ensures r.Some? ==> forall j :: 0 <= j < r.value ==> ps[j].id != id
    ensures r.None? ==> forall j :: 0 <= j < |ps| ==> ps[j].id != id
  {
    if ps == [] then None
    else if ps[0].id == id then Some(0)
    else
      match FindById(ps[1..], id)
      case None => None
      case Some(k) => Some(k + 1)
  }

  /** `mockApi.getProductById(id)`: the first product with that id. */
  function GetProductById(id: string, catalog: seq<Product>): (r: Result<Product>)
    ensures id == "" ==> r == Err("Product ID is required")
    ensures id != "" ==>
      if exists i :: 0 <= i < |catalog| && catalog[i].id == id
      then r.Ok? && (exists i :: 0 <= i < |catalog| && catalog[i] == r.data
                       && r.data.id == id && forall j :: 0 <= j < i ==> catalog[j].id != id)
      else r == Err("Product not found")
  {
    if id == "" then Err("Product ID is required")
    else
      match FindById(catalog, id)
      case None => Err("Product not found")
      case Some(i) => Ok(catalog[i])
  }

  predicate InCategory(p: Product, category: string)
  {
    p.category != "" && ToLower(p.category) == ToLower(category)
  }

  /** The filter callback of `getProductsByCategory`. */
  function CategoryTest(category: string): Product -> bool
  {
    p => InCategory(p, category)
  }

  /**
   * `mockApi.getProductsByCategory(category)`: the products of the category, each as often as
   * in the catalog and in catalog order.
   */
  function GetProductsByCategory(category: string, catalog: seq<Product>): (r: Result<seq<Product>>)
    ensures category == "" ==> r == Err("Category is required")
    ensures category != "" ==> r.Ok?
    ensures r.Ok? ==> forall i :: 0 <= i < |r.data| ==> InCategory(r.data[i], category) && r.data[i] in catalog
    ensures r.Ok? ==> forall i :: 0 <= i < |catalog| && InCategory(catalog[i], category) ==> catalog[i] in r.data
    ensures r.Ok? ==> forall x :: multiset(r.data)[x] == if InCategory(x, category) then multiset(catalog)[x] else 0
    ensures r.Ok? ==> SelectsInOrder(catalog, r.data, CategoryTest(category))
  {
    if category == "" then Err("Category is required")
    else
      FilterInOrder(catalog, CategoryTest(category));
      Ok(Filter(catalog, CategoryTest(category)))
  }

  /** The category match ignores case. */
  lemma CategoryIgnoresCase(category: string, catalog: seq<Product>)
    ensures category != "" ==>
      GetProductsByCategory(ToLower(category), catalog) == GetProductsByCategory(category, catalog)
  {
    ToLowerIdempotent(category);
    if category != "" {
      FilterAgree(catalog, CategoryTest(ToLower(category)), CategoryTest(category));
    }
  }

  /** What `searchProducts` receives: a string, or any other kind of value. */
  datatype Query = Text(s: string) | NotString

  /** A product matches a search term when one of its present fields, lowercased, contains it. */
  predicate Matches(p: Product, term: string)
  {
    || (p.name != "" && Contains(ToLower(p.name), term))
    || (p.brand != "" && Contains(ToLower(p.brand), term))
    || (p.category != "" && Contains(ToLower(p.category), term))
  }

  /** The filter callback of `searchProducts` for a non-blank term. */
  function SearchTest(term: string): Product -> bool
  {
    p => Matches(p, term)
  }

  /**
   * `mockApi.searchProducts(query)`: for a non-blank term, the matching products, each as often
   * as in the catalog and in catalog order.
   */
  function SearchProducts(query: Query, catalog: seq<Product>): (r: Result<seq<Product>>)
    ensures query.NotString? || query.s == "" ==> r == Err("Search query is required")
    ensures query.Text? && query.s != "" ==> r.Ok?
    ensures query.Text? && query.s != "" && Trim(ToLower(query.s)) == "" ==> r == Ok([])
    ensures query.Text? && query.s != "" && Trim(ToLower(query.s)) != "" ==>
      var term := Trim(ToLower(query.s));
      && (forall i :: 0 <= i < |r.data| ==> Matches(r.data[i], term) && r.data[i] in catalog)
      && (forall i :: 0 <= i < |catalog| && Matches(catalog[i], term) ==> catalog[i] in r.data)
      && (forall x :: multiset(r.data)[x] == if Matches(x, term) then multiset(catalog)[x] else 0)
      && SelectsInOrder(catalog, r.data, SearchTest(term))
  {
    if query.NotString? || query.s == "" then Err("Search query is required")
    else
      var term := Trim(ToLower(query.s));
      if term == [] then Ok([])
      else
        FilterInOrder(catalog, SearchTest(term));
        Ok(Filter(catalog, SearchTest(term)))
  }

  /**
   * On the fallback catalog of a failed load every lookup that gets past its argument check
   * succeeds empty, except a lookup by id, which finds nothing.
   */
  lemma FailedLoadAnswers(id: string, category: string, query: Query)
    ensures GetProducts(Loaded(None)) == Ok([])
    ensures id != "" ==> GetProductById(id, Loaded(None)) == Err("Product not found")
    ensures category != "" ==> GetProductsByCategory(category, Loaded(None)) == Ok([])
    ensures query.Text? && query.s != "" ==> SearchProducts(query, Loaded(None)) == Ok([])
  {
  }

  /** A query of white space only succeeds with no results. */
  lemma BlankQueryFindsNothing(s: string, products: seq<Product>)
    requires s != "" && forall i :: 0 <= i < |s| ==> IsJsSpace(s[i])
    ensures SearchProducts(Text(s), products) == Ok([])
  {
    var lowered := ToLower(s);
    assert forall i :: 0 <= i < |lowered| ==> IsJsSpace(lowered[i]) by {
      forall i | 0 <= i < |lowered|
        ensures IsJsSpace(lowered[i])
      {
        assert lowered[i] == LowerChar(s[i]);
      }
    }
  }

  /** Searching ignores the case of the query. */
  lemma SearchIgnoresCase(s: string, catalog: seq<Product>)
    ensures s != "" ==> SearchProducts(Text(ToLower(s)), catalog) == SearchProducts(Text(s), catalog)
  {
    ToLowerIdempotent(s);
  }

  // ----- the rate limiter -----

  const DefaultLimit: nat := 100
  const DefaultWindowMs: nat := 60000
  const CleanupChance: real := 0.1
  const RateLimitMessage := "Rate limit exceeded. Please try again later."

  /** The counter key of `endpoint` for the window holding `now`. */
  function WindowKey(endpoint: string, now: nat, windowMs: nat): string
    requires windowMs > 0
  {
    endpoint + "_" + NatToString(now / windowMs)
  }

  /** `key.split('_')[1]`: the text between the first and second '_'. */
  function SecondField(key: string): Option<string>
  {
    var first := IndexOf(key, '_');
    if first < 0 then None
    else
      var rest := key[first + 1..];
      var second := IndexOf(rest, '_');
      Some(if second < 0 then rest else rest[..second])
  }

  /**
   * The window a key was counted in; `None` where `parseInt` gives `NaN`. The source calls
   * `parseInt` without a radix, which would read a "0x" field as hexadecimal; this reads decimal
   * only, which agrees on every key `WindowKey` builds.
   */
  function KeyWindow(key: string): Option<int>
  {
    match SecondField(key)
    case None => None
    case Some(f) => ParseInt(f)
  }

  /** Cleanup deletes a key whose window is below the cutoff; a `NaN` window compares false. */
  predicate Stale(key: string, cutoff: int)
  {
    KeyWindow(key).Some? && KeyWindow(key).value < cutoff
  }

  function Pruned(m: map<string, nat>, cutoff: int): map<string, nat>
  {
    map k | k in m && !Stale(k, cutoff) :: m[k]
  }

  /** `requests.get(key) || 0`. */
  function Count(m: map<string, nat>, key: string): nat
  {
    if key in m then m[key] else 0
  }

  /**
   * The counters after one `isAllowed(endpoint, limit, windowMs)` call at `now` whose cleanup
   * draw is `draw`: unchanged when refused, otherwise the window's count goes up by one and,
   * on one draw in ten, the stale keys are pruned.
   */
  function AfterCall(m: map<string, nat>, endpoint: string, now: nat, limit: nat, windowMs: nat, draw: real): map<string, nat>
    requires windowMs > 0
  {
    var key := WindowKey(endpoint, now, windowMs);
    if Count(m, key) >= limit then m
    else
      var counted := m[key := Count(m, key) + 1];
      if draw < CleanupChance then Pruned(counted, (now - windowMs) / windowMs) else counted
  }

  /** The window key of an endpoint without '_' reads back as the current window. */
  lemma WindowKeyReadsBack(endpoint: string, now: nat, windowMs: nat)
    requires windowMs > 0 && '_' !in endpoint
    ensures KeyWindow(WindowKey(endpoint, now, windowMs)) == Some(now / windowMs)
  {
    var digits := NatToString(now / windowMs);
    var key := WindowKey(endpoint, now, windowMs);
    assert key == endpoint + ['_'] + digits;
    IndexOfAfter(endpoint, '_', digits);
    assert key[|endpoint| + 1..] == digits;
    assert '_' !in digits by {
      assert forall i :: 0 <= i < |digits| ==> IsDigit(digits[i]);
    }
    ParseNatToString(now / windowMs);
  }

  /** Cleanup at `now` never deletes the counter of the window holding `now`. */
  lemma CurrentWindowSurvives(endpoint: string, now: nat, windowMs: nat)
    requires windowMs > 0 && '_' !in endpoint
    ensures !Stale(WindowKey(endpoint, now, windowMs), (now - windowMs) / windowMs)
  {
    WindowKeyReadsBack(endpoint, now, windowMs);
    DivShift(now - windowMs, windowMs);
  }

  /** One more divisor's worth moves the quotient up by one. */
  lemma DivShift(a: int, w: int)
    requires w > 0
    ensures (a + w) / w == a / w + 1
  {
    var q, r := a / w, a % w;
    assert a == q * w + r && 0 <= r < w;
    assert a + w == (q + 1) * w + r;
    DivUnique(a + w, w, q + 1, r);
  }

  lemma DivUnique(n: int, w: int, q: int, r: int)
    requires w > 0 && 0 <= r < w && n == q * w + r
    ensures n / w == q
  {
    var q2, r2 := n / w, n % w;
    assert n == q2 * w + r2 && 0 <= r2 < w;
    assert (q - q2) * w == r2 - r;
    if q > q2 {
      MulAtLeast(q - q2, w);
    } else if q < q2 {
      MulAtLeast(q2 - q, w);
    }
  }

  lemma MulAtLeast(k: int, w: int)
    requires k >= 1 && w > 0
    ensures k * w >= w
  {
    assert k * w == (k - 1) * w + w;
    assert (k - 1) * w >= 0;
  }

  class RateLimiter {
    var requests: map<string, nat>

    constructor ()
      ensures requests == map[]
    {
      requests := map[];
    }

    /** `rateLimiter.cleanup(now, windowMs)`: deletes exactly the stale keys. */
    method Cleanup(now: int, windowMs: nat)
      requires windowMs > 0
      modifies this`requests
      ensures requests == Pruned(old(requests), (now - windowMs) / windowMs)
    {
      var cutoff := (now - windowMs) / windowMs;
      var pending := requests.Keys;
      while pending != {}
        invariant pending <= old(requests).Keys
        invariant forall k :: k in requests <==> k in old(requests) && (k in pending || !Stale(k, cutoff))
        invariant forall k :: k in requests ==> requests[k] == old(requests)[k]
        decreases |pending|
      {
        var key :| key in pending;
        if Stale(key, cutoff) {
          requests := requests - {key};
        }
        pending := pending - {key};
      }
      assert requests.Keys == Pruned(old(requests), cutoff).Keys;
    }

    /**
     * `rateLimiter.isAllowed(endpoint, limit, windowMs)` at `now`, with `cleanupDraw` the
     * `Math.random()` deciding on a cleanup: refused without counting once the window's count
     * has reached the limit, otherwise counted and allowed.
     */
    method IsAllowed(endpoint: string, now: nat, limit: nat, windowMs: nat, cleanupDraw: real) returns (allowed: bool)
      requires windowMs > 0 && 0.0 <= cleanupDraw < 1.0
      modifies this`requests
      ensures var key := WindowKey(endpoint, now, windowMs);
        && (allowed <==> Count(old(requests), key) < limit)
        && (!allowed ==> requests == old(requests))
        && (allowed ==>
              var counted := old(requests)[key := Count(old(requests), key) + 1];
              requests == if cleanupDraw < CleanupChance then Pruned(counted, (now - windowMs) / windowMs) else counted)
        && ('_' !in endpoint && allowed ==> Count(requests, key) == Count(old(requests), key) + 1)
      ensures requests == AfterCall(old(requests), endpoint, now, limit, windowMs, cleanupDraw)
    {
      var key := WindowKey(endpoint, now, windowMs);
      var current := Count(requests, key);
      if current >= limit {
        return false;
      }
      requests := requests[key := current + 1];
      if cleanupDraw < CleanupChance {
        Cleanup(now, windowMs);
        if '_' !in endpoint {
          CurrentWindowSurvives(endpoint, now, windowMs);
        }
      }
      allowed := true;
    }
  }

  /**
   * Within one window, of any number of calls to a fresh limiter for one endpoint, at most
   * `limit` are allowed.
   */
  method CallsWithinWindow(endpoint: string, now: nat, limit: nat, windowMs: nat, draws: seq<real>) returns (allowedCalls: nat)
    requires windowMs > 0 && '_' !in endpoint
    requires forall k :: 0 <= k < |draws| ==> 0.0 <= draws[k] < 1.0
    ensures allowedCalls <= limit
    ensures |draws| <= limit ==> allowedCalls == |draws|
  {
    var limiter := new RateLimiter();
    var key := WindowKey(endpoint, now, windowMs);
    allowedCalls := 0;
    var k := 0;
    while k < |draws|
      invariant 0 <= k <= |draws|
      invariant allowedCalls <= limit && allowedCalls <= k
      invariant Count(limiter.requests, key) == allowedCalls
      invariant k <= limit ==> allowedCalls == k
    {
      var allowed := limiter.IsAllowed(endpoint, now, limit, windowMs, draws[k]);
      if allowed {
        allowedCalls := allowedCalls + 1;
      }
      k := k + 1;
    }
  }

  // ----- the rate-limited front -----

  /** `protectedApi.getProducts()`: refused calls never reach the catalog. */
  method ProtectedGetProducts(limiter: RateLimiter, catalog: seq<Product>, now: nat, cleanupDraw: real) returns (r: Result<seq<Product>>)
    requires 0.0 <= cleanupDraw < 1.0
    modifies limiter`requests
    ensures Count(old(limiter.requests), WindowKey("getProducts", now, DefaultWindowMs)) >= DefaultLimit ==> r == Err(RateLimitMessage)
    ensures Count(old(limiter.requests), WindowKey("getProducts", now, DefaultWindowMs)) < DefaultLimit ==> r == GetProducts(catalog)
    ensures limiter.requests == AfterCall(old(limiter.requests), "getProducts", now, DefaultLimit, DefaultWindowMs, cleanupDraw)
  {
    var allowed := limiter.IsAllowed("getProducts", now, DefaultLimit, DefaultWindowMs, cleanupDraw);
    if !allowed {
      return Err(RateLimitMessage);
    }
    r := GetProducts(catalog);
  }

  /** `protectedApi.getProductById(id)`. */
  method ProtectedGetProductById(limiter: RateLimiter, id: string, catalog: seq<Product>, now: nat, cleanupDraw: real) returns (r: Result<Product>)
    requires 0.0 <= cleanupDraw < 1.0
    modifies limiter`requests
    ensures Count(old(limiter.requests), WindowKey("getProductById", now, DefaultWindowMs)) >= DefaultLimit ==> r == Err(RateLimitMessage)
    ensures Count(old(limiter.requests), WindowKey("getProductById", now, DefaultWindowMs)) < DefaultLimit ==> r == GetProductById(id, catalog)
    ensures limiter.requests == AfterCall(old(limiter.requests), "getProductById", now, DefaultLimit, DefaultWindowMs, cleanupDraw)
  {
    var allowed := limiter.IsAllowed("getProductById", now, DefaultLimit, DefaultWindowMs, cleanupDraw);
    if !allowed {
      return Err(RateLimitMessage);
    }
    r := GetProductById(id, catalog);
  }

  /** `protectedApi.getProductsByCategory(category)`. */
  method ProtectedGetProductsByCategory(limiter: RateLimiter, category: string, catalog: seq<Product>, now: nat, cleanupDraw: real) returns (r: Result<seq<Product>>)
    requires 0.0 <= cleanupDraw < 1.0
    modifies limiter`requests
    ensures Count(old(limiter.requests), WindowKey("getProductsByCategory", now, DefaultWindowMs)) >= DefaultLimit ==> r == Err(RateLimitMessage)
    ensures Count(old(limiter.requests), WindowKey("getProductsByCategory", now, DefaultWindowMs)) < DefaultLimit ==> r == GetProductsByCategory(category, catalog)
    ensures limiter.requests == AfterCall(old(limiter.requests), "getProductsByCategory", now, DefaultLimit, DefaultWindowMs, cleanupDraw)
  {
    var allowed := limiter.IsAllowed("getProductsByCategory", now, DefaultLimit, DefaultWindowMs, cleanupDraw);
    if !allowed {
      return Err(RateLimitMessage);
    }
    r := GetProductsByCategory(category, catalog);
  }

  /** `protectedApi.searchProducts(query)`. */
  method ProtectedSearchProducts(limiter: RateLimiter, query: Query, catalog: seq<Product>, now: nat, cleanupDraw: real) returns (r: Result<seq<Product>>)
    requires 0.0 <= cleanupDraw < 1.0
    modifies limiter`requests
    ensures Count(old(limiter.requests), WindowKey("searchProducts", now, DefaultWindowMs)) >= DefaultLimit ==> r == Err(RateLimitMessage)
    ensures Count(old(limiter.requests), WindowKey("searchProducts", now, DefaultWindowMs)) < DefaultLimit ==> r == SearchProducts(query, catalog)
    ensures limiter.requests == AfterCall(old(limiter.requests), "searchProducts", now, DefaultLimit, DefaultWindowMs, cleanupDraw)
  {
    var allowed := limiter.IsAllowed("searchProducts", now, DefaultLimit, DefaultWindowMs, cleanupDraw);
    if !allowed {
      return Err(RateLimitMessage);
    }
    r := SearchProducts(query, catalog);
  }
}
